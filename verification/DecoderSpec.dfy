/** The second chunked decoder, which feeds a running CGI, as a machine on values. */
module DecoderSpec {
  import opened Bytes
  import opened Numbers
  import opened RequestSpec

  datatype DecState = DecSize | DecData | DecDataCrlf | DecTrailers | DecDone

  datatype Decoder = Decoder(state: DecState, remaining: nat, buf: string) {
    function Feed(data: string): Decoder {
      this.(buf := buf + data)
    }
  }

  /** What one call reports: the decoder after it, the bytes it emitted, and its two flags. */
  datatype Outcome = Outcome(dec: Decoder, out: string, eof: bool, ok: bool)

  function Waiting(d: Decoder, out: string): Outcome {
    Outcome(d, out, false, true)
  }

  function Failed(d: Decoder): Outcome {
    Outcome(d, "", false, false)
  }

  function Prefixed(out: string, o: Outcome): Outcome {
    o.(out := out + o.out)
  }

  datatype DecMove = Stop(outcome: Outcome) | Continue(next: Decoder, out: string)

  function DecSizeLine(d: Decoder, line: string): DecMove {
    var field := SizeField(line);
    if !IsHex(field) then Stop(Failed(d))
    else
      var size := HexValue(field) % MOD64;
      Continue(d.(remaining := size, state := if size == 0 then DecTrailers else DecData), "")
  }

  function DecDataStep(d: Decoder): DecMove {
    var avail := if |d.buf| < d.remaining then |d.buf| else d.remaining;
    var n := d.(buf := d.buf[avail..], remaining := d.remaining - avail);
    if n.remaining == 0 then Continue(n.(state := DecDataCrlf), d.buf[..avail])
    else Stop(Waiting(n, d.buf[..avail]))
  }

  function DecStep(d: Decoder): DecMove {
    match d.state
    case DecSize =>
      (match CutLine(d.buf)
       case NoLine => Stop(Waiting(d, ""))
       case Line(line, rest) => DecSizeLine(d.(buf := rest), line))
    case DecData => DecDataStep(d)
    case DecDataCrlf =>
      if |d.buf| < 2 then Stop(Waiting(d, ""))
      else if d.buf[..2] != CRLF then Stop(Failed(d))
      else Continue(d.(buf := d.buf[2..], state := DecSize), "")
    case DecTrailers =>
      (match CutLine(d.buf)
       case NoLine => Stop(Waiting(d, ""))
       case Line(line, rest) =>
         if line == "" then Stop(Outcome(d.(buf := rest, state := DecDone), "", true, true))
         else Continue(d.(buf := rest), ""))
    case DecDone => Stop(Outcome(d, "", true, true))
  }

  function DecRank(d: Decoder): nat {
    if d.state.DecData? then 1 else 0
  }

  /** The decoding loop: it runs for as long as the buffer holds anything. */
  function Drain(d: Decoder): Outcome
    decreases |d.buf|, DecRank(d)
  {
    if d.buf == "" then Waiting(d, "")
    else
      match DecStep(d)
      case Stop(o) => o
      case Continue(n, out) => Prefixed(out, Drain(n))
  }

  lemma DrainUnfold(d: Decoder)
    ensures Drain(d) == if d.buf == "" then Waiting(d, "")
                        else match DecStep(d)
                             case Stop(o) => o
                             case Continue(n, out) => Prefixed(out, Drain(n))
  {
  }

  /** decode_chunked_for_cgi. */
  function Decode(d: Decoder, data: string): Outcome {
    Drain(d.Feed(data))
  }

  /**
   * Decode pieces until one fails. The output is all the decoder emits, in the failing call too;
   * `eof` is that of the last call made.
   */
  function DecodeAll(d: Decoder, pieces: seq<string>): Outcome
    decreases |pieces|
  {
    if pieces == [] then Waiting(d, "")
    else
      var o := Decode(d, pieces[0]);
      if !o.ok || |pieces| == 1 then o else Prefixed(o.out, DecodeAll(o.dec, pieces[1..]))
  }

  // ---------------------------------------------------- split invariance

  predicate SameButEof(o: Outcome, p: Outcome) {
    o.dec == p.dec && o.out == p.out && o.ok == p.ok
  }

  /**
   * If the first call succeeds, two calls give what one call on both pieces gives: the same
   * decoder, output and result, and the same `eof` when the second piece is not empty.
   */
  lemma DecodeSplit(d: Decoder, a: string, b: string)
    requires Decode(d, a).ok
    ensures var o := Decode(d, a);
            var p := Prefixed(o.out, Decode(o.dec, b));
            SameButEof(Decode(d, a + b), p) && (b != "" ==> Decode(d, a + b).eof == p.eof)
  {
    Assoc(d.buf, a, b);
    assert d.Feed(a).Feed(b) == d.Feed(a + b);
    DrainSplit(d.Feed(a), b);
  }

  lemma {:induction false} DrainSplit(d: Decoder, b: string)
    requires Drain(d).ok
    ensures var o := Drain(d);
            var p := Prefixed(o.out, Decode(o.dec, b));
            SameButEof(Drain(d.Feed(b)), p) && (b != "" ==> Drain(d.Feed(b)).eof == p.eof)
    decreases |d.buf|, DecRank(d)
  {
    hide Drain, DecStep;
    DrainUnfold(d);
    var o := Drain(d);
    if b == "" {
      assert d.Feed("") == d && o.dec.Feed("") == o.dec;
      DrainIdles(d);
      IdleDrains(o.dec);
      assert o.out + "" == o.out;
    } else if d.buf == "" {
      assert "" + Drain(d.Feed(b)).out == Drain(d.Feed(b)).out;
    } else {
      match DecStep(d)
      case Continue(n, out) =>
        StepShrinksBuf(d);
        DrainSplit(n, b);
        ContinueFeeds(d, b);
        DrainUnfold(d.Feed(b));
        Assoc(out, Drain(n).out, Decode(o.dec, b).out);
      case Stop(s) =>
        StopFeeds(d, b);
    }
  }

  lemma StepShrinksBuf(d: Decoder)
    requires d.buf != "" && DecStep(d).Continue?
    ensures var n := DecStep(d).next;
            |n.buf| < |d.buf| || (|n.buf| == |d.buf| && DecRank(n) < DecRank(d))
  {
  }

  /** A decoder that has taken in all it can of its buffer. */
  predicate Idle(d: Decoder) {
    match d.state
    case DecSize => !Contains(d.buf, CRLF)
    case DecTrailers => !Contains(d.buf, CRLF)
    case DecData => d.buf == ""
    case DecDataCrlf => |d.buf| < 2
    case DecDone => true
  }

  /** Every successful call leaves the decoder idle. */
  lemma {:induction false} DrainIdles(d: Decoder)
    requires Drain(d).ok
    ensures Idle(Drain(d).dec)
    decreases |d.buf|, DecRank(d)
  {
    hide Drain, DecStep, Idle;
    DrainUnfold(d);
    if d.buf == "" {
      EmptyIdles(d);
    } else {
      match DecStep(d)
      case Continue(n, out) =>
        StepShrinksBuf(d);
        DrainIdles(n);
      case Stop(o) => StopIdles(d);
    }
  }

  lemma EmptyIdles(d: Decoder)
    requires d.buf == ""
    ensures Idle(d)
  {
    FindAbsent("", CRLF);
  }

  lemma StopIdles(d: Decoder)
    requires DecStep(d).Stop? && DecStep(d).outcome.ok
    ensures Idle(DecStep(d).outcome.dec)
  {
  }

  lemma IdleDrains(d: Decoder)
    requires Idle(d)
    ensures SameButEof(Drain(d), Waiting(d, ""))
  {
  }

  lemma ContinueFeeds(d: Decoder, b: string)
    requires d.buf != "" && DecStep(d).Continue?
    ensures DecStep(d.Feed(b)) == Continue(DecStep(d).next.Feed(b), DecStep(d).out)
  {
    match d.state
    case DecSize => CutLineExtends(d.buf, b);
    case DecTrailers => CutLineExtends(d.buf, b);
    case DecData => CutFirst(d.buf, b, d.remaining);
    case DecDataCrlf => CutFirst(d.buf, b, 2);
  }

  lemma StopFeeds(d: Decoder, b: string)
    requires d.buf != "" && b != "" && DecStep(d).Stop? && DecStep(d).outcome.ok
    ensures var o := DecStep(d).outcome;
            Drain(d.Feed(b)) == Prefixed(o.out, Decode(o.dec, b))
  {
    hide Drain;
    var o := DecStep(d).outcome;
    assert "" + Decode(o.dec, b).out == Decode(o.dec, b).out;
    if d.state.DecTrailers? && o.eof {
      CutLineExtends(d.buf, b);
      DrainUnfold(d.Feed(b));
      DrainUnfold(o.dec.Feed(b));
    } else if d.state.DecData? {
      PartialDataFeeds(d, b);
    } else if d.state.DecDone? {
      DrainUnfold(d.Feed(b));
    }
  }

  lemma PartialDataFeeds(d: Decoder, b: string)
    requires d.state.DecData? && 0 < |d.buf| < d.remaining && b != ""
    ensures var n := Decoder(DecData, d.remaining - |d.buf|, "");
            Drain(d.Feed(b)) == Prefixed(d.buf, Decode(n, b))
  {
    var n := Decoder(DecData, d.remaining - |d.buf|, "");
    var k := if |b| < n.remaining then |b| else n.remaining;
    CutSecond(d.buf, b, k);
    assert n.Feed(b).buf == b;
    if k == n.remaining {
      var m := Decoder(DecDataCrlf, 0, b[k..]);
      assert DecStep(d.Feed(b)) == Continue(m, d.buf + b[..k]);
      assert DecStep(n.Feed(b)) == Continue(m, b[..k]);
      Assoc(d.buf, b[..k], Drain(m).out);
    }
  }

  // ------------------------------------------------------ after a failure

  /** A failure at a size line has used up that line. */
  lemma SizeFailureConsumes(d: Decoder)
    requires d.state.DecSize? && !Drain(d).ok
    ensures |Drain(d).dec.buf| < |d.buf|
  {
    match DecStep(d)
    case Continue(n, out) => DrainVolume(n);
    case Stop(o) =>
  }

  lemma {:induction false} FailureSplit(d: Decoder, b: string)
    requires !Drain(d).ok
    ensures var o := Drain(d);
            SameButEof(Drain(d.Feed(b)), Prefixed(o.out, Decode(o.dec, b))) <==> o.dec.state.DecDataCrlf?
    decreases |d.buf|, DecRank(d)
  {
    hide Drain, DecStep;
    DrainUnfold(d);
    var o := Drain(d);
    match DecStep(d)
    case Continue(n, out) =>
      StepShrinksBuf(d);
      FailureSplit(n, b);
      ContinueFeeds(d, b);
      DrainUnfold(d.Feed(b));
      Assoc(out, Drain(n).out, Decode(o.dec, b).out);
      CancelLeft(out, Drain(n.Feed(b)).out, Drain(n).out + Decode(o.dec, b).out);
    case Stop(s) =>
      StopFailureSplits(d, b);
  }

  lemma CancelLeft(p: string, a: string, b: string)
    ensures p + a == p + b <==> a == b
  {
    assert (p + a)[|p|..] == a && (p + b)[|p|..] == b;
  }

  lemma StopFailureSplits(d: Decoder, b: string)
    requires d.buf != "" && DecStep(d).Stop? && !DecStep(d).outcome.ok
    ensures var o := DecStep(d).outcome;
            SameButEof(Drain(d.Feed(b)), Prefixed(o.out, Decode(o.dec, b))) <==> o.dec.state.DecDataCrlf?
  {
    hide Drain;
    var o := DecStep(d).outcome;
    assert "" + Decode(o.dec, b).out == Decode(o.dec, b).out;
    DrainUnfold(d.Feed(b));
    if d.state.DecSize? {
      CutLineExtends(d.buf, b);
      if !Decode(o.dec, b).ok {
        SizeFailureConsumes(o.dec.Feed(b));
      }
    }
  }

  /**
   * Two calls give what one call on both pieces gives if and only if the first succeeds or fails
   * where CRLF was due after chunk data: there the bad bytes stay in the buffer and fail again.
   * After a bad size line the decoder is past it, and the second call starts afresh.
   */
  lemma SplitExactly(d: Decoder, a: string, b: string)
    ensures var o := Decode(d, a);
            SameButEof(Decode(d, a + b), Prefixed(o.out, Decode(o.dec, b))) <==> o.ok || o.dec.state.DecDataCrlf?
  {
    hide Drain;
    if Decode(d, a).ok {
      DecodeSplit(d, a, b);
    } else {
      Assoc(d.buf, a, b);
      assert d.Feed(a).Feed(b) == d.Feed(a + b);
      FailureSplit(d.Feed(a), b);
    }
  }

  /** A failure is forgotten: the call after a bad size line can succeed, and emit. */
  lemma FailureForgotten()
    ensures var d := Decoder(DecSize, 0, "");
            var o := Decode(d, "zz\r\n");
            && !o.ok && Decode(o.dec, "1\r\na").ok && Decode(o.dec, "1\r\na").out == "a"
            && !Decode(d, "zz\r\n1\r\na").ok && Decode(d, "zz\r\n1\r\na").out == ""
  {
    hide Drain;
    var d := Decoder(DecSize, 0, "");
    BadSizeFails("");
    BadSizeFails("1\r\na");
    assert d.Feed("zz\r\n").buf == "zz" + CRLF + "";
    assert d.Feed("zz\r\n1\r\na").buf == "zz" + CRLF + "1\r\na";
    OneByteDecodes(d);
  }

  /** A size line that is not a numeral is dropped, and the call fails there. */
  lemma BadSizeFails(rest: string)
    ensures Drain(Decoder(DecSize, 0, "zz" + CRLF + rest)) == Failed(Decoder(DecSize, 0, rest))
  {
    FindAbsent("zz", CRLF);
    CutLineOf("zz", rest);
    assert HexDigit("zz"[0]) < 0;
    assert FindChar("zz", ';', 0) == -1;
  }

  lemma OneByteDecodes(d: Decoder)
    requires d == Decoder(DecSize, 0, "")
    ensures Drain(d.Feed("1\r\na")) == Waiting(Decoder(DecDataCrlf, 0, ""), "a")
  {
    hide Drain;
    var f := d.Feed("1\r\na");
    FindAbsent("1", CRLF);
    CutLineOf("1", "a");
    assert f.buf == "1" + CRLF + "a";
    assert FindChar("1", ';', 0) == -1;
    assert HexValue("1") == 16 * HexValue("1"[..0]) + 1;
    var e := Decoder(DecData, 1, "a");
    assert DecStep(f) == Continue(e, "");
    assert "a"[..1] == "a" && "a"[1..] == "";
    DrainUnfold(f);
    DrainUnfold(e);
    DrainUnfold(Decoder(DecDataCrlf, 0, ""));
  }

  // ------------------------------------------------------ end and volume

  /** On input, a successful call reports the end exactly when the decoder is done. */
  lemma {:induction false} EofMeansDone(d: Decoder)
    requires d.buf != "" && Drain(d).ok
    ensures Drain(d).eof <==> Drain(d).dec.state.DecDone?
    decreases |d.buf|, DecRank(d)
  {
    match DecStep(d)
    case Continue(n, out) =>
      if n.buf != "" {
        EofMeansDone(n);
      }
    case Stop(o) =>
  }

  /** Emitted and kept bytes are together no more than were there. */
  lemma {:induction false} DrainVolume(d: Decoder)
    ensures |Drain(d).out| + |Drain(d).dec.buf| <= |d.buf|
    decreases |d.buf|, DecRank(d)
  {
    if d.buf != "" {
      match DecStep(d)
      case Continue(n, out) => DrainVolume(n);
      case Stop(o) =>
    }
  }

  /** The first step on new bytes uses up all that an idle decoder had kept. */
  lemma OldBytesGone(d: Decoder, data: string)
    requires Idle(d) && d.Feed(data).buf != "" && !d.state.DecDone?
    ensures var m := DecStep(d.Feed(data));
            && (m.Continue? ==> |m.out| + |m.next.buf| <= |data|)
            && (m.Stop? && !m.outcome.ok && d.state.DecSize? ==> |m.outcome.dec.buf| <= |data|)
  {
    var f := d.Feed(data);
    if d.state.DecData? {
      assert f.buf == data;
    } else if !d.state.DecDataCrlf? && CutLine(f.buf).Line? {
      var cut := CutLine(f.buf);
      if |cut.line| + 2 <= |d.buf| {
        assert f.buf[|cut.line|..|cut.line| + 2] == CRLF;
        AtExtends(d.buf, data, CRLF, |cut.line|);
      }
    }
  }

  /** A call emits no more bytes than it is given: old bytes still buffered are never data. */
  lemma EmissionBound(d: Decoder, data: string)
    requires Idle(d)
    ensures |Decode(d, data).out| <= |data|
  {
    hide Idle;
    var f := d.Feed(data);
    if f.buf != "" && !d.state.DecDone? {
      OldBytesGone(d, data);
      match DecStep(f)
      case Continue(n, out) => DrainVolume(n);
      case Stop(o) => StopEmits(d, data);
    }
  }

  lemma StopEmits(d: Decoder, data: string)
    requires Idle(d) && DecStep(d.Feed(data)).Stop?
    ensures |DecStep(d.Feed(data)).outcome.out| <= |data|
  {
    if d.state.DecData? {
      assert d.Feed(data).buf == data;
    }
  }

  /** Bytes other than the CRLF due after chunk data are at the front: every call fails from now on. */
  predicate CrlfMissing(d: Decoder) {
    d.state.DecDataCrlf? && |d.buf| >= 2 && d.buf[..2] != CRLF
  }

  lemma MissingStays(d: Decoder, data: string)
    requires CrlfMissing(d)
    ensures Decode(d, data) == Failed(d.Feed(data)) && CrlfMissing(d.Feed(data))
  {
    CutFirst(d.buf, data, 2);
  }

  /** A call fails at a size line or stuck. */
  lemma {:induction false} FailsSomewhere(d: Decoder)
    requires !Drain(d).ok
    ensures Drain(d).dec.state.DecSize? || CrlfMissing(Drain(d).dec)
    decreases |d.buf|, DecRank(d)
  {
    match DecStep(d)
    case Continue(n, out) => FailsSomewhere(n);
    case Stop(o) =>
  }

  /** What a first failure leaves behind: stuck, or no more than the bytes just read. */
  lemma FailureLeaves(d: Decoder, data: string)
    requires Idle(d) && !Decode(d, data).ok
    ensures var e := Decode(d, data).dec; if e.state.DecDataCrlf? then CrlfMissing(e) else |e.buf| <= |data|
  {
    hide Idle, CrlfMissing;
    var f := d.Feed(data);
    FailsSomewhere(f);
    OldBytesGone(d, data);
    match DecStep(f)
    case Continue(n, out) => DrainVolume(n);
    case Stop(o) =>
  }
}
