/** The decoder object kept in a Client, which works on its buffer in place. */
module ChunkDecoder {
  import opened Bytes
  import opened Numbers
  import opened DecoderSpec

  class CgiChunkDecoder {
    var state: DecState
    var remaining: nat
    var buf: string

    ghost function Value(): Decoder
      reads this
    {
      Decoder(state, remaining, buf)
    }

    constructor ()
      ensures Value() == Decoder(DecSize, 0, "")
    {
      state, remaining, buf := DecSize, 0, "";
    }

    /** init_cgi_chunk_decoder: the request parser's chunk state, by its number. */
    method Init(code: int, left: nat)
      modifies this
      ensures buf == "" && remaining == left
      ensures state == (if code == 1 then DecData else if code == 2 then DecDataCrlf
                        else if code == 3 then DecTrailers else DecSize)
    {
      match code {
        case 1 => state := DecData;
        case 2 => state := DecDataCrlf;
        case 3 => state := DecTrailers;
        case _ => state := DecSize;
      }
      remaining := left;
      buf := "";
    }

    /** The size loop, which gives up at the first character that is not a hex digit. */
    method ParseSize(line: string) returns (ok: bool, size: nat)
      ensures ok <==> IsHex(line)
      ensures ok ==> size == HexValue(line) % MOD64
    {
      size := 0;
      for i := 0 to |line|
        invariant IsHex(line[..i]) && size == HexValue(line[..i]) % MOD64
      {
        size := size * 16 % MOD64;
        if HexDigit(line[i]) < 0 {
          return false, size;
        }
        HexPrefixStep(line, i);
        size := (size + HexDigit(line[i])) % MOD64;
      }
      assert line[..|line|] == line;
      ok := true;
    }

    lemma HexPrefixStep(line: string, i: nat)
      requires i < |line| && IsHex(line[..i]) && HexDigit(line[i]) >= 0
      ensures IsHex(line[..i + 1])
      ensures HexValue(line[..i + 1]) % MOD64 == (HexValue(line[..i]) % MOD64 * 16 % MOD64 + HexDigit(line[i])) % MOD64
    {
      assert line[..i + 1][..i] == line[..i];
      HexStep(line[..i + 1], i);
      assert line[..i + 1][..i + 1] == line[..i + 1];
    }

    /** decode_chunked_for_cgi: append the bytes read, then take in all that can be taken. */
    method Decode(data: string) returns (decoded: string, eof: bool, ok: bool)
      modifies this
      ensures Outcome(Value(), decoded, eof, ok) == DecoderSpec.Decode(old(Value()), data)
    {
      hide Drain, DecStep;
      buf := buf + data;
      ghost var start := Value();
      decoded, eof, ok := "", false, true;
      assert "" + Drain(start).out == Drain(start).out;
      while buf != ""
        invariant Drain(start) == Prefixed(decoded, Drain(Value()))
        invariant !eof && ok
        decreases |buf|, DecRank(Value())
      {
        ghost var was, soFar := Value(), decoded;
        DrainUnfold(was);
        var piece, more;
        piece, eof, ok, more := Turn();
        decoded := decoded + piece;
        if !more {
          return;
        }
        StepShrinksBuf(was);
        Assoc(soFar, piece, Drain(Value()).out);
      }
      DrainUnfold(Value());
      assert decoded + "" == decoded;
    }

    /** One turn of the decoding loop; without `more` the call returns with what the turn reports. */
    method Turn() returns (piece: string, eof: bool, ok: bool, more: bool)
      requires buf != ""
      modifies this
      ensures DecStep(old(Value())) == (if more then Continue(Value(), piece)
                                        else Stop(Outcome(Value(), piece, eof, ok)))
      ensures more ==> !eof && ok
    {
      piece, eof, ok, more := "", false, true, false;
      match state {
        case DecSize =>
          var cut := CutLine(buf);
          if cut.NoLine? {
            return;
          }
          buf := cut.rest;
          var line := cut.line;
          var semi := FindChar(line, ';', 0);
          if semi >= 0 {
            line := line[..semi];
          }
          var good, size := ParseSize(line);
          if !good {
            ok := false;
            return;
          }
          remaining := size;
          state := if size == 0 then DecTrailers else DecData;
        case DecData =>
          var avail := if |buf| < remaining then |buf| else remaining;
          piece := buf[..avail];
          buf := buf[avail..];
          remaining := remaining - avail;
          if remaining != 0 {
            return;
          }
          state := DecDataCrlf;
        case DecDataCrlf =>
          if |buf| < 2 {
            return;
          }
          if buf[..2] != CRLF {
            ok := false;
            return;
          }
          buf := buf[2..];
          state := DecSize;
        case DecTrailers =>
          var cut := CutLine(buf);
          if cut.NoLine? {
            return;
          }
          buf := cut.rest;
          if cut.line == "" {
            state := DecDone;
            eof := true;
            return;
          }
        case DecDone =>
          eof := true;
          return;
      }
      more := true;
    }
  }
}
