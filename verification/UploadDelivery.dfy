/** Every schedule of client reads and pipe writes delivers a finite body and closes the CGI's stdin. */
module UploadDelivery {
  import opened Bytes
  import opened Numbers
  import opened RequestSpec
  import opened RequestLaws
  import opened HeadLaws
  import opened DecoderSpec
  import opened Handoff
  import opened OutputSpec
  import opened OutputLaws
  import opened InputSpec
  import opened InputLaws
  import opened ChunkedUpload

  /** An exchange and what its client has yet to send. */
  datatype Upload = Upload(relay: In, todo: string)

  /** The reads a script reports are what the client has to send. */
  predicate Sends(script: seq<ClientResult>, todo: string) {
    script == [] ||
    match script[0]
    case NoData => true
    case ClientEnd => false
    case FromClient(bytes, room) => bytes <= todo && Sends(script[1..], todo[|bytes|..])
  }

  /**
   * A poll event that gets something done: a read or, with too much pending, the end of polling for
   * reads; a write that writes or, with nothing pending, the end of polling for writes.
   */
  predicate Productive(w: Upload, c: InCall) {
    var s := w.relay;
    CanHappen(s, c) &&
    match c
    case ClientReadable(input) =>
      Sends(input, w.todo) && (|s.pending| > CGI_BACKPRESSURE_LIMIT || (input != [] && input[0].FromClient?))
    case StdinWritable(room) => s.pending == "" || (room != [] && room[0].Wrote? && room[0].n > 0)
    case StdinBroken => false
  }

  function Next(w: Upload, c: InCall): Upload
    requires Productive(w, c)
  {
    var n := HandleIn(w.relay, c);
    var k := |n.log.received| - |w.relay.log.received|;
    Upload(n, if 0 <= k <= |w.todo| then w.todo[k..] else w.todo)
  }

  /**
   * What the client sends brings the end of the body: it completes the body, and both decoders read
   * it alike; or the body was complete at dispatch, and then, in chunked mode, a blank line follows.
   */
  predicate Finishes(r: Request, whole: string) {
    if r.state.Body? then
      && Parse(Unlimited(r), whole).state.Complete?
      && (r.chunked ==> SizesAgree(Unlimited(r).Feed(whole)))
    else r.chunked ==> BlankLine(r.buffer + whole).Open?
  }

  /** An upload of `whole` after `r` was handed over, at any point of its run. */
  predicate Uploading(w: Upload, r: Request, whole: string) {
    var s := w.relay;
    && HandedOver(r) && Finishes(r, whole)
    && InInv(s) && FailureFlagged(s) && Tracks(s, r)
    && s.chunked == r.chunked && s.contentLength == Announced(r)
    && s.log.received + w.todo == whole && !s.log.ended && !s.log.broken
  }

  // ---------------------------------------------------------- one event

  predicate TakesFirst(s: In, script: seq<ClientResult>, total: nat) {
    && s.open && total < FAIR_IO_LIMIT && |s.pending| <= CGI_BACKPRESSURE_LIMIT
    && script != [] && script[0].FromClient?
  }

  /** A read loop takes a beginning of what the client sends, and at least its first piece. */
  lemma {:induction false} LoopTakes(s: In, script: seq<ClientResult>, total: nat, todo: string)
    requires Sends(script, todo) && ValidInput(script)
    ensures var n := ClientLoop(s, script, total);
            && s.log.received <= n.log.received <= s.log.received + todo
            && n.chunked == s.chunked && n.contentLength == s.contentLength
            && n.log.ended == s.log.ended && n.log.broken == s.log.broken
            && (TakesFirst(s, script, total) ==> |n.log.received| > |s.log.received|)
    decreases |script|
  {
    hide Accept, Ends;
    if total < FAIR_IO_LIMIT && |s.pending| <= CGI_BACKPRESSURE_LIMIT && script != [] && script[0].FromClient? && s.open {
      var bytes := script[0].bytes;
      AcceptBasics(s, bytes, script[0].room);
      LoopTakes(Accept(s, bytes, script[0].room), script[1..], total + |bytes|, todo[|bytes|..]);
      assert todo == bytes + todo[|bytes|..];
      Assoc(s.log.received, bytes, todo[|bytes|..]);
    }
  }

  lemma NextKeeps(w: Upload, c: InCall, r: Request, whole: string)
    requires Uploading(w, r, whole) && w.relay.open && Productive(w, c)
    ensures Uploading(Next(w, c), r, whole)
  {
    hide InInv, FailureFlagged, Tracks, HandedOver, Finishes, HandleIn;
    InCallKeeps(w.relay, c);
    AccountedPart(w.relay);
    match c
    case ClientReadable(input) => ReadKeeps(w.relay, input, w.todo, r);
    case StdinWritable(room) => FlushTracks(w.relay, room, r);
  }

  lemma ReadKeeps(s: In, input: seq<ClientResult>, todo: string, r: Request)
    requires Tracks(s, r) && Sends(input, todo) && ValidInput(input)
    ensures var n := HandleIn(s, ClientReadable(input));
            var k := |n.log.received| - |s.log.received|;
            && Tracks(n, r) && n.chunked == s.chunked && n.contentLength == s.contentLength
            && n.log.ended == s.log.ended && n.log.broken == s.log.broken
            && 0 <= k <= |todo| && n.log.received + todo[k..] == s.log.received + todo
  {
    hide Tracks, ClientLoop;
    LoopTakes(s, input, 0, todo);
    ClientLoopTracks(s, input, 0, r);
    var n := ClientLoop(s, input, 0);
    assert n.log.received == (s.log.received + todo)[..|n.log.received|];
  }

  lemma FlushTracks(s: In, room: seq<WriteResult>, r: Request)
    requires Tracks(s, r) && Accounted(s)
    ensures var n := HandleIn(s, StdinWritable(room));
            && Tracks(n, r) && n.chunked == s.chunked && n.contentLength == s.contentLength && n.log.received == s.log.received
            && n.log.ended == s.log.ended && n.log.broken == s.log.broken
  {
    hide FlushLoop, Accounted, Decode;
    FlushLoopKeeps(s, room, 0);
  }

  // ----------------------------------------------------------- progress

  /** Polling that has nothing to wait for. */
  function Restless(s: In): nat {
    if s.pending == "" then Flag(s.stdinOut)
    else if |s.pending| > CGI_BACKPRESSURE_LIMIT then Flag(s.clientIn)
    else 0
  }

  /** Lexicographic progress: bytes to send, stdin open, bytes pending, polling for nothing. */
  predicate MovesOn(w: Upload, n: Upload) {
    var a, b := w.relay, n.relay;
    |n.todo| < |w.todo| || (|n.todo| == |w.todo| && (
      Flag(b.open) < Flag(a.open) || (b.open == a.open && (
        |b.pending| < |a.pending| || (|b.pending| == |a.pending| && Restless(b) < Restless(a))))))
  }

  lemma NextMovesOn(w: Upload, c: InCall, r: Request, whole: string)
    requires Uploading(w, r, whole) && w.relay.open && Productive(w, c)
    ensures MovesOn(w, Next(w, c))
  {
    hide Tracks, HandedOver, Finishes, FlushLoop, Accounted, InBounded;
    var s := w.relay;
    match c
    case ClientReadable(input) =>
      LoopTakes(s, input, 0, w.todo);
    case StdinWritable(room) =>
      FlushLoopKeeps(s, room, 0);
      if s.pending != "" {
        FlushProgresses(s, room);
      } else {
        NothingToFlush(s, room);
      }
  }

  lemma NothingToFlush(s: In, room: seq<WriteResult>)
    requires s.pending == ""
    ensures FlushLoop(s, room, 0) == s
  {
  }

  // -------------------------------------------------------------- facts

  /** As long as stdin is open there is a byte to write or one to read. */
  lemma WorkIsLeft(w: Upload, r: Request, whole: string)
    requires Uploading(w, r, whole) && w.relay.open && w.relay.pending == ""
    ensures w.todo != "" && w.relay.clientIn
  {
    hide Tracks, Run, Step, SizesAgree, Accounted, Idle, Drain, BlankLine, FailureFlagged, HandedOver;
    var s := w.relay;
    if w.todo == "" {
      assert s.log.received + "" == s.log.received;
      if r.state.Body? {
        StateIsFed(s, r);
      } else {
        EndIsSeen(s, r, whole);
      }
    }
  }

  /** With a body complete at dispatch, the end has been seen once all has been received. */
  lemma EndIsSeen(s: In, r: Request, whole: string)
    requires HandedOver(r) && !r.state.Body? && Finishes(r, whole) && s.log.received == whole
    requires InInv(s) && FailureFlagged(s) && Tracks(s, r) && s.chunked == r.chunked && s.contentLength == Announced(r)
    ensures !s.log.Failed() && BodyOver(s)
  {
    hide Run, Step, BlankLine, Idle, Drain, HandedOver, Accounted;
    CompleteIs(r);
    if r.chunked {
      CompleteState(s, r);
    } else {
      CompleteFixedLength(r);
    }
  }

  lemma CompleteIs(r: Request)
    requires HandedOver(r) && !r.state.Body?
    ensures r.state.Complete?
  {
  }

  /** In Content-Length mode the whole holds a body of just the announced length. */
  lemma FixedLength(r: Request, whole: string)
    requires HandedOver(r) && r.state.Body? && !r.chunked && Finishes(r, whole)
    ensures var p := Parse(Unlimited(r), whole);
            p.body + p.buffer == r.body + whole && |p.body| == Announced(r)
  {
    hide Run, Step, Sound;
    var u := Unlimited(r).Feed(whole);
    SoundReading(r);
    FixedBodyConserves(u);
    UnlimitedSound(r, whole);
    RunSound(u);
    assert r.body + (r.buffer + whole) == r.body + whole;
    CompleteLength(Run(u));
  }

  lemma CompleteLength(p: Request)
    requires Sound(p) && p.state.Complete? && !p.chunked
    ensures |p.body| == AtolSize(Header(p.headers, "content-length"))
  {
    assert AtolSize("") == 0;
  }

  /** Once stdin is closed, the whole body has been accepted and written. */
  lemma ClosedIsDelivered(w: Upload, r: Request, whole: string)
    requires Uploading(w, r, whole) && !w.relay.open
    ensures var s, p := w.relay, Parse(Unlimited(r), whole);
            && s.pending == "" && multiset(s.log.written) == multiset(s.log.accepted)
            && (!s.log.mixed ==> s.log.written == s.log.accepted)
            && p.body <= s.log.accepted && (r.chunked ==> s.log.accepted == p.body)
  {
    hide Run, Step, SizesAgree, Idle, HandedOver, Finishes, FailureFlagged, Tracks;
    var s := w.relay;
    assert s.log.written + "" == s.log.written;
    if !r.state.Body? {
      CompleteIs(r);
      FinishedStays(Unlimited(r), whole);
      CompleteIsAccepted(s, r);
    } else if r.chunked {
      ChunkedIsWhole(s, w.todo, r, whole);
    } else {
      FixedIsAccepted(s, w.todo, r, whole);
    }
  }

  lemma CompleteIsAccepted(s: In, r: Request)
    requires HandedOver(r) && r.state.Complete? && Tracks(s, r) && s.chunked == r.chunked
    ensures r.body <= s.log.accepted && (r.chunked ==> s.log.accepted == r.body)
  {
    hide HandedOver, Decode;
    if r.chunked {
      CompleteState(s, r);
    }
  }

  lemma FixedIsAccepted(s: In, todo: string, r: Request, whole: string)
    requires HandedOver(r) && r.state.Body? && !r.chunked && Finishes(r, whole) && !s.chunked && !s.open
    requires InInv(s) && FailureFlagged(s) && Tracks(s, r) && s.contentLength == Announced(r)
    requires s.log.received + todo == whole && !s.log.ended && !s.log.broken
    ensures Parse(Unlimited(r), whole).body <= s.log.accepted
  {
    hide Run, Step, HandedOver, Accounted, Idle, Finishes;
    FixedLength(r, whole);
    var p := Parse(Unlimited(r), whole);
    assert s.log.accepted + todo == r.body + whole by { Assoc(r.body, s.log.received, todo); }
    assert |p.body| <= |s.log.accepted|;
    assert p.body == (p.body + p.buffer)[..|p.body|] == s.log.accepted[..|p.body|];
  }

  lemma ChunkedIsWhole(s: In, todo: string, r: Request, whole: string)
    requires HandedOver(r) && r.state.Body? && r.chunked && Finishes(r, whole) && s.chunked
    requires InInv(s) && FailureFlagged(s) && Tracks(s, r) && s.contentLength == Announced(r)
    requires s.log.received + todo == whole && !s.log.ended && !s.log.broken
    ensures !s.log.Failed()
    ensures s.eof || !s.open ==> s.log.accepted == Parse(Unlimited(r), whole).body
  {
    hide Run, Step, SizesAgree, InInv, Tracks;
    var u := Unlimited(r).Feed(s.log.received);
    SoundReading(r);
    Assoc(r.buffer, s.log.received, todo);
    assert u.Feed(todo) == Unlimited(r).Feed(whole);
    AgreeAlong(u, todo);
    StateIsFed(s, r);
    SplitInvariance(Unlimited(r), s.log.received, todo);
    StaysPut(Parse(Unlimited(r), s.log.received), todo);
  }

  // ---------------------------------------------------------- schedules

  /** A scheduler that always picks some productive event. */
  ghost predicate Chooses(pick: Upload -> InCall, r: Request, whole: string) {
    forall w: Upload :: Uploading(w, r, whole) && w.relay.open ==> Productive(w, pick(w))
  }

  /** There is always one to pick. */
  function SomeCall(w: Upload, r: Request, whole: string): (c: InCall)
    requires Uploading(w, r, whole) && w.relay.open
    ensures Productive(w, c)
  {
    if w.relay.pending != "" then
      assert w.relay.stdinOut;
      StdinWritable([Wrote(1)])
    else
      WorkIsLeft(w, r, whole);
      var k := Least(|w.todo|, READ_BUFFER_SIZE);
      var script := [FromClient(w.todo[..k], 0)];
      assert script[1..] == [];
      ClientReadable(script)
  }

  lemma SomeoneCanChoose(r: Request, whole: string)
    ensures Chooses((w: Upload) => if Uploading(w, r, whole) && w.relay.open then SomeCall(w, r, whole) else StdinBroken, r, whole)
  {
    hide Uploading, Productive;
  }

  ghost function DriveUpload(w: Upload, pick: Upload -> InCall, r: Request, whole: string): Upload
    requires Uploading(w, r, whole) && Chooses(pick, r, whole)
    decreases |w.todo|, Flag(w.relay.open), |w.relay.pending|, Restless(w.relay)
  {
    if !w.relay.open then w
    else
      NextKeeps(w, pick(w), r, whole);
      NextMovesOn(w, pick(w), r, whole);
      DriveUpload(Next(w, pick(w)), pick, r, whole)
  }

  lemma {:induction false} DriveCloses(w: Upload, pick: Upload -> InCall, r: Request, whole: string)
    requires Uploading(w, r, whole) && Chooses(pick, r, whole)
    ensures var e := DriveUpload(w, pick, r, whole); Uploading(e, r, whole) && !e.relay.open
    decreases |w.todo|, Flag(w.relay.open), |w.relay.pending|, Restless(w.relay)
  {
    hide Uploading, Productive, Chooses, Next;
    if w.relay.open {
      ChoiceIsProductive(w, pick, r, whole);
      NextKeeps(w, pick(w), r, whole);
      NextMovesOn(w, pick(w), r, whole);
      DriveCloses(Next(w, pick(w)), pick, r, whole);
    }
  }

  lemma ChoiceIsProductive(w: Upload, pick: Upload -> InCall, r: Request, whole: string)
    requires Uploading(w, r, whole) && w.relay.open && Chooses(pick, r, whole)
    ensures Productive(w, pick(w))
  {
  }

  lemma DispatchUploads(r: Request, room: nat, whole: string)
    requires HandedOver(r) && Finishes(r, whole)
    ensures Uploading(Upload(Dispatch(r, room), whole), r, whole)
  {
    hide HandedOver, Finishes, InInv, Tracks, Decode;
    DispatchKeeps(r, room);
    DispatchTracks(r, room);
    DispatchInitial(r, room);
    assert "" + whole == whole;
  }

  /**
   * Liveness of the input side: hand over any request, in the middle of its body or complete, and
   * let the client send what brings the end of the body, if that is still to come. Whatever
   * productive events come, in whatever order and however they cut the bytes, stdin is closed in the
   * end with nothing pending. By then it has taken every byte accepted, and accepted was the whole
   * body: just that in chunked mode, that and what was read behind it in Content-Length mode.
   */
  lemma EveryUploadArrives(r: Request, room: nat, whole: string, pick: Upload -> InCall)
    requires HandedOver(r) && Finishes(r, whole) && Chooses(pick, r, whole)
    ensures Uploading(Upload(Dispatch(r, room), whole), r, whole)
    ensures var s := DriveUpload(Upload(Dispatch(r, room), whole), pick, r, whole).relay;
            var p := Parse(Unlimited(r), whole);
            && !s.open && s.pending == "" && multiset(s.log.written) == multiset(s.log.accepted)
            && (!s.log.mixed ==> s.log.written == s.log.accepted)
            && p.body <= s.log.accepted && (r.chunked ==> s.log.accepted == p.body)
  {
    hide HandedOver, Finishes, Uploading, Chooses, DriveUpload, Dispatch, Run;
    DispatchUploads(r, room, whole);
    DriveCloses(Upload(Dispatch(r, room), whole), pick, r, whole);
    ClosedIsDelivered(DriveUpload(Upload(Dispatch(r, room), whole), pick, r, whole), r, whole);
  }
}
