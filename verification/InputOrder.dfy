/** When the CGI is given its input in order, although a read can overtake bytes still pending. */
module InputOrder {
  import opened Bytes
  import opened RequestSpec
  import opened DecoderSpec
  import opened OutputSpec
  import opened InputSpec
  import opened InputLaws

  /** What has been written and what is pending are what was accepted, in order. */
  predicate InOrder(s: In) {
    s.log.written + s.pending == s.log.accepted
  }

  /** What a read gives the CGI. */
  function Forwarded(s: In, data: string): string {
    if !s.chunked then data else if Decode(s.dec, data).ok then Decode(s.dec, data).out else ""
  }

  /** The bytes written at once read the same before and behind those that were pending. */
  predicate Commutes(s: In, data: string, room: nat) {
    var f := Forwarded(s, data);
    var head := f[..Least(room, |f|)];
    head + s.pending == s.pending + head
  }

  /** Every write of this call that overtakes pending bytes commutes with them. */
  predicate LoopCommutes(s: In, script: seq<ClientResult>, total: nat)
    decreases |script|
  {
    Reads(s, script, total) ==>
      var data, room := script[0].bytes, script[0].room;
      Commutes(s, data, room)
      && (!Ends(s, data) ==> LoopCommutes(Accept(s, data, room), script[1..], total + |data|))
  }

  /** Order holds after every read of this call. */
  predicate LoopInOrder(s: In, script: seq<ClientResult>, total: nat)
    decreases |script|
  {
    Reads(s, script, total) ==>
      var data, room := script[0].bytes, script[0].room;
      InOrder(Accept(s, data, room))
      && (!Ends(s, data) ==> LoopInOrder(Accept(s, data, room), script[1..], total + |data|))
  }

  /** The loop takes the first read of its script. */
  predicate Reads(s: In, script: seq<ClientResult>, total: nat) {
    total < FAIR_IO_LIMIT && |s.pending| <= CGI_BACKPRESSURE_LIMIT && script != [] && script[0].FromClient? && s.open
  }

  predicate RunCommutes(s: In, calls: seq<InCall>)
    decreases |calls|
  {
    calls == [] || (
      (calls[0].ClientReadable? ==> LoopCommutes(s, calls[0].input, 0)) && RunCommutes(HandleIn(s, calls[0]), calls[1..]))
  }

  predicate RunInOrder(s: In, calls: seq<InCall>)
    decreases |calls|
  {
    calls == [] || (
      (calls[0].ClientReadable? ==> LoopInOrder(s, calls[0].input, 0))
      && InOrder(HandleIn(s, calls[0])) && RunInOrder(HandleIn(s, calls[0]), calls[1..]))
  }

  lemma ForwardNothing(s: In, room: nat)
    ensures Forward(s, "", room) == s
  {
    assert s.pending + "" == s.pending && s.log.accepted + "" == s.log.accepted && s.log.written + "" == s.log.written;
  }

  lemma AcceptOrder(s: In, data: string, room: nat)
    requires InOrder(s)
    ensures InOrder(Accept(s, data, room)) <==> Commutes(s, data, room)
  {
    hide Decode, Forward, EndInput, GiveUp;
    var r := s.(log := s.log.Receiving(data));
    if s.chunked {
      var o := Decode(s.dec, data);
      var d := r.(dec := o.dec);
      OrderKeptExactly(d, Forwarded(s, data), room);
      ForwardNothing(d, room);
      if o.ok {
        OnlyEnded(Forward(d, o.out, room));
      } else {
        OnlyEnded(d.(log := d.log.Failing(s.log.received, data, o.dec)));
      }
    } else {
      OrderKeptExactly(r, data, room);
      OnlyEnded(Forward(r, data, room).(forwarded := Forward(r, data, room).forwarded + |data|));
      RawOrder(s, data, room);
    }
  }

  lemma RawOrder(s: In, data: string, room: nat)
    ensures InOrder(AcceptRaw(s, data, room)) == InOrder(Forward(s.(log := s.log.Receiving(data)), data, room))
  {
    hide Forward;
  }

  lemma {:induction false} LoopOrder(s: In, script: seq<ClientResult>, total: nat)
    requires InOrder(s)
    ensures LoopInOrder(s, script, total) <==> LoopCommutes(s, script, total)
    ensures LoopInOrder(s, script, total) ==> InOrder(ClientLoop(s, script, total))
    decreases |script|
  {
    hide Accept, Commutes, Ends, InOrder;
    if Reads(s, script, total) {
      var data, room := script[0].bytes, script[0].room;
      AcceptOrder(s, data, room);
      if !Ends(s, data) && Commutes(s, data, room) {
        LoopOrder(Accept(s, data, room), script[1..], total + |data|);
      }
    } else {
      UnreadOrder(s, script, total);
    }
  }

  lemma UnreadOrder(s: In, script: seq<ClientResult>, total: nat)
    requires InOrder(s) && !Reads(s, script, total)
    ensures InOrder(ClientLoop(s, script, total))
  {
  }

  lemma {:induction false} FlushOrder(s: In, script: seq<WriteResult>, total: nat)
    requires InOrder(s)
    ensures InOrder(FlushLoop(s, script, total))
    decreases |script|
  {
    if s.pending != "" && total < FAIR_IO_LIMIT && script != [] && script[0].Wrote? {
      var k := Least(script[0].n, |s.pending|);
      assert s.pending == s.pending[..k] + s.pending[k..];
      Assoc(s.log.written, s.pending[..k], s.pending[k..]);
      if k > 0 {
        FlushOrder(Flush(s, k), script[1..], total + k);
      }
    }
  }

  /**
   * Over a run, order holds at every point if and only if every write that overtakes pending bytes
   * commutes with them.
   */
  lemma {:induction false} OrderOverRuns(s: In, calls: seq<InCall>)
    requires InOrder(s)
    ensures RunInOrder(s, calls) <==> RunCommutes(s, calls)
    decreases |calls|
  {
    hide ClientLoop, FlushLoop, LoopCommutes, LoopInOrder;
    if calls != [] {
      var n := HandleIn(s, calls[0]);
      match calls[0] {
        case ClientReadable(input) => LoopOrder(s, input, 0);
        case StdinWritable(room) => FlushOrder(s, room, 0);
        case StdinBroken =>
      }
      if InOrder(n) {
        OrderOverRuns(n, calls[1..]);
      }
    }
  }

  /** So it is for every run of an exchange, which begins in order. */
  lemma RunsInOrder(r: Request, room: nat, calls: seq<InCall>)
    requires HandedOver(r)
    ensures RunInOrder(Dispatch(r, room), calls) <==> RunCommutes(Dispatch(r, room), calls)
  {
    hide HandedOver, Dispatch, RunInOrder, RunCommutes;
    DispatchKeeps(r, room);
    DispatchUnmixed(r, room);
    OrderOverRuns(Dispatch(r, room), calls);
  }

  lemma DispatchUnmixed(r: Request, room: nat)
    ensures !Dispatch(r, room).log.mixed
  {
  }
}
