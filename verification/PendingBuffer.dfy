/** Bytes waiting to be sent: a string with an offset, compacted now and then. */
module PendingBuffer {

  const COMPACT_THRESHOLD: nat := 1048576

  /** The two fields as a value. */
  datatype Buffer = Buffer(data: string, offset: nat) {
    predicate Valid() {
      offset <= |data| && offset < COMPACT_THRESHOLD
    }

    /** The bytes still to be sent, in order. */
    function Contents(): string
      requires Valid()
    {
      data[offset..]
    }
  }

  function Appended(b: Buffer, more: string): Buffer {
    b.(data := b.data + more)
  }

  function Consumed(b: Buffer, bytes: nat): Buffer {
    var offset := b.offset + bytes;
    if offset < COMPACT_THRESHOLD then b.(offset := offset)
    else if offset >= |b.data| then Buffer("", 0)
    else Buffer(b.data[offset..], 0)
  }

  /** One of the two pending strings of a Client (cgi_stdin_pending_, cgi_send_pending_). */
  class Pending {
    var data: string
    var offset: nat

    ghost function Value(): Buffer
      reads this
    {
      Buffer(data, offset)
    }

    ghost predicate Valid()
      reads this
    {
      Value().Valid()
    }

    ghost function Contents(): string
      requires Valid()
      reads this
    {
      Value().Contents()
    }

    constructor ()
      ensures Valid() && Contents() == ""
    {
      data, offset := "", 0;
    }

    method Append(more: string)
      requires Valid()
      modifies this
      ensures Value() == Appended(old(Value()), more)
      ensures Valid() && Contents() == old(Contents()) + more
    {
      data := data + more;
    }

    method Size() returns (n: nat)
      requires Valid()
      ensures n == |Contents()|
    {
      n := if offset >= |data| then 0 else |data| - offset;
    }

    /** The whole pending text, as the send call is given it. */
    method Peek() returns (s: string)
      requires Valid()
      ensures s == Contents()
    {
      s := data[offset..];
    }

    method Consume(bytes: nat)
      requires Valid() && bytes <= |Contents()|
      modifies this
      ensures Value() == Consumed(old(Value()), bytes)
      ensures Valid() && Contents() == old(Contents())[bytes..]
    {
      offset := offset + bytes;
      if offset >= COMPACT_THRESHOLD {
        if offset >= |data| {
          data := "";
        } else {
          data := data[offset..];
        }
        offset := 0;
      }
    }
  }

  // ------------------------------------------------------------ as a FIFO

  datatype Op = Append(bytes: string) | Consume(n: nat)

  /** The plain queue: all that was ever appended, and how much of it has been consumed. */
  datatype Queue = Queue(appended: string, consumed: nat)

  function Do(op: Op, b: Buffer): Buffer {
    match op
    case Append(more) => Appended(b, more)
    case Consume(n) => Consumed(b, n)
  }

  function DoQueue(op: Op, q: Queue): Queue {
    match op
    case Append(more) => q.(appended := q.appended + more)
    case Consume(n) => q.(consumed := q.consumed + n)
  }

  function DoAll(ops: seq<Op>, b: Buffer): Buffer {
    if ops == [] then b else DoAll(ops[1..], Do(ops[0], b))
  }

  function DoAllQueue(ops: seq<Op>, q: Queue): Queue {
    if ops == [] then q else DoAllQueue(ops[1..], DoQueue(ops[0], q))
  }

  /** Nothing is consumed that is not pending. */
  predicate Allowed(ops: seq<Op>, q: Queue) {
    ops == [] || (
      (ops[0].Consume? ==> q.consumed + ops[0].n <= |q.appended|) && Allowed(ops[1..], DoQueue(ops[0], q)))
  }

  predicate Refines(b: Buffer, q: Queue) {
    b.Valid() && q.consumed <= |q.appended| && b.Contents() == q.appended[q.consumed..]
  }

  lemma DoRefines(op: Op, b: Buffer, q: Queue)
    requires Refines(b, q) && (op.Consume? ==> q.consumed + op.n <= |q.appended|)
    ensures Refines(Do(op, b), DoQueue(op, q))
  {
    match op
    case Append(more) =>
      assert (q.appended + more)[q.consumed..] == q.appended[q.consumed..] + more;
    case Consume(n) =>
      assert q.appended[q.consumed + n..] == b.Contents()[n..];
  }

  /**
   * Any allowed run of appends and consumes leaves exactly what was appended less what was consumed
   * from its front, with the offset below 1 MiB and the stored string less than 1 MiB longer than that.
   */
  lemma {:induction false} CompactingIsFifo(ops: seq<Op>, b: Buffer, q: Queue)
    requires Refines(b, q) && Allowed(ops, q)
    ensures var c, e := DoAll(ops, b), DoAllQueue(ops, q);
            Refines(c, e) && c.offset < COMPACT_THRESHOLD
            && |c.data| < |e.appended| - e.consumed + COMPACT_THRESHOLD
    decreases |ops|
  {
    if ops != [] {
      DoRefines(ops[0], b, q);
      CompactingIsFifo(ops[1..], Do(ops[0], b), DoQueue(ops[0], q));
    }
  }
}
