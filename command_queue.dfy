/**
 * `InMemoryCommandQueue`: an unbounded first-in first-out channel of commands with one writer
 * operation and one reader operation.
 */
module CommandQueue {
  import opened Wrappers
  import opened Commands

  class InMemoryCommandQueue {
    /** The commands written to the channel and not yet read, oldest first. */
    var items: seq<Command>

    constructor ()
      ensures items == []
    {
      items := [];
    }

    /** `Enqueue`: writing to an unbounded channel always succeeds and appends at the tail. */
    method Enqueue(c: Command)
      modifies this
      ensures items == old(items) + [c]
    {
      items := items + [c];
    }

    /**
     * `DequeueAsync`: hands out the oldest command and removes it. The source waits while the
     * channel is empty; here the caller must have seen a command in it.
     */
    method Dequeue() returns (c: Command)
      requires items != []
      modifies this
      ensures c == old(items)[0] && items == old(items)[1..]
      ensures old(items) == [c] + items
    {
      c := items[0];
      items := items[1..];
    }
  }

  /** One call on the queue, as a trace records it. */
  datatype QueueOp = Put(command: Command) | Take

  /** The commands a trace writes, in order. */
  function Puts(ops: seq<QueueOp>): (r: seq<Command>)
    ensures |r| <= |ops|
  {
    if ops == [] then []
    else (if ops[0].Put? then [ops[0].command] else []) + Puts(ops[1..])
  }

  /** How many reads a trace makes. */
  function Takes(ops: seq<QueueOp>): (r: nat)
    ensures r <= |ops|
  {
    if ops == [] then 0 else (if ops[0].Take? then 1 else 0) + Takes(ops[1..])
  }

  /** Every operation of a trace is either a write or a read. */
  lemma {:induction false} PutsTakesCount(ops: seq<QueueOp>)
    ensures |Puts(ops)| + Takes(ops) == |ops|
  {
    if ops != [] {
      PutsTakesCount(ops[1..]);
    }
  }

  /** What the queue holding `items`, read by one consumer, does under the trace `ops`. */
  datatype Replay = Replay(delivered: seq<Command>, remaining: seq<Command>)

  /**
   * Runs `ops` against a queue holding `items`: `Put` appends, `Take` hands out the head. `None`
   * when a `Take` meets an empty queue, that is, when the reader would still be waiting.
   */
  function Run(items: seq<Command>, ops: seq<QueueOp>): Option<Replay>
    decreases |ops|
  {
    if ops == [] then Some(Replay([], items))
    else match ops[0]
      case Put(c) => Run(items + [c], ops[1..])
      case Take =>
        if items == [] then None
        else match Run(items[1..], ops[1..])
          case None => None
          case Some(rest) => Some(Replay([items[0]] + rest.delivered, rest.remaining))
  }

  /**
   * Nothing is lost, duplicated or reordered: the commands read, followed by those still queued,
   * are exactly the commands that were queued at the start followed by those written, in order;
   * and one command is read per `Take`.
   */
  lemma {:induction false} RunConserves(items: seq<Command>, ops: seq<QueueOp>)
    requires Run(items, ops).Some?
    ensures Run(items, ops).value.delivered + Run(items, ops).value.remaining == items + Puts(ops)
    ensures |Run(items, ops).value.delivered| == Takes(ops)
    decreases |ops|
  {
    if ops != [] {
      match ops[0]
      case Put(c) =>
        RunConserves(items + [c], ops[1..]);
        assert Puts(ops) == [c] + Puts(ops[1..]);
      case Take =>
        RunConserves(items[1..], ops[1..]);
        var rest := Run(items[1..], ops[1..]).value;
        assert Puts(ops) == Puts(ops[1..]);
        assert items == [items[0]] + items[1..];
        calc {
          Run(items, ops).value.delivered + Run(items, ops).value.remaining;
          ([items[0]] + rest.delivered) + rest.remaining;
          [items[0]] + (rest.delivered + rest.remaining);
          [items[0]] + (items[1..] + Puts(ops[1..]));
        }
    }
  }

  /** First in, first out: the k-th command read is the k-th command ever queued. */
  lemma DeliveryOrder(items: seq<Command>, ops: seq<QueueOp>, k: nat)
    requires Run(items, ops).Some? && k < |Run(items, ops).value.delivered|
    ensures k < |items + Puts(ops)|
    ensures Run(items, ops).value.delivered[k] == (items + Puts(ops))[k]
  {
    RunConserves(items, ops);
    var r := Run(items, ops).value;
    assert (r.delivered + r.remaining)[k] == r.delivered[k];
  }

  /** A reader that never finds the queue empty: the trace is feasible without waiting. */
  lemma {:induction false} RunFeasible(items: seq<Command>, ops: seq<QueueOp>)
    requires forall i | 0 <= i <= |ops| :: Takes(ops[..i]) <= |items| + |Puts(ops[..i])|
    ensures Run(items, ops).Some?
    decreases |ops|
  {
    if ops != [] {
      assert ops[..1] == [ops[0]];
      assert Puts([ops[0]]) == (if ops[0].Put? then [ops[0].command] else []);
      assert Takes([ops[0]]) == (if ops[0].Take? then 1 else 0);
      forall i | 0 <= i <= |ops[1..]|
        ensures Takes(ops[1..][..i]) <= |items| + |Puts(ops[1..][..i])| - Takes([ops[0]]) + |Puts([ops[0]])|
      {
        PrefixCounts(ops, i + 1);
        assert ops[..i + 1][1..] == ops[1..][..i];
        assert ops[..i + 1][0] == ops[0];
      }
      match ops[0]
      case Put(c) =>
        RunFeasible(items + [c], ops[1..]);
      case Take =>
        RunFeasible(items[1..], ops[1..]);
    }
  }

  /** Counting a non-empty trace splits off its first operation. */
  lemma PrefixCounts(ops: seq<QueueOp>, n: nat)
    requires 0 < n <= |ops|
    ensures |Puts(ops[..n])| == |Puts([ops[0]])| + |Puts(ops[..n][1..])|
    ensures Takes(ops[..n]) == Takes([ops[0]]) + Takes(ops[..n][1..])
  {
    assert ops[..n][0] == ops[0];
    assert [ops[0]][1..] == [];
  }
}
