/**
 * The metric queue (`queue.c`): a ring buffer with drop-oldest enqueue, single
 * and vector dequeue, and put-back at the front, against a bounded deque.
 */
module Queues {
  import opened Common

  // ---------------------------------------------------------------------
  // The bounded deque
  // ---------------------------------------------------------------------

  function Enqueued<T>(q: seq<T>, cap: nat, x: T): seq<T>
    requires cap >= 1 && |q| <= cap
  {
    if |q| == cap then q[1..] + [x] else q + [x]
  }

  function PutBack<T>(q: seq<T>, cap: nat, x: T): seq<T> {
    if |q| == cap then q else [x] + q
  }

  datatype Op<T> = Enqueue(x: T) | Dequeue | DequeueVector(n: nat) | Putback(x: T)

  /** What an operation leaves in the deque and what it hands to the caller. */
  function Apply<T>(q: seq<T>, cap: nat, op: Op<T>): (r: (seq<T>, seq<T>))
    requires cap >= 1 && |q| <= cap
    ensures |r.0| <= cap
  {
    match op
    case Enqueue(x) => (Enqueued(q, cap, x), [])
    case Dequeue => if q == [] then (q, []) else (q[1..], q[..1])
    case DequeueVector(n) => var k := if n < |q| then n else |q|; (q[k..], q[..k])
    case Putback(x) => (PutBack(q, cap, x), [])
  }

  function ApplyAll<T>(q: seq<T>, cap: nat, ops: seq<Op<T>>): (r: (seq<T>, seq<T>))
    requires cap >= 1 && |q| <= cap
    ensures |r.0| <= cap
    decreases |ops|
  {
    if ops == [] then (q, [])
    else
      var first := ApplyAll(q, cap, ops[..|ops| - 1]);
      var last := Apply(first.0, cap, ops[|ops| - 1]);
      (last.0, first.1 + last.1)
  }

  // ---------------------------------------------------------------------
  // What a queue promises
  // ---------------------------------------------------------------------

  /** What the operations put in, in order. */
  function Inputs<T>(ops: seq<Op<T>>): seq<T> {
    if ops == [] then []
    else Inputs(ops[..|ops| - 1]) + if ops[|ops| - 1].Enqueue? then [ops[|ops| - 1].x] else []
  }

  lemma {:induction false} ApplyLast<T>(q: seq<T>, cap: nat, ops: seq<Op<T>>, op: Op<T>)
    requires cap >= 1 && |q| <= cap
    ensures var first := ApplyAll(q, cap, ops);
            var last := Apply(first.0, cap, op);
            ApplyAll(q, cap, ops + [op]) == (last.0, first.1 + last.1)
    ensures Inputs(ops + [op]) == Inputs(ops) + if op.Enqueue? then [op.x] else []
  {
    hide Apply;
    assert (ops + [op])[..|ops|] == ops;
  }

  /** One operation keeps out and contents together in order. */
  lemma {:induction false} OneInOrder<T>(out: seq<T>, q: seq<T>, cap: nat, op: Op<T>, all: seq<T>)
    requires cap >= 1 && |q| <= cap && out + q == all && !op.Putback? && (op.Enqueue? ==> |q| < cap)
    ensures var last := Apply(q, cap, op);
            out + last.1 + last.0 == all + if op.Enqueue? then [op.x] else []
  {
    var last := Apply(q, cap, op);
    if op.Enqueue? {
      assert out + [] + (q + [op.x]) == out + q + [op.x];
    } else {
      assert last.1 + last.0 == q;
      assert out + last.1 + last.0 == out + (last.1 + last.0) && all + [] == all;
    }
  }

  /** Main result: without put-backs and with room for all, the first in are the first out and none is lost. */
  lemma {:induction false} FirstInFirstOut<T>(q: seq<T>, cap: nat, ops: seq<Op<T>>)
    requires cap >= 1 && |q| + |Inputs(ops)| <= cap && forall op :: op in ops ==> !op.Putback?
    ensures var r := ApplyAll(q, cap, ops); r.1 + r.0 == q + Inputs(ops)
    decreases |ops|
  {
    if ops == [] {
      assert [] + q == q + [];
    } else {
      hide Apply, ApplyAll, Inputs;
      var init, op := ops[..|ops| - 1], ops[|ops| - 1];
      assert ops == init + [op] && op in ops;
      ApplyLast(q, cap, init, op);
      FirstInFirstOut(q, cap, init);
      var first := ApplyAll(q, cap, init);
      assert |first.1 + first.0| == |q| + |Inputs(init)|;
      OneInOrder(first.1, first.0, cap, op, q + Inputs(init));
      var more := if op.Enqueue? then [op.x] else [];
      assert q + Inputs(init) + more == q + (Inputs(init) + more);
    }
  }

  function Newest<T>(all: seq<T>, cap: nat): seq<T> {
    if |all| <= cap then all else all[|all| - cap..]
  }

  lemma {:induction false} OneNewer<T>(all: seq<T>, cap: nat, x: T)
    requires cap >= 1
    ensures |Newest(all, cap)| <= cap && Enqueued(Newest(all, cap), cap, x) == Newest(all + [x], cap)
  {
    if |all| >= cap {
      assert all[|all| - cap..][1..] + [x] == (all + [x])[|all| + 1 - cap..];
    }
  }

  lemma {:induction false} OneWrite<T>(q: seq<T>, cap: nat, ops: seq<Op<T>>, x: T, held: seq<T>)
    requires cap >= 1 && |q| <= cap && |held| <= cap && ApplyAll(q, cap, ops) == (held, [])
    ensures ApplyAll(q, cap, ops + [Enqueue(x)]) == (Enqueued(held, cap, x), [])
  {
    hide ApplyAll, Enqueued;
    ApplyLast(q, cap, ops, Enqueue(x));
    var none: seq<T> := [];
    assert none + [] == [];
  }

  function Writes<T>(xs: seq<T>): seq<Op<T>> {
    seq(|xs|, i requires 0 <= i < |xs| => Enqueue(xs[i]))
  }

  /** Main result: a queue that is only written to holds the newest entries, as many as fit. */
  lemma {:induction false} NewestAreKept<T>(q: seq<T>, cap: nat, xs: seq<T>)
    requires cap >= 1 && |q| <= cap
    ensures ApplyAll(q, cap, Writes(xs)) == (Newest(q + xs, cap), [])
    decreases |xs|
  {
    if xs == [] {
      assert q + xs == q && Writes(xs) == [];
    } else {
      hide ApplyAll, Newest, Enqueued, Apply;
      var init, x := xs[..|xs| - 1], xs[|xs| - 1];
      assert Writes(xs) == Writes(init) + [Enqueue(x)];
      NewestAreKept(q, cap, init);
      OneNewer(q + init, cap, x);
      OneWrite(q, cap, Writes(init), x, Newest(q + init, cap));
      assert q + init + [x] == q + xs;
    }
  }

  /** Taking a vector is taking one entry after the other. */
  lemma {:induction false} VectorIsRepeatedDequeue<T>(q: seq<T>, cap: nat, n: nat)
    requires cap >= 1 && |q| <= cap
    ensures ApplyAll(q, cap, seq(n, _ => Op<T>.Dequeue)) == Apply(q, cap, DequeueVector(n))
    decreases n
  {
    if n > 0 {
      var ops := seq(n, _ => Op<T>.Dequeue);
      assert ops[..n - 1] == seq(n - 1, _ => Op<T>.Dequeue);
      VectorIsRepeatedDequeue(q, cap, n - 1);
      if n <= |q| {
        assert q[n - 1..][1..] == q[n..] && q[..n - 1] + q[n - 1..][..1] == q[..n];
      } else {
        assert q[|q|..] == [] && q[..|q|] + [] == q[..|q|];
      }
    }
  }

  /** What is put back comes out next, unless the queue is full and refuses it. */
  lemma {:induction false} PutBackComesNext<T>(q: seq<T>, cap: nat, x: T)
    requires cap >= 1 && |q| <= cap
    ensures ApplyAll(q, cap, [Putback(x), Dequeue]) ==
            if |q| < cap then (q, [x]) else Apply(q, cap, Dequeue)
  {
    var first: seq<Op<T>> := [];
    ApplyLast(q, cap, first, Putback(x));
    ApplyLast(q, cap, [Putback(x)], Dequeue);
    assert first + [Putback(x)] == [Putback(x)] && [Putback(x)] + [Dequeue] == [Putback(x), Dequeue];
    assert ApplyAll(q, cap, [Putback(x)]) == (PutBack(q, cap, x), [] + []);
    if |q| < cap {
      assert ([x] + q)[1..] == q && ([x] + q)[..1] == [x];
    }
    var last := Apply(PutBack(q, cap, x), cap, Dequeue);
    assert [] + [] + last.1 == last.1;
  }

  // ---------------------------------------------------------------------
  // The ring buffer
  // ---------------------------------------------------------------------

  /** Where the `i`th entry from the read cursor is; the cursor may stand on `end`. */
  function Slot(end: nat, read: nat, i: nat): (k: nat)
    requires 1 <= end && read <= end && i <= end
    ensures k < end
  {
    if read + i < end then read + i else if read + i < 2 * end then read + i - end else 0
  }

  /** The entries between the cursors, oldest first. */
  function View<T>(a: seq<T>, read: nat, len: nat): (s: seq<T>)
    requires 1 <= |a| && read <= |a| && len <= |a|
    ensures |s| == len
  {
    seq(len, i requires 0 <= i < len => a[Slot(|a|, read, i)])
  }

  lemma {:induction false} ViewAdvance<T>(a: seq<T>, read: nat, len: nat)
    requires read <= |a| && 0 < len <= |a|
    ensures var r := if read == |a| then 0 else read;
            && View(a, read, len)[0] == a[r]
            && View(a, r + 1, len - 1) == View(a, read, len)[1..]
            && Slot(|a|, r + 1, len - 1) == Slot(|a|, read, len)
  {
  }

  lemma {:induction false} ViewAppend<T>(a: seq<T>, read: nat, len: nat, x: T)
    requires 1 <= |a| && read <= |a| && len < |a|
    ensures var w := Slot(|a|, read, len);
            && View(a[w := x], read, len + 1) == View(a, read, len) + [x]
            && Slot(|a|, read, len + 1) == if w + 1 == |a| then 0 else w + 1
  {
  }

  lemma {:induction false} ViewPrepend<T>(a: seq<T>, read: nat, len: nat, x: T)
    requires 1 <= |a| && read <= |a| && len < |a|
    ensures var r := (if read == 0 then |a| else read) - 1;
            && View(a[r := x], r, len + 1) == [x] + View(a, read, len)
            && Slot(|a|, r, len + 1) == Slot(|a|, read, len)
  {
  }

  class Queue<T> {
    const queue: array<T>
    const end: nat
    var write: nat
    var read: nat
    var len: nat

    ghost predicate Valid()
      reads this
    {
      && 1 <= end == queue.Length
      && read <= end && write <= end && len <= end
      && (if write == end then 0 else write) == Slot(end, read, len)
    }

    ghost function Contents(): (s: seq<T>)
      reads this, queue
      requires Valid()
      ensures |s| == len
    {
      View(queue[..], read, len)
    }

    constructor (size: nat, fill: T)
      requires size >= 1
      ensures Valid() && Contents() == [] && end == size && fresh(queue)
    {
      queue := new T[size](_ => fill);
      end := size;
      read, write, len := 0, 0, 0;
    }

    /** Never fails: on a full queue the oldest entry is freed. */
    method Enqueue(p: T) returns (freed: Option<T>)
      requires Valid()
      modifies this, queue
      ensures Valid() && Contents() == Enqueued(old(Contents()), end, p)
      ensures freed == if |old(Contents())| == end then Some(old(Contents())[0]) else None
    {
      hide View, Slot;
      freed := None;
      if len == end {
        ViewAdvance(queue[..], read, len);
        if read == end {
          read := 0;
        }
        freed := Some(queue[read]);
        read := read + 1;
        len := len - 1;
      }
      ViewAppend(queue[..], read, len, p);
      if write == end {
        write := 0;
      }
      ghost var was := queue[..];
      queue[write] := p;
      assert queue[..] == was[write := p];
      write := write + 1;
      len := len + 1;
    }

    method Dequeue() returns (r: Option<T>)
      requires Valid()
      modifies this
      ensures Valid()
      ensures old(Contents()) == [] ==> r == None && Contents() == []
      ensures old(Contents()) != [] ==> r == Some(old(Contents())[0]) && Contents() == old(Contents())[1..]
    {
      if len == 0 {
        return None;
      }
      ViewAdvance(queue[..], read, len);
      if read == end {
        read := 0;
      }
      r := Some(queue[read]);
      read := read + 1;
      len := len - 1;
    }

    /** At most `n` of the oldest entries, under one lock. */
    method DequeueVector(n: nat) returns (ret: seq<T>)
      requires Valid()
      modifies this
      ensures Valid()
      ensures ret == old(Contents())[..if n < |old(Contents())| then n else |old(Contents())|]
      ensures Contents() == old(Contents())[|ret|..]
    {
      hide View, Slot;
      if len == 0 {
        return [];
      }
      var k := if n > len then len else n;
      ghost var was, data := Contents(), queue[..];
      ret := [];
      var i := 0;
      while i < k
        invariant i <= k <= len == |was| && read <= end && queue[..] == data
        invariant ret == was[..i]
        invariant View(data, read, |was| - i) == was[i..]
        invariant (if write == end then 0 else write) == Slot(end, read, |was| - i)
      {
        ViewAdvance(data, read, |was| - i);
        assert was[i..][0] == was[i] && was[i..][1..] == was[i + 1..] && was[..i] + [was[i]] == was[..i + 1];
        if read == end {
          read := 0;
        }
        ret := ret + [queue[read]];
        read := read + 1;
        i := i + 1;
      }
      len := len - k;
    }

    /** Prepends, unless the queue is full. */
    method Putback(p: T) returns (ok: bool)
      requires Valid()
      modifies this, queue
      ensures Valid() && ok == (|old(Contents())| < end)
      ensures Contents() == PutBack(old(Contents()), end, p)
    {
      if len == end {
        return false;
      }
      ViewPrepend(queue[..], read, len, p);
      if read == 0 {
        read := end;
      }
      read := read - 1;
      ghost var was := queue[..];
      queue[read] := p;
      assert queue[..] == was[read := p];
      len := len + 1;
      return true;
    }

    /** Main result: every sequence of operations behaves like the bounded deque. */
    method Run(ops: seq<Op<T>>) returns (out: seq<T>)
      requires Valid()
      modifies this, queue
      ensures Valid()
      ensures (Contents(), out) == ApplyAll(old(Contents()), end, ops)
    {
      out := [];
      var i := 0;
      ghost var start := Contents();
      while i < |ops|
        invariant i <= |ops| && Valid()
        invariant (Contents(), out) == ApplyAll(start, end, ops[..i])
      {
        ghost var before, was := Contents(), out;
        match ops[i] {
          case Enqueue(x) =>
            var _ := Enqueue(x);
          case Dequeue =>
            var r := Dequeue();
            if r.Some? {
              out := out + [r.value];
            }
          case DequeueVector(n) =>
            var r := DequeueVector(n);
            out := out + r;
          case Putback(x) =>
            var _ := Putback(x);
        }
        assert ops[..i + 1][..i] == ops[..i];
        assert Contents() == Apply(before, end, ops[i]).0;
        assert out == was + Apply(before, end, ops[i]).1;
        i := i + 1;
      }
      assert ops[..i] == ops;
    }
  }
}
