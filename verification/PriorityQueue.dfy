/**
 A stable priority queue as a sequence: the most urgent message first, messages
 of one priority in the order they were accepted. TMsgQue is shown to be one.
 */
module PriorityQueue {
  import opened Base

  datatype Entry<T> = Entry(msg: T, prio: int)

  predicate Sorted<T>(q: seq<Entry<T>>) {
    forall i, j | 0 <= i < j < |q| :: q[i].prio >= q[j].prio
  }

  /** Number of leading entries of priority p or more. */
  function Boundary<T>(q: seq<Entry<T>>, p: int): (b: nat)
    ensures b <= |q|
  {
    if q == [] || q[0].prio < p then 0 else 1 + Boundary(q[1..], p)
  }

  function Enqueue<T>(q: seq<Entry<T>>, e: Entry<T>): (r: seq<Entry<T>>)
    ensures |r| == |q| + 1
  {
    var b := Boundary(q, e.prio);
    q[..b] + [e] + q[b..]
  }

  /** The messages of one priority, in queue order. */
  function OfPriority<T>(q: seq<Entry<T>>, p: int): seq<T> {
    if q == [] then []
    else (if q[0].prio == p then [q[0].msg] else []) + OfPriority(q[1..], p)
  }

  /** In a sorted queue the boundary separates the entries of priority p or more from the others. */
  lemma {:induction false} BoundarySplits<T>(q: seq<Entry<T>>, p: int)
    requires Sorted(q)
    ensures forall i | 0 <= i < |q| :: q[i].prio >= p <==> i < Boundary(q, p)
  {
    if q != [] {
      BoundarySplits(q[1..], p);
      if q[0].prio >= p {
        forall i | 0 <= i < |q|
          ensures q[i].prio >= p <==> i < Boundary(q, p)
        {
          assert i > 0 ==> q[i] == q[1..][i - 1];
        }
      }
    }
  }

  /** ... and is the only position that does. */
  lemma {:induction false} BoundaryIs<T>(q: seq<Entry<T>>, p: int, b: nat)
    requires Sorted(q) && b <= |q|
    requires forall i | 0 <= i < |q| :: q[i].prio >= p <==> i < b
    ensures Boundary(q, p) == b
  {
    BoundarySplits(q, p);
    var c := Boundary(q, p);
    var m := if b < c then b else c;
    assert m < |q| ==> (q[m].prio >= p <==> m < c);
  }

  lemma {:induction false} BoundaryAntitone<T>(q: seq<Entry<T>>, p: int, r: int)
    requires p <= r
    ensures Boundary(q, r) <= Boundary(q, p)
  {
    if q != [] && q[0].prio >= r {
      BoundaryAntitone(q[1..], p, r);
    }
  }

  lemma {:induction false} EnqueueSorted<T>(q: seq<Entry<T>>, e: Entry<T>)
    requires Sorted(q)
    ensures Sorted(Enqueue(q, e))
  {
    BoundarySplits(q, e.prio);
  }

  lemma {:induction false} OfPriorityConcat<T>(a: seq<Entry<T>>, b: seq<Entry<T>>, p: int)
    ensures OfPriority(a + b, p) == OfPriority(a, p) + OfPriority(b, p)
  {
    if a == [] {
      assert a + b == b;
    } else {
      OfPriorityConcat(a[1..], b, p);
      assert a + b == [a[0]] + (a[1..] + b);
      Assoc(if a[0].prio == p then [a[0].msg] else [], OfPriority(a[1..], p), OfPriority(b, p));
    }
  }

  lemma {:induction false} OfPriorityNone<T>(q: seq<Entry<T>>, p: int)
    requires forall i | 0 <= i < |q| :: q[i].prio != p
    ensures OfPriority(q, p) == []
  {
    if q != [] {
      OfPriorityNone(q[1..], p);
    }
  }

  lemma OfPriorityOne<T>(e: Entry<T>, p: int)
    ensures OfPriority([e], p) == if e.prio == p then [e.msg] else []
  {
  }

  /** A message joins the end of its own priority's line and no other. */
  lemma {:induction false} EnqueueLine<T>(q: seq<Entry<T>>, e: Entry<T>, p: int)
    requires Sorted(q)
    ensures OfPriority(Enqueue(q, e), p) == OfPriority(q, p) + if e.prio == p then [e.msg] else []
  {
    hide OfPriority, Boundary, Sorted;
    var b := Boundary(q, e.prio);
    BoundarySplits(q, e.prio);
    var front, back := q[..b], q[b..];
    assert q == front + back;
    OfPriorityConcat(front + [e], back, p);
    OfPriorityConcat(front, [e], p);
    OfPriorityConcat(front, back, p);
    OfPriorityOne(e, p);
    if e.prio == p {
      OfPriorityNone(back, p);
    }
  }

  /** The front is the oldest message of the greatest priority present. */
  lemma {:induction false} FrontLine<T>(q: seq<Entry<T>>, p: int)
    requires Sorted(q) && q != []
    ensures forall i | 0 <= i < |q| :: q[i].prio <= q[0].prio
    ensures OfPriority(q, p) == (if q[0].prio == p then [q[0].msg] else []) + OfPriority(q[1..], p)
    ensures Sorted(q[1..])
  {
  }

  /** Boundaries after an insertion: those at or below the priority move on by one. */
  lemma {:induction false} BoundaryEnqueue<T>(q: seq<Entry<T>>, e: Entry<T>, p: int)
    requires Sorted(q)
    ensures Boundary(Enqueue(q, e), p) == Boundary(q, p) + if p <= e.prio then 1 else 0
    ensures p > e.prio ==> Boundary(q, p) <= Boundary(q, e.prio)
    ensures p <= e.prio ==> Boundary(q, p) >= Boundary(q, e.prio)
  {
    EnqueueSorted(q, e);
    BoundarySplits(q, p);
    BoundarySplits(q, e.prio);
    if p <= e.prio {
      BoundaryAntitone(q, p, e.prio);
      BoundaryIs(Enqueue(q, e), p, Boundary(q, p) + 1);
    } else {
      BoundaryAntitone(q, e.prio, p);
      BoundaryIs(Enqueue(q, e), p, Boundary(q, p));
    }
  }

  lemma {:induction false} BoundaryTake<T>(q: seq<Entry<T>>, keep: nat, p: int)
    requires Sorted(q) && keep <= |q|
    ensures Boundary(q[..keep], p) == if Boundary(q, p) < keep then Boundary(q, p) else keep
  {
    BoundarySplits(q, p);
    BoundaryIs(q[..keep], p, if Boundary(q, p) < keep then Boundary(q, p) else keep);
  }
}
