/**
 TMsgQue: one linked list for all priorities and one iterator per level. A list
 node keeps its identity while others come and go, so an iterator is the identity
 of its node, or the end. The ghost `content` adds the priorities, which the
 list itself does not store.
 */
module MsgQue {
  import opened Base
  import opened PriorityQueue

  datatype Node<T> = Node(id: nat, msg: T)

  datatype Iter = End | At(id: nat)

  /** The iterator at a position of the list. */
  function IterAt<T>(list: seq<Node<T>>, pos: nat): Iter
    requires pos <= |list|
  {
    if pos == |list| then End else At(list[pos].id)
  }

  predicate Distinct<T>(list: seq<Node<T>>) {
    forall i, j | 0 <= i < j < |list| :: list[i].id != list[j].id
  }

  /** The position of an iterator in the list. */
  function PosOf<T>(list: seq<Node<T>>, it: Iter): (pos: nat)
    ensures pos <= |list|
  {
    if list == [] || it == At(list[0].id) then 0 else 1 + PosOf(list[1..], it)
  }

  lemma {:induction false} PosOfIter<T>(list: seq<Node<T>>, pos: nat)
    requires Distinct(list) && pos <= |list|
    ensures PosOf(list, IterAt(list, pos)) == pos
  {
    if pos > 0 {
      assert IterAt(list, pos) == IterAt(list[1..], pos - 1);
      assert pos < |list| ==> list[0].id != list[pos].id;
      assert Distinct(list[1..]) by {
        forall i, j | 0 <= i < j < |list| - 1
          ensures list[1..][i].id != list[1..][j].id
        {
          assert list[i + 1].id != list[j + 1].id;
        }
      }
      PosOfIter(list[1..], pos - 1);
    }
  }

  /** list::insert before a position. */
  function Inserted<T>(list: seq<Node<T>>, pos: nat, node: Node<T>): seq<Node<T>>
    requires pos <= |list|
  {
    list[..pos] + [node] + list[pos..]
  }

  lemma IterInserted<T>(list: seq<Node<T>>, pos: nat, node: Node<T>, k: nat)
    requires pos <= |list| && k <= |list|
    ensures k < pos ==> IterAt(Inserted(list, pos, node), k) == IterAt(list, k)
    ensures k == pos ==> IterAt(Inserted(list, pos, node), k) == At(node.id)
    ensures k >= pos ==> IterAt(Inserted(list, pos, node), k + 1) == IterAt(list, k)
  {
  }

  /** Entries are the list's messages with their priorities. */
  predicate Matches<T(==)>(content: seq<Entry<T>>, list: seq<Node<T>>) {
    |content| == |list| && forall i | 0 <= i < |list| :: content[i].msg == list[i].msg
  }

  /** Level p's iterator sits just after every entry of priority p or more. */
  predicate AtBoundary<T>(it: Iter, content: seq<Entry<T>>, list: seq<Node<T>>, p: int)
    requires |content| == |list|
  {
    it == IterAt(list, Boundary(content, p))
  }

  predicate InLevels<T>(content: seq<Entry<T>>, levels: nat) {
    forall i | 0 <= i < |content| :: 0 <= content[i].prio < levels
  }

  // ---------------------------------------------------------------- sending

  /** What an insertion means for level p's iterator. */
  lemma {:induction false} SendIter<T>(
    content: seq<Entry<T>>, list: seq<Node<T>>, e: Entry<T>, node: Node<T>, it: Iter, p: int)
    requires Sorted(content) && |content| == |list| && Distinct(list) && AtBoundary(it, content, list, p)
    ensures var pos := Boundary(content, e.prio);
            var after := Inserted(list, pos, node);
            && |Enqueue(content, e)| == |after|
            && (p <= e.prio ==> AtBoundary(it, Enqueue(content, e), after, p))
            && (p > e.prio && it == IterAt(list, pos) ==> AtBoundary(At(node.id), Enqueue(content, e), after, p))
            && (p > e.prio && it != IterAt(list, pos) ==> AtBoundary(it, Enqueue(content, e), after, p))
  {
    var pos := Boundary(content, e.prio);
    BoundaryEnqueue(content, e, p);
    IterInserted(list, pos, node, Boundary(content, p));
  }

  /** Once a level's iterator is not the insertion point, no higher level's is. */
  lemma {:induction false} SendBreak<T>(
    content: seq<Entry<T>>, list: seq<Node<T>>, prio: int, at: Iter, it: Iter, i: int, p: int)
    requires Sorted(content) && |content| == |list| && Distinct(list)
    requires AtBoundary(at, content, list, i) && AtBoundary(it, content, list, p)
    requires prio < i <= p && at != IterAt(list, Boundary(content, prio))
    ensures it != IterAt(list, Boundary(content, prio))
  {
    BoundaryAntitone(content, prio, i);
    BoundaryAntitone(content, i, p);
  }

  /** The list after an insertion is again a list of distinct nodes that matches its entries. */
  lemma {:induction false} SentList<T>(
    content: seq<Entry<T>>, list: seq<Node<T>>, e: Entry<T>, node: Node<T>, levels: nat)
    requires Matches(content, list) && Sorted(content) && Distinct(list) && InLevels(content, levels)
    requires (forall i | 0 <= i < |list| :: list[i].id < node.id) && node.msg == e.msg && 0 <= e.prio < levels
    ensures var after := Inserted(list, Boundary(content, e.prio), node);
            && Matches(Enqueue(content, e), after)
            && Sorted(Enqueue(content, e))
            && Distinct(after)
            && InLevels(Enqueue(content, e), levels)
            && forall i | 0 <= i < |after| :: after[i].id <= node.id
  {
    hide Boundary, Sorted;
    EnqueueSorted(content, e);
  }

  // ---------------------------------------------------------------- receiving

  /** What taking the front means for level p's iterator. */
  lemma {:induction false} TakeIter<T>(content: seq<Entry<T>>, list: seq<Node<T>>, it: Iter, p: int)
    requires Sorted(content) && |content| == |list| && list != [] && Distinct(list) && AtBoundary(it, content, list, p)
    ensures it == IterAt(list, 0) ==> AtBoundary(IterAt(list, 1), content[1..], list[1..], p)
    ensures it != IterAt(list, 0) ==> AtBoundary(it, content[1..], list[1..], p)
  {
  }

  /** Once a level's iterator is past the front, every lower level's is. */
  lemma {:induction false} TakeBreak<T>(
    content: seq<Entry<T>>, list: seq<Node<T>>, at: Iter, it: Iter, i: int, p: int)
    requires Sorted(content) && |content| == |list| && Distinct(list)
    requires AtBoundary(at, content, list, i) && AtBoundary(it, content, list, p)
    requires p <= i && at != IterAt(list, 0)
    ensures it != IterAt(list, 0)
  {
    BoundaryAntitone(content, p, i);
  }

  // ---------------------------------------------------------------- cleaning

  /**
   Dropping all but the first `keep` entries strands no iterator: each dropped
   entry has the priority of the one before it, or the top priority when first.
   */
  predicate CleanSafe<T>(content: seq<Entry<T>>, keep: nat, levels: nat) {
    forall j | keep <= j < |content| :: content[j].prio == PrioBefore(content, j, levels)
  }

  /** The priority of the entry before position j, the top priority at the front. */
  function PrioBefore<T>(content: seq<Entry<T>>, j: nat, levels: nat): int
    requires j <= |content|
  {
    if j == 0 then levels - 1 else content[j - 1].prio
  }

  /** All iterators sit at their boundaries. */
  predicate Iterators<T>(its: seq<Iter>, content: seq<Entry<T>>, list: seq<Node<T>>)
    requires |content| == |list|
  {
    forall p | 0 <= p < |its| :: AtBoundary(its[p], content, list, p)
  }

  /** A level's iterator survives the drop unless it sits on a dropped node. */
  lemma {:induction false} CleanIter<T>(it: Iter, content: seq<Entry<T>>, list: seq<Node<T>>, keep: nat, p: int)
    requires Sorted(content) && |content| == |list| && Distinct(list) && keep <= |list|
    requires AtBoundary(it, content, list, p)
    ensures AtBoundary(it, content[..keep], list[..keep], p) <==> !(keep <= Boundary(content, p) < |list|)
  {
    hide Boundary, Sorted;
    BoundaryTake(content, keep, p);
  }

  /** No level's boundary lies in a dropped part that is CleanSafe. */
  lemma {:induction false} SafeBoundary<T>(content: seq<Entry<T>>, keep: nat, levels: nat, p: int)
    requires Sorted(content) && CleanSafe(content, keep, levels) && p < levels
    ensures !(keep <= Boundary(content, p) < |content|)
  {
    hide Boundary, Sorted;
    BoundarySplits(content, p);
    var b := Boundary(content, p);
    assert keep <= b < |content| ==> content[b].prio == PrioBefore(content, b, levels);
    assert b < |content| ==> content[b].prio < p;
    assert b > 0 ==> content[b - 1].prio >= p;
  }

  /** A dropped entry below its predecessor carries some level's boundary. */
  lemma {:induction false} UnsafeBoundary<T>(content: seq<Entry<T>>, keep: nat, levels: nat) returns (p: int)
    requires Sorted(content) && InLevels(content, levels) && !CleanSafe(content, keep, levels)
    ensures 0 <= p < levels && keep <= Boundary(content, p) < |content|
  {
    hide Boundary;
    var j :| keep <= j < |content| && content[j].prio != PrioBefore(content, j, levels);
    p := PrioBefore(content, j, levels);
    BoundaryIs(content, p, j);
  }

  /** clean repairs no iterator, so it keeps them right exactly when CleanSafe. */
  lemma {:induction false} CleanIff<T>(its: seq<Iter>, content: seq<Entry<T>>, list: seq<Node<T>>, keep: nat)
    requires Sorted(content) && InLevels(content, |its|) && |content| == |list| && Distinct(list) && keep <= |list|
    requires Iterators(its, content, list)
    ensures Iterators(its, content[..keep], list[..keep]) <==> CleanSafe(content, keep, |its|)
  {
    hide AtBoundary, CleanSafe, Distinct;
    forall p | 0 <= p < |its|
      ensures AtBoundary(its[p], content[..keep], list[..keep], p)
         <==> !(keep <= Boundary(content, p) < |list|)
    {
      CleanIter(its[p], content, list, keep, p);
    }
    if CleanSafe(content, keep, |its|) {
      forall p | 0 <= p < |its|
        ensures !(keep <= Boundary(content, p) < |list|)
      {
        SafeBoundary(content, keep, |its|, p);
      }
    } else {
      var p := UnsafeBoundary(content, keep, |its|);
      assert !AtBoundary(its[p], content[..keep], list[..keep], p);
    }
  }

  // ---------------------------------------------------------------- one operation on list and iterators

  /** List, iterators, and the entries they stand for. */
  datatype Linked<T> = Linked(content: seq<Entry<T>>, list: seq<Node<T>>, its: seq<Iter>, nextId: nat)

  predicate SameLength<T>(k: Linked<T>) {
    |k.content| == |k.list|
  }

  /** The list holds the entries in order and its nodes are told apart. */
  predicate ListSound<T(==)>(k: Linked<T>) {
    && Matches(k.content, k.list)
    && Sorted(k.content)
    && Distinct(k.list)
    && forall i | 0 <= i < |k.list| :: k.list[i].id < k.nextId
  }

  /** And every iterator is at its boundary. */
  predicate Sound<T(==)>(k: Linked<T>) {
    ListSound(k) && InLevels(k.content, |k.its|) && Iterators(k.its, k.content, k.list)
  }

  /** The loop of sendMessage over the levels from i up, with its early break. */
  function MovedUp(its: seq<Iter>, was: Iter, now: Iter, i: nat): (r: seq<Iter>)
    ensures |r| == |its|
    decreases |its| - i
  {
    if i >= |its| || its[i] != was then its else MovedUp(its[i := now], was, now, i + 1)
  }

  /** The loop of recvMessage over the levels from i down, with its early break. */
  function MovedDown(its: seq<Iter>, front: Iter, second: Iter, i: int): (r: seq<Iter>)
    requires i < |its|
    ensures |r| == |its|
    decreases i
  {
    if i < 0 || its[i] != front then its else MovedDown(its[i := second], front, second, i - 1)
  }

  function InsertInto<T>(k: Linked<T>, e: Entry<T>): Linked<T>
    requires 0 <= e.prio < |k.its|
  {
    var pos := PosOf(k.list, k.its[e.prio]);
    Linked(Enqueue(k.content, e), Inserted(k.list, pos, Node(k.nextId, e.msg)),
           MovedUp(k.its, k.its[e.prio], At(k.nextId), e.prio + 1), k.nextId + 1)
  }

  function PopFront<T>(k: Linked<T>): Linked<T>
    requires SameLength(k) && k.list != []
  {
    Linked(k.content[1..], k.list[1..], MovedDown(k.its, IterAt(k.list, 0), IterAt(k.list, 1), |k.its| - 1), k.nextId)
  }

  /** What is left when clean has dropped the rest from the back. */
  function KeepFirst<T>(k: Linked<T>, keep: nat): Linked<T>
    requires SameLength(k) && keep <= |k.list|
  {
    Linked(k.content[..keep], k.list[..keep], k.its, k.nextId)
  }

  /** Up to the level where the loop stops, iterators equal to the old one are replaced; from there on none is. */
  lemma {:induction false} MovedUpStops(its: seq<Iter>, was: Iter, now: Iter, i: nat) returns (stop: nat)
    requires i <= |its|
    ensures i <= stop <= |its| && (stop < |its| ==> its[stop] != was)
    ensures forall p | i <= p < stop :: its[p] == was
    ensures forall p | 0 <= p < |its| :: MovedUp(its, was, now, i)[p] == if i <= p < stop then now else its[p]
    decreases |its| - i
  {
    stop := i;
    if i < |its| && its[i] == was {
      var next := its[i := now];
      stop := MovedUpStops(next, was, now, i + 1);
      assert forall p | 0 <= p < |its| :: next[p] == if p == i then now else its[p];
    }
  }

  lemma {:induction false} MovedDownStops(its: seq<Iter>, front: Iter, second: Iter, i: int) returns (stop: int)
    requires -1 <= i < |its|
    ensures -1 <= stop <= i && (0 <= stop ==> its[stop] != front)
    ensures forall p | stop < p <= i :: its[p] == front
    ensures forall p | 0 <= p < |its| ::
              MovedDown(its, front, second, i)[p] == if stop < p <= i then second else its[p]
    decreases i
  {
    stop := i;
    if i >= 0 && its[i] == front {
      var next := its[i := second];
      stop := MovedDownStops(next, front, second, i - 1);
      assert forall p | 0 <= p < |its| :: next[p] == if p == i then second else its[p];
    }
  }

  /** sendMessage keeps list and iterators sound: the loop may break early. */
  lemma {:induction false} InsertSound<T>(k: Linked<T>, e: Entry<T>)
    requires Sound(k) && 0 <= e.prio < |k.its|
    ensures Sound(InsertInto(k, e)) && PosOf(k.list, k.its[e.prio]) == Boundary(k.content, e.prio)
  {
    hide Sorted, Distinct, Boundary, Enqueue, Inserted, PosOf, InLevels, MovedUp;
    var after, node := InsertInto(k, e), Node(k.nextId, e.msg);
    PosOfIter(k.list, Boundary(k.content, e.prio));
    SentList(k.content, k.list, e, node, |k.its|);
    var stop := MovedUpStops(k.its, k.its[e.prio], At(k.nextId), e.prio + 1);
    forall p | 0 <= p < |k.its|
      ensures AtBoundary(after.its[p], after.content, after.list, p)
    {
      SendIter(k.content, k.list, e, node, k.its[p], p);
      if stop < |k.its| && stop <= p {
        SendBreak(k.content, k.list, e.prio, k.its[stop], k.its[p], stop, p);
      }
    }
  }

  /** recvMessage keeps list and iterators sound: the loop may break early. */
  lemma {:induction false} PopFrontSound<T>(k: Linked<T>)
    requires Sound(k) && k.list != []
    ensures Sound(PopFront(k))
  {
    hide Sorted, Distinct, Boundary, MovedDown, InLevels;
    var after := PopFront(k);
    var stop := MovedDownStops(k.its, IterAt(k.list, 0), IterAt(k.list, 1), |k.its| - 1);
    forall p | 0 <= p < |k.its|
      ensures AtBoundary(after.its[p], after.content, after.list, p)
    {
      TakeIter(k.content, k.list, k.its[p], p);
      if 0 <= stop && p <= stop {
        TakeBreak(k.content, k.list, k.its[stop], k.its[p], stop, p);
      }
    }
    PopFrontList(k);
  }

  lemma PopFrontList<T>(k: Linked<T>)
    requires Sound(k) && k.list != []
    ensures ListSound(PopFront(k)) && InLevels(PopFront(k).content, |k.its|)
  {
    hide Boundary, MovedDown;
  }

  /** clean keeps them sound exactly when it drops no node that an iterator sits on. */
  lemma {:induction false} KeepSoundIff<T>(k: Linked<T>, keep: nat)
    requires Sound(k) && keep <= |k.list|
    ensures Sound(KeepFirst(k, keep)) <==> CleanSafe(k.content, keep, |k.its|)
    ensures ListSound(KeepFirst(k, keep))
  {
    hide Sorted, Boundary, Iterators, CleanSafe;
    CleanIff(k.its, k.content, k.list, keep);
    KeepList(k, keep);
  }

  lemma KeepList<T>(k: Linked<T>, keep: nat)
    requires Sound(k) && keep <= |k.list|
    ensures ListSound(KeepFirst(k, keep)) && InLevels(k.content[..keep], |k.its|)
  {
    hide Boundary, Iterators;
  }

  class MsgQue<T(==)> {
    var queue: seq<Node<T>>
    var prioIter: array<Iter>
    var queSize: int
    /** The semaphore's count. */
    var tokens: nat
    var nextId: nat
    ghost var content: seq<Entry<T>>

    ghost function View(): Linked<T>
      reads this, prioIter
    {
      Linked(content, queue, prioIter[..], nextId)
    }

    /** Everything but the iterators, which clean and setParam may strand. */
    ghost predicate ListValid()
      reads this, prioIter
    {
      ListSound(View())
    }

    ghost predicate Valid()
      reads this, prioIter
    {
      Sound(View())
    }

    constructor (queueSize: int, priLevel: nat)
      ensures Valid() && fresh(prioIter)
      ensures content == [] && tokens == 0 && queSize == queueSize && prioIter.Length == priLevel
    {
      queue, queSize, tokens, nextId, content := [], queueSize, 0, 0, [];
      prioIter := new Iter[priLevel](_ => End);
    }

    /** setParam puts every iterator at the front: right exactly for an empty queue. */
    method SetParam(queueSize: int, priLevel: nat)
      requires ListValid()
      modifies this`queSize, this`prioIter
      ensures ListValid() && fresh(prioIter)
      ensures queSize == queueSize && prioIter.Length == priLevel
      ensures Valid() <==> content == []
    {
      queSize := queueSize;
      prioIter := new Iter[priLevel];
      var front := IterAt(queue, 0);
      for i := 0 to priLevel
        modifies prioIter
        invariant forall p | 0 <= p < i :: prioIter[p] == front
      {
        prioIter[i] := front;
      }
      if content != [] && InLevels(content, priLevel) {
        assert content[0].prio >= 0;
        BoundarySplits(content, 0);
        assert Boundary(content, 0) > 0;
        assert prioIter[..][0] == front;
      }
    }

    method SendMessage(message: T, priority: int) returns (ok: bool)
      requires Valid()
      modifies this, prioIter
      ensures Valid() && prioIter == old(prioIter) && queSize == old(queSize)
      ensures ok <==> 0 <= priority < prioIter.Length && old(|queue|) < queSize
      ensures content == if ok then Enqueue(old(content), Entry(message, priority)) else old(content)
      ensures tokens == old(tokens) + if ok then 1 else 0
      ensures View() == if ok then InsertInto(old(View()), Entry(message, priority)) else old(View())
    {
      hide Sound, Enqueue, Inserted, PosOf;
      if priority < 0 || priority >= prioIter.Length {
        return false;
      }
      if |queue| >= queSize {
        return false;
      }
      ghost var its := prioIter[..];
      ghost var e := Entry(message, priority);
      InsertSound(View(), e);
      var oldIter := prioIter[priority];
      var pos := PosOf(queue, oldIter);
      var node := Node(nextId, message);
      queue := Inserted(queue, pos, node);
      var newIter := At(node.id);
      var i := priority + 1;
      while i < prioIter.Length
        modifies prioIter
        invariant priority < i <= prioIter.Length
        invariant MovedUp(prioIter[..], oldIter, newIter, i) == MovedUp(its, oldIter, newIter, priority + 1)
      {
        if prioIter[i] == oldIter {
          ghost var here := prioIter[..];
          prioIter[i] := newIter;
          assert prioIter[..] == here[i := newIter];
        } else {
          break;
        }
        i := i + 1;
      }
      nextId := nextId + 1;
      content := Enqueue(content, e);
      tokens := tokens + 1;
      ok := true;
    }

    /**
     The part of recvMessage after a token was obtained, under the lock. The
     token itself was taken from the semaphore before.
     */
    method TakeFront(bDeque: bool) returns (message: T)
      requires Valid() && queue != []
      modifies this, prioIter
      ensures Valid() && prioIter == old(prioIter) && queSize == old(queSize)
      ensures message == old(content)[0].msg
      ensures content == if bDeque then old(content)[1..] else old(content)
      ensures tokens == old(tokens) + if bDeque then 0 else 1
      ensures View() == if bDeque then PopFront(old(View())) else old(View())
    {
      hide Sorted, Distinct, Iterators, InLevels;
      message := queue[0].msg;
      if !bDeque {
        tokens := tokens + 1;
        return;
      }
      ghost var its := prioIter[..];
      PopFrontSound(View());
      var front, second := IterAt(queue, 0), IterAt(queue, 1);
      var i := prioIter.Length - 1;
      while i >= 0
        modifies prioIter
        invariant -1 <= i < prioIter.Length
        invariant MovedDown(prioIter[..], front, second, i) == MovedDown(its, front, second, |its| - 1)
      {
        if prioIter[i] == front {
          ghost var here := prioIter[..];
          prioIter[i] := second;
          assert prioIter[..] == here[i := second];
        } else {
          break;
        }
        i := i - 1;
      }
      queue := queue[1..];
      content := content[1..];
    }

    /**
     recvMessage with no other thread about: a pendFor then times out, and a pend without
     a limit, which would block for ever, is excluded.
     */
    method RecvMessage(timeWait: int, wait: bool, bDeque: bool) returns (ok: bool, message: Option<T>)
      requires Valid() && tokens <= |content|
      requires tokens > 0 || !wait || timeWait != 0
      modifies this, prioIter
      ensures Valid() && prioIter == old(prioIter) && queSize == old(queSize)
      ensures ok <==> timeWait >= 0 && old(tokens) > 0
      ensures message == if ok then Some(old(content)[0].msg) else None
      ensures content == if ok && bDeque then old(content)[1..] else old(content)
      ensures tokens == old(tokens) - if ok && bDeque then 1 else 0
    {
      hide Boundary, Sorted, Distinct;
      if timeWait < 0 || tokens == 0 {
        return false, None;
      }
      tokens := tokens - 1;
      var front := TakeFront(bDeque);
      return true, Some(front);
    }

    /** clean drops messages from the back while it gets tokens for them. */
    method Clean()
      requires Valid()
      modifies this
      ensures ListValid() && prioIter == old(prioIter) && queSize == old(queSize)
      ensures var keep := if old(tokens) < |old(content)| then |old(content)| - old(tokens) else 0;
              && View() == KeepFirst(old(View()), keep)
              && content == old(content)[..keep]
              && tokens == old(tokens) - (|old(content)| - keep)
              && (Valid() <==> CleanSafe(old(content), keep, prioIter.Length))
    {
      hide Sorted, Distinct, InLevels, Iterators, CleanSafe;
      while queue != []
        modifies this`queue, this`tokens, this`content
        invariant |queue| <= |old(queue)| && tokens == old(tokens) - (|old(queue)| - |queue|)
        invariant queue == old(queue)[..|queue|] && content == old(content)[..|queue|]
      {
        if tokens > 0 {
          tokens := tokens - 1;
          queue := queue[..|queue| - 1];
          content := content[..|content| - 1];
        } else {
          break;
        }
      }
      KeepSoundIff(old(View()), |queue|);
    }
  }

  /** With two levels a single message of the lower one is enough for clean to strand an iterator. */
  method CleanStrands<T>(message: T) returns (que: MsgQue<T>)
    ensures fresh(que) && que.content == [] && !que.Valid()
  {
    que := new MsgQue<T>(1, 2);
    var ok := que.SendMessage(message, 0);
    var e := Entry(message, 0);
    assert que.content == [e];
    que.Clean();
    assert !CleanSafe([e], 0, 2) by {
      assert [e][0].prio != PrioBefore([e], 0, 2);
    }
  }
}
