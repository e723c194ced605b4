/**
 TMsgQue's threads on the real structure: the machine of MsgQueThreads with the linked list and the
 boundary iterators that its locked steps change, by the same functions as the class. Inserting at
 an iterator whose node clean has erased is undefined.
 */
module MsgQueLinked {
  import opened Base
  import opened PriorityQueue
  import opened MsgQue
  import T = MsgQueThreads

  datatype Threads<M> = Threads(s: T.Queue<M>, list: seq<Node<M>>, its: seq<Iter>, nextId: nat)

  datatype Result<M> = Disabled | Undefined | To(l: Threads<M>)

  function LinkedOf<M>(l: Threads<M>): Linked<M> {
    Linked(l.s.queue, l.list, l.its, l.nextId)
  }

  /** The machine goes on to s, the structure to k. */
  function With<M>(s: T.Queue<M>, k: Linked<M>): Threads<M> {
    Threads(s, k.list, k.its, k.nextId)
  }

  function Init<M>(levels: nat): Threads<M> {
    Threads(T.Init(), [], seq(levels, _ => End), 0)
  }

  predicate PointsInto<M>(it: Iter, list: seq<Node<M>>) {
    it == End || exists i :: 0 <= i < |list| && list[i].id == it.id
  }

  /** What a step of the threads does to list and iterators. */
  function Follow<M(==)>(l: Threads<M>, ev: T.Event<M>, next: T.Queue<M>): Result<M> {
    var k := LinkedOf(l);
    match ev
    case Insert(t) =>
      var pc := T.PcOf(l.s, t);
      if next.queue == l.s.queue || !pc.Sending? || !(0 <= pc.e.prio < |l.its|) then To(l.(s := next))
      else if !PointsInto(l.its[pc.e.prio], l.list) then Undefined
      else To(With(next, InsertInto(k, pc.e)))
    case Take(_) =>
      if next.queue == l.s.queue || l.list == [] || !SameLength(k) then To(l.(s := next))
      else To(With(next, PopFront(k)))
    case Drop(_) =>
      if l.list == [] || !SameLength(k) then To(l.(s := next)) else To(With(next, KeepFirst(k, |l.list| - 1)))
    case _ => To(l.(s := next))
  }

  function Step<M(==)>(c: T.Limits, l: Threads<M>, ev: T.Event<M>): Result<M> {
    match T.Step(c, l.s, ev)
    case Disabled => Disabled
    case Undefined => Undefined
    case To(next) => Follow(l, ev, next)
  }

  function Run<M(==)>(c: T.Limits, l: Threads<M>, evs: seq<T.Event<M>>): Result<M>
    decreases |evs|
  {
    if evs == [] then To(l)
    else
      match Step(c, l, evs[0])
      case Disabled => Disabled
      case Undefined => Undefined
      case To(next) => Run(c, next, evs[1..])
  }

  // ---------------------------------------------------------------- the invariant

  ghost predicate Inv<M>(c: T.Limits, l: Threads<M>) {
    T.Inv(c, l.s) && |l.its| == c.levels && Sound(LinkedOf(l))
  }

  /** Does a drop, if this is one, leave the iterators alone? */
  predicate SafeDrop<M>(c: T.Limits, l: Threads<M>, ev: T.Event<M>) {
    ev.Drop? && l.s.queue != [] ==> CleanSafe(l.s.queue, |l.s.queue| - 1, c.levels)
  }

  /** Every drop of the run does. */
  predicate SafeDrops<M(==)>(c: T.Limits, l: Threads<M>, evs: seq<T.Event<M>>)
    decreases |evs|
  {
    evs == [] || (SafeDrop(c, l, evs[0]) && (Step(c, l, evs[0]).To? ==> SafeDrops(c, Step(c, l, evs[0]).l, evs[1..])))
  }

  lemma BoundaryPoints<M>(k: Linked<M>, p: nat)
    requires Sound(k) && p < |k.its|
    ensures PointsInto(k.its[p], k.list)
  {
    hide Sorted, Distinct, Boundary;
    assert AtBoundary(k.its[p], k.content, k.list, p);
    var b := Boundary(k.content, p);
    assert b < |k.list| ==> k.list[b].id == k.list[b].id;
  }

  /** What the locked steps do to the queue of messages. */
  lemma QueueSteps<M>(c: T.Limits, s: T.Queue<M>, ev: T.Event<M>)
    requires T.Step(c, s, ev).To?
    ensures var next := T.Step(c, s, ev).s;
            match ev
            case Insert(t) =>
              next.queue != s.queue ==> T.PcOf(s, t).Sending? && next.queue == Enqueue(s.queue, T.PcOf(s, t).e)
            case Take(_) => next.queue != s.queue ==> s.queue != [] && next.queue == s.queue[1..]
            case Drop(_) => s.queue != [] && next.queue == s.queue[..|s.queue| - 1]
            case _ => next.queue == s.queue
  {
    hide Boundary;
  }

  lemma {:induction false} StepInv<M>(c: T.Limits, l: Threads<M>, ev: T.Event<M>)
    requires Inv(c, l) && SafeDrop(c, l, ev)
    ensures !Step(c, l, ev).Undefined?
    ensures Step(c, l, ev).To? ==> Inv(c, Step(c, l, ev).l)
  {
    hide T.Step, T.Inv, Enqueue, InsertInto, PopFront, CleanSafe, Sorted, Distinct, Iterators;
    T.StepInv(c, l.s, ev);
    if T.Step(c, l.s, ev).To? {
      QueueSteps(c, l.s, ev);
      FollowSound(c, l, ev, T.Step(c, l.s, ev).s);
    }
  }

  lemma FollowSound<M>(c: T.Limits, l: Threads<M>, ev: T.Event<M>, next: T.Queue<M>)
    requires T.Inv(c, l.s) && |l.its| == c.levels && Sound(LinkedOf(l)) && SafeDrop(c, l, ev)
    requires match ev
             case Insert(t) =>
               next.queue != l.s.queue ==> T.PcOf(l.s, t).Sending? && next.queue == Enqueue(l.s.queue, T.PcOf(l.s, t).e)
             case Take(_) => next.queue != l.s.queue ==> l.s.queue != [] && next.queue == l.s.queue[1..]
             case Drop(_) => l.s.queue != [] && next.queue == l.s.queue[..|l.s.queue| - 1]
             case _ => next.queue == l.s.queue
    ensures var r := Follow(l, ev, next);
            r.To? && r.l.s == next && |r.l.its| == c.levels && Sound(LinkedOf(r.l))
  {
    hide Enqueue, CleanSafe, Sorted, Distinct, Iterators, InLevels, PointsInto, Boundary;
    var k := LinkedOf(l);
    match ev
    case Insert(t) =>
      if next.queue != l.s.queue {
        var e := T.PcOf(l.s, t).e;
        BoundaryPoints(k, e.prio);
        InsertSound(k, e);
      }
    case Take(_) =>
      if next.queue != l.s.queue {
        PopFrontSound(k);
      }
    case Drop(_) => KeepSoundIff(k, |l.list| - 1);
    case _ =>
  }

  lemma {:induction false} RunInv<M>(c: T.Limits, l: Threads<M>, evs: seq<T.Event<M>>)
    requires Inv(c, l) && SafeDrops(c, l, evs)
    ensures !Run(c, l, evs).Undefined?
    ensures Run(c, l, evs).To? ==> Inv(c, Run(c, l, evs).l)
    decreases |evs|
  {
    hide Inv, Step, SafeDrop;
    if evs != [] {
      StepInv(c, l, evs[0]);
      if Step(c, l, evs[0]).To? {
        RunInv(c, Step(c, l, evs[0]).l, evs[1..]);
      }
    }
  }

  lemma StepRefines<M>(c: T.Limits, l: Threads<M>, ev: T.Event<M>)
    requires Step(c, l, ev).To?
    ensures T.Step(c, l.s, ev) == T.To(Step(c, l, ev).l.s)
  {
    hide T.Step, InsertInto, PopFront, KeepFirst, PointsInto;
  }

  /** A run of the real structure is a run of the queue of messages. */
  lemma {:induction false} RunRefines<M>(c: T.Limits, l: Threads<M>, evs: seq<T.Event<M>>)
    requires Run(c, l, evs).To?
    ensures T.Run(c, l.s, evs) == T.To(Run(c, l, evs).l.s)
    decreases |evs|
  {
    hide Step, T.Step;
    if evs != [] {
      StepRefines(c, l, evs[0]);
      RunRefines(c, Step(c, l, evs[0]).l, evs[1..]);
    }
  }

  lemma InitInv<M>(c: T.Limits)
    ensures Inv(c, Init<M>(c.levels))
  {
    T.InitInv<M>(c);
  }

  /**
   Over every run of any threads whose drops are safe: nothing undefined happens, each iterator sits
   just after the messages of its priority or more, and the messages are those of the queue machine.
   */
  lemma {:induction false} IteratorsKept<M>(c: T.Limits, evs: seq<T.Event<M>>)
    requires SafeDrops(c, Init<M>(c.levels), evs)
    ensures !Run(c, Init<M>(c.levels), evs).Undefined?
    ensures Run(c, Init<M>(c.levels), evs).To? ==>
              var l := Run(c, Init<M>(c.levels), evs).l;
              && Sound(LinkedOf(l)) && |l.its| == c.levels
              && T.Run(c, T.Init(), evs) == T.To(l.s)
  {
    hide Run, SafeDrops, T.Run, Sound;
    InitInv<M>(c);
    RunInv(c, Init<M>(c.levels), evs);
    if Run(c, Init<M>(c.levels), evs).To? {
      RunRefines(c, Init<M>(c.levels), evs);
    }
  }

  // ---------------------------------------------------------------- when clean is safe for good

  /** One level, or no room for a message: no drop can strand an iterator. */
  predicate Harmless(c: T.Limits) {
    c.levels <= 1 || c.capacity <= 0
  }

  lemma HarmlessDrop<M>(c: T.Limits, l: Threads<M>, ev: T.Event<M>)
    requires Inv(c, l) && Harmless(c)
    ensures SafeDrop(c, l, ev)
  {
    hide Sorted, Distinct, Iterators;
    if l.s.queue != [] {
      assert 0 <= l.s.queue[0].prio < c.levels;
    }
  }

  lemma {:induction false} HarmlessDrops<M>(c: T.Limits, l: Threads<M>, evs: seq<T.Event<M>>)
    requires Inv(c, l) && Harmless(c)
    ensures SafeDrops(c, l, evs)
    decreases |evs|
  {
    hide Inv, Step, SafeDrop, Harmless;
    if evs != [] {
      HarmlessDrop(c, l, evs[0]);
      StepInv(c, l, evs[0]);
      if Step(c, l, evs[0]).To? {
        HarmlessDrops(c, Step(c, l, evs[0]).l, evs[1..]);
      }
    }
  }

  /** No run of any threads inserts at an erased node. */
  ghost predicate AlwaysDefined(c: T.Limits) {
    forall evs :: !Run(c, Init<int>(c.levels), evs).Undefined?
  }

  lemma {:induction false} RunSnoc<M>(c: T.Limits, l: Threads<M>, evs: seq<T.Event<M>>, ev: T.Event<M>)
    requires Run(c, l, evs).To?
    ensures Run(c, l, evs + [ev]) == Step(c, Run(c, l, evs).l, ev)
    decreases |evs|
  {
    hide Step;
    if evs == [] {
      var one := [ev];
      assert evs + [ev] == one && one[0] == ev && one[1..] == [];
      assert Run(c, l, one) == Step(c, l, ev);
    } else {
      assert (evs + [ev])[0] == evs[0] && (evs + [ev])[1..] == evs[1..] + [ev];
      RunSnoc(c, Step(c, l, evs[0]).l, evs[1..], ev);
    }
  }

  lemma Extend<M>(c: T.Limits, evs: seq<T.Event<M>>, l: Threads<M>, ev: T.Event<M>)
    returns (evs': seq<T.Event<M>>, l': Threads<M>)
    requires Run(c, Init<M>(c.levels), evs) == To(l) && Step(c, l, ev).To?
    ensures evs' == evs + [ev] && l' == Step(c, l, ev).l && Run(c, Init<M>(c.levels), evs') == To(l')
  {
    hide Step;
    evs', l' := evs + [ev], Step(c, l, ev).l;
    RunSnoc(c, Init<M>(c.levels), evs, ev);
  }

  /** A message of the lowest level goes in; the iterator of the level above sits on its node. */
  lemma FirstSend<M>(c: T.Limits, m: M) returns (evs: seq<T.Event<M>>, l: Threads<M>)
    requires !Harmless(c)
    ensures Run(c, Init<M>(c.levels), evs) == To(l)
    ensures l.s.queue == [Entry(m, 0)] && l.s.tokens == 1 && l.s.lock.None? && T.PcOf(l.s, 0).Idle?
    ensures l.list == [Node(0, m)] && |l.its| == c.levels && l.its[1] == At(0)
  {
    hide Run;
    var e := Entry(m, 0);
    StartRun<M>(c);
    evs, l := Extend(c, [], Init<M>(c.levels), T.CallSend(0, e));
    var its := l.its;
    var stop := MovedUpStops(its, End, At(0), 1);
    assert its[1] == End;
    evs, l := Extend(c, evs, l, T.Insert(0));
    assert l.list == [Node(0, m)];
    evs, l := Extend(c, evs, l, T.Post(0));
  }

  lemma StartRun<M>(c: T.Limits)
    ensures Run(c, Init<M>(c.levels), []) == To(Init<M>(c.levels))
  {
  }

  /** clean erases that node, and the next message of the level above goes in before nothing. */
  lemma Strand<M>(c: T.Limits, m: M) returns (evs: seq<T.Event<M>>)
    requires !Harmless(c)
    ensures Run(c, Init<M>(c.levels), evs).Undefined?
  {
    hide Run;
    var l;
    evs, l := FirstSend(c, m);
    evs, l := Extend(c, evs, l, T.CallClean(0));
    evs, l := Extend(c, evs, l, T.CleanTest(0));
    evs, l := Extend(c, evs, l, T.Drop(0));
    assert l.list == [] && l.s.queue == [];
    evs, l := Extend(c, evs, l, T.CleanTest(0));
    evs, l := Extend(c, evs, l, T.CallSend(0, Entry(m, 1)));
    RunSnoc(c, Init<M>(c.levels), evs, T.Insert(0));
    evs := evs + [T.Insert(0)];
  }

  /** Senders, receivers and cleaners are safe together exactly with one level (or no room at all). */
  lemma {:induction false} DefinedIff(c: T.Limits)
    ensures AlwaysDefined(c) <==> Harmless(c)
  {
    hide Run, Inv, SafeDrops;
    if Harmless(c) {
      InitInv<int>(c);
      forall evs ensures !Run(c, Init<int>(c.levels), evs).Undefined? {
        HarmlessDrops(c, Init<int>(c.levels), evs);
        RunInv(c, Init<int>(c.levels), evs);
      }
    } else {
      var evs := Strand(c, 0);
    }
  }

  lemma {:induction false} NoDropSafe<M>(c: T.Limits, l: Threads<M>, evs: seq<T.Event<M>>)
    requires T.NoDrop(evs)
    ensures SafeDrops(c, l, evs)
    decreases |evs|
  {
    hide Step;
    if evs != [] {
      assert !evs[0].Drop?;
      if Step(c, l, evs[0]).To? {
        NoDropSafe(c, Step(c, l, evs[0]).l, evs[1..]);
      }
    }
  }

  /**
   Over every run in which clean drops nothing, at any number of levels: nothing undefined happens and
   each iterator sits just after the messages of its priority or more.
   */
  lemma {:induction false} IteratorsKeptWithoutClean<M>(c: T.Limits, evs: seq<T.Event<M>>)
    requires T.NoDrop(evs)
    ensures !Run(c, Init<M>(c.levels), evs).Undefined?
    ensures Run(c, Init<M>(c.levels), evs).To? ==>
              var l := Run(c, Init<M>(c.levels), evs).l;
              && Sound(LinkedOf(l)) && |l.its| == c.levels
              && T.Run(c, T.Init(), evs) == T.To(l.s)
  {
    hide Run, SafeDrops, T.Run, Sound;
    NoDropSafe(c, Init<M>(c.levels), evs);
    IteratorsKept<M>(c, evs);
  }
}
