/**
 The queue as its callers see it: sending, taking at once, starting to wait, getting a token and
 finishing a wait each happen at one instant. In every run of the threads of MsgQueThreads, with
 their mutex, each call has its effect at an instant of its own, between its first step and its
 last; the instants, in order, accept, deliver and hand out the same messages.
 */
module MsgQueAtomic {
  import opened Base
  import opened PriorityQueue
  import T = MsgQueThreads

  /** A thread inside a blocking receive; the others are not in the map. */
  datatype Pc = Waiting(peek: bool, timed: bool) | TimedOut | Holding(peek: bool)

  datatype Atomic<M> = Atomic(
    queue: seq<Entry<M>>,
    tokens: nat,
    pcs: map<T.Tid, Pc>,
    accepted: seq<Entry<M>>,                // history: every message sent
    delivered: seq<Entry<M>>,               // history: every message dequeued
    handed: seq<(T.Tid, Entry<M>)>)         // history: what each receive returned

  datatype Event<M> =
    | Send(t: T.Tid, e: Entry<M>)
    | Refuse(t: T.Tid)                      // a send to a full queue
    | TryTake(t: T.Tid)
    | TryPeek(t: T.Tid)
    | Fail(t: T.Tid)                        // a receive that does not wait, without a token
    | Wait(t: T.Tid, peek: bool, timed: bool)
    | Pend(t: T.Tid)
    | Timeout(t: T.Tid)
    | GiveUp(t: T.Tid)
    | Finish(t: T.Tid)
    | DropBack(t: T.Tid)

  function Remove(pcs: map<T.Tid, Pc>, t: T.Tid): map<T.Tid, Pc> {
    map u | u in pcs && u != t :: pcs[u]
  }

  /** The front message goes to t. */
  function Hand<M>(a: Atomic<M>, t: T.Tid): Atomic<M>
    requires a.queue != []
  {
    a.(handed := a.handed + [(t, a.queue[0])])
  }

  /** And leaves the queue. */
  function Deliver<M>(a: Atomic<M>, t: T.Tid): Atomic<M>
    requires a.queue != []
  {
    Hand(a, t).(queue := a.queue[1..], delivered := a.delivered + [a.queue[0]])
  }

  /** None where the step is not enabled. */
  function Step<M>(c: T.Limits, a: Atomic<M>, ev: Event<M>): Option<Atomic<M>> {
    match ev
    case Send(_, e) =>
      if !(0 <= e.prio < c.levels) || |a.queue| >= c.capacity then None
      else Some(a.(queue := Enqueue(a.queue, e), tokens := a.tokens + 1, accepted := a.accepted + [e]))
    case Refuse(_) => if |a.queue| >= c.capacity then Some(a) else None
    case TryTake(t) =>
      if a.tokens == 0 || a.queue == [] then None else Some(Deliver(a, t).(tokens := a.tokens - 1))
    case TryPeek(t) =>
      if a.tokens == 0 || a.queue == [] then None else Some(Hand(a, t))
    case Fail(_) => if a.tokens == 0 then Some(a) else None
    case Wait(t, peek, timed) =>
      if t in a.pcs || a.tokens > 0 then None else Some(a.(pcs := a.pcs[t := Waiting(peek, timed)]))
    case Pend(t) =>
      if t !in a.pcs || !a.pcs[t].Waiting? || a.tokens == 0 then None
      else Some(a.(pcs := a.pcs[t := Holding(a.pcs[t].peek)], tokens := a.tokens - 1))
    case Timeout(t) =>
      if t !in a.pcs || !a.pcs[t].Waiting? || !a.pcs[t].timed then None
      else Some(a.(pcs := a.pcs[t := TimedOut]))
    case GiveUp(t) =>
      if t !in a.pcs || !a.pcs[t].TimedOut? then None else Some(a.(pcs := Remove(a.pcs, t)))
    case Finish(t) =>
      if t !in a.pcs || !a.pcs[t].Holding? || a.queue == [] then None
      else if a.pcs[t].peek then Some(Hand(a, t).(pcs := Remove(a.pcs, t), tokens := a.tokens + 1))
      else Some(Deliver(a, t).(pcs := Remove(a.pcs, t)))
    case DropBack(_) =>
      if a.tokens == 0 || a.queue == [] then None
      else Some(a.(queue := a.queue[..|a.queue| - 1], tokens := a.tokens - 1))
  }

  /**
   The atomic queue does no more than it should: it accepts a message of a level only with room, and
   refuses one only without; a receive gets a message only for a token, the front one, and fails or
   starts to wait only without a token; only a timed wait times out.
   */
  lemma {:induction false} StepMeans<M>(c: T.Limits, a: Atomic<M>, ev: Event<M>)
    requires Step(c, a, ev).Some?
    ensures ev.Send? <==> Step(c, a, ev).value.accepted != a.accepted
    ensures ev.Send? ==> |a.queue| < c.capacity && 0 <= ev.e.prio < c.levels
    ensures ev.Refuse? ==> |a.queue| >= c.capacity && Step(c, a, ev).value == a
    ensures ev.Fail? ==> a.tokens == 0 && Step(c, a, ev).value == a
    ensures ev.Wait? ==> a.tokens == 0 && ev.t !in a.pcs
    ensures ev.Timeout? ==> ev.t in a.pcs && a.pcs[ev.t].Waiting? && a.pcs[ev.t].timed
    ensures ev.GiveUp? ==> ev.t in a.pcs && a.pcs[ev.t].TimedOut?
    ensures ev.TryTake? || ev.TryPeek? || ev.DropBack? ==> a.tokens > 0
    ensures ev.Finish? ==> ev.t in a.pcs && a.pcs[ev.t].Holding?
    ensures ev.TryTake? || ev.TryPeek? || ev.Finish? <==> Step(c, a, ev).value.handed != a.handed
    ensures Step(c, a, ev).value.handed != a.handed ==>
              a.queue != [] && Step(c, a, ev).value.handed == a.handed + [(ev.t, a.queue[0])]
  {
    hide Enqueue;
    var next := Step(c, a, ev).value;
    assert ev.Send? ==> |next.accepted| == |a.accepted| + 1;
    assert ev.TryTake? || ev.TryPeek? || ev.Finish? ==> |next.handed| == |a.handed| + 1;
  }

  function Init<M>(): Atomic<M> {
    Atomic([], 0, map[], [], [], [])
  }

  function Run<M>(c: T.Limits, a: Atomic<M>, evs: seq<Event<M>>): Option<Atomic<M>>
    decreases |evs|
  {
    if evs == [] then Some(a)
    else
      match Step(c, a, evs[0])
      case None => None
      case Some(next) => Run(c, next, evs[1..])
  }

  // ---------------------------------------------------------------- the abstraction

  /** Where the thread that holds the mutex is. */
  function HolderPc<M>(s: T.Queue<M>): T.Pc<M> {
    if s.lock.Some? then T.PcOf(s, s.lock.value) else T.Idle
  }

  /** The message the holder is about to take is gone already. */
  function QueueOf<M>(s: T.Queue<M>): seq<Entry<M>> {
    var pc := HolderPc(s);
    if s.queue == [] then []
    else if pc.Taking? && !pc.peek then s.queue[1..]
    else if pc.Dropping? then s.queue[..|s.queue| - 1]
    else s.queue
  }

  /** The token the holder is about to post is there already. */
  function TokensOf<M>(s: T.Queue<M>): nat {
    var pc := HolderPc(s);
    s.tokens + if pc.Posting? || pc.Peeked? || (pc.Taking? && pc.peek) then 1 else 0
  }

  /** And it is delivered. */
  function DeliveredOf<M>(s: T.Queue<M>): seq<Entry<M>> {
    var pc := HolderPc(s);
    if s.queue != [] && pc.Taking? && !pc.peek then s.delivered + [s.queue[0]] else s.delivered
  }

  function HandedOf<M>(s: T.Queue<M>): seq<(T.Tid, Entry<M>)> {
    if s.queue != [] && s.lock.Some? && HolderPc(s).Taking? then s.handed + [(s.lock.value, s.queue[0])] else s.handed
  }

  predicate Inside<M>(pc: T.Pc<M>) {
    pc.Waiting? || pc.TimedOut? || pc.Holding?
  }

  function PcOf<M>(pc: T.Pc<M>): Pc {
    match pc
    case Waiting(peek, timed) => Waiting(peek, timed)
    case Holding(peek) => Holding(peek)
    case _ => TimedOut
  }

  function PcsOf<M>(pcs: map<T.Tid, T.Pc<M>>): map<T.Tid, Pc> {
    map t | t in pcs && Inside(pcs[t]) :: PcOf(pcs[t])
  }

  function Abs<M>(s: T.Queue<M>): Atomic<M> {
    Atomic(QueueOf(s), TokensOf(s), PcsOf(s.pcs), s.accepted, DeliveredOf(s), HandedOf(s))
  }

  lemma PcsMove<M>(pcs: map<T.Tid, T.Pc<M>>, t: T.Tid, pc: T.Pc<M>)
    ensures var before := PcsOf(pcs);
            PcsOf(pcs[t := pc]) == if Inside(pc) then before[t := PcOf(pc)] else Remove(before, t)
    ensures t in PcsOf(pcs) <==> t in pcs && Inside(pcs[t])
    ensures t in PcsOf(pcs) ==> PcsOf(pcs)[t] == PcOf(pcs[t])
    ensures t !in PcsOf(pcs) ==> Remove(PcsOf(pcs), t) == PcsOf(pcs)
  {
  }

  /** The instant a step of a thread stands for, if any. */
  function Instant<M>(s: T.Queue<M>, c: T.Limits, ev: T.Event<M>): Option<Event<M>> {
    var pc := T.PcOf(s, ev.t);
    match ev
    case Insert(t) =>
      if !pc.Sending? then None else Some(if |s.queue| < c.capacity then Send(t, pc.e) else Refuse(t))
    case TryPend(t) =>
      if !pc.Receiving? then None
      else
        Some(if s.tokens > 0 then (if pc.peek then TryPeek(t) else TryTake(t))
             else if pc.wait then Wait(t, pc.peek, pc.timed)
             else Fail(t))
    case Pend(t) => Some(Pend(t))
    case Timeout(t) => Some(Timeout(t))
    case GiveUp(t) => Some(GiveUp(t))
    case Relock(t) => Some(Finish(t))
    case CleanTest(t) => if s.queue != [] && s.tokens > 0 then Some(DropBack(t)) else None
    case _ => None
  }

  /** A token out means a message in. */
  lemma TokenMessage<M>(s: T.Queue<M>, t: T.Tid)
    requires T.LockInv(s) && T.CountInv(s)
    ensures s.tokens > 0 || T.HasToken(T.PcOf(s, t)) ==> s.queue != []
    ensures s.lock.Some? && T.HasToken(HolderPc(s)) && t != s.lock.value && (s.tokens > 0 || T.HasToken(T.PcOf(s, t)))
            ==> |s.queue| >= 2
  {
    var hs := T.Holders(s.pcs);
    if T.HasToken(T.PcOf(s, t)) {
      assert t in hs;
      if s.lock.Some? && T.HasToken(HolderPc(s)) && t != s.lock.value {
        assert {t, s.lock.value} <= hs;
        CardinalityAtLeastTwo(hs, t, s.lock.value);
      }
    }
    if s.lock.Some? && T.HasToken(HolderPc(s)) {
      assert s.lock.value in hs;
    }
  }

  lemma CardinalityAtLeastTwo(s: set<T.Tid>, a: T.Tid, b: T.Tid)
    requires a in s && b in s && a != b
    ensures |s| >= 2
  {
    assert |s - {a}| >= 1 by {
      assert b in s - {a};
    }
  }

  /** The step and its instant agree. */
  ghost predicate Refines<M>(c: T.Limits, s: T.Queue<M>, ev: T.Event<M>, next: T.Queue<M>) {
    match Instant(s, c, ev)
    case None => Abs(next) == Abs(s)
    case Some(instant) => Step(c, Abs(s), instant) == Some(Abs(next))
  }

  predicate Outside<M>(ev: T.Event<M>) {
    ev.Pend? || ev.Timeout? || ev.GiveUp?
  }

  predicate Locks<M>(ev: T.Event<M>) {
    ev.CallSend? || ev.CallRecv? || ev.CallClean? || ev.Relock?
  }

  predicate Dequeues<M>(ev: T.Event<M>) {
    ev.Take? || ev.PeekPost?
  }

  lemma OutsideRefines<M>(c: T.Limits, s: T.Queue<M>, ev: T.Event<M>)
    requires T.LockInv(s) && Outside(ev) && T.Step(c, s, ev).To?
    ensures Refines(c, s, ev, T.Step(c, s, ev).s)
  {
    hide Enqueue, PcsOf, Remove;
    PcsMove(s.pcs, ev.t, T.PcOf(T.Step(c, s, ev).s, ev.t));
  }

  lemma LocksRefines<M>(c: T.Limits, s: T.Queue<M>, ev: T.Event<M>)
    requires T.LockInv(s) && T.CountInv(s) && Locks(ev) && T.Step(c, s, ev).To?
    ensures Refines(c, s, ev, T.Step(c, s, ev).s)
  {
    hide Enqueue, PcsOf, Remove, T.Holders;
    TokenMessage(s, ev.t);
    PcsMove(s.pcs, ev.t, T.PcOf(T.Step(c, s, ev).s, ev.t));
  }

  lemma DequeuesRefines<M>(c: T.Limits, s: T.Queue<M>, ev: T.Event<M>)
    requires T.LockInv(s) && T.CountInv(s) && Dequeues(ev) && T.Step(c, s, ev).To?
    ensures Refines(c, s, ev, T.Step(c, s, ev).s)
  {
    hide Enqueue, PcsOf, Remove, T.Holders;
    TokenMessage(s, ev.t);
    PcsMove(s.pcs, ev.t, T.PcOf(T.Step(c, s, ev).s, ev.t));
  }

  lemma TryPendRefines<M>(c: T.Limits, s: T.Queue<M>, ev: T.Event<M>)
    requires T.LockInv(s) && T.CountInv(s) && ev.TryPend? && T.Step(c, s, ev).To?
    ensures Refines(c, s, ev, T.Step(c, s, ev).s)
  {
    hide Enqueue, PcsOf, Remove, T.Holders;
    TokenMessage(s, ev.t);
    PcsMove(s.pcs, ev.t, T.PcOf(T.Step(c, s, ev).s, ev.t));
  }

  lemma SendsRefine<M>(c: T.Limits, s: T.Queue<M>, ev: T.Event<M>)
    requires T.LockInv(s) && T.LevelsInv(c, s) && T.Step(c, s, ev).To? && (ev.Insert? || ev.Post?)
    ensures Refines(c, s, ev, T.Step(c, s, ev).s)
  {
    hide Enqueue, PcsOf, Remove;
    PcsMove(s.pcs, ev.t, T.PcOf(T.Step(c, s, ev).s, ev.t));
    EnqueueSome(s.queue, T.PcOf(s, ev.t));
  }

  lemma CleansRefine<M>(c: T.Limits, s: T.Queue<M>, ev: T.Event<M>)
    requires T.LockInv(s) && T.CountInv(s) && T.Step(c, s, ev).To? && (ev.CleanTest? || ev.Drop?)
    ensures Refines(c, s, ev, T.Step(c, s, ev).s)
  {
    hide Enqueue, PcsOf, Remove, T.Holders;
    TokenMessage(s, ev.t);
    PcsMove(s.pcs, ev.t, T.PcOf(T.Step(c, s, ev).s, ev.t));
  }

  lemma EnqueueSome<M>(q: seq<Entry<M>>, pc: T.Pc<M>)
    ensures pc.Sending? ==> |Enqueue(q, pc.e)| == |q| + 1
  {
  }

  /** Each step of a thread is one instant, or none. */
  lemma {:induction false} StepRefines<M>(c: T.Limits, s: T.Queue<M>, ev: T.Event<M>)
    requires T.Inv(c, s) && T.Step(c, s, ev).To?
    ensures Refines(c, s, ev, T.Step(c, s, ev).s)
  {
    hide T.Step, Refines, T.LockInv, T.CountInv, T.LevelsInv;
    if Outside(ev) {
      OutsideRefines(c, s, ev);
    } else if Locks(ev) {
      LocksRefines(c, s, ev);
    } else if Dequeues(ev) {
      DequeuesRefines(c, s, ev);
    } else if ev.TryPend? {
      TryPendRefines(c, s, ev);
    } else if ev.Insert? || ev.Post? {
      SendsRefine(c, s, ev);
    } else {
      CleansRefine(c, s, ev);
    }
  }

  lemma RunCons<M>(c: T.Limits, a: Atomic<M>, ev: Event<M>, evs: seq<Event<M>>)
    requires Step(c, a, ev).Some?
    ensures Run(c, a, [ev] + evs) == Run(c, Step(c, a, ev).value, evs)
  {
    hide Step;
    Tail(ev, evs);
  }

  /** The instants of a run, in order. */
  function Instants<M>(c: T.Limits, s: T.Queue<M>, evs: seq<T.Event<M>>): seq<Event<M>>
    decreases |evs|
  {
    if evs == [] || !T.Step(c, s, evs[0]).To? then []
    else
      var rest := Instants(c, T.Step(c, s, evs[0]).s, evs[1..]);
      match Instant(s, c, evs[0])
      case None => rest
      case Some(instant) => [instant] + rest
  }

  /** An instant is a step of its own thread, inside its call. */
  lemma {:induction false} InstantInside<M>(c: T.Limits, s: T.Queue<M>, ev: T.Event<M>)
    requires T.Step(c, s, ev).To? && Instant(s, c, ev).Some?
    ensures Instant(s, c, ev).value.t == ev.t && !T.PcOf(s, ev.t).Idle?
  {
    hide Enqueue;
  }

  predicate TakesEffect<M>(ev: T.Event<M>) {
    ev.Insert? || ev.TryPend? || ev.Relock? || ev.GiveUp?
  }

  /** A send or a receive that comes to its end has had its instant. */
  lemma {:induction false} EffectHasInstant<M>(c: T.Limits, s: T.Queue<M>, ev: T.Event<M>)
    requires T.Step(c, s, ev).To? && TakesEffect(ev)
    ensures Instant(s, c, ev).Some?
  {
    hide Enqueue;
  }

  /** Every run of any threads is the run of its instants. */
  lemma {:induction false} RunRefines<M>(c: T.Limits, s: T.Queue<M>, evs: seq<T.Event<M>>)
    requires T.Inv(c, s) && T.Run(c, s, evs).To?
    ensures Run(c, Abs(s), Instants(c, s, evs)) == Some(Abs(T.Run(c, s, evs).s))
    decreases |evs|
  {
    hide T.Inv, T.Step, Step, Abs, Instant;
    if evs != [] {
      T.StepInv(c, s, evs[0]);
      StepRefines(c, s, evs[0]);
      var next := T.Step(c, s, evs[0]).s;
      RunRefines(c, next, evs[1..]);
      if Instant(s, c, evs[0]).Some? {
        RunCons(c, Abs(s), Instant(s, c, evs[0]).value, Instants(c, next, evs[1..]));
      }
    }
  }

  /**
   The queue is linearizable: from the empty queue on, the instants of any threads are a run of the
   atomic queue, and whenever the mutex is free it holds, has accepted, delivered and handed to each
   thread the same messages.
   */
  lemma {:induction false} Linearizable<M>(c: T.Limits, evs: seq<T.Event<M>>)
    requires T.Run(c, T.Init<M>(), evs).To?
    ensures var s := T.Run(c, T.Init<M>(), evs).s;
            && Run(c, Init<M>(), Instants(c, T.Init<M>(), evs)) == Some(Abs(s))
            && (s.lock.None? ==>
                  Abs(s) == Atomic(s.queue, s.tokens, PcsOf(s.pcs), s.accepted, s.delivered, s.handed))
  {
    hide T.Run, Run, Instants;
    T.InitInv<M>(c);
    RunRefines(c, T.Init<M>(), evs);
    InitAbs<M>();
  }

  lemma InitAbs<M>()
    ensures Abs(T.Init<M>()) == Init<M>()
  {
    assert PcsOf<M>(map[]) == map[];
  }
}
