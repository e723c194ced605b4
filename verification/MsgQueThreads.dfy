/**
 TMsgQue under any number of threads. Each event is one atomic step of one
 thread: a semaphore operation, or a piece of work done under the mutex. A
 blocked receiver gets its token outside the mutex, so tokens and messages agree
 only when the tokens in flight are counted.
 */
module MsgQueThreads {
  import opened Base
  import opened PriorityQueue

  type Tid = nat

  /** Where a thread is in a call. Locked positions hold the mutex. */
  datatype Pc<T> =
    | Idle
    | Sending(e: Entry<T>)                  // locked, before the capacity test
    | Posting                               // locked, message inserted, before post
    | Receiving(peek: bool, wait: bool, timed: bool)  // locked, before tryPend
    | Waiting(peek: bool, timed: bool)      // in pend or pendFor
    | TimedOut                              // pendFor gave up, before locking again
    | Holding(peek: bool)                   // got a token, before locking again
    | Taking(peek: bool)                    // locked, with a token
    | Peeked                                // locked, message copied, before post
    | Cleaning                              // locked, at clean's loop test
    | Dropping                              // locked, with a token, before pop_back

  datatype Queue<T> = Queue(
    queue: seq<Entry<T>>,
    tokens: nat,
    lock: Option<Tid>,
    pcs: map<Tid, Pc<T>>,
    accepted: seq<Entry<T>>,                // history: every message sent
    delivered: seq<Entry<T>>,               // history: every message dequeued
    handed: seq<(Tid, Entry<T>)>,           // history: every message a receive returned, peeks included
    cleaned: bool)                          // has clean dropped anything?

  datatype Limits = Limits(capacity: int, levels: nat)

  datatype Event<T> =
    | CallSend(t: Tid, e: Entry<T>)
    | Insert(t: Tid)
    | Post(t: Tid)
    | CallRecv(t: Tid, peek: bool, wait: bool, timed: bool)
    | TryPend(t: Tid)
    | Pend(t: Tid)
    | Timeout(t: Tid)
    | GiveUp(t: Tid)
    | Relock(t: Tid)
    | Take(t: Tid)
    | PeekPost(t: Tid)
    | CallClean(t: Tid)
    | CleanTest(t: Tid)
    | Drop(t: Tid)

  /** A step is not enabled, or undefined (front or pop_back of an empty list), or leads on. */
  datatype Result<T> = Disabled | Undefined | To(s: Queue<T>)

  function PcOf<T>(s: Queue<T>, t: Tid): Pc<T> {
    if t in s.pcs then s.pcs[t] else Idle
  }

  function Goto<T>(s: Queue<T>, t: Tid, pc: Pc<T>): Queue<T> {
    s.(pcs := s.pcs[t := pc])
  }

  /** Take the mutex if it is free. */
  function Acquire<T>(s: Queue<T>, t: Tid, pc: Pc<T>): Result<T> {
    if s.lock.None? then To(Goto(s, t, pc).(lock := Some(t))) else Disabled
  }

  function Release<T>(s: Queue<T>, t: Tid, pc: Pc<T>): Queue<T> {
    Goto(s, t, pc).(lock := None)
  }

  function Init<T>(): Queue<T> {
    Queue([], 0, None, map[], [], [], [], false)
  }

  function Step<T>(c: Limits, s: Queue<T>, ev: Event<T>): Result<T> {
    var pc := PcOf(s, ev.t);
    match ev
    case CallSend(t, e) =>
      if pc.Idle? && 0 <= e.prio < c.levels then Acquire(s, t, Sending(e)) else Disabled
    case Insert(t) =>
      if !pc.Sending? then Disabled
      else if |s.queue| >= c.capacity then To(Release(s, t, Idle))
      else To(Goto(s, t, Posting).(queue := Enqueue(s.queue, pc.e), accepted := s.accepted + [pc.e]))
    case Post(t) =>
      if pc.Posting? then To(Release(s, t, Idle).(tokens := s.tokens + 1)) else Disabled
    case CallRecv(t, peek, wait, timed) =>
      if pc.Idle? then Acquire(s, t, Receiving(peek, wait, timed)) else Disabled
    case TryPend(t) =>
      if !pc.Receiving? then Disabled
      else if s.tokens > 0 then To(Goto(s, t, Taking(pc.peek)).(tokens := s.tokens - 1))
      else To(Release(s, t, if pc.wait then Waiting(pc.peek, pc.timed) else Idle))
    case Pend(t) =>
      if pc.Waiting? && s.tokens > 0 then To(Goto(s, t, Holding(pc.peek)).(tokens := s.tokens - 1)) else Disabled
    case Timeout(t) =>
      if pc.Waiting? && pc.timed then To(Goto(s, t, TimedOut)) else Disabled
    case GiveUp(t) =>
      if pc.TimedOut? && s.lock.None? then To(Goto(s, t, Idle)) else Disabled
    case Relock(t) =>
      if pc.Holding? then Acquire(s, t, Taking(pc.peek)) else Disabled
    case Take(t) =>
      if !pc.Taking? then Disabled
      else if s.queue == [] then Undefined
      else if pc.peek then To(Goto(s, t, Peeked).(handed := s.handed + [(t, s.queue[0])]))
      else To(Release(s, t, Idle).(queue := s.queue[1..], delivered := s.delivered + [s.queue[0]],
              handed := s.handed + [(t, s.queue[0])]))
    case PeekPost(t) =>
      if pc.Peeked? then To(Release(s, t, Idle).(tokens := s.tokens + 1)) else Disabled
    case CallClean(t) =>
      if pc.Idle? then Acquire(s, t, Cleaning) else Disabled
    case CleanTest(t) =>
      if !pc.Cleaning? then Disabled
      else if s.queue != [] && s.tokens > 0 then To(Goto(s, t, Dropping).(tokens := s.tokens - 1))
      else To(Release(s, t, Idle))
    case Drop(t) =>
      if !pc.Dropping? then Disabled
      else if s.queue == [] then Undefined
      else To(Goto(s, t, Cleaning).(queue := s.queue[..|s.queue| - 1], cleaned := true))
  }

  /** A run: the events happen one after the other, each enabled. */
  function Run<T>(c: Limits, s: Queue<T>, evs: seq<Event<T>>): Result<T>
    decreases |evs|
  {
    if evs == [] then To(s)
    else
      match Step(c, s, evs[0])
      case Disabled => Disabled
      case Undefined => Undefined
      case To(next) => Run(c, next, evs[1..])
  }

  // ---------------------------------------------------------------- the invariant

  predicate Locked<T>(pc: Pc<T>) {
    pc.Sending? || pc.Posting? || pc.Receiving? || pc.Taking? || pc.Peeked? || pc.Cleaning? || pc.Dropping?
  }

  /** The thread has taken a token and not yet spent it. */
  predicate HasToken<T>(pc: Pc<T>) {
    pc.Holding? || pc.Taking? || pc.Peeked? || pc.Dropping?
  }

  function Holders<T>(pcs: map<Tid, Pc<T>>): set<Tid> {
    set t | t in pcs && HasToken(pcs[t])
  }

  /** A message inserted whose token is not posted yet. */
  function Unposted<T>(s: Queue<T>): nat {
    if s.lock.Some? && PcOf(s, s.lock.value).Posting? then 1 else 0
  }

  predicate LockInv<T>(s: Queue<T>) {
    && (forall t <- s.pcs :: Locked(s.pcs[t]) ==> s.lock == Some(t))
    && (s.lock.Some? ==> Locked(PcOf(s, s.lock.value)))
  }

  predicate CountInv<T>(s: Queue<T>) {
    s.tokens + |Holders(s.pcs)| + Unposted(s) == |s.queue|
  }

  predicate BoundInv<T>(c: Limits, s: Queue<T>) {
    && s.queue != [] ==> |s.queue| <= c.capacity
  }

  predicate LevelsOf<T>(q: seq<Entry<T>>, levels: nat) {
    forall i | 0 <= i < |q| :: 0 <= q[i].prio < levels
  }

  /** Priorities on their way in or queued are among the levels. */
  predicate LevelsInv<T>(c: Limits, s: Queue<T>) {
    && (forall t <- s.pcs :: s.pcs[t].Sending? ==> 0 <= s.pcs[t].e.prio < c.levels)
    && LevelsOf(s.queue, c.levels)
  }

  /** For each priority: what was accepted is what was delivered, then what is queued. */
  ghost predicate LinesInv<T>(s: Queue<T>) {
    && Sorted(s.queue)
    && (!s.cleaned ==>
          forall p :: OfPriority(s.accepted, p) == OfPriority(s.delivered, p) + OfPriority(s.queue, p))
  }

  ghost predicate Inv<T>(c: Limits, s: Queue<T>) {
    LockInv(s) && CountInv(s) && BoundInv(c, s) && LevelsInv(c, s) && LinesInv(s)
  }

  lemma {:induction false} HoldersGoto<T>(pcs: map<Tid, Pc<T>>, t: Tid, pc: Pc<T>)
    ensures |Holders(pcs[t := pc])| + (if t in pcs && HasToken(pcs[t]) then 1 else 0)
         == |Holders(pcs)| + (if HasToken(pc) then 1 else 0)
  {
    var before, after := Holders(pcs), Holders(pcs[t := pc]);
    if HasToken(pc) {
      assert after == before + {t};
    } else {
      assert after == before - {t};
    }
  }

  /** The three ways a step moves a thread, and the mutex with it. */
  lemma LockMoves<T>(s: Queue<T>, t: Tid, pc: Pc<T>)
    requires LockInv(s)
    ensures Locked(PcOf(s, t)) <==> s.lock == Some(t)
    ensures (Locked(pc) <==> s.lock == Some(t)) ==> LockInv(Goto(s, t, pc))
    ensures s.lock.None? && Locked(pc) ==> LockInv(Goto(s, t, pc).(lock := Some(t)))
    ensures s.lock == Some(t) && !Locked(pc) ==> LockInv(Release(s, t, pc))
  {
  }

  /** LockInv looks at the mutex and the threads only. */
  lemma LockSame<T>(s: Queue<T>, next: Queue<T>)
    requires LockInv(s) && next.lock == s.lock && next.pcs == s.pcs
    ensures LockInv(next)
  {
  }

  lemma {:induction false} StepLock<T>(c: Limits, s: Queue<T>, ev: Event<T>)
    requires LockInv(s) && Step(c, s, ev).To?
    ensures LockInv(Step(c, s, ev).s)
  {
    hide Enqueue, LockInv;
    var next := Step(c, s, ev).s;
    var pc := PcOf(next, ev.t);
    LockMoves(s, ev.t, pc);
    var moved := Goto(s, ev.t, pc).(lock := next.lock);
    assert moved.pcs == next.pcs;
    assert LockInv(moved);
    LockSame(moved, next);
  }

  lemma {:induction false} StepCount<T>(c: Limits, s: Queue<T>, ev: Event<T>)
    requires LockInv(s) && CountInv(s) && Step(c, s, ev).To?
    ensures CountInv(Step(c, s, ev).s)
  {
    hide Holders;
    HoldersGoto(s.pcs, ev.t, PcOf(Step(c, s, ev).s, ev.t));
  }

  lemma {:induction false} StepBound<T>(c: Limits, s: Queue<T>, ev: Event<T>)
    requires BoundInv(c, s) && Step(c, s, ev).To?
    ensures BoundInv(c, Step(c, s, ev).s)
  {
    hide Boundary;
  }

  lemma {:induction false} StepLevels<T>(c: Limits, s: Queue<T>, ev: Event<T>)
    requires LevelsInv(c, s) && Step(c, s, ev).To?
    ensures LevelsInv(c, Step(c, s, ev).s)
  {
    hide Enqueue, Boundary, LevelsOf;
    var next := Step(c, s, ev).s;
    if ev.Insert? && next.queue != s.queue {
      LevelsEnqueue(s.queue, PcOf(s, ev.t).e, c.levels);
    } else if ev.Take? && next.queue != s.queue {
      LevelsPart(s.queue, 1, |s.queue|, c.levels);
      assert s.queue[1..|s.queue|] == next.queue;
    } else if ev.Drop? {
      LevelsPart(s.queue, 0, |s.queue| - 1, c.levels);
      assert s.queue[0..|s.queue| - 1] == next.queue;
    }
  }

  lemma LevelsEnqueue<T>(q: seq<Entry<T>>, e: Entry<T>, levels: nat)
    requires LevelsOf(q, levels) && 0 <= e.prio < levels
    ensures LevelsOf(Enqueue(q, e), levels)
  {
    hide Boundary;
  }

  lemma LevelsPart<T>(q: seq<Entry<T>>, from: nat, to: nat, levels: nat)
    requires LevelsOf(q, levels) && from <= to <= |q|
    ensures LevelsOf(q[from..to], levels)
  {
  }

  lemma {:induction false} StepLines<T>(c: Limits, s: Queue<T>, ev: Event<T>)
    requires LinesInv(s) && Step(c, s, ev).To?
    ensures LinesInv(Step(c, s, ev).s)
  {
    hide Enqueue, OfPriority, Boundary;
    var next := Step(c, s, ev).s;
    if ev.Insert? && next.queue != s.queue {
      var e := PcOf(s, ev.t).e;
      EnqueueSorted(s.queue, e);
      forall p
        ensures !s.cleaned ==> OfPriority(next.accepted, p) == OfPriority(next.delivered, p) + OfPriority(next.queue, p)
      {
        EnqueueLine(s.queue, e, p);
        OfPriorityConcat(s.accepted, [e], p);
        OfPriorityOne(e, p);
        Assoc(OfPriority(s.delivered, p), OfPriority(s.queue, p), OfPriority([e], p));
      }
    } else if ev.Take? && next.queue != s.queue {
      var e := s.queue[0];
      forall p
        ensures !s.cleaned ==> OfPriority(next.accepted, p) == OfPriority(next.delivered, p) + OfPriority(next.queue, p)
      {
        FrontLine(s.queue, p);
        OfPriorityConcat(s.delivered, [e], p);
        OfPriorityOne(e, p);
        Assoc(OfPriority(s.delivered, p), OfPriority([e], p), OfPriority(s.queue[1..], p));
      }
    }
  }

  /** A thread with a token finds a message: front and pop_back are never taken of an empty list. */
  lemma {:induction false} StepDefined<T>(c: Limits, s: Queue<T>, ev: Event<T>)
    requires LockInv(s) && CountInv(s)
    ensures !Step(c, s, ev).Undefined?
  {
    var pc := PcOf(s, ev.t);
    if HasToken(pc) {
      assert ev.t in Holders(s.pcs);
      assert |Holders(s.pcs)| > 0;
    }
  }

  lemma {:induction false} StepInv<T>(c: Limits, s: Queue<T>, ev: Event<T>)
    requires Inv(c, s)
    ensures !Step(c, s, ev).Undefined?
    ensures Step(c, s, ev).To? ==> Inv(c, Step(c, s, ev).s)
  {
    hide Step, LockInv, CountInv, BoundInv, LevelsInv, LinesInv;
    StepDefined(c, s, ev);
    if Step(c, s, ev).To? {
      StepLock(c, s, ev);
      StepCount(c, s, ev);
      StepBound(c, s, ev);
      StepLevels(c, s, ev);
      StepLines(c, s, ev);
    }
  }

  lemma {:induction false} RunInv<T>(c: Limits, s: Queue<T>, evs: seq<Event<T>>)
    requires Inv(c, s)
    ensures !Run(c, s, evs).Undefined?
    ensures Run(c, s, evs).To? ==> Inv(c, Run(c, s, evs).s)
    decreases |evs|
  {
    hide Inv, Step;
    if evs != [] {
      StepInv(c, s, evs[0]);
      if Step(c, s, evs[0]).To? {
        RunInv(c, Step(c, s, evs[0]).s, evs[1..]);
      }
    }
  }

  lemma InitInv<T>(c: Limits)
    ensures Inv(c, Init<T>())
  {
    assert Holders<T>(map[]) == {};
  }

  // ---------------------------------------------------------------- over whole runs

  /**
   Whatever the threads do, no run takes the front of an empty list; while the
   mutex is free, the semaphore's count and the tokens in flight make up the
   length of the list; and the length never exceeds the capacity.
   */
  lemma {:induction false} TokensAgree<T>(c: Limits, evs: seq<Event<T>>)
    ensures !Run(c, Init<T>(), evs).Undefined?
    ensures Run(c, Init<T>(), evs).To? ==>
              var s := Run(c, Init<T>(), evs).s;
              && (s.lock.None? ==> s.tokens + |Holders(s.pcs)| == |s.queue|)
              && (s.queue != [] ==> |s.queue| <= c.capacity)
  {
    InitInv<T>(c);
    RunInv(c, Init<T>(), evs);
  }

  /** No event of the run is a drop by clean. */
  predicate NoDrop<T>(evs: seq<Event<T>>) {
    forall i | 0 <= i < |evs| :: !evs[i].Drop?
  }

  lemma {:induction false} Uncleaned<T>(c: Limits, s: Queue<T>, evs: seq<Event<T>>)
    requires NoDrop(evs) && !s.cleaned && Run(c, s, evs).To?
    ensures !Run(c, s, evs).s.cleaned
    decreases |evs|
  {
    hide Enqueue;
    if evs != [] {
      assert !evs[0].Drop?;
      Uncleaned(c, Step(c, s, evs[0]).s, evs[1..]);
    }
  }

  /**
   Without clean, the messages delivered of each priority are a prefix of those
   accepted of it, and the rest is queued: none lost, doubled or overtaken.
   */
  lemma {:induction false} DeliveredPrefix<T>(c: Limits, evs: seq<Event<T>>, p: int)
    requires NoDrop(evs) && Run(c, Init<T>(), evs).To?
    ensures var s := Run(c, Init<T>(), evs).s;
            && OfPriority(s.delivered, p) <= OfPriority(s.accepted, p)
            && OfPriority(s.accepted, p) == OfPriority(s.delivered, p) + OfPriority(s.queue, p)
  {
    InitInv<T>(c);
    RunInv(c, Init<T>(), evs);
    Uncleaned(c, Init<T>(), evs);
  }

  /** A dequeue delivers a message of the greatest priority present. */
  lemma {:induction false} DeliversGreatest<T>(c: Limits, evs: seq<Event<T>>, t: Tid)
    requires Run(c, Init<T>(), evs).To?
    requires Step(c, Run(c, Init<T>(), evs).s, Take(t)).To?
    ensures var s := Run(c, Init<T>(), evs).s;
            var next := Step(c, s, Take(t)).s;
            PcOf(s, t) == Taking(false) ==>
              && s.queue != [] && next.delivered == s.delivered + [s.queue[0]]
              && forall i | 0 <= i < |s.queue| :: s.queue[i].prio <= s.queue[0].prio
  {
    InitInv<T>(c);
    RunInv(c, Init<T>(), evs);
  }
}
