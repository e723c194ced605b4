/**
 Which calls come back. From every reachable state the threads can bring any call to its end, by their
 own steps and, for a receive that waits without a limit, by one more message; that needs a place in
 the queue and a priority level. Peeks and timed waits included.
 */
module MsgQueReturns {
  import opened Base
  import opened PriorityQueue
  import opened MsgQueThreads

  // ---------------------------------------------------------------- runs

  lemma {:induction false} RunAppend<M>(c: Limits, s: Queue<M>, a: seq<Event<M>>, b: seq<Event<M>>)
    requires Run(c, s, a).To?
    ensures Run(c, s, a + b) == Run(c, Run(c, s, a).s, b)
    decreases |a|
  {
    hide Step;
    if a == [] {
      assert a + b == b;
    } else {
      assert (a + b)[0] == a[0] && (a + b)[1..] == a[1..] + b;
      RunAppend(c, Step(c, s, a[0]).s, a[1..], b);
    }
  }

  lemma RunNone<M>(c: Limits, s: Queue<M>)
    ensures Run(c, s, []) == To(s)
  {
  }

  lemma RunOne<M>(c: Limits, s: Queue<M>, ev: Event<M>)
    ensures Run(c, s, [ev]) == Step(c, s, ev)
  {
    hide Step;
  }

  /** One more step of a run. */
  lemma Extend<M>(c: Limits, start: Queue<M>, evs: seq<Event<M>>, s: Queue<M>, ev: Event<M>)
    returns (evs': seq<Event<M>>, s': Queue<M>)
    requires Run(c, start, evs) == To(s) && Inv(c, s) && Step(c, s, ev).To?
    ensures s' == Step(c, s, ev).s && Run(c, start, evs') == To(s') && Inv(c, s')
  {
    hide Step, Inv;
    evs', s' := evs + [ev], Step(c, s, ev).s;
    RunAppend(c, start, evs, [ev]);
    RunOne(c, s, ev);
    StepInv(c, s, ev);
  }

  // ---------------------------------------------------------------- the holder of the mutex comes out

  function HolderStep<M>(s: Queue<M>): Event<M>
    requires s.lock.Some?
  {
    var t := s.lock.value;
    match PcOf(s, t)
    case Sending(_) => Insert(t)
    case Posting => Post(t)
    case Receiving(_, _, _) => TryPend(t)
    case Taking(_) => Take(t)
    case Peeked => PeekPost(t)
    case Cleaning => CleanTest(t)
    case _ => Drop(t)
  }

  function StepsLeft<M>(s: Queue<M>): nat {
    if s.lock.None? then 0
    else
      match PcOf(s, s.lock.value)
      case Receiving(_, _, _) => 3
      case Sending(_) => 2
      case Taking(_) => 2
      case Cleaning => 2 * |s.queue| + 2
      case Dropping => 2 * |s.queue| + 1
      case _ => 1
  }

  /** Without the mutex: idle, or still waiting if the call was to wait. */
  predicate CameOut<M>(before: Pc<M>, after: Pc<M>) {
    after.Idle? || (before.Receiving? && before.wait && after == Waiting(before.peek, before.timed))
  }

  lemma HolderMoves<M>(c: Limits, s: Queue<M>)
    requires Inv(c, s) && s.lock.Some?
    ensures Step(c, s, HolderStep(s)).To?
    ensures var next := Step(c, s, HolderStep(s)).s;
            && StepsLeft(next) < StepsLeft(s)
            && (next.lock == s.lock || next.lock == None)
            && (forall u | u != s.lock.value :: PcOf(next, u) == PcOf(s, u))
            && (next.lock == None ==> CameOut(PcOf(s, s.lock.value), PcOf(next, s.lock.value)))
            && (next.lock == s.lock ==> !PcOf(next, s.lock.value).Receiving?)
  {
    hide CountInv, BoundInv, LevelsInv, LinesInv, Enqueue, CameOut;
    StepInv(c, s, HolderStep(s));
    assert Locked(PcOf(s, s.lock.value));
    HolderOut(c, s);
  }

  lemma HolderOut<M>(c: Limits, s: Queue<M>)
    requires s.lock.Some? && Step(c, s, HolderStep(s)).To?
    ensures var next := Step(c, s, HolderStep(s)).s;
            next.lock == None ==> CameOut(PcOf(s, s.lock.value), PcOf(next, s.lock.value))
  {
    hide Enqueue;
  }

  /** The thread that holds the mutex gives it back; nobody else moves. */
  lemma {:induction false} Release<M>(c: Limits, s: Queue<M>, t: Tid) returns (evs: seq<Event<M>>, s': Queue<M>)
    requires Inv(c, s)
    ensures Run(c, s, evs) == To(s') && Inv(c, s') && s'.lock == None
    ensures s.lock != Some(t) ==> PcOf(s', t) == PcOf(s, t)
    ensures s.lock == Some(t) ==> CameOut(PcOf(s, t), PcOf(s', t))
    decreases StepsLeft(s)
  {
    hide Run, Step, Inv, StepsLeft, HolderStep, CameOut;
    if s.lock == None {
      RunNone(c, s);
      evs, s' := [], s;
    } else {
      HolderMoves(c, s);
      RunNone(c, s);
      var first, next := Extend(c, s, [], s, HolderStep(s));
      var rest;
      rest, s' := Release(c, next, t);
      RunAppend(c, s, first, rest);
      evs := first + rest;
      OutInTwo(PcOf(s, t), PcOf(next, t), PcOf(s', t));
    }
  }

  lemma OutInTwo<M>(before: Pc<M>, mid: Pc<M>, after: Pc<M>)
    ensures !mid.Receiving? && CameOut(mid, after) ==> CameOut(before, after)
  {
  }

  // ---------------------------------------------------------------- a thread with a token

  /** With a token and the mutex free, the message is taken or copied, and the call returns. */
  lemma {:induction false} Finish<M>(c: Limits, start: Queue<M>, evs: seq<Event<M>>, s: Queue<M>, t: Tid)
    returns (evs': seq<Event<M>>, s': Queue<M>)
    requires Run(c, start, evs) == To(s) && Inv(c, s) && s.lock == None && PcOf(s, t).Holding?
    ensures Run(c, start, evs') == To(s') && Inv(c, s') && s'.lock == None
    ensures PcOf(s', t).Idle? && forall u | u != t :: PcOf(s', u) == PcOf(s, u)
    ensures s.queue != [] && s'.handed == s.handed + [(t, s.queue[0])]
    ensures if PcOf(s, t).peek then s'.queue == s.queue && s'.tokens == s.tokens + 1
            else s'.queue == s.queue[1..] && s'.tokens == s.tokens
  {
    hide Run, Inv;
    var peek := PcOf(s, t).peek;
    evs', s' := Extend(c, start, evs, s, Relock(t));
    TokenFinds(c, s', t);
    evs', s' := Extend(c, start, evs', s', Take(t));
    if peek {
      evs', s' := Extend(c, start, evs', s', PeekPost(t));
    }
  }

  lemma TokenFinds<M>(c: Limits, s: Queue<M>, t: Tid)
    requires Inv(c, s)
    ensures PcOf(s, t).Taking? ==> Step(c, s, Take(t)).To?
  {
    StepDefined(c, s, Take(t));
  }

  /** A token out, a thread in pend: it gets the token. */
  lemma Wake<M>(c: Limits, start: Queue<M>, evs: seq<Event<M>>, s: Queue<M>, t: Tid)
    returns (evs': seq<Event<M>>, s': Queue<M>)
    requires Run(c, start, evs) == To(s) && Inv(c, s) && s.lock == None && PcOf(s, t).Waiting? && s.tokens > 0
    ensures Run(c, start, evs') == To(s') && PcOf(s', t).Idle?
  {
    hide Run, Inv;
    evs', s' := Extend(c, start, evs, s, Pend(t));
    evs', s' := Finish(c, start, evs', s', t);
  }

  // ---------------------------------------------------------------- one more message

  lemma {:induction false} Newcomer(tids: set<Tid>) returns (t: Tid)
    ensures forall u <- tids :: u < t
  {
    if tids == {} {
      t := 0;
    } else {
      var u :| u in tids;
      var above := Newcomer(tids - {u});
      t := if u < above then above else u + 1;
      forall v <- tids ensures v < t {
        assert v == u || v in tids - {u};
      }
    }
  }

  lemma SendOne<M>(c: Limits, start: Queue<M>, evs: seq<Event<M>>, s: Queue<M>, m: M)
    returns (evs': seq<Event<M>>, s': Queue<M>)
    requires Run(c, start, evs) == To(s) && Inv(c, s) && s.lock == None && |s.queue| < c.capacity && c.levels > 0
    ensures Run(c, start, evs') == To(s') && Inv(c, s') && s'.lock == None && s'.tokens == s.tokens + 1
    ensures forall t <- s.pcs :: PcOf(s', t) == PcOf(s, t)
  {
    hide Run, Inv, Enqueue;
    var u := Newcomer(s.pcs.Keys);
    evs', s' := Extend(c, start, evs, s, CallSend(u, Entry(m, 0)));
    evs', s' := Extend(c, start, evs', s', Insert(u));
    evs', s' := Extend(c, start, evs', s', Post(u));
  }

  /** A full queue without tokens has threads on their way to take from it. */
  lemma TokenHolder<M>(c: Limits, s: Queue<M>) returns (h: Tid)
    requires Inv(c, s) && s.lock == None && s.tokens == 0 && s.queue != []
    ensures PcOf(s, h).Holding?
  {
    assert Holders(s.pcs) != {};
    h :| h in Holders(s.pcs);
  }

  predicate Roomy(c: Limits) {
    c.capacity > 0 && c.levels > 0
  }

  lemma {:induction false} WaitEnds<M>(c: Limits, s: Queue<M>, t: Tid, m: M)
    returns (evs: seq<Event<M>>, s': Queue<M>)
    requires Inv(c, s) && s.lock == None && PcOf(s, t).Waiting? && Roomy(c)
    ensures Run(c, s, evs) == To(s') && PcOf(s', t).Idle?
  {
    hide Run, Inv;
    RunNone(c, s);
    evs, s' := [], s;
    WithinCapacity(c, s);
    if s.tokens == 0 && |s.queue| >= c.capacity {
      var h := TokenHolder(c, s);
      evs, s' := Finish(c, s, evs, s', h);
    }
    if s'.tokens == 0 {
      evs, s' := SendOne(c, s, evs, s', m);
    }
    evs, s' := Wake(c, s, evs, s', t);
  }

  lemma WithinCapacity<M>(c: Limits, s: Queue<M>)
    requires Inv(c, s)
    ensures s.queue != [] ==> |s.queue| <= c.capacity
    ensures !Roomy(c) ==> s.queue == [] && s.tokens == 0 && forall t <- s.pcs :: !HasToken(s.pcs[t])
  {
    hide LockInv, LinesInv;
    assert s.queue != [] ==> 0 <= s.queue[0].prio < c.levels;
    forall t | t in s.pcs && !Roomy(c) ensures !HasToken(s.pcs[t]) {
      assert HasToken(s.pcs[t]) ==> t in Holders(s.pcs);
      assert HasToken(s.pcs[t]) ==> Holders(s.pcs) != {};
    }
  }

  // ---------------------------------------------------------------- every call

  ghost predicate CanEnd<M(!new)>(c: Limits, s: Queue<M>, t: Tid) {
    exists evs :: Run(c, s, evs).To? && PcOf(Run(c, s, evs).s, t).Idle?
  }

  /** The call is a receive without a limit of time that has no token yet. */
  predicate WaitsForEver<M>(pc: Pc<M>) {
    (pc.Waiting? && !pc.timed) || (pc.Receiving? && pc.wait && !pc.timed)
  }

  /** A timed wait gives up. */
  lemma {:induction false} TimeEnds<M>(c: Limits, s: Queue<M>, t: Tid) returns (evs: seq<Event<M>>, s': Queue<M>)
    requires Inv(c, s) && s.lock == None && (PcOf(s, t).TimedOut? || (PcOf(s, t).Waiting? && PcOf(s, t).timed))
    ensures Run(c, s, evs) == To(s') && PcOf(s', t).Idle?
    ensures s'.queue == s.queue && s'.tokens == s.tokens && s'.handed == s.handed
  {
    hide Run, Inv;
    RunNone(c, s);
    evs, s' := [], s;
    if PcOf(s, t).Waiting? {
      evs, s' := Extend(c, s, evs, s', Timeout(t));
    }
    evs, s' := Extend(c, s, evs, s', GiveUp(t));
  }

  lemma {:induction false} CallEnds<M>(c: Limits, s: Queue<M>, t: Tid, m: M)
    returns (evs: seq<Event<M>>, s': Queue<M>)
    requires Inv(c, s) && (WaitsForEver(PcOf(s, t)) ==> Roomy(c))
    ensures Run(c, s, evs) == To(s') && PcOf(s', t).Idle?
  {
    hide Run, Inv, Roomy;
    var first, mid := Release(c, s, t);
    Unlocked(c, mid, t);
    var rest;
    if PcOf(mid, t).Idle? {
      RunNone(c, mid);
      rest, s' := [], mid;
    } else if PcOf(mid, t).Holding? {
      RunNone(c, mid);
      rest, s' := Finish(c, mid, [], mid, t);
    } else if PcOf(mid, t).TimedOut? || PcOf(mid, t).timed {
      rest, s' := TimeEnds(c, mid, t);
    } else {
      rest, s' := WaitEnds(c, mid, t, m);
    }
    RunAppend(c, s, first, rest);
    evs := first + rest;
  }

  lemma Unlocked<M>(c: Limits, s: Queue<M>, t: Tid)
    requires Inv(c, s) && s.lock == None
    ensures PcOf(s, t).Idle? || PcOf(s, t).Holding? || PcOf(s, t).TimedOut? || PcOf(s, t).Waiting?
  {
    assert !Locked(PcOf(s, t));
  }

  /** Without room or levels no message ever comes. */
  lemma {:induction false} StaysWaiting<M>(c: Limits, s: Queue<M>, t: Tid, evs: seq<Event<M>>)
    requires Inv(c, s) && !Roomy(c) && WaitsForEver(PcOf(s, t)) && Run(c, s, evs).To?
    ensures WaitsForEver(PcOf(Run(c, s, evs).s, t))
    decreases |evs|
  {
    hide Inv, Step, Roomy;
    if evs != [] {
      StepInv(c, s, evs[0]);
      StepStays(c, s, t, evs[0]);
      StaysWaiting(c, Step(c, s, evs[0]).s, t, evs[1..]);
    }
  }

  lemma StepStays<M>(c: Limits, s: Queue<M>, t: Tid, ev: Event<M>)
    requires Inv(c, s) && !Roomy(c) && WaitsForEver(PcOf(s, t)) && Step(c, s, ev).To?
    ensures WaitsForEver(PcOf(Step(c, s, ev).s, t))
  {
    hide Inv, Enqueue;
    WithinCapacity(c, s);
  }

  /**
   In every reachable state, whatever the threads are doing, a thread's call can come to its end, a
   timed or a peeking receive too, except that a receive without a limit of time needs a queue with room
   and a level; without them it never returns.
   */
  lemma {:induction false} CallReturnsIff<M(!new)>(c: Limits, evs: seq<Event<M>>, t: Tid, m: M)
    requires Run(c, Init<M>(), evs).To?
    ensures var s := Run(c, Init<M>(), evs).s;
            CanEnd(c, s, t) <==> (WaitsForEver(PcOf(s, t)) ==> c.capacity > 0 && c.levels > 0)
  {
    hide Run, Inv;
    InitInv<M>(c);
    RunInv(c, Init<M>(), evs);
    var s := Run(c, Init<M>(), evs).s;
    if WaitsForEver(PcOf(s, t)) ==> Roomy(c) {
      var more, s' := CallEnds(c, s, t, m);
    } else {
      forall more | Run(c, s, more).To?
        ensures !PcOf(Run(c, s, more).s, t).Idle?
      {
        StaysWaiting(c, s, t, more);
      }
    }
  }

  // ---------------------------------------------------------------- what a call does when nobody interferes

  /** sendMessage: a message of a level is accepted in its place exactly when there is room. */
  lemma {:induction false} SendDoes<M>(c: Limits, s: Queue<M>, t: Tid, e: Entry<M>)
    returns (evs: seq<Event<M>>, s': Queue<M>)
    requires Inv(c, s) && s.lock == None && PcOf(s, t).Idle? && 0 <= e.prio < c.levels
    ensures Run(c, s, evs) == To(s') && s'.lock == None && PcOf(s', t).Idle?
    ensures if |s.queue| < c.capacity
            then s'.accepted == s.accepted + [e] && s'.queue == Enqueue(s.queue, e) && s'.tokens == s.tokens + 1
            else s'.accepted == s.accepted && s'.queue == s.queue && s'.tokens == s.tokens
  {
    hide Run, Inv, Enqueue;
    RunNone(c, s);
    evs, s' := Extend(c, s, [], s, CallSend(t, e));
    evs, s' := Extend(c, s, evs, s', Insert(t));
    if |s.queue| < c.capacity {
      evs, s' := Extend(c, s, evs, s', Post(t));
    }
  }

  /**
   recvMessage: with a token out the caller gets the front message, which leaves the queue with its
   token unless the call peeks; without one it fails, or waits if it may.
   */
  lemma {:induction false} RecvDoes<M>(c: Limits, s: Queue<M>, t: Tid, peek: bool, wait: bool, timed: bool)
    returns (evs: seq<Event<M>>, s': Queue<M>)
    requires Inv(c, s) && s.lock == None && PcOf(s, t).Idle?
    ensures Run(c, s, evs) == To(s') && s'.lock == None
    ensures if s.tokens > 0
            then
              && s.queue != [] && PcOf(s', t).Idle? && s'.handed == s.handed + [(t, s.queue[0])]
              && s'.queue == (if peek then s.queue else s.queue[1..])
              && s'.tokens == (if peek then s.tokens else s.tokens - 1)
            else
              && s'.queue == s.queue && s'.tokens == 0 && s'.handed == s.handed
              && PcOf(s', t) == if wait then Waiting(peek, timed) else Idle
  {
    hide Run, Inv, Enqueue;
    RunNone(c, s);
    evs, s' := Extend(c, s, [], s, CallRecv(t, peek, wait, timed));
    evs, s' := Extend(c, s, evs, s', TryPend(t));
    if s.tokens > 0 {
      TokenFinds(c, s', t);
      evs, s' := Extend(c, s, evs, s', Take(t));
      if peek {
        evs, s' := Extend(c, s, evs, s', PeekPost(t));
      }
    }
  }
}
