/**
 The shutdown of the real threads: every run of theirs is a run of the pool, every run of the pool is
 one of theirs, and so stop is sure to return exactly when the queue has a place for each worker.
 */
module ThreadPoolReturns {
  import opened Base
  import opened PriorityQueue
  import opened ThreadPoolThreads
  import A = MsgQueAtomic
  import P = ThreadPool
  import T = MsgQueThreads

  // ---------------------------------------------------------------- runs

  lemma {:induction false} RunAppend(c: P.Config, r: Threads, a: seq<Event>, b: seq<Event>)
    requires Run(c, r, a).To?
    ensures Run(c, r, a + b) == Run(c, Run(c, r, a).r, b)
    decreases |a|
  {
    hide Step;
    if a == [] {
      assert a + b == b;
    } else {
      assert (a + b)[0] == a[0] && (a + b)[1..] == a[1..] + b;
      RunAppend(c, Step(c, r, a[0]).r, a[1..], b);
    }
  }

  lemma RunOne(c: P.Config, r: Threads, ev: Event)
    ensures Run(c, r, [ev]) == Step(c, r, ev)
  {
    hide Step;
  }

  lemma RunNone(c: P.Config, r: Threads)
    ensures Run(c, r, []) == To(r)
  {
  }

  /** One more step of a run. */
  lemma Extend(c: P.Config, start: Threads, evs: seq<Event>, r: Threads, ev: Event)
    returns (evs': seq<Event>, r': Threads)
    requires Inv(c, r) && Run(c, start, evs) == To(r) && Step(c, r, ev).To?
    ensures r' == Step(c, r, ev).r && Run(c, start, evs') == To(r')
    ensures Inv(c, r') && Simulates(c, r, ev, r')
  {
    hide Step, Inv, Simulates;
    evs', r' := evs + [ev], Step(c, r, ev).r;
    RunAppend(c, start, evs, [ev]);
    RunOne(c, r, ev);
    StepInv(c, r, ev);
    StepSimulates(c, r, ev);
  }

  lemma InitAbs(c: P.Config)
    ensures Abs(c, Init(c)) == P.Init(c)
  {
    assert AddersOf(Init(c)) == {};
    assert WorkersOf(Init(c)) == P.Init(c).workers;
  }

  /** A run of the threads is a run of the pool. */
  lemma {:induction false} RunSimulates(c: P.Config, r: Threads, evs: seq<Event>) returns (pevs: seq<P.Event>)
    requires Inv(c, r) && Run(c, r, evs).To?
    ensures Inv(c, Run(c, r, evs).r)
    ensures P.Run(c, Abs(c, r), pevs) == P.To(Abs(c, Run(c, r, evs).r))
    decreases |evs|
  {
    hide Step, Inv, Abs, Image, P.Step;
    pevs := [];
    if evs != [] {
      StepInv(c, r, evs[0]);
      StepSimulates(c, r, evs[0]);
      pevs := RunSimulates(c, Step(c, r, evs[0]).r, evs[1..]);
      if Image(c, r, evs[0]).Some? {
        P.RunCons(c, Abs(c, r), Image(c, r, evs[0]).value, pevs);
        pevs := [Image(c, r, evs[0]).value] + pevs;
      }
    }
  }

  // ---------------------------------------------------------------- the holder of the mutex comes out

  /** Nobody is in a locked part of the queue. */
  predicate Quiet(r: Threads) {
    r.q.lock.None?
  }

  function HolderStep(r: Threads): T.Event<P.Task>
    requires !Quiet(r)
  {
    var t := r.q.lock.value;
    match T.PcOf(r.q, t)
    case Sending(_) => T.Insert(t)
    case Posting => T.Post(t)
    case Receiving(_, _, _) => T.TryPend(t)
    case Taking(_) => T.Take(t)
    case Cleaning => T.CleanTest(t)
    case _ => T.Drop(t)
  }

  function StepsLeft(r: Threads): nat {
    if Quiet(r) then 0
    else
      match T.PcOf(r.q, r.q.lock.value)
      case Sending(_) => 2
      case Receiving(_, _, _) => 2
      case Cleaning => 2 * |r.q.queue| + 2
      case Dropping => 2 * |r.q.queue| + 1
      case _ => 1
  }

  lemma {:induction false} HolderCanStep(c: P.Config, r: Threads)
    requires Inv(c, r) && !Quiet(r)
    ensures Step(c, r, InQueue(HolderStep(r))).To?
  {
    hide T.CountInv, T.BoundInv, T.LevelsInv, T.LinesInv, Enqueue;
    AnyAllowed(c, r, r.q.lock.value);
    T.StepInv(LimitsOf(c), r.q, HolderStep(r));
  }

  lemma HolderStepsDown(c: P.Config, r: Threads)
    requires Inv(c, r) && !Quiet(r) && Step(c, r, InQueue(HolderStep(r))).To?
    ensures StepsLeft(Step(c, r, InQueue(HolderStep(r))).r) < StepsLeft(r)
  {
    hide T.CountInv, T.BoundInv, T.LevelsInv, T.LinesInv, Enqueue, ControlInv;
    HolderAllowed(c, r);
  }

  lemma HolderAllowed(c: P.Config, r: Threads)
    requires Inv(c, r) && !Quiet(r)
    ensures Allowed(c, r, r.q.lock.value, T.PcOf(r.q, r.q.lock.value))
    ensures T.Locked(T.PcOf(r.q, r.q.lock.value))
  {
    hide T.CountInv, T.BoundInv, T.LevelsInv, T.LinesInv, Allowed;
    AnyAllowed(c, r, r.q.lock.value);
  }

  /** The holder has had the effect of its call, and only the end of the call is left. */
  predicate Finishing(r: Threads) {
    && !Quiet(r)
    && var pc := T.PcOf(r.q, r.q.lock.value);
    pc.Taking? || pc.Posting? || pc.Cleaning? || pc.Dropping?
  }

  predicate Ending(r: Threads) {
    r.phase.Joining? || r.phase.Stopped?
  }

  lemma HolderPhase(c: P.Config, r: Threads)
    requires Inv(c, r) && !Quiet(r) && Step(c, r, InQueue(HolderStep(r))).To?
    ensures var next := Step(c, r, InQueue(HolderStep(r))).r;
            && (Ending(r) ==> Ending(next))
            && (Finishing(r) ==> Image(c, r, InQueue(HolderStep(r))).None? && (Finishing(next) || Quiet(next)))
  {
    hide T.CountInv, T.BoundInv, T.LevelsInv, T.LinesInv, Enqueue;
    HolderAllowed(c, r);
    AnyAllowed(c, r, c.threadNum);
  }

  /** Letting the holder of the mutex step leads to a state in which nobody holds it. */
  lemma {:induction false} Quieten(c: P.Config, r: Threads) returns (evs: seq<Event>, r': Threads)
    requires Inv(c, r)
    ensures Run(c, r, evs) == To(r') && Inv(c, r') && Quiet(r')
    ensures Ending(r) ==> Ending(r')
    ensures Quiet(r) ==> r' == r
    ensures Finishing(r) ==> Abs(c, r') == Abs(c, r)
    decreases StepsLeft(r)
  {
    hide Run, Step, Inv, Abs, StepsLeft, HolderStep, Image;
    if Quiet(r) {
      RunNone(c, r);
      evs, r' := [], r;
    } else {
      var ev := InQueue(HolderStep(r));
      HolderCanStep(c, r);
      HolderStepsDown(c, r);
      HolderPhase(c, r);
      RunNone(c, r);
      var first, next := Extend(c, r, [], r, ev);
      var rest;
      rest, r' := Quieten(c, next);
      RunAppend(c, r, first, rest);
      evs := first + rest;
    }
  }

  // ---------------------------------------------------------------- every step of the pool is one of the threads

  /** When nobody is in a locked part, the pool is the threads' own state. */
  lemma QuietAbs(c: P.Config, r: Threads)
    requires Inv(c, r) && Quiet(r)
    ensures forall t :: !T.Locked(T.PcOf(r.q, t))
    ensures AddersOf(r) == r.adders
    ensures !Cleaning(c, r)
    ensures Abs(c, r) == P.Pool(WorkersOf(r), r.q.queue, r.q.tokens, r.started, r.phase, |r.adders|)
  {
    hide T.CountInv, T.BoundInv, T.LevelsInv, T.LinesInv, Allowed, WorkersOf;
    QuietPcs(c, r);
    AnyAllowed(c, r, c.threadNum);
    QuietStop(c, r);
  }

  lemma QuietPcs(c: P.Config, r: Threads)
    requires Inv(c, r) && Quiet(r)
    ensures forall t :: !T.Locked(T.PcOf(r.q, t))
  {
    hide T.CountInv, T.BoundInv, T.LevelsInv, T.LinesInv, ControlInv;
  }

  lemma QuietStop(c: P.Config, r: Threads)
    requires Inv(c, r) && Quiet(r)
    ensures T.PcOf(r.q, c.threadNum).Idle?
    ensures forall t :: t in r.adders ==> T.PcOf(r.q, t).Idle?
  {
    hide T.Inv;
    QuietPcs(c, r);
    AnyAllowed(c, r, c.threadNum);
    forall t | t in r.adders ensures T.PcOf(r.q, t).Idle? {
      AnyAllowed(c, r, t);
    }
  }

  /** A worker of the pool in terms of the thread. */
  lemma QuietWorker(c: P.Config, r: Threads, i: nat)
    requires Inv(c, r) && Quiet(r) && i < |r.jobs|
    ensures |WorkersOf(r)| == |r.jobs| == c.threadNum
    ensures WorkersOf(r)[i].Test? <==> r.jobs[i].AtTest?
    ensures WorkersOf(r)[i].Got? <==> r.jobs[i].HasMsg?
    ensures WorkersOf(r)[i].Exited? <==> r.jobs[i].Exited?
    ensures WorkersOf(r)[i].Receive? <==> r.jobs[i].Receiving? && T.PcOf(r.q, i).Idle?
    ensures WorkersOf(r)[i].Wait? <==> r.jobs[i].Receiving? && T.PcOf(r.q, i) == T.Waiting(false, false)
    ensures WorkersOf(r)[i].Hold? <==> r.jobs[i].Receiving? && T.PcOf(r.q, i) == T.Holding(false)
  {
    hide T.Inv;
    QuietPcs(c, r);
    AnyAllowed(c, r, i);
    WorkersAt(r, i);
  }

  /** Where the effect has taken place, the holder of the mutex only has to come out. */
  lemma Conclude(c: P.Config, r: Threads, evs: seq<Event>, s: Threads) returns (evs': seq<Event>, s': Threads)
    requires Run(c, r, evs) == To(s) && Inv(c, s) && (Quiet(s) || Finishing(s))
    ensures Run(c, r, evs') == To(s') && Inv(c, s') && Quiet(s') && Abs(c, s') == Abs(c, s)
  {
    hide Run, Inv, Abs, Finishing;
    var rest;
    rest, s' := Quieten(c, s);
    RunAppend(c, r, evs, rest);
    evs' := evs + rest;
  }

  /** The threads take these steps, and what the pool sees of them is the one event. */
  ghost predicate Does(c: P.Config, r: Threads, evs: seq<Event>, s: Threads, pev: P.Event) {
    Run(c, r, evs) == To(s) && Inv(c, s) && (Quiet(s) || Finishing(s)) && P.Step(c, Abs(c, r), pev) == P.To(Abs(c, s))
  }

  lemma OneStep(c: P.Config, r: Threads, ev: Event, pev: P.Event)
    requires Inv(c, r) && Step(c, r, ev).To? && Image(c, r, ev) == Some(pev)
    requires Quiet(Step(c, r, ev).r) || Finishing(Step(c, r, ev).r)
    ensures Does(c, r, [ev], Step(c, r, ev).r, pev)
  {
    hide Run, Step, Inv, Abs, Image, Finishing;
    StepInv(c, r, ev);
    StepSimulates(c, r, ev);
    RunOne(c, r, ev);
  }

  /** A call of the queue that takes the mutex first. */
  lemma TwoSteps(c: P.Config, r: Threads, ev: Event, ev': Event, pev: P.Event)
    requires Inv(c, r) && Step(c, r, ev).To? && Image(c, r, ev).None?
    requires Step(c, Step(c, r, ev).r, ev').To? && Image(c, Step(c, r, ev).r, ev') == Some(pev)
    requires var s := Step(c, Step(c, r, ev).r, ev').r; Quiet(s) || Finishing(s)
    ensures Does(c, r, [ev, ev'], Step(c, Step(c, r, ev).r, ev').r, pev)
  {
    hide Run, Step, Inv, Abs, Image, Finishing;
    var mid := Step(c, r, ev).r;
    StepInv(c, r, ev);
    StepSimulates(c, r, ev);
    OneStep(c, mid, ev', pev);
    RunOne(c, r, ev);
    RunAppend(c, r, [ev], [ev']);
    assert [ev] + [ev'] == [ev, ev'];
  }

  predicate OwnStep(pev: P.Event) {
    pev.CheckFlag? || pev.Finish? || pev.StopFlag? || pev.StopJoin?
  }

  lemma {:induction false} DoOwn(c: P.Config, r: Threads, pev: P.Event) returns (evs: seq<Event>, s: Threads)
    requires Inv(c, r) && Quiet(r) && P.Step(c, Abs(c, r), pev).To? && OwnStep(pev)
    ensures Does(c, r, evs, s, pev)
  {
    hide Run, Inv, Abs, WorkersOf, Does, Finishing;
    QuietAbs(c, r);
    if pev.CheckFlag? || pev.Finish? {
      QuietSize(c, r);
      QuietWorker(c, r, pev.i);
    }
    var ev := match pev
      case CheckFlag(i) => CheckFlag(i)
      case Finish(i) => Finish(i)
      case StopFlag => StopFlag
      case _ => StopJoin;
    evs, s := [ev], Step(c, r, ev).r;
    OneStep(c, r, ev, pev);
  }

  lemma QuietSize(c: P.Config, r: Threads)
    requires Inv(c, r)
    ensures |WorkersOf(r)| == |r.jobs| == c.threadNum
  {
  }

  predicate Takes(pev: P.Event) {
    pev.TryTake? || pev.Pend? || pev.TakeFront?
  }

  lemma {:induction false} DoTake(c: P.Config, r: Threads, pev: P.Event) returns (evs: seq<Event>, s: Threads)
    requires Inv(c, r) && Quiet(r) && P.Step(c, Abs(c, r), pev).To? && Takes(pev)
    ensures Does(c, r, evs, s, pev)
  {
    hide Run, Inv, Abs, WorkersOf, Does, Enqueue;
    QuietAbs(c, r);
    QuietSize(c, r);
    QuietWorker(c, r, pev.i);
    if pev.TryTake? {
      var call, take := InQueue(T.CallRecv(pev.i, false, true, false)), InQueue(T.TryPend(pev.i));
      evs, s := [call, take], Step(c, Step(c, r, call).r, take).r;
      TwoSteps(c, r, call, take, pev);
    } else {
      var ev := InQueue(if pev.Pend? then T.Pend(pev.i) else T.Relock(pev.i));
      evs, s := [ev], Step(c, r, ev).r;
      OneStep(c, r, ev, pev);
    }
  }

  /** sendMessage takes the mutex when the priority is a level. */
  lemma DoSend(c: P.Config, r: Threads, t: T.Tid, e: Entry<P.Task>) returns (evs: seq<Event>, s: Threads)
    requires Inv(c, r) && Quiet(r) && T.PcOf(r.q, t).Idle? && 0 <= e.prio < c.prioNum
    requires t == c.threadNum ==> r.phase.Sending? && r.phase.sent < c.threadNum && e == EMPTY_TASK
    requires t != c.threadNum ==> t in r.adders
    ensures Does(c, r, evs, s, if t == c.threadNum then P.StopSend else P.AddSend(e))
  {
    hide Run, T.Inv, Abs, Does, Enqueue, Allowed;
    var call, insert := InQueue(T.CallSend(t, e)), InQueue(T.Insert(t));
    evs, s := [call, insert], Step(c, Step(c, r, call).r, insert).r;
    TwoSteps(c, r, call, insert, if t == c.threadNum then P.StopSend else P.AddSend(e));
  }

  lemma {:induction false} DoStopSend(c: P.Config, r: Threads) returns (evs: seq<Event>, s: Threads)
    requires Inv(c, r) && Quiet(r) && P.Step(c, Abs(c, r), P.StopSend).To?
    ensures Does(c, r, evs, s, P.StopSend)
  {
    hide Run, Inv, Abs, Does, Enqueue, WorkersOf, Finishing;
    QuietAbs(c, r);
    QuietStop(c, r);
    if c.prioNum > 0 {
      evs, s := DoSend(c, r, c.threadNum, EMPTY_TASK);
    } else {
      evs, s := [StopReject], Step(c, r, StopReject).r;
      OneStep(c, r, StopReject, P.StopSend);
    }
  }

  /** There is always a thread that is not in addTask yet. */
  lemma {:induction false} Newcomer(c: P.Config, adders: set<T.Tid>) returns (t: T.Tid)
    ensures t > c.threadNum && forall u <- adders :: u < t
  {
    if adders == {} {
      t := c.threadNum + 1;
    } else {
      var u :| u in adders;
      var above := Newcomer(c, adders - {u});
      t := if u < above then above else u + 1;
      forall v <- adders ensures v < t {
        assert v == u || v in adders - {u};
      }
    }
  }

  lemma {:induction false} DoAddCheck(c: P.Config, r: Threads) returns (evs: seq<Event>, s: Threads)
    requires Inv(c, r) && Quiet(r) && P.Step(c, Abs(c, r), P.AddCheck).To?
    ensures Does(c, r, evs, s, P.AddCheck)
  {
    hide Run, Inv, Abs, Does, Enqueue, WorkersOf, Finishing;
    QuietAbs(c, r);
    var t := Newcomer(c, r.adders);
    evs, s := [AddCheck(t)], Step(c, r, AddCheck(t)).r;
    OneStep(c, r, AddCheck(t), P.AddCheck);
  }

  lemma {:induction false} DoAddSend(c: P.Config, r: Threads, e: Entry<P.Task>) returns (evs: seq<Event>, s: Threads)
    requires Inv(c, r) && Quiet(r) && P.Step(c, Abs(c, r), P.AddSend(e)).To?
    ensures Does(c, r, evs, s, P.AddSend(e))
  {
    hide Run, T.Inv, Allowed, Abs, Does, Enqueue, WorkersOf, Finishing;
    QuietAbs(c, r);
    QuietStop(c, r);
    var t :| t in r.adders;
    if 0 <= e.prio < c.prioNum {
      evs, s := DoSend(c, r, t, e);
    } else {
      evs, s := [AddReject(t, e)], Step(c, r, AddReject(t, e)).r;
      OneStep(c, r, AddReject(t, e), P.AddSend(e));
    }
  }

  lemma {:induction false} DoClean(c: P.Config, r: Threads) returns (evs: seq<Event>, s: Threads)
    requires Inv(c, r) && Quiet(r) && P.Step(c, Abs(c, r), P.StopClean).To?
    ensures Does(c, r, evs, s, P.StopClean)
  {
    hide Run, Inv, Abs, Does, Enqueue, WorkersOf;
    QuietAbs(c, r);
    QuietStop(c, r);
    forall i | 0 <= i < |r.jobs| ensures r.jobs[i].Exited? {
      QuietWorker(c, r, i);
    }
    var ev := InQueue(T.CallClean(c.threadNum));
    evs, s := [ev], Step(c, r, ev).r;
    OneStep(c, r, ev, P.StopClean);
  }

  /** Each step of the pool is one or more steps of the threads. */
  lemma {:induction false} Realize(c: P.Config, r: Threads, pev: P.Event) returns (evs: seq<Event>, s: Threads)
    requires Inv(c, r) && Quiet(r) && P.Step(c, Abs(c, r), pev).To?
    ensures Run(c, r, evs) == To(s) && Inv(c, s) && Quiet(s) && P.Step(c, Abs(c, r), pev) == P.To(Abs(c, s))
  {
    hide Run, Inv, Abs, Finishing, P.Step;
    var mid;
    if OwnStep(pev) {
      evs, mid := DoOwn(c, r, pev);
    } else if Takes(pev) {
      evs, mid := DoTake(c, r, pev);
    } else if pev.StopSend? {
      evs, mid := DoStopSend(c, r);
    } else if pev.AddCheck? {
      evs, mid := DoAddCheck(c, r);
    } else if pev.AddSend? {
      evs, mid := DoAddSend(c, r, pev.e);
    } else {
      evs, mid := DoClean(c, r);
    }
    evs, s := Conclude(c, r, evs, mid);
  }

  /** Every run of the pool is one that the threads can take. */
  lemma {:induction false} RunRealizes(c: P.Config, r: Threads, pevs: seq<P.Event>)
    returns (evs: seq<Event>, s: Threads)
    requires Inv(c, r) && Quiet(r) && P.Run(c, Abs(c, r), pevs).To?
    ensures Run(c, r, evs) == To(s) && Inv(c, s) && Quiet(s) && P.Run(c, Abs(c, r), pevs) == P.To(Abs(c, s))
    decreases |pevs|
  {
    hide Run, Inv, Abs, P.Step;
    if pevs == [] {
      RunNone(c, r);
      evs, s := [], r;
    } else {
      var first, mid := Realize(c, r, pevs[0]);
      var rest;
      rest, s := RunRealizes(c, mid, pevs[1..]);
      RunAppend(c, r, first, rest);
      evs := first + rest;
    }
  }

  // ---------------------------------------------------------------- stop returns

  ghost predicate CanReturn(c: P.Config, r: Threads) {
    exists evs :: Run(c, r, evs).To? && Run(c, r, evs).r.phase.Stopped?
  }

  /** From every point at which stop is joining, some steps of the threads bring it to its end. */
  ghost predicate StopReturns(c: P.Config) {
    forall evs :: Run(c, Init(c), evs).To? && Run(c, Init(c), evs).r.phase.Joining? ==>
                    CanReturn(c, Run(c, Init(c), evs).r)
  }

  /** What a run of the threads reaches, the pool reaches. */
  lemma ReachedPool(c: P.Config, evs: seq<Event>)
    requires Run(c, Init(c), evs).To?
    ensures var r := Run(c, Init(c), evs).r;
            Inv(c, r) && P.Inv(c, Abs(c, r)) && (P.Roomy(c) ==> P.Enough(c, Abs(c, r)))
  {
    hide Run, Inv, Abs, P.Run, P.Inv, P.Enough;
    InitInv(c);
    InitAbs(c);
    var pevs := RunSimulates(c, Init(c), evs);
    P.Reached(c, pevs);
  }

  lemma {:induction false} RoomyReturns(c: P.Config, evs: seq<Event>)
    requires P.Roomy(c) && Run(c, Init(c), evs).To? && Run(c, Init(c), evs).r.phase.Joining?
    ensures CanReturn(c, Run(c, Init(c), evs).r)
  {
    hide Run, Inv, Abs, P.Run, P.Inv, P.Enough, P.Roomy;
    var r := Run(c, Init(c), evs).r;
    ReachedPool(c, evs);
    var out, mid := Quieten(c, r);
    RunAppend(c, Init(c), evs, out);
    ReachedPool(c, evs + out);
    QuietAbs(c, mid);
    var rest, end := [], mid;
    if mid.phase.Joining? {
      var pevs := P.Finishes(c, Abs(c, mid));
      rest, end := RunRealizes(c, mid, pevs);
      QuietAbs(c, end);
      RunAppend(c, r, out, rest);
    } else {
      RunNone(c, mid);
      RunAppend(c, r, out, rest);
    }
    assert Run(c, r, out + rest) == To(end);
  }

  lemma {:induction false} ShortStays(c: P.Config) returns (evs: seq<Event>)
    requires c.threadNum > 0 && !P.Roomy(c)
    ensures Run(c, Init(c), evs).To? && Run(c, Init(c), evs).r.phase.Joining?
    ensures !CanReturn(c, Run(c, Init(c), evs).r)
  {
    hide Run, Inv, Abs, P.Run, P.Inv, P.Roomy, P.Sum;
    var pevs := P.ShortRun(c);
    InitInv(c);
    InitAbs(c);
    var r;
    evs, r := RunRealizes(c, Init(c), pevs);
    ReachedPool(c, evs);
    QuietAbs(c, r);
    forall more | Run(c, r, more).To?
      ensures !Run(c, r, more).r.phase.Stopped?
    {
      var after := RunSimulates(c, r, more);
      P.ShortForever(c, Abs(c, r), after);
      StoppedAbs(c, Run(c, r, more).r);
    }
  }

  lemma StoppedAbs(c: P.Config, r: Threads)
    ensures r.phase.Stopped? ==> Abs(c, r).phase.Stopped?
  {
  }

  /**
   With the real queue under them, the workers all exit and stop returns exactly when the queue has a
   place for each worker and a level to send at.
   */
  lemma {:induction false} StopExact(c: P.Config)
    requires c.threadNum > 0
    ensures StopReturns(c) <==> P.Roomy(c)
  {
    hide Run, P.Roomy, CanReturn;
    if P.Roomy(c) {
      forall evs | Run(c, Init(c), evs).To? && Run(c, Init(c), evs).r.phase.Joining?
        ensures CanReturn(c, Run(c, Init(c), evs).r)
      {
        RoomyReturns(c, evs);
      }
    } else {
      var evs := ShortStays(c);
    }
  }
}
