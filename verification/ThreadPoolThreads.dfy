/**
 The pool's threads on the real queue: workers, stop and callers of addTask take the single steps of
 MsgQueThreads, with mutex and semaphore, inside their own code. Every run of theirs is a run of
 ThreadPool.
 */
module ThreadPoolThreads {
  import opened Base
  import opened PriorityQueue
  import A = MsgQueAtomic
  import P = ThreadPool
  import T = MsgQueThreads

  /** Where a worker is in loopTask; what it does inside recvMessage is the queue's matter. */
  datatype Job = AtTest | Receiving | HasMsg(task: P.Task) | Exited

  /** Threads 0 .. n-1 are the workers, n is in stop, those above n may call addTask. */
  datatype Threads = Threads(
    q: T.Queue<P.Task>,
    jobs: seq<Job>,
    started: bool,
    phase: P.Phase,                         // Sending(k): k sends of stop have returned
    adders: set<T.Tid>)                     // threads in addTask that saw the flag set

  datatype Event =
    | CheckFlag(i: nat)
    | Finish(i: nat)
    | AddCheck(t: T.Tid)
    | AddReject(t: T.Tid, e: Entry<P.Task>) // sendMessage refuses the priority
    | StopFlag
    | StopReject
    | StopJoin
    | InQueue(ev: T.Event<P.Task>)

  datatype Result = Disabled | Undefined | To(r: Threads)

  const EMPTY_TASK: Entry<P.Task> := Entry(P.Nothing, 0)

  function LimitsOf(c: P.Config): T.Limits {
    T.Limits(c.taskNum, c.prioNum)
  }

  function Init(c: P.Config): Threads {
    Threads(T.Init(), seq(c.threadNum, _ => AtTest), true, P.Up, {})
  }

  predicate AllExited(jobs: seq<Job>) {
    forall i | 0 <= i < |jobs| :: jobs[i].Exited?
  }

  predicate SendEvent(ev: T.Event<P.Task>) {
    ev.CallSend? || ev.Insert? || ev.Post?
  }

  predicate CleanEvent(ev: T.Event<P.Task>) {
    ev.CallClean? || ev.CleanTest? || ev.Drop?
  }

  predicate TakeEvent(ev: T.Event<P.Task>) {
    ev == T.CallRecv(ev.t, false, true, false) || ev.TryPend? || ev.Pend? || ev.Relock? || ev.Take?
  }

  /** Is this a step of the queue that the thread's own code takes where it is? */
  predicate May(c: P.Config, r: Threads, ev: T.Event<P.Task>) {
    var t := ev.t;
    if t < c.threadNum then t < |r.jobs| && r.jobs[t].Receiving? && TakeEvent(ev)
    else if t == c.threadNum then
      || (r.phase.Sending? && r.phase.sent < c.threadNum && SendEvent(ev) && (ev.CallSend? ==> ev.e == EMPTY_TASK))
      || (r.phase.Joining? && AllExited(r.jobs) && CleanEvent(ev))
    else t in r.adders && SendEvent(ev)
  }

  /** The thread goes on in its own code when the call has returned. */
  function After(c: P.Config, r: Threads, t: T.Tid, q: T.Queue<P.Task>): Threads {
    if !T.PcOf(q, t).Idle? then r.(q := q)
    else if t < c.threadNum then
      if t < |r.jobs| && r.q.queue != [] then r.(q := q, jobs := r.jobs[t := HasMsg(r.q.queue[0].msg)]) else r.(q := q)
    else if t == c.threadNum then
      r.(q := q, phase := if r.phase.Sending? then P.Sending(r.phase.sent + 1) else P.Stopped)
    else r.(q := q, adders := r.adders - {t})
  }

  function Step(c: P.Config, r: Threads, ev: Event): Result {
    match ev
    case CheckFlag(i) =>
      if i < |r.jobs| && r.jobs[i].AtTest? then To(r.(jobs := r.jobs[i := if r.started then Receiving else Exited]))
      else Disabled
    case Finish(i) =>
      if i < |r.jobs| && r.jobs[i].HasMsg? then To(r.(jobs := r.jobs[i := AtTest])) else Disabled
    case AddCheck(t) =>
      if r.started && t > c.threadNum && t !in r.adders then To(r.(adders := r.adders + {t})) else Disabled
    case AddReject(t, e) =>
      if t in r.adders && T.PcOf(r.q, t).Idle? && !(0 <= e.prio < c.prioNum) then To(r.(adders := r.adders - {t}))
      else Disabled
    case StopFlag => if r.phase.Up? then To(r.(started := false, phase := P.Sending(0))) else Disabled
    case StopReject =>
      if r.phase.Sending? && r.phase.sent < c.threadNum && T.PcOf(r.q, c.threadNum).Idle? && c.prioNum == 0
      then To(r.(phase := P.Sending(r.phase.sent + 1)))
      else Disabled
    case StopJoin =>
      if r.phase.Sending? && r.phase.sent == c.threadNum then To(r.(phase := P.Joining)) else Disabled
    case InQueue(qev) =>
      if !May(c, r, qev) then Disabled
      else
        match T.Step(LimitsOf(c), r.q, qev)
        case Disabled => Disabled
        case Undefined => Undefined
        case To(q) => To(After(c, r, qev.t, q))
  }

  function Run(c: P.Config, r: Threads, evs: seq<Event>): Result
    decreases |evs|
  {
    if evs == [] then To(r)
    else
      match Step(c, r, evs[0])
      case Disabled => Disabled
      case Undefined => Undefined
      case To(next) => Run(c, next, evs[1..])
  }

  // ---------------------------------------------------------------- the invariant

  /** Where a thread can be in the queue's code. */
  predicate Allowed(c: P.Config, r: Threads, t: T.Tid, pc: T.Pc<P.Task>) {
    || pc.Idle?
    || (t < |r.jobs| && t < c.threadNum && r.jobs[t].Receiving?
        && (|| pc == T.Receiving(false, true, false) || pc == T.Waiting(false, false)
            || pc == T.Holding(false) || pc == T.Taking(false)))
    || (t == c.threadNum && r.phase.Sending? && r.phase.sent < c.threadNum
        && (pc == T.Sending(EMPTY_TASK) || pc.Posting?))
    || (t == c.threadNum && r.phase.Joining? && AllExited(r.jobs) && (pc.Cleaning? || pc.Dropping?))
    || (t > c.threadNum && t in r.adders && (pc.Sending? || pc.Posting?))
  }

  predicate ControlInv(c: P.Config, r: Threads) {
    && |r.jobs| == c.threadNum
    && (r.started <==> r.phase.Up?)
    && (r.phase.Sending? ==> r.phase.sent <= c.threadNum)
    && (r.phase.Stopped? ==> AllExited(r.jobs))
    && (forall t <- r.adders :: t > c.threadNum)
    && (forall t <- r.q.pcs :: Allowed(c, r, t, r.q.pcs[t]))
  }

  ghost predicate Inv(c: P.Config, r: Threads) {
    T.Inv(LimitsOf(c), r.q) && ControlInv(c, r)
  }

  lemma InitInv(c: P.Config)
    ensures Inv(c, Init(c))
  {
    T.InitInv<P.Task>(LimitsOf(c));
  }

  /** A step of the queue moves its own thread only. */
  lemma OnlyItsPc(limits: T.Limits, q: T.Queue<P.Task>, ev: T.Event<P.Task>)
    requires T.Step(limits, q, ev).To?
    ensures var next := T.Step(limits, q, ev).s;
            next.pcs.Keys == q.pcs.Keys + {ev.t} && forall u | u != ev.t :: T.PcOf(next, u) == T.PcOf(q, u)
  {
    hide Enqueue;
  }

  /** What the step does to that thread's place and to the messages. */
  ghost predicate Effect(limits: T.Limits, q: T.Queue<P.Task>, ev: T.Event<P.Task>, next: T.Queue<P.Task>) {
    var pc, pc' := T.PcOf(q, ev.t), T.PcOf(next, ev.t);
    match ev
    case CallSend(_, e) => pc.Idle? && pc' == T.Sending(e) && next.queue == q.queue && 0 <= e.prio < limits.levels
    case Insert(_) =>
      pc.Sending? && (if |q.queue| >= limits.capacity then pc'.Idle? && next.queue == q.queue else pc'.Posting?)
    case Post(_) => pc.Posting? && pc'.Idle? && next.queue == q.queue
    case CallRecv(_, peek, wait, timed) => pc.Idle? && pc' == T.Receiving(peek, wait, timed) && next.queue == q.queue
    case TryPend(_) =>
      && pc.Receiving? && next.queue == q.queue
      && pc' == (if q.tokens > 0 then T.Taking(pc.peek) else if pc.wait then T.Waiting(pc.peek, pc.timed) else T.Idle)
    case Pend(_) => pc.Waiting? && pc' == T.Holding(pc.peek) && next.queue == q.queue
    case Relock(_) => pc.Holding? && pc' == T.Taking(pc.peek) && next.queue == q.queue
    case Take(_) => pc.Taking? && q.queue != [] && pc' == (if pc.peek then T.Peeked else T.Idle)
    case CallClean(_) => pc.Idle? && pc'.Cleaning? && next.queue == q.queue
    case CleanTest(_) =>
      pc.Cleaning? && next.queue == q.queue && (if q.queue != [] && q.tokens > 0 then pc'.Dropping? else pc'.Idle?)
    case Drop(_) => pc.Dropping? && pc'.Cleaning?
    case _ => true
  }

  lemma EffectHolds(limits: T.Limits, q: T.Queue<P.Task>, ev: T.Event<P.Task>)
    requires T.Step(limits, q, ev).To?
    ensures Effect(limits, q, ev, T.Step(limits, q, ev).s)
  {
    hide Enqueue;
  }

  lemma OthersAllowed(c: P.Config, r: Threads, ev: T.Event<P.Task>, q: T.Queue<P.Task>, t: T.Tid)
    requires ControlInv(c, r) && May(c, r, ev) && t != ev.t && T.PcOf(q, t) == T.PcOf(r.q, t)
    ensures Allowed(c, After(c, r, ev.t, q), t, T.PcOf(q, t))
  {
    hide TakeEvent, SendEvent, CleanEvent;
    assert Allowed(c, r, t, T.PcOf(r.q, t));
  }

  lemma ItsPcAllowed(c: P.Config, r: Threads, ev: T.Event<P.Task>, q: T.Queue<P.Task>)
    requires ControlInv(c, r) && May(c, r, ev) && Effect(LimitsOf(c), r.q, ev, q)
    ensures Allowed(c, After(c, r, ev.t, q), ev.t, T.PcOf(q, ev.t))
  {
    assert Allowed(c, r, ev.t, T.PcOf(r.q, ev.t));
  }

  lemma {:induction false} QueueControl(c: P.Config, r: Threads, ev: T.Event<P.Task>)
    requires ControlInv(c, r) && May(c, r, ev) && T.Step(LimitsOf(c), r.q, ev).To?
    ensures ControlInv(c, After(c, r, ev.t, T.Step(LimitsOf(c), r.q, ev).s))
  {
    hide T.Step, Effect, Allowed, TakeEvent, SendEvent, CleanEvent;
    var q := T.Step(LimitsOf(c), r.q, ev).s;
    OnlyItsPc(LimitsOf(c), r.q, ev);
    EffectHolds(LimitsOf(c), r.q, ev);
    var next := After(c, r, ev.t, q);
    forall t <- q.pcs ensures Allowed(c, next, t, q.pcs[t]) {
      if t != ev.t {
        OthersAllowed(c, r, ev, q, t);
      } else {
        ItsPcAllowed(c, r, ev, q);
      }
    }
    StoppedControl(c, r, ev, q);
  }

  lemma StoppedControl(c: P.Config, r: Threads, ev: T.Event<P.Task>, q: T.Queue<P.Task>)
    requires ControlInv(c, r) && May(c, r, ev)
    ensures var next := After(c, r, ev.t, q);
            && |next.jobs| == c.threadNum && (next.started <==> next.phase.Up?)
            && (next.phase.Sending? ==> next.phase.sent <= c.threadNum)
            && (next.phase.Stopped? ==> AllExited(next.jobs))
            && (forall t <- next.adders :: t > c.threadNum)
  {
    hide Allowed, TakeEvent;
  }

  lemma {:induction false} StepControl(c: P.Config, r: Threads, ev: Event)
    requires ControlInv(c, r) && Step(c, r, ev).To? && !ev.InQueue?
    ensures ControlInv(c, Step(c, r, ev).r)
  {
    hide T.Step, May;
    var next := Step(c, r, ev).r;
    forall t <- next.q.pcs ensures Allowed(c, next, t, next.q.pcs[t]) {
      assert Allowed(c, r, t, r.q.pcs[t]);
    }
  }

  lemma {:induction false} StepInv(c: P.Config, r: Threads, ev: Event)
    requires Inv(c, r)
    ensures !Step(c, r, ev).Undefined?
    ensures Step(c, r, ev).To? ==> Inv(c, Step(c, r, ev).r)
  {
    hide T.Inv, T.Step, ControlInv, May;
    match ev
    case InQueue(qev) =>
      T.StepInv(LimitsOf(c), r.q, qev);
      if Step(c, r, ev).To? {
        QueueControl(c, r, qev);
      }
    case _ =>
      if Step(c, r, ev).To? {
        StepControl(c, r, ev);
      }
  }

  // ---------------------------------------------------------------- the pool that the threads make

  /** A worker's place in the pool. A message it is about to take under the mutex is its own already. */
  function PcFor(job: Job, pc: T.Pc<P.Task>, queue: seq<Entry<P.Task>>): P.Pc {
    match job
    case AtTest => P.Test
    case HasMsg(task) => P.Got(task)
    case Exited => P.Exited
    case Receiving =>
      if pc.Waiting? then P.Wait
      else if pc.Holding? then P.Hold
      else if pc.Taking? && queue != [] then P.Got(queue[0].msg)
      else P.Receive
  }

  function WorkerOf(r: Threads, i: nat): P.Pc
    requires i < |r.jobs|
  {
    PcFor(r.jobs[i], T.PcOf(r.q, i), r.q.queue)
  }

  function WorkersOf(r: Threads): seq<P.Pc> {
    seq(|r.jobs|, i requires 0 <= i < |r.jobs| => WorkerOf(r, i))
  }

  /** stop is inside clean, which holds the mutex to its end. */
  predicate Cleaning(c: P.Config, r: Threads) {
    r.phase.Joining? && !T.PcOf(r.q, c.threadNum).Idle?
  }

  function PhaseOf(c: P.Config, r: Threads): P.Phase {
    if r.phase.Sending? && T.PcOf(r.q, c.threadNum).Posting? then P.Sending(r.phase.sent + 1)
    else if Cleaning(c, r) then P.Stopped
    else r.phase
  }

  /** A caller of addTask counts until its message is in. */
  function AddersOf(r: Threads): set<T.Tid> {
    set t | t in r.adders && !T.PcOf(r.q, t).Posting?
  }

  function Abs(c: P.Config, r: Threads): P.Pool {
    P.Pool(WorkersOf(r),
           if Cleaning(c, r) then [] else A.QueueOf(r.q),
           if Cleaning(c, r) then 0 else A.TokensOf(r.q),
           r.started, PhaseOf(c, r), |AddersOf(r)|)
  }

  /** The step of the pool that a step of a thread stands for, if any. */
  function Image(c: P.Config, r: Threads, ev: Event): Option<P.Event> {
    match ev
    case CheckFlag(i) => Some(P.CheckFlag(i))
    case Finish(i) => Some(P.Finish(i))
    case AddCheck(_) => Some(P.AddCheck)
    case AddReject(_, e) => Some(P.AddSend(e))
    case StopFlag => Some(P.StopFlag)
    case StopReject => Some(P.StopSend)
    case StopJoin => Some(P.StopJoin)
    case InQueue(qev) =>
      match qev
      case TryPend(t) => Some(P.TryTake(t))
      case Pend(t) => Some(P.Pend(t))
      case Relock(t) => Some(P.TakeFront(t))
      case Insert(t) =>
        if t == c.threadNum then Some(P.StopSend)
        else if T.PcOf(r.q, t).Sending? then Some(P.AddSend(T.PcOf(r.q, t).e))
        else None
      case CallClean(_) => Some(P.StopClean)
      case _ => None
  }

  ghost predicate Simulates(c: P.Config, r: Threads, ev: Event, next: Threads) {
    match Image(c, r, ev)
    case None => Abs(c, next) == Abs(c, r)
    case Some(pev) => P.Step(c, Abs(c, r), pev) == P.To(Abs(c, next))
  }

  // ---------------------------------------------------------------- steps of a thread's own code

  lemma ControlSimulates(c: P.Config, r: Threads, ev: Event)
    requires ControlInv(c, r) && Step(c, r, ev).To? && !ev.InQueue? && !ev.AddCheck? && !ev.AddReject?
    ensures Simulates(c, r, ev, Step(c, r, ev).r)
  {
    hide T.Step, May, A.QueueOf, A.TokensOf, Enqueue, Allowed;
    var next := Step(c, r, ev).r;
    IdleStop(c, r);
    if ev.CheckFlag? {
      IdleWorker(c, r, ev.i);
      assert WorkersOf(next) == WorkersOf(r)[ev.i := if r.started then P.Receive else P.Exited];
    } else if ev.Finish? {
      assert WorkersOf(next) == WorkersOf(r)[ev.i := P.Test];
    } else {
      SameWorkers(r, next);
    }
  }

  lemma IdleWorker(c: P.Config, r: Threads, i: nat)
    requires ControlInv(c, r) && i < |r.jobs| && !r.jobs[i].Receiving?
    ensures T.PcOf(r.q, i).Idle?
  {
    assert Allowed(c, r, i, T.PcOf(r.q, i));
  }

  /** Outside its sends and its clean stop is not in the queue's code. */
  lemma IdleStop(c: P.Config, r: Threads)
    requires ControlInv(c, r)
    ensures !T.PcOf(r.q, c.threadNum).Idle? ==>
              || (r.phase.Sending? && r.phase.sent < c.threadNum)
              || (r.phase.Joining? && AllExited(r.jobs))
  {
    assert Allowed(c, r, c.threadNum, T.PcOf(r.q, c.threadNum));
  }

  lemma AnyAllowed(c: P.Config, r: Threads, t: T.Tid)
    requires ControlInv(c, r)
    ensures Allowed(c, r, t, T.PcOf(r.q, t))
  {
  }

  lemma AddCheckSimulates(c: P.Config, r: Threads, t: T.Tid)
    requires ControlInv(c, r) && Step(c, r, AddCheck(t)).To?
    ensures Simulates(c, r, AddCheck(t), Step(c, r, AddCheck(t)).r)
  {
    hide T.Step, May, A.QueueOf, A.TokensOf, Enqueue, WorkerOf, ControlInv, P.WorkerStep;
    var next := Step(c, r, AddCheck(t)).r;
    assert WorkersOf(next) == WorkersOf(r) by {
      SameWorkers(r, next);
    }
    AnyAllowed(c, r, t);
    assert AddersOf(next) == AddersOf(r) + {t};
  }

  lemma AddRejectSimulates(c: P.Config, r: Threads, t: T.Tid, e: Entry<P.Task>)
    requires ControlInv(c, r) && Step(c, r, AddReject(t, e)).To?
    ensures Simulates(c, r, AddReject(t, e), Step(c, r, AddReject(t, e)).r)
  {
    hide T.Step, May, A.QueueOf, A.TokensOf, Enqueue, WorkerOf, ControlInv, P.WorkerStep;
    var next := Step(c, r, AddReject(t, e)).r;
    assert WorkersOf(next) == WorkersOf(r) by {
      SameWorkers(r, next);
    }
    assert t in AddersOf(r);
    assert AddersOf(next) == AddersOf(r) - {t};
  }

  lemma SameWorkers(r: Threads, next: Threads)
    requires next.jobs == r.jobs && next.q == r.q
    ensures WorkersOf(next) == WorkersOf(r)
  {
  }

  // ---------------------------------------------------------------- steps of the queue

  /** The messages and tokens as the pool counts them, across a step that moves neither. */
  predicate SameQueue(q: T.Queue<P.Task>, next: T.Queue<P.Task>) {
    A.QueueOf(next) == A.QueueOf(q) && A.TokensOf(next) == A.TokensOf(q)
  }

  lemma QuietEffect(limits: T.Limits, q: T.Queue<P.Task>, ev: T.Event<P.Task>)
    requires T.Inv(limits, q) && T.Step(limits, q, ev).To?
    requires ev.CallSend? || ev.Post? || ev.CallRecv? || ev.CallClean? || (ev.Take? && !T.PcOf(q, ev.t).peek)
    ensures SameQueue(q, T.Step(limits, q, ev).s)
  {
    hide A.PcsOf, T.CountInv, T.LevelsInv, T.LinesInv, T.BoundInv, Enqueue;
    A.StepRefines(limits, q, ev);
  }

  lemma InsertEffect(limits: T.Limits, q: T.Queue<P.Task>, t: T.Tid)
    requires T.Inv(limits, q) && T.Step(limits, q, T.Insert(t)).To?
    ensures var next, pc := T.Step(limits, q, T.Insert(t)).s, T.PcOf(q, t);
            && pc.Sending? && q.lock == Some(t) && 0 <= pc.e.prio < limits.levels
            && A.QueueOf(q) == q.queue && A.TokensOf(q) == q.tokens
            && (if |q.queue| >= limits.capacity then SameQueue(q, next)
                else A.QueueOf(next) == Enqueue(q.queue, pc.e) && A.TokensOf(next) == q.tokens + 1)
  {
    hide A.PcsOf, T.CountInv, T.LinesInv, T.BoundInv, Enqueue;
  }

  lemma TryPendEffect(limits: T.Limits, q: T.Queue<P.Task>, t: T.Tid)
    requires T.Inv(limits, q) && T.Step(limits, q, T.TryPend(t)).To? && !T.PcOf(q, t).peek
    ensures var next := T.Step(limits, q, T.TryPend(t)).s;
            && A.QueueOf(q) == q.queue && A.TokensOf(q) == q.tokens
            && (if q.tokens > 0
                then q.queue != [] && A.QueueOf(next) == q.queue[1..] && A.TokensOf(next) == q.tokens - 1
                else SameQueue(q, next))
  {
    hide A.PcsOf, T.LevelsInv, T.LinesInv, T.BoundInv, Enqueue, T.Holders;
    A.TokenMessage(q, t);
  }

  lemma PendEffect(limits: T.Limits, q: T.Queue<P.Task>, t: T.Tid)
    requires T.Inv(limits, q) && T.Step(limits, q, T.Pend(t)).To?
    ensures var next := T.Step(limits, q, T.Pend(t)).s;
            A.QueueOf(next) == A.QueueOf(q) && A.TokensOf(q) > 0 && A.TokensOf(next) == A.TokensOf(q) - 1
  {
    hide A.PcsOf, T.CountInv, T.LevelsInv, T.LinesInv, T.BoundInv, Enqueue;
  }

  lemma RelockEffect(limits: T.Limits, q: T.Queue<P.Task>, t: T.Tid)
    requires T.Inv(limits, q) && T.Step(limits, q, T.Relock(t)).To? && !T.PcOf(q, t).peek
    ensures var next := T.Step(limits, q, T.Relock(t)).s;
            && q.queue != [] && A.QueueOf(q) == q.queue && A.QueueOf(next) == q.queue[1..]
            && A.TokensOf(next) == A.TokensOf(q)
  {
    hide A.PcsOf, T.LevelsInv, T.LinesInv, T.BoundInv, Enqueue, T.Holders;
    A.TokenMessage(q, t);
  }

  /** The other workers are where they were: nobody changes the queue while a worker takes from it. */
  lemma OtherWorkers(c: P.Config, r: Threads, ev: T.Event<P.Task>, i: nat)
    requires ControlInv(c, r) && T.LockInv(r.q) && T.Step(LimitsOf(c), r.q, ev).To? && i < |r.jobs| && i != ev.t
    requires Effect(LimitsOf(c), r.q, ev, T.Step(LimitsOf(c), r.q, ev).s)
    requires TakeEvent(ev) || SendEvent(ev) || CleanEvent(ev)
    ensures var next := After(c, r, ev.t, T.Step(LimitsOf(c), r.q, ev).s);
            i < |next.jobs| && WorkerOf(next, i) == WorkerOf(r, i)
  {
    hide T.Step, Enqueue, Allowed;
    OnlyItsPc(LimitsOf(c), r.q, ev);
    assert T.PcOf(r.q, i).Taking? ==> r.q.lock == Some(i);
    assert T.Locked(T.PcOf(r.q, ev.t)) ==> r.q.lock == Some(ev.t);
  }

  /** So the workers change at most where the thread is one. */
  lemma WorkersMove(c: P.Config, r: Threads, ev: T.Event<P.Task>)
    requires Inv(c, r) && Step(c, r, InQueue(ev)).To?
    ensures var next := Step(c, r, InQueue(ev)).r;
            && |next.jobs| == |r.jobs|
            && (ev.t < c.threadNum ==> WorkersOf(next) == WorkersOf(r)[ev.t := WorkerOf(next, ev.t)])
            && (ev.t >= c.threadNum ==> WorkersOf(next) == WorkersOf(r))
  {
    hide T.Step, Enqueue, Effect, Allowed, WorkerOf, T.LockInv, T.CountInv, T.BoundInv, T.LevelsInv, T.LinesInv;
    EffectHolds(LimitsOf(c), r.q, ev);
    forall i | 0 <= i < |r.jobs| && i != ev.t
      ensures i < |Step(c, r, InQueue(ev)).r.jobs| && WorkerOf(Step(c, r, InQueue(ev)).r, i) == WorkerOf(r, i)
    {
      OtherWorkers(c, r, ev, i);
    }
  }

  /** A worker's step in the queue leaves stop and the callers of addTask where they are. */
  lemma RestSame(c: P.Config, r: Threads, ev: T.Event<P.Task>)
    requires ControlInv(c, r) && Step(c, r, InQueue(ev)).To? && ev.t < c.threadNum
    ensures var next := Step(c, r, InQueue(ev)).r;
            && PhaseOf(c, next) == PhaseOf(c, r) && AddersOf(next) == AddersOf(r) && next.started == r.started
            && !Cleaning(c, next) && !Cleaning(c, r)
  {
    hide T.Step, Enqueue, Allowed, TakeEvent;
    OnlyItsPc(LimitsOf(c), r.q, ev);
    IdleStop(c, r);
  }

  lemma TryPendSimulates(c: P.Config, r: Threads, ev: T.Event<P.Task>)
    requires Inv(c, r) && Step(c, r, InQueue(ev)).To? && ev.t < c.threadNum && ev.TryPend?
    ensures Simulates(c, r, InQueue(ev), Step(c, r, InQueue(ev)).r)
  {
    hide T.Step, T.Inv, Enqueue, PhaseOf, AddersOf, Cleaning, A.QueueOf, A.TokensOf, WorkersOf;
    var next := Step(c, r, InQueue(ev)).r;
    AnyAllowed(c, r, ev.t);
    EffectHolds(LimitsOf(c), r.q, ev);
    WorkersMove(c, r, ev);
    WorkersAt(r, ev.t);
    RestSame(c, r, ev);
    TryPendEffect(LimitsOf(c), r.q, ev.t);
    assert WorkerOf(r, ev.t) == P.Receive;
    assert WorkerOf(next, ev.t) == if r.q.tokens > 0 then P.Got(r.q.queue[0].msg) else P.Wait;
  }

  lemma PendSimulates(c: P.Config, r: Threads, ev: T.Event<P.Task>)
    requires Inv(c, r) && Step(c, r, InQueue(ev)).To? && ev.t < c.threadNum && ev.Pend?
    ensures Simulates(c, r, InQueue(ev), Step(c, r, InQueue(ev)).r)
  {
    hide T.Step, T.Inv, Enqueue, PhaseOf, AddersOf, Cleaning, A.QueueOf, A.TokensOf, WorkersOf;
    var next := Step(c, r, InQueue(ev)).r;
    AnyAllowed(c, r, ev.t);
    EffectHolds(LimitsOf(c), r.q, ev);
    WorkersMove(c, r, ev);
    WorkersAt(r, ev.t);
    RestSame(c, r, ev);
    PendEffect(LimitsOf(c), r.q, ev.t);
    assert WorkerOf(r, ev.t) == P.Wait && WorkerOf(next, ev.t) == P.Hold;
  }

  lemma RelockSimulates(c: P.Config, r: Threads, ev: T.Event<P.Task>)
    requires Inv(c, r) && Step(c, r, InQueue(ev)).To? && ev.t < c.threadNum && ev.Relock?
    ensures Simulates(c, r, InQueue(ev), Step(c, r, InQueue(ev)).r)
  {
    hide T.Step, T.Inv, Enqueue, PhaseOf, AddersOf, Cleaning, A.QueueOf, A.TokensOf, WorkersOf;
    var next := Step(c, r, InQueue(ev)).r;
    AnyAllowed(c, r, ev.t);
    EffectHolds(LimitsOf(c), r.q, ev);
    WorkersMove(c, r, ev);
    WorkersAt(r, ev.t);
    RestSame(c, r, ev);
    RelockEffect(LimitsOf(c), r.q, ev.t);
    assert WorkerOf(r, ev.t) == P.Hold && WorkerOf(next, ev.t) == P.Got(r.q.queue[0].msg);
  }

  lemma QuietSimulates(c: P.Config, r: Threads, ev: T.Event<P.Task>)
    requires Inv(c, r) && Step(c, r, InQueue(ev)).To? && ev.t < c.threadNum && (ev.CallRecv? || ev.Take?)
    ensures Simulates(c, r, InQueue(ev), Step(c, r, InQueue(ev)).r)
  {
    hide T.Step, T.Inv, Enqueue, PhaseOf, AddersOf, Cleaning, A.QueueOf, A.TokensOf, WorkersOf;
    var next := Step(c, r, InQueue(ev)).r;
    AnyAllowed(c, r, ev.t);
    EffectHolds(LimitsOf(c), r.q, ev);
    WorkersMove(c, r, ev);
    WorkersAt(r, ev.t);
    RestSame(c, r, ev);
    QuietEffect(LimitsOf(c), r.q, ev);
    assert WorkerOf(next, ev.t) == WorkerOf(r, ev.t);
    assert WorkersOf(next) == WorkersOf(r);
  }

  lemma WorkersAt(r: Threads, i: nat)
    requires i < |r.jobs|
    ensures |WorkersOf(r)| == |r.jobs| && WorkersOf(r)[i] == WorkerOf(r, i)
  {
  }

  /** A send leaves the workers where they are. */
  lemma {:induction false} StopSendSimulates(c: P.Config, r: Threads, ev: T.Event<P.Task>)
    requires Inv(c, r) && Step(c, r, InQueue(ev)).To? && ev.t == c.threadNum && SendEvent(ev)
    ensures Simulates(c, r, InQueue(ev), Step(c, r, InQueue(ev)).r)
  {
    hide T.Step, T.Inv, Enqueue, AddersOf, A.QueueOf, A.TokensOf, WorkersOf;
    AnyAllowed(c, r, ev.t);
    EffectHolds(LimitsOf(c), r.q, ev);
    WorkersMove(c, r, ev);
    StopAdders(c, r, ev);
    if ev.Insert? {
      InsertEffect(LimitsOf(c), r.q, ev.t);
    } else {
      QuietEffect(LimitsOf(c), r.q, ev);
    }
  }

  lemma StopAdders(c: P.Config, r: Threads, ev: T.Event<P.Task>)
    requires ControlInv(c, r) && Step(c, r, InQueue(ev)).To? && ev.t == c.threadNum
    ensures AddersOf(Step(c, r, InQueue(ev)).r) == AddersOf(r)
  {
    hide T.Step, Enqueue, Allowed;
    OnlyItsPc(LimitsOf(c), r.q, ev);
  }

  lemma AdderMoves(c: P.Config, r: Threads, ev: T.Event<P.Task>)
    requires ControlInv(c, r) && Step(c, r, InQueue(ev)).To? && ev.t > c.threadNum
    ensures var next := Step(c, r, InQueue(ev)).r;
            && PhaseOf(c, next) == PhaseOf(c, r) && (Cleaning(c, next) <==> Cleaning(c, r))
            && next.started == r.started && next.phase == r.phase
            && (ev.Insert? ==> ev.t in AddersOf(r) && AddersOf(next) == AddersOf(r) - {ev.t})
            && (!ev.Insert? ==> AddersOf(next) == AddersOf(r))
  {
    hide T.Step, Enqueue;
    AnyAllowed(c, r, ev.t);
    EffectHolds(LimitsOf(c), r.q, ev);
    OnlyItsPc(LimitsOf(c), r.q, ev);
  }

  /** stop holds the mutex while it cleans, so nobody else is in a locked part. */
  lemma CleaningLocks(c: P.Config, r: Threads)
    requires Inv(c, r) && Cleaning(c, r)
    ensures r.q.lock == Some(c.threadNum)
  {
    hide T.CountInv, T.BoundInv, T.LevelsInv, T.LinesInv;
    AnyAllowed(c, r, c.threadNum);
  }

  lemma AdderInserts(c: P.Config, r: Threads, ev: T.Event<P.Task>)
    requires Inv(c, r) && Step(c, r, InQueue(ev)).To? && ev.t > c.threadNum && ev.Insert?
    ensures Simulates(c, r, InQueue(ev), Step(c, r, InQueue(ev)).r)
  {
    hide T.Step, T.Inv, Enqueue, AddersOf, A.QueueOf, A.TokensOf, WorkersOf, PhaseOf, Cleaning, Allowed;
    EffectHolds(LimitsOf(c), r.q, ev);
    WorkersMove(c, r, ev);
    AdderMoves(c, r, ev);
    InsertEffect(LimitsOf(c), r.q, ev.t);
    if Cleaning(c, r) {
      CleaningLocks(c, r);
    }
  }

  lemma AdderQuiet(c: P.Config, r: Threads, ev: T.Event<P.Task>)
    requires Inv(c, r) && Step(c, r, InQueue(ev)).To? && ev.t > c.threadNum && !ev.Insert?
    ensures Simulates(c, r, InQueue(ev), Step(c, r, InQueue(ev)).r)
  {
    hide T.Step, T.Inv, Enqueue, AddersOf, A.QueueOf, A.TokensOf, WorkersOf, PhaseOf, Cleaning, Allowed;
    WorkersMove(c, r, ev);
    AdderMoves(c, r, ev);
    QuietEffect(LimitsOf(c), r.q, ev);
  }

  /** clean ends with an empty queue: nobody holds a token when all workers have exited. */
  lemma CleanEmpties(c: P.Config, r: Threads)
    requires Inv(c, r) && r.phase.Joining? && AllExited(r.jobs) && T.PcOf(r.q, c.threadNum).Cleaning?
    ensures r.q.tokens == |r.q.queue|
  {
    hide T.BoundInv, T.LevelsInv, T.LinesInv;
    CleaningLocks(c, r);
    forall t | t in r.q.pcs ensures !T.HasToken(r.q.pcs[t]) {
      assert Allowed(c, r, t, r.q.pcs[t]);
    }
    assert T.Holders(r.q.pcs) == {};
  }

  lemma {:induction false} CleanSimulates(c: P.Config, r: Threads, ev: T.Event<P.Task>)
    requires Inv(c, r) && Step(c, r, InQueue(ev)).To? && ev.t == c.threadNum && CleanEvent(ev)
    ensures Simulates(c, r, InQueue(ev), Step(c, r, InQueue(ev)).r)
  {
    hide T.Inv, Enqueue, AddersOf, WorkersOf, Allowed;
    EffectHolds(LimitsOf(c), r.q, ev);
    WorkersMove(c, r, ev);
    StopAdders(c, r, ev);
    ExitedWorkers(c, r);
    if ev.CleanTest? {
      CleanEmpties(c, r);
    }
  }

  lemma ExitedWorkers(c: P.Config, r: Threads)
    requires AllExited(r.jobs)
    ensures forall i | 0 <= i < |WorkersOf(r)| :: WorkersOf(r)[i].Exited?
  {
  }

  /** Every step of the threads is a step of the pool, or none. */
  lemma {:induction false} StepSimulates(c: P.Config, r: Threads, ev: Event)
    requires Inv(c, r) && Step(c, r, ev).To?
    ensures Simulates(c, r, ev, Step(c, r, ev).r)
  {
    hide Simulates, T.Inv, T.Step, ControlInv;
    match ev
    case AddCheck(t) => AddCheckSimulates(c, r, t);
    case AddReject(t, e) => AddRejectSimulates(c, r, t, e);
    case InQueue(qev) =>
      if qev.t < c.threadNum {
        if qev.TryPend? {
          TryPendSimulates(c, r, qev);
        } else if qev.Pend? {
          PendSimulates(c, r, qev);
        } else if qev.Relock? {
          RelockSimulates(c, r, qev);
        } else {
          QuietSimulates(c, r, qev);
        }
      } else if qev.t > c.threadNum {
        if qev.Insert? {
          AdderInserts(c, r, qev);
        } else {
          AdderQuiet(c, r, qev);
        }
      } else if SendEvent(qev) {
        StopSendSimulates(c, r, qev);
      } else {
        CleanSimulates(c, r, qev);
      }
    case _ => ControlSimulates(c, r, ev);
  }
}
