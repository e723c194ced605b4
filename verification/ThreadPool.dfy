/**
 The shutdown of ThreadPool: stop clears the start flag, sends one empty task per
 worker into the bounded queue, ignoring refusals, and then joins the workers.
 Each event is one atomic step. Modules ThreadPoolThreads and ThreadPoolReturns put the queue of
 MsgQueThreads, with its mutex and semaphore, in place of the atomic steps on the queue.
 */
module ThreadPool {
  import opened Base
  import opened PriorityQueue

  /** A queued task, or the empty message stop sends. */
  datatype Task = Nothing | Task(id: int)

  /** Where a worker is in loopTask. */
  datatype Pc =
    | Test                  // at the while test of the start flag
    | Receive               // in recvMessage, before tryPend
    | Wait                  // blocked in pend
    | Hold                  // got a token, before taking the front
    | Got(task: Task)       // has its message; runs it or not
    | Exited

  /** Where stop is. */
  datatype Phase = Up | Sending(sent: nat) | Joining | Stopped

  datatype Pool = Pool(
    workers: seq<Pc>,
    queue: seq<Entry<Task>>,
    tokens: nat,
    started: bool,
    phase: Phase,
    adders: nat)            // addTask calls that saw the flag set and have not sent yet

  datatype Config = Config(threadNum: nat, taskNum: int, prioNum: nat)

  datatype Event =
    | CheckFlag(i: nat)
    | TryTake(i: nat)
    | Pend(i: nat)
    | TakeFront(i: nat)
    | Finish(i: nat)        // its message was run to the end, or skipped
    | AddCheck
    | AddSend(e: Entry<Task>)
    | StopFlag
    | StopSend
    | StopJoin
    | StopClean

  datatype Result = Disabled | Undefined | To(s: Pool)

  /** The queue has a place for each worker, and the level stop sends at exists. */
  predicate Roomy(c: Config) {
    c.threadNum <= c.taskNum && c.prioNum > 0
  }

  function Init(c: Config): Pool {
    Pool(seq(c.threadNum, _ => Test), [], 0, true, Up, 0)
  }

  function Move(s: Pool, i: nat, pc: Pc): Pool
    requires i < |s.workers|
  {
    s.(workers := s.workers[i := pc])
  }

  /** sendMessage: refused for a priority out of range and when the queue is full. */
  function Send(c: Config, s: Pool, e: Entry<Task>): Pool {
    if !(0 <= e.prio < c.prioNum) || |s.queue| >= c.taskNum then s
    else s.(queue := Enqueue(s.queue, e), tokens := s.tokens + 1)
  }

  predicate AllExited(s: Pool) {
    forall i | 0 <= i < |s.workers| :: s.workers[i].Exited?
  }

  predicate IsWorkerEvent(ev: Event) {
    ev.CheckFlag? || ev.TryTake? || ev.Pend? || ev.TakeFront? || ev.Finish?
  }

  function WorkerStep(s: Pool, ev: Event): Result
    requires IsWorkerEvent(ev)
  {
    if ev.i >= |s.workers| then Disabled
    else
      var pc := s.workers[ev.i];
      match ev
      case CheckFlag(i) =>
        if pc.Test? then To(Move(s, i, if s.started then Receive else Exited)) else Disabled
      case TryTake(i) =>
        if !pc.Receive? then Disabled
        else if s.tokens == 0 then To(Move(s, i, Wait))
        else if s.queue == [] then Undefined
        else To(Move(s, i, Got(s.queue[0].msg)).(tokens := s.tokens - 1, queue := s.queue[1..]))
      case Pend(i) =>
        if pc.Wait? && s.tokens > 0 then To(Move(s, i, Hold).(tokens := s.tokens - 1)) else Disabled
      case TakeFront(i) =>
        if !pc.Hold? then Disabled
        else if s.queue == [] then Undefined
        else To(Move(s, i, Got(s.queue[0].msg)).(queue := s.queue[1..]))
      case Finish(i) =>
        if pc.Got? then To(Move(s, i, Test)) else Disabled
  }

  function Step(c: Config, s: Pool, ev: Event): Result {
    if IsWorkerEvent(ev) then WorkerStep(s, ev)
    else
      match ev
      case AddCheck => if s.started then To(s.(adders := s.adders + 1)) else Disabled
      case AddSend(e) =>
        if s.adders == 0 then Disabled
        else To(Send(c, s, e).(adders := s.adders - 1))
      case StopFlag => if s.phase.Up? then To(s.(started := false, phase := Sending(0))) else Disabled
      case StopSend =>
        if s.phase.Sending? && s.phase.sent < c.threadNum
        then To(Send(c, s, Entry(Nothing, 0)).(phase := Sending(s.phase.sent + 1)))
        else Disabled
      case StopJoin =>
        if s.phase.Sending? && s.phase.sent == c.threadNum then To(s.(phase := Joining)) else Disabled
      case StopClean =>
        if s.phase.Joining? && AllExited(s) then To(s.(phase := Stopped, queue := [], tokens := 0)) else Disabled
  }

  function Run(c: Config, s: Pool, evs: seq<Event>): Result
    decreases |evs|
  {
    if evs == [] then To(s)
    else
      match Step(c, s, evs[0])
      case Disabled => Disabled
      case Undefined => Undefined
      case To(next) => Run(c, next, evs[1..])
  }

  // ---------------------------------------------------------------- counting workers

  /** Sum of a weight over the workers. */
  function Sum(pcs: seq<Pc>, w: Pc -> nat): nat {
    if pcs == [] then 0 else w(pcs[0]) + Sum(pcs[1..], w)
  }

  lemma {:induction false} SumMove(pcs: seq<Pc>, i: nat, pc: Pc, w: Pc -> nat)
    requires i < |pcs|
    ensures Sum(pcs[i := pc], w) + w(pcs[i]) == Sum(pcs, w) + w(pc)
  {
    if i == 0 {
      assert pcs[0 := pc][1..] == pcs[1..];
    } else {
      assert pcs[i := pc][1..] == pcs[1..][i - 1 := pc];
      SumMove(pcs[1..], i - 1, pc, w);
    }
  }

  /** A worker that will need one more token before it looks at the flag again. */
  function Needy(pc: Pc): nat {
    if pc.Receive? || pc.Wait? then 1 else 0
  }

  function Holding(pc: Pc): nat {
    if pc.Hold? then 1 else 0
  }

  /** Steps a worker has left at most, once the flag is cleared. */
  function Rank(pc: Pc): nat {
    match pc
    case Receive => 5
    case Wait => 4
    case Hold => 3
    case Got(_) => 2
    case Test => 1
    case Exited => 0
  }

  lemma {:induction false} NeedyOrHolding(pcs: seq<Pc>)
    ensures Sum(pcs, Needy) + Sum(pcs, Holding) <= |pcs|
  {
    if pcs != [] {
      NeedyOrHolding(pcs[1..]);
    }
  }

  lemma {:induction false} SumPositive(pcs: seq<Pc>, w: Pc -> nat, i: nat)
    requires i < |pcs|
    ensures Sum(pcs, w) >= w(pcs[i])
  {
    if i > 0 {
      SumPositive(pcs[1..], w, i - 1);
    }
  }

  // ---------------------------------------------------------------- invariants

  /** Tokens and tokens in flight make up the queue; stop and the flag go together. */
  predicate Inv(c: Config, s: Pool) {
    && |s.workers| == c.threadNum
    && s.tokens + Sum(s.workers, Holding) == |s.queue|
    && (s.started <==> s.phase.Up?)
    && (s.phase.Sending? ==> s.phase.sent <= c.threadNum)
    && (s.phase.Stopped? ==> AllExited(s))
  }

  /** stop has sent enough, or will have when its loop ends. */
  predicate Enough(c: Config, s: Pool) {
    match s.phase
    case Sending(sent) => s.tokens + (c.threadNum - sent) >= Sum(s.workers, Needy)
    case Joining => s.tokens >= Sum(s.workers, Needy)
    case _ => true
  }

  lemma {:induction false} InitInv(c: Config)
    ensures Inv(c, Init(c)) && Enough(c, Init(c))
  {
    InitSum(c.threadNum);
  }

  lemma {:induction false} InitSum(n: nat)
    ensures Sum(seq(n, _ => Test), Holding) == 0
  {
    if n > 0 {
      assert seq(n, _ => Test)[1..] == seq(n - 1, _ => Test);
      InitSum(n - 1);
    }
  }

  /** What a worker's step does to the counts. */
  lemma {:induction false} WorkerCounts(s: Pool, ev: Event)
    requires IsWorkerEvent(ev) && WorkerStep(s, ev).To?
    ensures var next := WorkerStep(s, ev).s;
            && |next.workers| == |s.workers|
            && next.phase == s.phase && next.started == s.started && next.adders == s.adders
            && next.tokens + Sum(next.workers, Holding) + |s.queue| == s.tokens + Sum(s.workers, Holding) + |next.queue|
            && (!s.started ==> next.tokens + Sum(s.workers, Needy) == s.tokens + Sum(next.workers, Needy))
            && (!s.started ==> Sum(next.workers, Rank) < Sum(s.workers, Rank))
  {
    var next := WorkerStep(s, ev).s;
    SumMove(s.workers, ev.i, next.workers[ev.i], Holding);
    SumMove(s.workers, ev.i, next.workers[ev.i], Needy);
    SumMove(s.workers, ev.i, next.workers[ev.i], Rank);
  }

  lemma {:induction false} WorkerDefined(c: Config, s: Pool, ev: Event)
    requires Inv(c, s) && IsWorkerEvent(ev)
    ensures !WorkerStep(s, ev).Undefined?
  {
    if ev.i < |s.workers| {
      SumPositive(s.workers, Holding, ev.i);
    }
  }

  lemma {:induction false} StepInv(c: Config, s: Pool, ev: Event)
    requires Inv(c, s)
    ensures !Step(c, s, ev).Undefined?
    ensures Step(c, s, ev).To? ==> Inv(c, Step(c, s, ev).s)
  {
    if IsWorkerEvent(ev) {
      WorkerDefined(c, s, ev);
      if WorkerStep(s, ev).To? {
        WorkerCounts(s, ev);
      }
    } else if ev.StopClean? && AllExited(s) {
      ExitedSum(s.workers);
    }
  }

  lemma {:induction false} ExitedSum(pcs: seq<Pc>)
    requires forall i | 0 <= i < |pcs| :: pcs[i].Exited?
    ensures Sum(pcs, Holding) == 0 && Sum(pcs, Needy) == 0
  {
    if pcs != [] {
      ExitedSum(pcs[1..]);
    }
  }

  /** With no more workers than places, a refused send leaves tokens enough. */
  lemma {:induction false} StepEnough(c: Config, s: Pool, ev: Event)
    requires Inv(c, s) && Enough(c, s) && Step(c, s, ev).To? && Roomy(c)
    ensures Enough(c, Step(c, s, ev).s)
  {
    NeedyOrHolding(s.workers);
    if IsWorkerEvent(ev) {
      WorkerCounts(s, ev);
    }
  }

  lemma {:induction false} RunInv(c: Config, s: Pool, evs: seq<Event>)
    requires Inv(c, s)
    ensures !Run(c, s, evs).Undefined?
    ensures Run(c, s, evs).To? ==> Inv(c, Run(c, s, evs).s)
    ensures Run(c, s, evs).To? && Enough(c, s) && Roomy(c) ==> Enough(c, Run(c, s, evs).s)
    decreases |evs|
  {
    hide Inv, Enough, Step;
    if evs != [] {
      StepInv(c, s, evs[0]);
      if Step(c, s, evs[0]).To? {
        if Enough(c, s) && Roomy(c) {
          StepEnough(c, s, evs[0]);
        }
        RunInv(c, Step(c, s, evs[0]).s, evs[1..]);
      }
    }
  }

  // ---------------------------------------------------------------- stop ends

  lemma {:induction false} Reached(c: Config, evs: seq<Event>)
    requires Run(c, Init(c), evs).To?
    ensures Inv(c, Run(c, Init(c), evs).s)
    ensures Roomy(c) ==> Enough(c, Run(c, Init(c), evs).s)
  {
    InitInv(c);
    RunInv(c, Init(c), evs);
  }

  function WorkerEvents(evs: seq<Event>): nat {
    if evs == [] then 0 else (if IsWorkerEvent(evs[0]) then 1 else 0) + WorkerEvents(evs[1..])
  }

  /** Each worker event counts once. */
  lemma {:induction false} WorkerEventsCount(evs: seq<Event>, ev: Event)
    ensures WorkerEvents([]) == 0
    ensures WorkerEvents(evs + [ev]) == WorkerEvents(evs) + if IsWorkerEvent(ev) then 1 else 0
    decreases |evs|
  {
    if evs == [] {
      assert [] + [ev] == [ev];
    } else {
      assert (evs + [ev])[1..] == evs[1..] + [ev];
      WorkerEventsCount(evs[1..], ev);
    }
  }

  /** Once the flag is cleared every worker step uses up rank, and nothing gives it back. */
  lemma {:induction false} WorkerStepsBounded(c: Config, s: Pool, evs: seq<Event>)
    requires Inv(c, s) && !s.started && Run(c, s, evs).To?
    ensures WorkerEvents(evs) + Sum(Run(c, s, evs).s.workers, Rank) <= Sum(s.workers, Rank)
    decreases |evs|
  {
    if evs != [] {
      StepInv(c, s, evs[0]);
      if IsWorkerEvent(evs[0]) {
        WorkerCounts(s, evs[0]);
      }
      WorkerStepsBounded(c, Step(c, s, evs[0]).s, evs[1..]);
    }
  }

  /** A worker that is not blocked can step; a blocked one can when a token is left. */
  lemma {:induction false} CanStep(c: Config, s: Pool, i: nat) returns (ev: Event)
    requires Inv(c, s) && i < |s.workers| && !s.workers[i].Exited?
    requires s.workers[i].Wait? ==> s.tokens > 0
    ensures IsWorkerEvent(ev) && ev.i == i && Step(c, s, ev).To?
  {
    ev := match s.workers[i]
      case Test => CheckFlag(i)
      case Receive => TryTake(i)
      case Wait => Pend(i)
      case Hold => TakeFront(i)
      case Got(_) => Finish(i)
      case Exited => StopClean;
    WorkerDefined(c, s, ev);
  }

  /** With the tokens there, every worker that has not exited can step. */
  lemma {:induction false} EachCanStep(c: Config, s: Pool, i: nat) returns (ev: Event)
    requires Inv(c, s) && Enough(c, s) && s.phase.Joining?
    requires i < |s.workers| && !s.workers[i].Exited?
    ensures IsWorkerEvent(ev) && ev.i == i && Step(c, s, ev).To?
  {
    SumPositive(s.workers, Needy, i);
    ev := CanStep(c, s, i);
  }

  ghost predicate CanMove(c: Config, s: Pool, i: nat) {
    exists ev :: IsWorkerEvent(ev) && ev.i == i && Step(c, s, ev).To?
  }

  /**
   With no more workers than places in the queue, no worker stays blocked after
   stop's send loop: each worker that has not exited can step.
   */
  lemma {:induction false} StopProgress(c: Config, evs: seq<Event>, i: nat)
    requires Roomy(c) && Run(c, Init(c), evs).To? && Run(c, Init(c), evs).s.phase.Joining?
    requires i < |Run(c, Init(c), evs).s.workers|
    ensures Run(c, Init(c), evs).s.workers[i].Exited? || CanMove(c, Run(c, Init(c), evs).s, i)
  {
    hide Run, Step, Inv, Enough;
    Reached(c, evs);
    var s := Run(c, Init(c), evs).s;
    if !s.workers[i].Exited? {
      var ev := EachCanStep(c, s, i);
    }
  }

  lemma RunCons(c: Config, s: Pool, ev: Event, evs: seq<Event>)
    requires Step(c, s, ev).To?
    ensures Run(c, s, [ev] + evs) == Run(c, Step(c, s, ev).s, evs)
  {
    hide Step;
    Tail(ev, evs);
  }

  /** Letting the workers step until none is left brings stop to its end. */
  lemma {:induction false} Finishes(c: Config, s: Pool) returns (evs: seq<Event>)
    requires Roomy(c) && Inv(c, s) && Enough(c, s) && s.phase.Joining?
    ensures Run(c, s, evs).To? && Run(c, s, evs).s.phase.Stopped?
    decreases Sum(s.workers, Rank)
  {
    hide Run, Inv, Enough, Rank;
    if AllExited(s) {
      RunOne(c, s, StopClean);
      evs := [StopClean];
    } else {
      var i :| 0 <= i < |s.workers| && !s.workers[i].Exited?;
      var ev := EachCanStep(c, s, i);
      JoiningStep(c, s, ev);
      var rest := Finishes(c, Step(c, s, ev).s);
      RunCons(c, s, ev, rest);
      evs := [ev] + rest;
    }
  }

  lemma JoiningStep(c: Config, s: Pool, ev: Event)
    requires Roomy(c) && Inv(c, s) && Enough(c, s) && s.phase.Joining?
    requires IsWorkerEvent(ev) && Step(c, s, ev).To?
    ensures var next := Step(c, s, ev).s;
            && Inv(c, next) && Enough(c, next) && next.phase.Joining?
            && Sum(next.workers, Rank) < Sum(s.workers, Rank)
  {
    StepInv(c, s, ev);
    StepEnough(c, s, ev);
    WorkerCounts(s, ev);
  }

  // ---------------------------------------------------------------- and when it does not

  lemma {:induction false} RunConcat(c: Config, s: Pool, a: seq<Event>, b: seq<Event>)
    requires Run(c, s, a).To?
    ensures Run(c, s, a + b) == Run(c, Run(c, s, a).s, b)
    decreases |a|
  {
    hide Step;
    if a == [] {
      assert a + b == b;
    } else {
      assert (a + b)[1..] == a[1..] + b;
      RunConcat(c, Step(c, s, a[0]).s, a[1..], b);
    }
  }

  lemma RunOne(c: Config, s: Pool, ev: Event)
    ensures Run(c, s, [ev]) == Step(c, s, ev)
  {
    hide Step;
  }

  /** The first k workers blocked on the empty queue, the others not begun. */
  function Parked(c: Config, k: nat): Pool {
    Pool(seq(c.threadNum, i => if i < k then Wait else Test), [], 0, true, Up, 0)
  }

  lemma {:induction false} ParkRun(c: Config, k: nat) returns (evs: seq<Event>)
    requires k <= c.threadNum
    ensures Run(c, Init(c), evs) == To(Parked(c, k))
  {
    if k == 0 {
      evs := [];
      assert Init(c) == Parked(c, 0);
    } else {
      var before := ParkRun(c, k - 1);
      var s := Parked(c, k - 1);
      var mid := Move(s, k - 1, Receive);
      assert Step(c, s, CheckFlag(k - 1)) == To(mid);
      assert Step(c, mid, TryTake(k - 1)) == To(Move(mid, k - 1, Wait));
      assert Move(mid, k - 1, Wait).workers == Parked(c, k).workers;
      var two := [CheckFlag(k - 1), TryTake(k - 1)];
      assert two[1..] == [TryTake(k - 1)];
      RunOne(c, mid, TryTake(k - 1));
      RunConcat(c, Init(c), before, two);
      evs := before + two;
    }
  }

  /** The workers all blocked and stop's loop after k sends, the queue full before that. */
  predicate SentTo(c: Config, k: nat, s: Pool) {
    && s.workers == Parked(c, c.threadNum).workers
    && s.phase == Sending(k) && !s.started && s.adders == 0
    && s.tokens == |s.queue|
    && (s.tokens == 0 || (s.tokens <= c.taskNum && c.prioNum > 0))
  }

  lemma {:induction false} SendRun(c: Config, k: nat) returns (evs: seq<Event>)
    requires k <= c.threadNum
    ensures Run(c, Init(c), evs).To? && SentTo(c, k, Run(c, Init(c), evs).s)
  {
    hide Run, Boundary, Init, Enqueue;
    if k == 0 {
      var before := ParkRun(c, c.threadNum);
      RunConcat(c, Init(c), before, [StopFlag]);
      RunOne(c, Parked(c, c.threadNum), StopFlag);
      evs := before + [StopFlag];
    } else {
      var before := SendRun(c, k - 1);
      var s := Run(c, Init(c), before).s;
      RunConcat(c, Init(c), before, [StopSend]);
      RunOne(c, s, StopSend);
      evs := before + [StopSend];
    }
  }

  lemma {:induction false} ParkedNeedy(n: nat, k: nat)
    requires k <= n
    ensures Sum(seq(n, i => if i < k then Wait else Test), Needy) == k
  {
    if n > 0 {
      var pcs := seq(n, i => if i < k then Wait else Test);
      var j := if k == 0 then 0 else k - 1;
      assert pcs[1..] == seq(n - 1, i => if i < j then Wait else Test);
      ParkedNeedy(n - 1, j);
    }
  }

  /** Some run leaves fewer tokens than blocked workers when the queue is too small. */
  lemma {:induction false} ShortRun(c: Config) returns (evs: seq<Event>)
    requires c.threadNum > 0 && !Roomy(c)
    ensures Run(c, Init(c), evs).To?
    ensures var s := Run(c, Init(c), evs).s;
            s.phase.Joining? && s.adders == 0 && s.tokens < Sum(s.workers, Needy)
  {
    var before := SendRun(c, c.threadNum);
    var s := Run(c, Init(c), before).s;
    RunConcat(c, Init(c), before, [StopJoin]);
    RunOne(c, s, StopJoin);
    ParkedNeedy(c.threadNum, c.threadNum);
    evs := before + [StopJoin];
  }

  /** A shortage of tokens never heals: some worker stays blocked and stop never returns. */
  lemma {:induction false} ShortForever(c: Config, s: Pool, evs: seq<Event>)
    requires Inv(c, s) && s.phase.Joining? && s.adders == 0 && s.tokens < Sum(s.workers, Needy)
    requires Run(c, s, evs).To?
    ensures Run(c, s, evs).s.phase.Joining? && !AllExited(Run(c, s, evs).s)
    decreases |evs|
  {
    if AllExited(s) {
      ExitedSum(s.workers);
    }
    if evs != [] {
      StepInv(c, s, evs[0]);
      if IsWorkerEvent(evs[0]) {
        WorkerCounts(s, evs[0]);
      }
      ShortForever(c, Step(c, s, evs[0]).s, evs[1..]);
    }
  }

  ghost predicate CanReturn(c: Config, s: Pool) {
    exists evs :: Run(c, s, evs).To? && Run(c, s, evs).s.phase.Stopped?
  }

  /** From every point that a run reaches in the joins, stop can come to its end. */
  ghost predicate StopReturns(c: Config) {
    forall evs :: Run(c, Init(c), evs).To? && Run(c, Init(c), evs).s.phase.Joining? ==>
                    CanReturn(c, Run(c, Init(c), evs).s)
  }

  /**
   Every worker exits and stop returns, whatever was running, exactly when the queue has a place for
   each worker; WorkerStepsBounded bounds the steps it takes.
   */
  lemma {:induction false} StopExact(c: Config)
    requires c.threadNum > 0
    ensures StopReturns(c) <==> Roomy(c)
  {
    hide Run, Inv, Enough, Step;
    if Roomy(c) {
      forall evs | Run(c, Init(c), evs).To? && Run(c, Init(c), evs).s.phase.Joining?
        ensures CanReturn(c, Run(c, Init(c), evs).s)
      {
        Reached(c, evs);
        var rest := Finishes(c, Run(c, Init(c), evs).s);
      }
    } else {
      var evs := ShortRun(c);
      var s := Run(c, Init(c), evs).s;
      Reached(c, evs);
      forall more | Run(c, s, more).To?
        ensures !Run(c, s, more).s.phase.Stopped?
      {
        ShortForever(c, s, more);
      }
      assert !CanReturn(c, s);
    }
  }
}
