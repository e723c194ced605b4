/**
 What the pool is for: while it is up a task can be added when there is room, and every queued task can
 still get to a worker, in queue order, whatever the workers are doing.
 */
module ThreadPoolTasks {
  import opened Base
  import opened PriorityQueue
  import opened ThreadPool

  /** No worker leaves its loop while the flag is set. */
  predicate Alive(s: Pool) {
    s.started ==> forall i | 0 <= i < |s.workers| :: !s.workers[i].Exited?
  }

  lemma {:induction false} RunAlive(c: Config, s: Pool, evs: seq<Event>)
    requires Alive(s) && Run(c, s, evs).To?
    ensures Alive(Run(c, s, evs).s)
    decreases |evs|
  {
    hide Enqueue;
    if evs != [] {
      RunAlive(c, Step(c, s, evs[0]).s, evs[1..]);
    }
  }

  predicate Ready(c: Config, s: Pool) {
    Inv(c, s) && Alive(s) && s.started
  }

  lemma StartReady(c: Config, evs: seq<Event>)
    requires Run(c, Init(c), evs).To? && Run(c, Init(c), evs).s.started
    ensures Ready(c, Run(c, Init(c), evs).s)
  {
    hide Run, Inv;
    Reached(c, evs);
    RunAlive(c, Init(c), evs);
  }

  lemma Extend(c: Config, start: Pool, evs: seq<Event>, s: Pool, ev: Event) returns (evs': seq<Event>, s': Pool)
    requires Run(c, start, evs) == To(s) && Ready(c, s) && IsWorkerEvent(ev) && Step(c, s, ev).To?
    ensures s' == Step(c, s, ev).s && Run(c, start, evs') == To(s') && Ready(c, s')
  {
    hide Inv, Enqueue;
    evs', s' := evs + [ev], Step(c, s, ev).s;
    RunConcat(c, start, evs, [ev]);
    RunOne(c, s, ev);
    StepInv(c, s, ev);
  }

  /** With a token in flight some worker holds it. */
  lemma {:induction false} SomeHolder(pcs: seq<Pc>) returns (i: nat)
    requires Sum(pcs, Holding) > 0
    ensures i < |pcs| && pcs[i].Hold?
  {
    if pcs[0].Hold? {
      i := 0;
    } else {
      i := SomeHolder(pcs[1..]);
      i := i + 1;
    }
  }

  /** A worker brought to its receive, unless it waits for a token or holds one. */
  lemma {:induction false} ToReceive(c: Config, s: Pool, i: nat) returns (evs: seq<Event>, s': Pool)
    requires Ready(c, s) && i < |s.workers|
    ensures Run(c, s, evs) == To(s') && Ready(c, s') && s'.queue == s.queue && s'.tokens == s.tokens
    ensures |s'.workers| == |s.workers|
    ensures s'.workers[i].Receive? || s'.workers[i].Wait? || s'.workers[i].Hold?
  {
    hide Run, Inv;
    evs, s' := [], s;
    RunNothing(c, s);
    if s'.workers[i].Got? {
      evs, s' := Extend(c, s, evs, s', Finish(i));
    }
    if s'.workers[i].Test? {
      evs, s' := Extend(c, s, evs, s', CheckFlag(i));
    }
  }

  lemma RunNothing(c: Config, s: Pool)
    ensures Run(c, s, []) == To(s)
  {
  }

  /** Some worker can be brought to take the front of the queue. */
  lemma {:induction false} FrontTaken(c: Config, s: Pool) returns (evs: seq<Event>, s': Pool, i: nat)
    requires Ready(c, s) && c.threadNum > 0 && s.queue != []
    ensures Run(c, s, evs) == To(s') && Ready(c, s') && s'.queue == s.queue[1..]
    ensures i < |s'.workers| && s'.workers[i] == Got(s.queue[0].msg)
  {
    hide Run;
    RunNothing(c, s);
    evs, s', i := [], s, 0;
    if s.tokens == 0 {
      i := SomeHolder(s.workers);
    } else {
      evs, s' := ToReceive(c, s, 0);
    }
    if s'.workers[i].Receive? {
      evs, s' := Extend(c, s, evs, s', TryTake(i));
    } else {
      if s'.workers[i].Wait? {
        evs, s' := Extend(c, s, evs, s', Pend(i));
      }
      evs, s' := Extend(c, s, evs, s', TakeFront(i));
    }
  }

  /** The first k queued tasks go to workers, and nothing else is taken. */
  lemma {:induction false} FrontsTaken(c: Config, s: Pool, k: nat) returns (evs: seq<Event>, s': Pool)
    requires Ready(c, s) && c.threadNum > 0 && k <= |s.queue|
    ensures Run(c, s, evs) == To(s') && Ready(c, s') && s'.queue == s.queue[k..]
    decreases k
  {
    hide Run, Ready;
    if k == 0 {
      RunNothing(c, s);
      evs, s' := [], s;
    } else {
      var first, mid, i := FrontTaken(c, s);
      var rest;
      rest, s' := FrontsTaken(c, mid, k - 1);
      RunConcat(c, s, first, rest);
      evs := first + rest;
    }
  }

  /** After any run that leaves the flag set, every queued task can still get to a worker. */
  lemma {:induction false} QueuedTaskRuns(c: Config, evs: seq<Event>, k: nat)
    returns (more: seq<Event>, s': Pool, i: nat)
    requires c.threadNum > 0 && Run(c, Init(c), evs).To? && Run(c, Init(c), evs).s.started
    requires k < |Run(c, Init(c), evs).s.queue|
    ensures var s := Run(c, Init(c), evs).s;
            && Run(c, s, more) == To(s') && s'.queue == s.queue[k + 1..]
            && i < |s'.workers| && s'.workers[i] == Got(s.queue[k].msg)
  {
    hide Run, Ready;
    var s := Run(c, Init(c), evs).s;
    StartReady(c, evs);
    var first, mid := FrontsTaken(c, s, k);
    var rest;
    rest, s', i := FrontTaken(c, mid);
    RunConcat(c, s, first, rest);
    more := first + rest;
  }

  /** addTask: while the flag is set, a task of a level is queued in its place exactly when there is room. */
  lemma {:induction false} AddQueues(c: Config, s: Pool, e: Entry<Task>)
    requires s.started
    ensures Run(c, s, [AddCheck, AddSend(e)]) ==
            To(if 0 <= e.prio < c.prioNum && |s.queue| < c.taskNum
               then s.(queue := Enqueue(s.queue, e), tokens := s.tokens + 1)
               else s)
  {
    hide Run, Enqueue;
    RunOne(c, s, AddCheck);
    RunConcat(c, s, [AddCheck], [AddSend(e)]);
    RunOne(c, Step(c, s, AddCheck).s, AddSend(e));
    assert [AddCheck] + [AddSend(e)] == [AddCheck, AddSend(e)];
  }
}
