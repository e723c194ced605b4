/** Which pending requests can still be answered without a timeout. */
module ChannelAnswers {
  import opened Channel
  import opened ChannelRuns

  /**
   The worker cannot cut a frame for the pending request any more: it is about to clear the name, or
   busy with a frame of another device, or the name is wiped and it does not carry it.
   */
  predicate Doomed(s: State) {
    && s.requester.Pending?
    && var n := s.requester.name;
    && n in s.sem && s.sem[n] == 0
    && (|| s.worker.Clearing?
        || ((s.worker.Delivering? || s.worker.Posting?) && Carried(s.worker) != n)
        || (s.name == "" && (n == "" || Carried(s.worker) != n)))
  }

  /** What is known of the pending request's name in every run. */
  predicate PendingInv(s: State) {
    s.requester.Pending? ==>
      && (s.name == "" || s.name == s.requester.name)
      && (s.requester.name == "" ==> s.requester.name in s.sem && s.sem[s.requester.name] == 0)
  }

  ghost predicate Inv(s: State) {
    NamesInv(s) && SlotInv(s) && PendingInv(s)
  }

  lemma {:induction false} StepPending(s: State, ev: Event)
    requires NamesInv(s) && SlotInv(s) && PendingInv(s) && Step(s, ev).To? && SlotInv(Step(s, ev).s)
    ensures PendingInv(Step(s, ev).s)
  {
  }

  lemma {:induction false} StepInv(s: State, ev: Event)
    requires Inv(s) && Step(s, ev).To?
    ensures Inv(Step(s, ev).s)
  {
    hide Step, NamesInv, SlotInv, PendingInv;
    StepNames(s, ev);
    StepSlot(s, ev);
    StepPending(s, ev);
  }

  lemma {:induction false} RunInv(s: State, evs: seq<Event>)
    requires Inv(s) && Run(s, evs).To?
    ensures Inv(Run(s, evs).s)
    decreases |evs|
  {
    hide Step, Inv;
    if evs != [] {
      StepInv(s, evs[0]);
      RunInv(Step(s, evs[0]).s, evs[1..]);
    }
  }

  // ---------------------------------------------------------------- doomed for good

  lemma {:induction false} StepDoomed(s: State, ev: Event)
    requires Inv(s) && Doomed(s) && !ev.Timeout? && Step(s, ev).To?
    ensures Doomed(Step(s, ev).s)
    ensures Step(s, ev).s.requester == s.requester && Step(s, ev).s.returned == s.returned
  {
  }

  /** A doomed request waits until it times out, whatever arrives. */
  lemma {:induction false} DoomedWaits(s: State, evs: seq<Event>)
    requires Inv(s) && Doomed(s) && NoTimeout(evs) && Run(s, evs).To?
    ensures Run(s, evs).s.requester == s.requester && Run(s, evs).s.returned == s.returned
    decreases |evs|
  {
    hide Step, Inv, Doomed;
    if evs != [] {
      StepDoomed(s, evs[0]);
      StepInv(s, evs[0]);
      DoomedWaits(Step(s, evs[0]).s, evs[1..]);
    }
  }

  // ---------------------------------------------------------------- the others can be answered

  /** The next step towards an answer: the worker cuts whatever bytes are there for the pending name. */
  function Towards(s: State): Event
    requires s.requester.Pending? || s.requester.Reading?
  {
    if s.requester.Reading? then Read
    else if s.requester.name in s.sem && s.sem[s.requester.name] > 0 then Pend
    else
      match s.worker
      case LoopTop => CopyName
      case Copied(_) => if s.local + s.shared == [] then HandleMessage([0]) else TakeBytes
      case Cutting(n) => if n == s.requester.name then Fix(Complete, |s.local|) else NoFix
      case Delivering(_, _) => WriteSlot
      case Posting(_) => Post
      case Clearing => ClearName
  }

  /** Steps the answer takes at most. */
  function Distance(s: State): nat
    requires s.requester.Pending? || s.requester.Reading?
  {
    if s.requester.Reading? then 0
    else if s.requester.name in s.sem && s.sem[s.requester.name] > 0 then 1
    else
      match s.worker
      case Posting(_) => 2
      case Delivering(_, _) => 3
      case Cutting(n) => if n == s.requester.name then 4 else 8
      case Copied(n) => (if s.local + s.shared == [] then 1 else 0) + (if n == s.requester.name then 5 else 9)
      case LoopTop => 7
      case Clearing => 0
  }

  lemma {:induction false} TowardsStep(s: State)
    requires Inv(s) && s.requester.Pending? && !Doomed(s)
    ensures var ev := Towards(s);
            && !ev.Timeout? && Step(s, ev).To?
            && var t := Step(s, ev).s;
            && t.returned == s.returned
            && (t.requester.Reading? || (t.requester.Pending? && !Doomed(t)))
            && Distance(t) < Distance(s)
  {
  }

  ghost predicate CanReturn(s: State) {
    exists evs :: NoTimeout(evs) && Run(s, evs).To? && |Run(s, evs).s.returned| > |s.returned|
  }

  lemma {:induction false} Answer(s: State) returns (evs: seq<Event>)
    requires Inv(s) && (s.requester.Reading? || (s.requester.Pending? && !Doomed(s)))
    ensures NoTimeout(evs) && Run(s, evs).To? && |Run(s, evs).s.returned| > |s.returned|
    decreases Distance(s)
  {
    hide Run, Inv, Doomed, Distance, Towards, WorkerStep;
    if s.requester.Reading? {
      RunOneStep(s, Read);
      evs := [Read];
    } else {
      TowardsStep(s);
      var ev := Towards(s);
      StepInv(s, ev);
      var rest := Answer(Step(s, ev).s);
      RunCons(s, ev, rest);
      evs := [ev] + rest;
    }
  }

  /**
   In every reachable state, timeouts included: the pending request can be answered without a
   timeout of its own exactly when it is not doomed.
   */
  lemma {:induction false} AnsweredIff(evs: seq<Event>)
    requires Run(Init(), evs).To? && Run(Init(), evs).s.requester.Pending?
    ensures CanReturn(Run(Init(), evs).s) <==> !Doomed(Run(Init(), evs).s)
  {
    hide Run, Doomed, Step;
    var s := Run(Init(), evs).s;
    RunInv(Init(), evs);
    if Doomed(s) {
      forall more | NoTimeout(more) && Run(s, more).To?
        ensures |Run(s, more).s.returned| == |s.returned|
      {
        DoomedWaits(s, more);
      }
    } else {
      var more := Answer(s);
    }
  }

  /** And it happens without any timeout, to the request that follows a delivered frame. */
  lemma {:induction false} LateClearWipes(n: Name, f: Bytes) returns (evs: seq<Event>)
    requires n != "" && f != []
    ensures Run(Init(), evs).To? && Doomed(Run(Init(), evs).s) && NoTimeout(evs)
    ensures Run(Init(), evs).s.returned == [(n, f)]
  {
    hide Run;
    var s;
    evs, s := FirstCut(n, f);
    evs, s := PostToken(Init(), evs, s, n);
    evs, s := TakeReply(Init(), evs, s, n);
    evs, s := AskFor(Init(), evs, s, n);
    evs, s := Extend(Init(), evs, s, SetName);
    evs, s := Extend(Init(), evs, s, ClearName);
  }
}
