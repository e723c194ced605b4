/** Runs of the channel machine put together from single steps. */
module ChannelRuns {
  import Base
  import opened Channel

  predicate NoTimeout(evs: seq<Event>) {
    forall i | 0 <= i < |evs| :: !evs[i].Timeout?
  }

  lemma {:induction false} RunSnoc(s: State, evs: seq<Event>, ev: Event)
    requires Run(s, evs).To?
    ensures Run(s, evs + [ev]) == Step(Run(s, evs).s, ev)
    decreases |evs|
  {
    hide Step;
    if evs == [] {
      var one := [ev];
      assert evs + [ev] == one && one[0] == ev && one[1..] == [];
      assert Run(s, one) == Step(s, ev);
    } else {
      assert (evs + [ev])[0] == evs[0] && (evs + [ev])[1..] == evs[1..] + [ev];
      RunSnoc(Step(s, evs[0]).s, evs[1..], ev);
    }
  }

  /** Entering recvFrame with k tokens left over from before. */
  function RequestEvents(name: Name, k: nat): seq<Event> {
    [Request(name)] + seq(k, _ => Drain) + [Drain, SetName]
  }

  lemma RequestNoTimeout(name: Name, k: nat)
    ensures NoTimeout(RequestEvents(name, k))
  {
  }

  lemma RunCons(s: State, ev: Event, evs: seq<Event>)
    requires Step(s, ev).To?
    ensures Run(s, [ev] + evs) == Run(Step(s, ev).s, evs)
  {
    hide Step;
    Base.Tail(ev, evs);
  }

  lemma {:induction false} RunAppend(s: State, a: seq<Event>, b: seq<Event>)
    requires Run(s, a).To?
    ensures Run(s, a + b) == Run(Run(s, a).s, b)
    decreases |a|
  {
    hide Step;
    if a == [] {
      assert a + b == b;
    } else {
      assert (a + b)[0] == a[0] && (a + b)[1..] == a[1..] + b;
      RunAppend(Step(s, a[0]).s, a[1..], b);
    }
  }

  lemma RunOneStep(s: State, a: Event)
    requires Step(s, a).To?
    ensures Run(s, [a]) == Step(s, a)
  {
    hide Step;
    RunSnoc(s, [], a);
    assert [] + [a] == [a];
  }

  lemma RunTwoSteps(s: State, a: Event, b: Event)
    requires Step(s, a).To? && Step(Step(s, a).s, b).To?
    ensures Run(s, [a, b]) == Step(Step(s, a).s, b)
  {
    hide Step;
    RunSnoc(s, [], a);
    assert [] + [a] == [a];
    RunSnoc(s, [a], b);
    assert [a] + [b] == [a, b];
  }

  /** recvComplete as three steps of the worker. */
  lemma CompleteRun(s: State)
    requires s.worker.Delivering? && s.worker.name in s.sem
    ensures var n := s.worker.name;
            Run(s, [WriteSlot, Post, ClearName]) ==
            To(s.(slot := Slot(n, s.worker.frame), sem := s.sem[n := s.sem[n] + 1], name := "", worker := LoopTop))
  {
    hide Run, RequesterStep;
    assert [WriteSlot, Post, ClearName] == [WriteSlot] + [Post, ClearName];
    RunCons(s, WriteSlot, [Post, ClearName]);
    RunTwoSteps(Step(s, WriteSlot).s, Post, ClearName);
  }

  /** Draining k left-over tokens. */
  lemma {:induction false} DrainRun(s: State, n: Name, k: nat)
    requires s.requester == Draining(n) && n in s.sem && s.sem[n] == k
    ensures Run(s, seq(k, _ => Drain)) == To(s.(sem := s.sem[n := 0]))
    decreases k
  {
    hide Run, WorkerStep;
    if k == 0 {
      assert seq(k, _ => Drain) == [] && s.sem == s.sem[n := 0];
      RunNone(s);
    } else {
      assert seq(k, _ => Drain) == [Drain] + seq(k - 1, _ => Drain);
      RunCons(s, Drain, seq(k - 1, _ => Drain));
      var t := Step(s, Drain).s;
      DrainRun(t, n, k - 1);
      assert t.sem[n := 0] == s.sem[n := 0];
    }
  }

  lemma ReceiveRun(s: State, n: Name)
    requires s.requester == Pending(n) && n in s.sem && s.sem[n] > 0
    ensures Run(s, [Pend, Read]) ==
            To(s.(sem := s.sem[n := s.sem[n] - 1], returned := s.returned + [(n, s.slot.frame)], requester := Idle))
  {
    hide Run, WorkerStep;
    var t := s.(sem := s.sem[n := s.sem[n] - 1], requester := Reading(n));
    assert Step(s, Pend) == To(t);
    RunTwoSteps(s, Pend, Read);
  }

  lemma AbandonRun(s: State)
    requires s.requester.Pending?
    ensures Run(s, [Timeout, Abandon]) == To(s.(name := "", requester := Idle))
  {
    hide Run, WorkerStep;
    RunTwoSteps(s, Timeout, Abandon);
  }

  lemma RunNone(s: State)
    ensures Run(s, []) == To(s)
  {
  }

  /** Entering recvFrame forgets the tokens left over for the name and publishes it. */
  lemma {:induction false} RequestRun(s: State, n: Name)
    requires s.requester == Idle
    ensures var k := if n in s.sem then s.sem[n] else 0;
            Run(s, RequestEvents(n, k)) == To(s.(sem := s.sem[n := 0], name := n, requester := Pending(n)))
  {
    hide Run, WorkerStep;
    var k := if n in s.sem then s.sem[n] else 0;
    var drains := seq(k, _ => Drain);
    var t := Step(s, Request(n)).s;
    assert t.sem[n := 0] == s.sem[n := 0];
    Base.Assoc([Request(n)], drains, [Drain, SetName]);
    RunCons(s, Request(n), drains + [Drain, SetName]);
    DrainRun(t, n, k);
    RunAppend(t, drains, [Drain, SetName]);
    RunTwoSteps(t.(sem := t.sem[n := 0]), Drain, SetName);
  }

  /** One more step of a run. */
  lemma Extend(start: State, evs: seq<Event>, s: State, ev: Event) returns (evs': seq<Event>, s': State)
    requires Run(start, evs) == To(s) && Step(s, ev).To?
    ensures evs' == evs + [ev] && s' == Step(s, ev).s && Run(start, evs') == To(s')
  {
    hide Step;
    evs', s' := evs + [ev], Step(s, ev).s;
    RunSnoc(start, evs, ev);
  }

  /** A request for n while the worker holds the bytes f: it cuts them, and writes the slot. */
  lemma CutAndStore(start: State, evs: seq<Event>, s: State, n: Name, f: Bytes) returns (evs': seq<Event>, s': State)
    requires n != "" && f != []
    requires Run(start, evs) == To(s) && s.name == n && s.worker == LoopTop && s.local == [] && s.shared == []
    ensures Run(start, evs') == To(s')
    ensures s' == s.(received := s.received + f, pieces := s.pieces + [Frame(n, f)],
                  slot := Slot(n, f), worker := Posting(n))
    ensures NoTimeout(evs) ==> NoTimeout(evs')
  {
    hide Run;
    evs', s' := Extend(start, evs, s, HandleMessage(f));
    evs', s' := Extend(start, evs', s', CopyName);
    evs', s' := Extend(start, evs', s', TakeBytes);
    assert s'.local == f;
    evs', s' := Extend(start, evs', s', Fix(Complete, |f|));
    assert f[..|f|] == f;
    evs', s' := Extend(start, evs', s', WriteSlot);
  }

  lemma AskFor(start: State, evs: seq<Event>, s: State, n: Name) returns (evs': seq<Event>, s': State)
    requires Run(start, evs) == To(s) && s.requester == Idle && (n in s.sem ==> s.sem[n] == 0)
    ensures Run(start, evs') == To(s')
    ensures s' == s.(requester := Naming(n), sem := s'.sem)
    ensures s'.sem.Keys == s.sem.Keys + {n} && forall m | m in s.sem :: s'.sem[m] == s.sem[m]
    ensures n in s'.sem && s'.sem[n] == 0
    ensures NoTimeout(evs) ==> NoTimeout(evs')
  {
    hide Run, WorkerStep;
    evs', s' := Extend(start, evs, s, Request(n));
    evs', s' := Extend(start, evs', s', Drain);
  }

  lemma PostToken(start: State, evs: seq<Event>, s: State, n: Name) returns (evs': seq<Event>, s': State)
    requires Run(start, evs) == To(s) && s.worker == Posting(n) && n in s.sem && s.sem[n] == 0
    ensures Run(start, evs') == To(s')
    ensures s' == s.(worker := Clearing, sem := s'.sem)
    ensures s'.sem.Keys == s.sem.Keys && forall m | m in s.sem && m != n :: s'.sem[m] == s.sem[m]
    ensures n in s'.sem && s'.sem[n] == 1
    ensures NoTimeout(evs) ==> NoTimeout(evs')
  {
    hide Run;
    evs', s' := Extend(start, evs, s, Post);
  }

  lemma TakeReply(start: State, evs: seq<Event>, s: State, n: Name) returns (evs': seq<Event>, s': State)
    requires Run(start, evs) == To(s) && s.requester == Pending(n) && n in s.sem && s.sem[n] == 1
    ensures Run(start, evs') == To(s')
    ensures s' == s.(requester := Idle, sem := s'.sem, returned := s.returned + [(n, s.slot.frame)])
    ensures n in s'.sem && s'.sem[n] == 0
    ensures NoTimeout(evs) ==> NoTimeout(evs')
  {
    hide Run, WorkerStep;
    evs', s' := Extend(start, evs, s, Pend);
    evs', s' := Extend(start, evs', s', Read);
  }

  /** The first request, up to the point where its frame is in the slot and not posted. */
  lemma FirstCut(n: Name, f: Bytes) returns (evs: seq<Event>, s: State)
    requires n != "" && f != []
    ensures Run(Init(), evs) == To(s) && NoTimeout(evs)
    ensures s.name == n && s.worker == Posting(n) && s.requester == Pending(n)
    ensures s.local == [] && s.shared == [] && s.sem.Keys == {n} && s.sem[n] == 0
    ensures s.pieces == [Frame(n, f)] && s.returned == [] && s.slot == Slot(n, f)
  {
    hide Run, WorkerStep;
    RunNone(Init());
    evs, s := AskFor(Init(), [], Init(), n);
    evs, s := Extend(Init(), evs, s, SetName);
    evs, s := CutAndStore(Init(), evs, s, n, f);
  }
}
