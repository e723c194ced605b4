/**
 The channel with two requesters, as it has when a task's devices are served by two protocol threads.
 Either requester steps on the shared state as the only one of module Channel does.
 */
module TwoRequesters {
  import opened Base
  import opened Channel
  import opened ChannelRuns

  /** The state as the first requester sees it, and where the second is. */
  datatype Pair = Pair(s: State, second: Requester)

  datatype PairEvent = First(ev: Event) | Second(ev: Event)

  /** The same with the roles exchanged. */
  function Swap(p: Pair): Pair {
    Pair(p.s.(requester := p.second), p.s.requester)
  }

  /** None where the step is not enabled, or uses a semaphore that was never created. */
  function FirstStep(p: Pair, ev: Event): Option<Pair> {
    match Step(p.s, ev)
    case To(t) => Some(Pair(t, p.second))
    case _ => None
  }

  function PairStep(p: Pair, ev: PairEvent): Option<Pair> {
    match ev
    case First(e) => FirstStep(p, e)
    case Second(e) =>
      match FirstStep(Swap(p), e)
      case Some(q) => Some(Swap(q))
      case None => None
  }

  function PairRun(p: Pair, evs: seq<PairEvent>): Option<Pair>
    decreases |evs|
  {
    if evs == [] then Some(p)
    else
      match PairStep(p, evs[0])
      case Some(q) => PairRun(q, evs[1..])
      case None => None
  }

  function AllFirst(evs: seq<Event>): seq<PairEvent> {
    seq(|evs|, i requires 0 <= i < |evs| => First(evs[i]))
  }

  function AllSecond(evs: seq<Event>): seq<PairEvent> {
    seq(|evs|, i requires 0 <= i < |evs| => Second(evs[i]))
  }

  /** A run of one requester, while the other rests. */
  lemma {:induction false} FirstRuns(p: Pair, evs: seq<Event>)
    requires Run(p.s, evs).To?
    ensures PairRun(p, AllFirst(evs)) == Some(Pair(Run(p.s, evs).s, p.second))
    decreases |evs|
  {
    hide Step;
    if evs != [] {
      assert AllFirst(evs)[1..] == AllFirst(evs[1..]);
      FirstRuns(Pair(Step(p.s, evs[0]).s, p.second), evs[1..]);
    }
  }

  lemma {:induction false} SecondRuns(p: Pair, evs: seq<Event>)
    requires Run(Swap(p).s, evs).To?
    ensures PairRun(p, AllSecond(evs)) == Some(Swap(Pair(Run(Swap(p).s, evs).s, p.s.requester)))
    decreases |evs|
  {
    hide Step;
    if evs != [] {
      assert AllSecond(evs)[1..] == AllSecond(evs[1..]);
      SecondRuns(Swap(Pair(Step(Swap(p).s, evs[0]).s, p.s.requester)), evs[1..]);
    }
  }

  lemma {:induction false} PairRunAppend(p: Pair, a: seq<PairEvent>, b: seq<PairEvent>)
    requires PairRun(p, a).Some?
    ensures PairRun(p, a + b) == PairRun(PairRun(p, a).value, b)
    decreases |a|
  {
    hide PairStep;
    if a == [] {
      assert a + b == b;
    } else {
      assert (a + b)[0] == a[0] && (a + b)[1..] == a[1..] + b;
      PairRunAppend(PairStep(p, a[0]).value, a[1..], b);
    }
  }

  /**
   With two requesters recvFrame can return the other device's frame, without any timeout: the frame
   for m overwrites the slot between the post of the frame for n and the copy.
   */
  lemma {:induction false} OthersFrame(n: Name, m: Name, f: Bytes, g: Bytes) returns (evs: seq<PairEvent>)
    requires n != "" && m != "" && n != m && f != [] && g != []
    ensures var r := PairRun(Pair(Init(), Idle), evs);
            && r.Some?
            && r.value.s.pieces == [Frame(n, f), Frame(m, g)]
            && r.value.s.returned == [(n, g)]
  {
    hide Run, PairRun, AllFirst, AllSecond;
    // the first requester's frame is posted
    var a, s := FirstCut(n, f);
    a, s := PostToken(Init(), a, s, n);
    a, s := Extend(Init(), a, s, ClearName);
    FirstRuns(Pair(Init(), Idle), a);
    var p := Pair(s, Idle);
    // the second requester's frame is cut and stored
    var b, t := SecondCut(Swap(p).s, m, g);
    SecondRuns(p, b);
    var q := Swap(Pair(t, p.s.requester));
    // the first requester copies the slot
    RunNone(q.s);
    var c, u := TakeReply(q.s, [], q.s, n);
    FirstRuns(q, c);
    PairRunAppend(Pair(Init(), Idle), AllFirst(a), AllSecond(b));
    PairRunAppend(Pair(Init(), Idle), AllFirst(a) + AllSecond(b), AllFirst(c));
    evs := AllFirst(a) + AllSecond(b) + AllFirst(c);
  }

  /** A request for m that finds the channel at rest, up to the point where its frame is in the slot. */
  lemma SecondCut(start: State, m: Name, g: Bytes) returns (evs: seq<Event>, s: State)
    requires m != "" && g != []
    requires start.requester.Idle? && start.worker.LoopTop? && start.local == [] && start.shared == []
    requires m !in start.sem
    ensures Run(start, evs) == To(s)
    ensures s.requester == Pending(m) && s.worker == Posting(m) && s.slot == Slot(m, g)
    ensures s.pieces == start.pieces + [Frame(m, g)] && s.returned == start.returned
    ensures forall n | n in start.sem :: n in s.sem && s.sem[n] == start.sem[n]
  {
    hide Run, WorkerStep;
    RunNone(start);
    evs, s := AskFor(start, [], start, m);
    evs, s := Extend(start, evs, s, SetName);
    evs, s := CutAndStore(start, evs, s, m, g);
  }
}
