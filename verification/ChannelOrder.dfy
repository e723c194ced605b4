/**
 In which order recvFrame returns the frames that were cut: exactly in order as long as no request
 times out, never out of order at all, and again in order from an idle state on exactly when the
 worker carries nothing on.
 */
module ChannelOrder {
  import opened Channel
  import opened ChannelRuns

  // ---------------------------------------------------------------- runs without a timeout

  /** The frames cut from the byte stream, in order. */
  function FramesOf(ps: seq<Piece>): seq<(Name, Bytes)> {
    if ps == [] then []
    else
      FramesOf(ps[..|ps| - 1]) +
      (match ps[|ps| - 1]
       case Frame(n, bytes) => [(n, bytes)]
       case Discarded(_) => [])
  }

  lemma FramesAppend(ps: seq<Piece>, p: Piece)
    ensures FramesOf(ps + [p]) == FramesOf(ps) + (if p.Frame? then [(p.name, p.bytes)] else [])
  {
    assert (ps + [p])[..|ps|] == ps;
  }

  /** The worker has no name to cut with: it will clear the name, or it sees none. */
  predicate Blind(s: State) {
    s.worker.Clearing? || (s.worker.LoopTop? && s.name == "")
  }

  predicate HasTokens(s: State, n: Name, k: nat) {
    n in s.sem && s.sem[n] == k
  }

  /** The last frame cut is on its way to the request it was cut for. */
  predicate InFlight(s: State) {
    match s.worker
    case Delivering(n, _) => s.requester == Pending(n) && s.name == n && HasTokens(s, n, 0)
    case Posting(n) => s.requester == Pending(n) && s.name == n && HasTokens(s, n, 0)
    case _ =>
      && Blind(s)
      && (|| (s.requester.Reading? && HasTokens(s, s.requester.name, 0))
          || (s.requester.Pending? && HasTokens(s, s.requester.name, 1)))
  }

  /** That frame. */
  function Flying(s: State): (Name, Bytes)
    requires InFlight(s)
  {
    (s.requester.name, if s.worker.Delivering? then s.worker.frame else s.slot.frame)
  }

  /** No frame is under way; tokens left over for other names do not matter, a request drains its own. */
  predicate Settled(s: State) {
    match s.requester
    case Idle => Blind(s)
    case Draining(_) => Blind(s)
    case Naming(n) => Blind(s) && HasTokens(s, n, 0)
    case Pending(n) =>
      && HasTokens(s, n, 0)
      && (|| Blind(s)
          || (s.name == n && (s.worker.LoopTop? || s.worker == Copied(n) || s.worker == Cutting(n))))
    case _ => false
  }

  /** How much had been cut and returned when the counting began. */
  datatype Mark = Mark(cut: nat, returned: nat)

  function MarkOf(s: State): Mark {
    Mark(|FramesOf(s.pieces)|, |s.returned|)
  }

  predicate Since(m: Mark, s: State) {
    m.cut <= |FramesOf(s.pieces)| && m.returned <= |s.returned|
  }

  /** The frames cut since the mark. */
  function CutSince(m: Mark, s: State): seq<(Name, Bytes)>
    requires Since(m, s)
  {
    FramesOf(s.pieces)[m.cut..]
  }

  /** The frames returned since. */
  function ReturnedSince(m: Mark, s: State): seq<(Name, Bytes)>
    requires Since(m, s)
  {
    s.returned[m.returned..]
  }

  /** Since the mark all frames cut have been returned, but for one that is on its way. */
  predicate InStep(m: Mark, s: State) {
    && Since(m, s)
    && (|| (Settled(s) && CutSince(m, s) == ReturnedSince(m, s))
        || (InFlight(s) && CutSince(m, s) == ReturnedSince(m, s) + [Flying(s)]))
  }

  lemma {:induction false} WorkerInStep(m: Mark, s: State, ev: Event)
    requires NamesInv(s) && InStep(m, s) && WorkerStep(s, ev).To?
    ensures InStep(m, WorkerStep(s, ev).s)
  {
    hide FramesOf;
    if ev.Fix? && s.worker.Cutting? {
      var frame := s.local[..CutLength(ev.validLen, |s.local|)];
      FramesAppend(s.pieces, Frame(s.worker.name, frame));
      FramesAppend(s.pieces, Discarded(s.local));
    }
  }

  lemma {:induction false} RequesterInStep(m: Mark, s: State, ev: Event)
    requires NamesInv(s) && InStep(m, s) && !ev.Timeout? && RequesterStep(s, ev).To?
    ensures InStep(m, RequesterStep(s, ev).s)
  {
    hide FramesOf;
  }

  lemma {:induction false} RunInStep(m: Mark, s: State, evs: seq<Event>)
    requires NamesInv(s) && InStep(m, s) && NoTimeout(evs) && Run(s, evs).To?
    ensures InStep(m, Run(s, evs).s)
    decreases |evs|
  {
    hide NamesInv, InStep, WorkerStep, RequesterStep;
    if evs != [] {
      var ev := evs[0];
      StepNames(s, ev);
      if IsWorkerEvent(ev) {
        WorkerInStep(m, s, ev);
      } else if !ev.HandleMessage? {
        RequesterInStep(m, s, ev);
      } else {
        MessageInStep(m, s, ev.buf);
      }
      RunInStep(m, Step(s, ev).s, evs[1..]);
    }
  }

  lemma MessageInStep(m: Mark, s: State, buf: Bytes)
    requires InStep(m, s)
    ensures InStep(m, Step(s, HandleMessage(buf)).s)
  {
    hide FramesOf;
  }

  /** The frames cut since the mark come back in order, and at most the last is on its way. */
  predicate KeepsOrder(m: Mark, s: State) {
    && Since(m, s)
    && ReturnedSince(m, s) <= CutSince(m, s)
    && |CutSince(m, s)| <= |ReturnedSince(m, s)| + 1
  }

  const START: Mark := Mark(0, 0)

  /**
   Without a timeout the k-th successful recvFrame returns the k-th frame cut, under the name it was
   cut for; at most the last frame cut is still on its way.
   */
  lemma {:induction false} DeliveredInOrder(evs: seq<Event>)
    requires NoTimeout(evs) && Run(Init(), evs).To?
    ensures var s := Run(Init(), evs).s;
            s.returned <= FramesOf(s.pieces) && |FramesOf(s.pieces)| <= |s.returned| + 1
  {
    assert FramesOf(Init().pieces) == Init().returned;
    RunInStep(START, Init(), evs);
    var s := Run(Init(), evs).s;
    assert s.returned[0..] == s.returned && FramesOf(s.pieces)[0..] == FramesOf(s.pieces);
  }

  // ---------------------------------------------------------------- the order, with timeouts

  /**
   The i-th frame returned is frame idx[i] of those cut, never an earlier one than the frame returned
   before it; the slot holds frame k.
   */
  predicate Ordered(s: State, idx: seq<nat>, k: nat) {
    var cut := FramesOf(s.pieces);
    && |idx| == |s.returned|
    && (forall i | 0 <= i < |idx| :: idx[i] <= k && idx[i] < |cut| && cut[idx[i]] == s.returned[i])
    && (forall i, j | 0 <= i < j < |idx| :: idx[i] <= idx[j])
    && (s.slot.owner != "" ==> k < |cut| && cut[k] == (s.slot.owner, s.slot.frame))
    && k <= |cut|
    && (s.worker.Delivering? ==> k < |cut| && cut[|cut| - 1] == (s.worker.name, s.worker.frame))
  }

  lemma {:induction false} CutOrdered(s: State, ev: Event, idx: seq<nat>, k: nat)
    requires Ordered(s, idx, k) && ev.Fix? && Step(s, ev).To?
    requires k < |FramesOf(s.pieces)| || k == 0
    ensures Ordered(Step(s, ev).s, idx, k)
    ensures |FramesOf(s.pieces)| <= |FramesOf(Step(s, ev).s.pieces)|
  {
    hide FramesOf;
    var n := CutLength(ev.validLen, |s.local|);
    FramesAppend(s.pieces, Frame(s.worker.name, s.local[..n]));
    FramesAppend(s.pieces, Discarded(s.local));
  }

  lemma {:induction false} StepOrdered(s: State, ev: Event, idx: seq<nat>, k: nat)
    returns (idx': seq<nat>, k': nat)
    requires Ordered(s, idx, k) && SlotInv(s) && Step(s, ev).To?
    requires k < |FramesOf(s.pieces)| || k == 0
    ensures Ordered(Step(s, ev).s, idx', k')
    ensures k' < |FramesOf(Step(s, ev).s.pieces)| || k' == 0
  {
    hide FramesOf;
    idx', k' := idx, k;
    match ev
    case Fix(_, _) => CutOrdered(s, ev, idx, k);
    case WriteSlot => k' := |FramesOf(s.pieces)| - 1;
    case Read => idx' := idx + [k];
    case _ =>
  }

  lemma {:induction false} RunOrdered(s: State, evs: seq<Event>, idx: seq<nat>, k: nat)
    returns (idx': seq<nat>, k': nat)
    requires NamesInv(s) && SlotInv(s) && Ordered(s, idx, k) && (k < |FramesOf(s.pieces)| || k == 0)
    requires Run(s, evs).To?
    ensures Ordered(Run(s, evs).s, idx', k')
    decreases |evs|
  {
    hide Step, NamesInv, SlotInv, Ordered, FramesOf;
    idx', k' := idx, k;
    if evs != [] {
      StepNames(s, evs[0]);
      StepSlot(s, evs[0]);
      idx', k' := StepOrdered(s, evs[0], idx, k);
      idx', k' := RunOrdered(Step(s, evs[0]).s, evs[1..], idx', k');
    }
  }

  /** With timeouts a frame may be lost or returned again, but none comes back out of order. */
  lemma {:induction false} NeverReordered(evs: seq<Event>) returns (idx: seq<nat>)
    requires Run(Init(), evs).To?
    ensures var s := Run(Init(), evs).s;
            && |idx| == |s.returned|
            && (forall i | 0 <= i < |idx| ::
                  idx[i] < |FramesOf(s.pieces)| && FramesOf(s.pieces)[idx[i]] == s.returned[i])
            && (forall i, j | 0 <= i < j < |idx| :: idx[i] <= idx[j])
  {
    var k;
    idx, k := RunOrdered(Init(), evs, [], 0);
  }

  // ---------------------------------------------------------------- the order after a timeout

  /** The next step of a worker nobody disturbs; it cuts whatever it gets. */
  function Onwards(s: State): Event {
    match s.worker
    case LoopTop => CopyName
    case Copied(_) => if s.local + s.shared == [] then HandleMessage([0]) else TakeBytes
    case Cutting(_) => Fix(Complete, |s.local|)
    case Delivering(_, _) => WriteSlot
    case Posting(_) => Post
    case Clearing => ClearName
  }

  function StepsLeft(s: State): nat {
    match s.worker
    case LoopTop => if s.name == "" then 0 else 7
    case Copied(_) => if s.local + s.shared == [] then 6 else 5
    case Cutting(_) => 4
    case Delivering(_, _) => 3
    case Posting(_) => 2
    case Clearing => 1
  }

  /** The worker will cut a frame although nobody asks. */
  predicate Stray(s: State) {
    s.worker.Copied? || s.worker.Cutting? || (s.worker.LoopTop? && s.name != "")
  }

  predicate Resting(s: State) {
    s.requester.Idle? && s.worker.LoopTop? && s.name == ""
  }

  function Cuts(s: State): nat {
    |FramesOf(s.pieces)|
  }

  lemma {:induction false} OnwardsStep(s: State)
    requires NamesInv(s) && s.requester.Idle? && !Resting(s)
    ensures var ev := Onwards(s);
            && !ev.Timeout? && Step(s, ev).To?
            && var t := Step(s, ev).s;
            && t.requester.Idle? && t.returned == s.returned && StepsLeft(t) < StepsLeft(s)
            && Cuts(t) + (if Stray(t) then 1 else 0) == Cuts(s) + (if Stray(s) then 1 else 0)
  {
    hide FramesOf, RequesterStep;
    if s.worker.Cutting? {
      FramesAppend(s.pieces, Frame(s.worker.name, s.local[..|s.local|]));
    }
  }

  /** The worker comes to rest, having cut one more frame if it was bound to. */
  lemma {:induction false} Settle(s: State) returns (evs: seq<Event>)
    requires NamesInv(s) && s.requester.Idle?
    ensures NoTimeout(evs) && Run(s, evs).To?
    ensures var t := Run(s, evs).s;
            && NamesInv(t) && Resting(t) && t.returned == s.returned
            && Cuts(t) == Cuts(s) + (if Stray(s) then 1 else 0)
    decreases StepsLeft(s)
  {
    hide Run, NamesInv, StepsLeft, Onwards, Step, Cuts;
    if Resting(s) {
      RunNone(s);
      evs := [];
    } else {
      OnwardsStep(s);
      var ev := Onwards(s);
      StepNames(s, ev);
      var rest := Settle(Step(s, ev).s);
      RunCons(s, ev, rest);
      evs := [ev] + rest;
    }
  }

  /** From rest, the next request has one frame cut before anything is returned. */
  lemma {:induction false} CutNext(s: State) returns (evs: seq<Event>)
    requires Resting(s)
    ensures NoTimeout(evs) && Run(s, evs).To?
    ensures Run(s, evs).s.returned == s.returned && Cuts(Run(s, evs).s) == Cuts(s) + 1
  {
    hide Run, FramesOf, RequestEvents;
    var n: Name := "d";
    var k := if n in s.sem then s.sem[n] else 0;
    RequestRun(s, n);
    RequestNoTimeout(n, k);
    var t;
    evs, t := Extend(s, RequestEvents(n, k), s.(sem := s.sem[n := 0], name := n, requester := Pending(n)),
                     HandleMessage([0]));
    evs, t := Extend(s, evs, t, CopyName);
    evs, t := Extend(s, evs, t, TakeBytes);
    FramesAppend(t.pieces, Frame(n, t.local[..0]));
    evs, t := Extend(s, evs, t, Fix(Complete, 0));
  }

  /** From rest, a stray frame and the next one are cut before anything is returned. */
  lemma {:induction false} StrayCuts(s: State) returns (evs: seq<Event>)
    requires NamesInv(s) && s.requester.Idle?
    ensures NoTimeout(evs) && Run(s, evs).To?
    ensures Run(s, evs).s.returned == s.returned
    ensures Cuts(Run(s, evs).s) == Cuts(s) + if Stray(s) then 2 else 1
  {
    hide Run, NamesInv, Cuts;
    var first := Settle(s);
    var second := CutNext(Run(s, first).s);
    RunAppend(s, first, second);
    evs := first + second;
  }

  /** A frame under way while nobody asks goes to the next request for its device, though it was cut before. */
  lemma {:induction false} LateFrame(s: State) returns (evs: seq<Event>)
    requires NamesInv(s) && s.requester.Idle? && (s.worker.Delivering? || s.worker.Posting?)
    ensures NoTimeout(evs) && Run(s, evs).To?
    ensures |Run(s, evs).s.returned| == |s.returned| + 1 && Run(s, evs).s.pieces == s.pieces
  {
    hide Run, RequestEvents;
    var n := Carried(s.worker);
    var k := if n in s.sem then s.sem[n] else 0;
    RequestRun(s, n);
    RequestNoTimeout(n, k);
    evs := RequestEvents(n, k);
    var t := s.(sem := s.sem[n := 0], name := n, requester := Pending(n));
    if t.worker.Delivering? {
      evs, t := Extend(s, evs, t, WriteSlot);
    }
    evs, t := PostFor(s, evs, t, n);
    evs, t := Extend(s, evs, t, Pend);
    evs, t := Extend(s, evs, t, Read);
  }

  lemma PostFor(start: State, evs: seq<Event>, s: State, n: Name) returns (evs': seq<Event>, s': State)
    requires Run(start, evs) == To(s) && NoTimeout(evs) && s.worker == Posting(n) && HasTokens(s, n, 0)
    ensures Run(start, evs') == To(s') && NoTimeout(evs')
    ensures s' == s.(worker := Clearing, sem := s'.sem) && HasTokens(s', n, 1)
  {
    hide Run, RequesterStep;
    evs', s' := Extend(start, evs, s, Post);
  }

  /** Whatever follows without a timeout, the frames cut from here on come back in order. */
  ghost predicate RecoversFrom(s: State) {
    forall evs :: NoTimeout(evs) && Run(s, evs).To? ==> KeepsOrder(MarkOf(s), Run(s, evs).s)
  }

  lemma {:induction false} BlindRecovers(s: State, evs: seq<Event>)
    requires NamesInv(s) && s.requester.Idle? && Blind(s) && NoTimeout(evs) && Run(s, evs).To?
    ensures KeepsOrder(MarkOf(s), Run(s, evs).s)
  {
    hide Run, FramesOf;
    RunInStep(MarkOf(s), s, evs);
  }

  lemma {:induction false} SeeingBreaks(s: State) returns (evs: seq<Event>)
    requires NamesInv(s) && s.requester.Idle? && !Blind(s)
    ensures NoTimeout(evs) && Run(s, evs).To? && !KeepsOrder(MarkOf(s), Run(s, evs).s)
  {
    hide Run, FramesOf, NamesInv;
    if Stray(s) {
      evs := StrayCuts(s);
    } else {
      evs := LateFrame(s);
    }
  }

  /**
   After any run, timeouts included, that leaves the requester idle: the frames cut from here on come
   back in order, whatever follows without a timeout, exactly when the worker is blind, that is about
   to clear the name or looking at a wiped one. What was lost or left over before plays no part.
   */
  lemma {:induction false} RecoversIff(evs: seq<Event>)
    requires Run(Init(), evs).To? && Run(Init(), evs).s.requester.Idle?
    ensures RecoversFrom(Run(Init(), evs).s) <==> Blind(Run(Init(), evs).s)
  {
    hide Run, KeepsOrder, Step;
    var s := Run(Init(), evs).s;
    RunNames(Init(), evs);
    if Blind(s) {
      forall more | NoTimeout(more) && Run(s, more).To?
        ensures KeepsOrder(MarkOf(s), Run(s, more).s)
      {
        BlindRecovers(s, more);
      }
    } else {
      var more := SeeingBreaks(s);
    }
  }

  /** The same, counting all frames ever cut: nothing may have been lost or returned twice before. */
  ghost predicate OrderedFromHere(s: State) {
    forall evs :: NoTimeout(evs) && Run(s, evs).To? ==> KeepsOrder(START, Run(s, evs).s)
  }

  lemma {:induction false} OrderIff(evs: seq<Event>)
    requires Run(Init(), evs).To? && Run(Init(), evs).s.requester.Idle?
    ensures var s := Run(Init(), evs).s;
            OrderedFromHere(s) <==> Blind(s) && FramesOf(s.pieces) == s.returned
  {
    hide Run, FramesOf, KeepsOrder, Step;
    var s := Run(Init(), evs).s;
    RunNames(Init(), evs);
    if Blind(s) && FramesOf(s.pieces) == s.returned {
      forall more | NoTimeout(more) && Run(s, more).To?
        ensures KeepsOrder(START, Run(s, more).s)
      {
        CleanKeeps(s, more);
      }
    } else {
      var more := UncleanBreaks(s);
    }
  }

  /** A timeout that loses a frame need not spoil what follows. */
  lemma {:induction false} LossRecovers(n: Name, f: Bytes) returns (evs: seq<Event>)
    requires n != "" && f != []
    ensures Run(Init(), evs).To?
    ensures var s := Run(Init(), evs).s;
            s.pieces == [Frame(n, f)] && s.returned == [] && RecoversFrom(s) && !OrderedFromHere(s)
  {
    hide Run, KeepsOrder, RecoversFrom, OrderedFromHere, FramesOf;
    var s;
    evs, s := FirstCut(n, f);
    evs, s := Extend(Init(), evs, s, Timeout);
    evs, s := Extend(Init(), evs, s, Abandon);
    evs, s := PostToken(Init(), evs, s, n);
    evs, s := Extend(Init(), evs, s, ClearName);
    RecoversIff(evs);
    OrderIff(evs);
    FramesAppend([], Frame(n, f));
    assert [] + [Frame(n, f)] == [Frame(n, f)];
  }

  lemma {:induction false} CleanKeeps(s: State, evs: seq<Event>)
    requires NamesInv(s) && s.requester.Idle? && Blind(s) && FramesOf(s.pieces) == s.returned
    requires NoTimeout(evs) && Run(s, evs).To?
    ensures KeepsOrder(START, Run(s, evs).s)
  {
    hide Run, FramesOf;
    assert FramesOf(s.pieces)[0..] == s.returned[0..];
    RunInStep(START, s, evs);
  }

  lemma {:induction false} UncleanBreaks(s: State) returns (evs: seq<Event>)
    requires NamesInv(s) && s.requester.Idle? && !(Blind(s) && FramesOf(s.pieces) == s.returned)
    ensures NoTimeout(evs) && Run(s, evs).To? && !KeepsOrder(START, Run(s, evs).s)
  {
    hide Run, FramesOf, NamesInv;
    if !KeepsOrder(START, s) {
      RunNone(s);
      evs := [];
    } else if Cuts(s) > |s.returned| || Stray(s) {
      evs := StrayCuts(s);
    } else {
      assert s.returned[0..] == s.returned && FramesOf(s.pieces)[0..] == FramesOf(s.pieces);
      evs := LateFrame(s);
    }
  }

  lemma {:induction false} RunNames(s: State, evs: seq<Event>)
    requires NamesInv(s) && Run(s, evs).To?
    ensures NamesInv(Run(s, evs).s)
    decreases |evs|
  {
    hide Step, NamesInv;
    if evs != [] {
      StepNames(s, evs[0]);
      RunNames(Step(s, evs[0]).s, evs[1..]);
    }
  }

  // ---------------------------------------------------------------- what a timeout can spoil

  /**
   With a timeout the order can break: for every device and any two frames there is a run in which
   the first frame is lost and the second is returned twice.
   */
  lemma {:induction false} TimeoutRepeatsAFrame(n: Name, f: Bytes, g: Bytes) returns (evs: seq<Event>)
    requires n != "" && f != [] && g != []
    ensures Run(Init(), evs).To?
    ensures Run(Init(), evs).s.pieces == [Frame(n, f), Frame(n, g)]
    ensures Run(Init(), evs).s.returned == [(n, g), (n, g)]
  {
    hide Run, WorkerStep;
    var s;
    // the first frame is cut, but its request gives up before the post
    evs, s := FirstCut(n, f);
    evs, s := Extend(Init(), evs, s, Timeout);
    evs, s := Extend(Init(), evs, s, Abandon);
    evs, s := SecondRequest(evs, s, n, g);
    evs, s := ThirdRequest(evs, s, n, g);
  }

  /** The late post gives the next request a token, and that request takes the second frame with it. */
  lemma SecondRequest(evs: seq<Event>, s: State, n: Name, g: Bytes) returns (evs': seq<Event>, s': State)
    requires n != "" && g != [] && Run(Init(), evs) == To(s)
    requires s.worker == Posting(n) && s.requester == Idle && s.local == [] && s.shared == []
    requires n in s.sem && s.sem[n] == 0
    ensures Run(Init(), evs') == To(s')
    ensures s'.pieces == s.pieces + [Frame(n, g)] && s'.returned == s.returned + [(n, g)]
    ensures s'.worker == Posting(n) && s'.requester == Idle && s'.slot.frame == g
    ensures n in s'.sem && s'.sem[n] == 0
  {
    hide Run;
    evs', s' := AskFor(Init(), evs, s, n);
    evs', s' := PostToken(Init(), evs', s', n);
    evs', s' := Extend(Init(), evs', s', ClearName);
    evs', s' := Extend(Init(), evs', s', SetName);
    evs', s' := CutAndStore(Init(), evs', s', n, g);
    evs', s' := TakeReply(Init(), evs', s', n);
  }

  /** The post of the second frame comes after the drain of the third request. */
  lemma ThirdRequest(evs: seq<Event>, s: State, n: Name, g: Bytes) returns (evs': seq<Event>, s': State)
    requires Run(Init(), evs) == To(s)
    requires s.worker == Posting(n) && s.requester == Idle && s.slot.frame == g && n in s.sem && s.sem[n] == 0
    ensures Run(Init(), evs') == To(s')
    ensures s'.pieces == s.pieces && s'.returned == s.returned + [(n, g)]
  {
    hide Run;
    evs', s' := AskFor(Init(), evs, s, n);
    evs', s' := PostToken(Init(), evs', s', n);
    evs', s' := Extend(Init(), evs', s', SetName);
    evs', s' := TakeReply(Init(), evs', s', n);
  }
}
