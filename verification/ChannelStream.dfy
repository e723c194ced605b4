/**
 What the receive side makes of a whole byte stream: frame by frame for a plugin that finds the frame
 at the front, and the same however the bytes of a frame arrive.
 */
module ChannelStream {
  import Base
  import opened Channel
  import opened ChannelRuns
  import opened IChannel

  type FixFuncs = map<Name, Bytes -> (Verdict, int)>

  function Joined(parts: seq<Bytes>): Bytes {
    if parts == [] then [] else parts[0] + Joined(parts[1..])
  }

  lemma {:induction false} JoinedSnoc(parts: seq<Bytes>, last: Bytes)
    ensures Joined(parts + [last]) == Joined(parts) + last
  {
    if parts == [] {
      assert parts + [last] == [last];
      assert Joined([last]) == last + Joined([]);
    } else {
      assert (parts + [last])[1..] == parts[1..] + [last];
      JoinedSnoc(parts[1..], last);
    }
  }

  /** fixFrame finds each of the frames when it stands at the front, with the others and the rest behind it. */
  ghost predicate Finds(fixFuncs: FixFuncs, n: Name, frames: seq<Bytes>, rest: Bytes) {
    && n in fixFuncs
    && forall i | 0 <= i < |frames| ::
         frames[i] != [] && fixFuncs[n](Joined(frames[i..]) + rest) == (Complete, |frames[i]|)
  }

  /** One request for n, one pass of the worker, one reply. */
  function Round(s: State, n: Name, fixFuncs: FixFuncs): seq<Event> {
    RequestEvents(n, if n in s.sem then s.sem[n] else 0) + PassEvents(n, s.local + s.shared, fixFuncs) + [Pend, Read]
  }

  function Rounds(s: State, n: Name, fixFuncs: FixFuncs, count: nat): seq<Event>
    decreases count
  {
    if count == 0 then []
    else
      match Run(s, Round(s, n, fixFuncs))
      case To(t) => Round(s, n, fixFuncs) + Rounds(t, n, fixFuncs, count - 1)
      case _ => []
  }

  /** A pass on a buffer with a frame at its front. */
  lemma {:induction false} PassCuts(s: State, n: Name, fixFuncs: FixFuncs, k: nat)
    requires n != "" && n in fixFuncs && n in s.sem && s.worker.LoopTop? && s.name == n
    requires var all := s.local + s.shared;
             0 < k <= |all| && fixFuncs[n](all) == (Complete, k)
    ensures var all := s.local + s.shared;
            Run(s, PassEvents(n, all, fixFuncs)) ==
            To(s.(local := all[k..], shared := [], slot := Slot(n, all[..k]), name := "",
               sem := s.sem[n := s.sem[n] + 1], pieces := s.pieces + [Frame(n, all[..k])]))
  {
    hide Run, RequesterStep;
    var all := s.local + s.shared;
    var tail := [WriteSlot, Post, ClearName];
    var cut := [Fix(Complete, k)] + tail;
    RunTwoSteps(s, CopyName, TakeBytes);
    RunAppend(s, [CopyName, TakeBytes], cut);
    var t := s.(local := all, shared := [], worker := Cutting(n));
    RunCons(t, Fix(Complete, k), tail);
    CompleteRun(Step(t, Fix(Complete, k)).s);
  }

  lemma {:induction false} RoundReturns(s: State, n: Name, fixFuncs: FixFuncs, k: nat)
    requires n != "" && n in fixFuncs && s.worker.LoopTop? && s.requester.Idle?
    requires var all := s.local + s.shared;
             0 < k <= |all| && fixFuncs[n](all) == (Complete, k)
    ensures var all := s.local + s.shared;
            && Run(s, Round(s, n, fixFuncs)).To?
            && var t := Run(s, Round(s, n, fixFuncs)).s;
            && t.worker.LoopTop? && t.requester.Idle? && t.local == all[k..] && t.shared == []
            && t.pieces == s.pieces + [Frame(n, all[..k])] && t.returned == s.returned + [(n, all[..k])]
  {
    hide Run, RequestEvents, PassEvents;
    var all := s.local + s.shared;
    var ask, pass := RequestEvents(n, if n in s.sem then s.sem[n] else 0), PassEvents(n, all, fixFuncs);
    RequestRun(s, n);
    var asked := s.(sem := s.sem[n := 0], name := n, requester := Pending(n));
    PassCuts(asked, n, fixFuncs, k);
    RunAppend(s, ask, pass);
    var passed := Run(s, ask + pass).s;
    ReceiveRun(passed, n);
    RunAppend(s, ask + pass, [Pend, Read]);
  }

  /**
   As many requests as the stream holds frames return the frames, in order and unchanged, and leave
   exactly what stands behind the last one.
   */
  lemma {:induction false} FramesReturned(s: State, n: Name, fixFuncs: FixFuncs, frames: seq<Bytes>, rest: Bytes)
    requires n != "" && Finds(fixFuncs, n, frames, rest)
    requires s.worker.LoopTop? && s.requester.Idle? && s.local + s.shared == Joined(frames) + rest
    ensures Run(s, Rounds(s, n, fixFuncs, |frames|)).To?
    ensures var t := Run(s, Rounds(s, n, fixFuncs, |frames|)).s;
            && t.local + t.shared == rest
            && t.returned == s.returned + seq(|frames|, i requires 0 <= i < |frames| => (n, frames[i]))
            && t.pieces == s.pieces + seq(|frames|, i requires 0 <= i < |frames| => Frame(n, frames[i]))
    decreases |frames|
  {
    hide Run, Round, Finds;
    if frames == [] {
      RunNone(s);
    } else {
      var f, others := frames[0], frames[1..];
      FirstFound(fixFuncs, n, frames, rest);
      var all := s.local + s.shared;
      assert all[..|f|] == f && all[|f|..] == Joined(others) + rest;
      RoundReturns(s, n, fixFuncs, |f|);
      var t := Run(s, Round(s, n, fixFuncs)).s;
      FramesReturned(t, n, fixFuncs, others, rest);
      RunAppend(s, Round(s, n, fixFuncs), Rounds(t, n, fixFuncs, |others|));
      assert frames == [f] + others;
    }
  }

  /** The first frame is found, and the others are when it has been cut off. */
  lemma FirstFound(fixFuncs: FixFuncs, n: Name, frames: seq<Bytes>, rest: Bytes)
    requires Finds(fixFuncs, n, frames, rest) && frames != []
    ensures n in fixFuncs && frames[0] != [] && Joined(frames) + rest == frames[0] + (Joined(frames[1..]) + rest)
    ensures fixFuncs[n](Joined(frames) + rest) == (Complete, |frames[0]|)
    ensures Finds(fixFuncs, n, frames[1..], rest)
  {
    var f, others := frames[0], frames[1..];
    Base.Assoc(f, Joined(others), rest);
    assert frames[0..] == frames;
    forall i | 0 <= i < |others|
      ensures others[i] != [] && fixFuncs[n](Joined(others[i..]) + rest) == (Complete, |others[i]|)
    {
      assert others[i..] == frames[i + 1..];
    }
  }

  // ---------------------------------------------------------------- arrival in parts

  /** Bytes arrive and the worker makes a pass, once for each part. */
  function Arrivals(local: Bytes, n: Name, fixFuncs: FixFuncs, parts: seq<Bytes>): seq<Event>
    decreases |parts|
  {
    if parts == [] then []
    else
      [HandleMessage(parts[0])] + PassEvents(n, local + parts[0], fixFuncs) +
      Arrivals(local + parts[0], n, fixFuncs, parts[1..])
  }

  /** A pass on a buffer that is no frame yet keeps the bytes and the request. */
  lemma {:induction false} PassWaits(s: State, n: Name, fixFuncs: FixFuncs)
    requires n != "" && n in fixFuncs && s.worker.LoopTop? && s.name == n
    requires s.local + s.shared != [] ==> fixFuncs[n](s.local + s.shared).0 == Incomplete
    ensures Run(s, PassEvents(n, s.local + s.shared, fixFuncs)) == To(s.(local := s.local + s.shared, shared := []))
  {
    hide Run, RequesterStep;
    var all := s.local + s.shared;
    RunTwoSteps(s, CopyName, TakeBytes);
    if all != [] {
      var cut := CutEvents(n, all, fixFuncs);
      RunAppend(s, [CopyName, TakeBytes], cut);
      RunOneStep(s.(local := all, shared := [], worker := Cutting(n)), cut[0]);
      assert cut == [cut[0]];
    } else {
      assert [CopyName, TakeBytes] + [] == [CopyName, TakeBytes];
    }
  }

  lemma {:induction false} PartWaits(s: State, n: Name, fixFuncs: FixFuncs, part: Bytes)
    requires n != "" && n in fixFuncs && s.worker.LoopTop? && s.name == n && s.shared == []
    requires s.local + part != [] ==> fixFuncs[n](s.local + part).0 == Incomplete
    ensures Run(s, [HandleMessage(part)] + PassEvents(n, s.local + part, fixFuncs))
         == To(s.(local := s.local + part, received := s.received + part))
  {
    hide Run, PassEvents;
    assert [] + part == part;
    RunCons(s, HandleMessage(part), PassEvents(n, s.local + part, fixFuncs));
    PassWaits(Step(s, HandleMessage(part)).s, n, fixFuncs);
  }

  lemma {:induction false} PartsWait(s: State, n: Name, fixFuncs: FixFuncs, parts: seq<Bytes>)
    requires n != "" && n in fixFuncs && s.worker.LoopTop? && s.name == n && s.shared == []
    requires forall j | 0 < j <= |parts| ::
               var got := s.local + Joined(parts[..j]); got != [] ==> fixFuncs[n](got).0 == Incomplete
    ensures Run(s, Arrivals(s.local, n, fixFuncs, parts))
         == To(s.(local := s.local + Joined(parts), received := s.received + Joined(parts)))
    decreases |parts|
  {
    hide Run, PassEvents;
    if parts == [] {
      RunNone(s);
      assert s.local + [] == s.local && s.received + [] == s.received;
    } else {
      var part, others := parts[0], parts[1..];
      assert parts[..1] == [part] && Joined([part]) == part by {
        assert [part][1..] == [];
      }
      var first := [HandleMessage(part)] + PassEvents(n, s.local + part, fixFuncs);
      PartWaits(s, n, fixFuncs, part);
      var t := s.(local := s.local + part, received := s.received + part);
      forall j | 0 < j <= |others|
        ensures var got := t.local + Joined(others[..j]); got != [] ==> fixFuncs[n](got).0 == Incomplete
      {
        assert parts[..j + 1] == [part] + others[..j];
        Base.Assoc(s.local, part, Joined(others[..j]));
      }
      PartsWait(t, n, fixFuncs, others);
      RunAppend(s, first, Arrivals(t.local, n, fixFuncs, others));
      Base.Assoc(s.local, part, Joined(others));
      Base.Assoc(s.received, part, Joined(others));
    }
  }

  lemma {:induction false} ArrivalsSnoc(local: Bytes, n: Name, fixFuncs: FixFuncs, parts: seq<Bytes>, last: Bytes)
    ensures Arrivals(local, n, fixFuncs, parts + [last]) ==
            Arrivals(local, n, fixFuncs, parts) +
            ([HandleMessage(last)] + PassEvents(n, local + Joined(parts) + last, fixFuncs))
    decreases |parts|
  {
    hide PassEvents;
    if parts == [] {
      assert local + [] == local && [last][1..] == [] && [] + [last] == [last];
      var one := [HandleMessage(last)] + PassEvents(n, local + last, fixFuncs);
      assert one + [] == one && [] + one == one;
    } else {
      assert (parts + [last])[0] == parts[0] && (parts + [last])[1..] == parts[1..] + [last];
      ArrivalsSnoc(local + parts[0], n, fixFuncs, parts[1..], last);
      Base.Assoc(local, parts[0], Joined(parts[1..]));
      Base.Assoc([HandleMessage(parts[0])] + PassEvents(n, local + parts[0], fixFuncs),
                 Arrivals(local + parts[0], n, fixFuncs, parts[1..]),
                 [HandleMessage(last)] + PassEvents(n, local + Joined(parts) + last, fixFuncs));
    }
  }

  /**
   However the bytes of a frame arrive, with a pass after each part: while fixFrame calls what is there
   incomplete nothing is lost, and the last part completes the same frame.
   */
  lemma {:induction false} PartsDoNotMatter(s: State, n: Name, fixFuncs: FixFuncs, parts: seq<Bytes>, last: Bytes,
                                            f: Bytes, rest: Bytes)
    requires n != "" && n in fixFuncs && n in s.sem && s.worker.LoopTop? && s.name == n && s.shared == []
    requires forall j | 0 < j <= |parts| ::
               var got := s.local + Joined(parts[..j]); got != [] ==> fixFuncs[n](got).0 == Incomplete
    requires s.local + Joined(parts) + last == f + rest && f != [] && fixFuncs[n](f + rest) == (Complete, |f|)
    ensures var r := Run(s, Arrivals(s.local, n, fixFuncs, parts + [last]));
            && r.To?
            && r.s.slot == Slot(n, f) && r.s.local == rest && r.s.shared == []
            && r.s.pieces == s.pieces + [Frame(n, f)] && r.s.sem == s.sem[n := s.sem[n] + 1]
            && r.s.requester == s.requester && r.s.returned == s.returned
  {
    hide Run, PassEvents;
    var all := f + rest;
    PartsWait(s, n, fixFuncs, parts);
    ArrivalsSnoc(s.local, n, fixFuncs, parts, last);
    var t := s.(local := s.local + Joined(parts), received := s.received + Joined(parts));
    var first, second := Arrivals(s.local, n, fixFuncs, parts), PassEvents(n, all, fixFuncs);
    RunAppend(s, first, [HandleMessage(last)] + second);
    RunCons(t, HandleMessage(last), second);
    assert [] + last == last && all[..|f|] == f && all[|f|..] == rest;
    PassCuts(Step(t, HandleMessage(last)).s, n, fixFuncs, |f|);
  }
}
