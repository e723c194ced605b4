/**
 The receive side of a channel as the object its methods update: the message handle's name and
 shared buffer, the worker's own buffer, and the channel's frame slot and semaphores. Each method
 is proved to be a run of the handshake machine.
 */
module IChannel {
  import opened Channel
  import opened ChannelRuns

  /** What dealMsg does with the worker's buffer. */
  function CutEvents(name: Name, all: Bytes, fixFuncs: map<Name, Bytes -> (Verdict, int)>): seq<Event> {
    if name !in fixFuncs then [NoFix]
    else
      var (verdict, validLen) := fixFuncs[name](all);
      [Fix(verdict, validLen)] + (if verdict.Complete? then [WriteSlot, Post, ClearName] else [])
  }

  /** One pass of the worker's loop when nobody interferes. */
  function PassEvents(name: Name, all: Bytes, fixFuncs: map<Name, Bytes -> (Verdict, int)>): seq<Event> {
    if name == "" then [CopyName]
    else [CopyName, TakeBytes] + (if all == [] then [] else CutEvents(name, all, fixFuncs))
  }

  class ReceiveSide {
    var name: Name
    var shared: Bytes
    var local: Bytes
    var frame: Bytes
    var sem: map<Name, nat>
    ghost var owner: Name
    ghost var requester: Requester
    ghost var received: Bytes
    ghost var pieces: seq<Piece>
    ghost var returned: seq<(Name, Bytes)>

    /** The machine's state with the worker at the given point. */
    ghost function At(worker: Worker): State
      reads this
    {
      State(name, shared, local, Slot(owner, frame), sem, worker, requester, received, pieces, returned)
    }

    ghost function Machine(): State
      reads this
    {
      At(LoopTop)
    }

    constructor ()
      ensures Machine() == Init()
    {
      name, shared, local, frame, sem := "", [], [], [], map[];
      owner, requester, received, pieces, returned := "", Idle, [], [], [];
    }

    method HandleMessage(buf: Bytes)
      modifies this`shared, this`received
      ensures Run(old(Machine()), [Event.HandleMessage(buf)]) == To(Machine())
      ensures shared == old(shared) + buf
    {
      RunOneStep(Machine(), Event.HandleMessage(buf));
      shared := shared + buf;
      received := received + buf;
    }

    /** The worker hands over a complete frame and clears the name it was cut for. */
    method RecvComplete(n: Name, f: Bytes)
      requires n in sem
      modifies this`frame, this`owner, this`sem, this`name
      ensures frame == f && owner == n && name == ""
      ensures sem == old(sem)[n := old(sem[n]) + 1]
      ensures Run(old(At(Delivering(n, f))), [WriteSlot, Post, ClearName]) == To(Machine())
    {
      hide Run;
      CompleteRun(At(Delivering(n, f)));
      frame, owner := f, n;
      sem := sem[n := sem[n] + 1];
      name := "";
    }

    /** Cut the worker's buffer as the device's fixFrame says; the name must have been requested. */
    method DealMsg(n: Name, fixFuncs: map<Name, Bytes -> (Verdict, int)>)
      requires n in sem
      modifies this`local, this`frame, this`owner, this`sem, this`name, this`pieces
      ensures
        && var t := old(At(Cutting(n)));
        && var evs := CutEvents(n, old(local), fixFuncs);
        Run(t, evs) == To(Machine())
      ensures n !in fixFuncs || fixFuncs[n](old(local)).0.Incomplete? ==> Machine() == old(Machine())
      ensures n in fixFuncs && fixFuncs[n](old(local)).0.Complete? ==>
                && var validLen := fixFuncs[n](old(local)).1;
                && (0 <= validLen <= |old(local)| ==>
                      frame == old(local)[..validLen] && local == old(local)[validLen..])
                && (validLen < 0 || validLen > |old(local)| ==> frame == old(local) && local == [])
                && pieces == old(pieces) + [Frame(n, frame)]
                && owner == n && name == "" && sem == old(sem)[n := old(sem[n]) + 1]
      ensures n in fixFuncs && fixFuncs[n](old(local)).0.Invalid? ==>
                && local == [] && pieces == old(pieces) + [Discarded(old(local))]
                && frame == old(frame) && owner == old(owner) && name == old(name) && sem == old(sem)
    {
      hide Run;
      if n !in fixFuncs {
        RunOneStep(At(Cutting(n)), NoFix);
        return;
      }
      var (verdict, validLen) := fixFuncs[n](local);
      assert [Fix(verdict, validLen)] + [] == [Fix(verdict, validLen)];
      if verdict.Incomplete? {
        RunOneStep(At(Cutting(n)), Fix(verdict, validLen));
      } else if verdict.Complete? {
        var k := CutLength(validLen, |local|);
        var validFrame := local[..k];
        ghost var s := At(Cutting(n));
        local := local[k..];
        pieces := pieces + [Frame(n, validFrame)];
        RunCons(s, Fix(verdict, validLen), [WriteSlot, Post, ClearName]);
        RecvComplete(n, validFrame);
      } else {
        RunOneStep(At(Cutting(n)), Fix(verdict, validLen));
        pieces := pieces + [Discarded(local)];
        local := [];
      }
    }

    /** One pass of dealMessage's loop. */
    method DealMessage(fixFuncs: map<Name, Bytes -> (Verdict, int)>)
      requires name != "" ==> name in sem
      modifies this
      ensures Run(old(Machine()), PassEvents(old(name), old(local + shared), fixFuncs)) == To(Machine())
      ensures requester == old(requester) && received == old(received) && returned == old(returned)
      ensures old(name) == "" ==> local == old(local) && shared == old(shared)
      ensures old(name) != "" ==> shared == []
    {
      hide Run, CutEvents;
      var n := name;
      ghost var s := Machine();
      if n == "" {
        RunOneStep(s, CopyName);
      } else {
        local := local + shared;
        shared := [];
        if local == [] {
          RunTwoSteps(s, CopyName, TakeBytes);
          assert [CopyName, TakeBytes] + [] == [CopyName, TakeBytes];
        } else {
          ghost var cut := CutEvents(n, local, fixFuncs);
          RunTwoSteps(s, CopyName, TakeBytes);
          RunAppend(s, [CopyName, TakeBytes], cut);
          DealMsg(n, fixFuncs);
        }
      }
    }

    /** The first half of recvFrame: create the semaphore, drain it, publish the name. */
    method BeginRecv(n: Name)
      requires requester == Idle
      modifies this`sem, this`name, this`requester
      ensures var k := if n in old(sem) then old(sem[n]) else 0;
              Run(old(Machine()), RequestEvents(n, k)) == To(Machine())
      ensures sem == old(sem)[n := 0] && name == n && requester == Pending(n)
    {
      hide Run, RequestEvents;
      RequestRun(Machine(), n);
      if n !in sem {
        sem := sem[n := 0];
      }
      while sem[n] > 0
        invariant n in sem && sem[n := 0] == old(sem)[n := 0]
        decreases sem[n]
      {
        sem := sem[n := sem[n] - 1];
      }
      assert sem == sem[n := 0];
      name := n;
      requester := Pending(n);
    }

    /** The second half: pendFor found a token, or gave up. */
    method EndRecv(n: Name) returns (ok: bool, buf: Bytes)
      requires requester == Pending(n) && n in sem
      modifies this`sem, this`name, this`requester, this`returned
      ensures ok == (old(sem[n]) > 0)
      ensures Run(old(Machine()), if ok then [Pend, Read] else [Timeout, Abandon]) == To(Machine())
      ensures ok ==> buf == frame && returned == old(returned) + [(n, buf)]
      ensures !ok ==> buf == [] && returned == old(returned) && name == ""
    {
      hide Run, Step;
      ok, buf := sem[n] > 0, [];
      if ok {
        ReceiveRun(Machine(), n);
        sem := sem[n := sem[n] - 1];
        buf := frame;
        returned := returned + [(n, buf)];
      } else {
        AbandonRun(Machine());
        name := "";
      }
      requester := Idle;
    }
  }
}
