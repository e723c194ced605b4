/**
 The receive handshake of one channel: a byte source calls handleMessage, the
 worker thread runs dealMessage, and one requester at a time calls recvFrame.
 Each event is one atomic step: a section under the handle's mutex, a semaphore
 operation, or one assignment of a shared string. fixFrame is the plugin's and
 may answer anything.
 */
module Channel {
  import opened Base

  type Name = string

  type Bytes = seq<bv8>

  /** What was taken off the front of the worker's buffer. */
  datatype Piece = Frame(name: Name, bytes: Bytes) | Discarded(bytes: Bytes)

  /** The worker in dealMessage, dealMsg and recvComplete. */
  datatype Worker =
    | LoopTop                             // before copying m_name
    | Copied(name: Name)                  // before taking the shared bytes
    | Cutting(name: Name)                 // before fixFrame
    | Delivering(name: Name, frame: Bytes)  // before writing the frame slot
    | Posting(name: Name)                 // before post
    | Clearing                            // before setName("")

  /** The requester in recvFrame. */
  datatype Requester =
    | Idle
    | Draining(name: Name)                // in the tryPend loop
    | Naming(name: Name)                  // before setName(name)
    | Pending(name: Name)                 // in pendFor
    | Reading(name: Name)                 // got a token, before copying the slot
    | Abandoning(name: Name)              // timed out, before setName("")

  datatype Slot = Slot(owner: Name, frame: Bytes)

  datatype State = State(
    name: Name,                           // m_name; "" is none
    shared: Bytes,                        // the handle's m_recvBuf
    local: Bytes,                         // the worker's recvBufTmp
    slot: Slot,                           // the channel's m_recvBuf, with the device it is for
    sem: map<Name, nat>,                  // m_mapSem: the counts
    worker: Worker,
    requester: Requester,
    received: Bytes,                      // history: every byte handed to handleMessage
    pieces: seq<Piece>,                   // history: every piece taken off the buffer
    returned: seq<(Name, Bytes)>)         // history: every successful recvFrame

  datatype Verdict = Invalid | Complete | Incomplete

  datatype Event =
    | HandleMessage(buf: Bytes)
    | CopyName
    | TakeBytes
    | NoFix                               // no fixFrame attached for the name
    | Fix(verdict: Verdict, validLen: int)
    | WriteSlot
    | Post
    | ClearName
    | Request(name: Name)
    | Drain
    | SetName
    | Pend
    | Timeout
    | Abandon
    | Read

  /** A step is not enabled, or undefined (a semaphore that was never created), or leads on. */
  datatype Result = Disabled | Undefined | To(s: State)

  function Init(): State {
    State("", [], [], Slot("", []), map[], LoopTop, Idle, [], [], [])
  }

  /** How much substr(0, n) takes and erase(0, n) removes: a negative n is a huge size_t. */
  function CutLength(n: int, len: nat): (k: nat)
    ensures k <= len
  {
    if n < 0 || n > len then len else n
  }

  function WorkerStep(s: State, ev: Event): Result {
    match ev
    case CopyName =>
      if !s.worker.LoopTop? then Disabled
      else if s.name == "" then To(s)
      else To(s.(worker := Copied(s.name)))
    case TakeBytes =>
      if !s.worker.Copied? then Disabled
      else
        var all := s.local + s.shared;
        To(s.(local := all, shared := [], worker := if all == [] then LoopTop else Cutting(s.worker.name)))
    case NoFix =>
      if s.worker.Cutting? then To(s.(worker := LoopTop)) else Disabled
    case Fix(verdict, validLen) =>
      if !s.worker.Cutting? then Disabled
      else
        (match verdict
         case Incomplete => To(s.(worker := LoopTop))
         case Invalid => To(s.(local := [], pieces := s.pieces + [Discarded(s.local)], worker := LoopTop))
         case Complete =>
           var k := CutLength(validLen, |s.local|);
           To(s.(local := s.local[k..],
              pieces := s.pieces + [Frame(s.worker.name, s.local[..k])],
              worker := Delivering(s.worker.name, s.local[..k]))))
    case WriteSlot =>
      if !s.worker.Delivering? then Disabled
      else To(s.(slot := Slot(s.worker.name, s.worker.frame), worker := Posting(s.worker.name)))
    case Post =>
      if !s.worker.Posting? then Disabled
      else if s.worker.name !in s.sem then Undefined
      else To(s.(sem := s.sem[s.worker.name := s.sem[s.worker.name] + 1], worker := Clearing))
    case ClearName =>
      if s.worker.Clearing? then To(s.(name := "", worker := LoopTop)) else Disabled
    case _ => Disabled
  }

  function RequesterStep(s: State, ev: Event): Result {
    match ev
    case Request(n) =>
      if !s.requester.Idle? then Disabled
      else To(s.(sem := if n in s.sem then s.sem else s.sem[n := 0], requester := Draining(n)))
    case Drain =>
      if !s.requester.Draining? then Disabled
      else if s.requester.name !in s.sem then Undefined
      else if s.sem[s.requester.name] > 0
      then To(s.(sem := s.sem[s.requester.name := s.sem[s.requester.name] - 1]))
      else To(s.(requester := Naming(s.requester.name)))
    case SetName =>
      if s.requester.Naming? then To(s.(name := s.requester.name, requester := Pending(s.requester.name))) else Disabled
    case Pend =>
      if !s.requester.Pending? then Disabled
      else if s.requester.name !in s.sem then Undefined
      else if s.sem[s.requester.name] == 0 then Disabled
      else To(s.(sem := s.sem[s.requester.name := s.sem[s.requester.name] - 1], requester := Reading(s.requester.name)))
    case Timeout =>
      if s.requester.Pending? then To(s.(requester := Abandoning(s.requester.name))) else Disabled
    case Abandon =>
      if s.requester.Abandoning? then To(s.(name := "", requester := Idle)) else Disabled
    case Read =>
      if s.requester.Reading?
      then To(s.(returned := s.returned + [(s.requester.name, s.slot.frame)], requester := Idle))
      else Disabled
    case _ => Disabled
  }

  predicate IsWorkerEvent(ev: Event) {
    ev.CopyName? || ev.TakeBytes? || ev.NoFix? || ev.Fix? || ev.WriteSlot? || ev.Post? || ev.ClearName?
  }

  function Step(s: State, ev: Event): Result {
    match ev
    case HandleMessage(buf) => To(s.(shared := s.shared + buf, received := s.received + buf))
    case _ => if IsWorkerEvent(ev) then WorkerStep(s, ev) else RequesterStep(s, ev)
  }

  function Run(s: State, evs: seq<Event>): Result
    decreases |evs|
  {
    if evs == [] then To(s)
    else
      match Step(s, evs[0])
      case Disabled => Disabled
      case Undefined => Undefined
      case To(next) => Run(next, evs[1..])
  }

  // ---------------------------------------------------------------- conservation of bytes

  function PieceBytes(p: Piece): Bytes {
    p.bytes
  }

  function Flatten(ps: seq<Piece>): Bytes {
    if ps == [] then [] else Flatten(ps[..|ps| - 1]) + PieceBytes(ps[|ps| - 1])
  }

  /** The bytes received are the pieces consumed, then the worker's buffer, then the shared one. */
  predicate Conserved(s: State) {
    s.received == Flatten(s.pieces) + s.local + s.shared
  }

  lemma FlattenAppend(ps: seq<Piece>, p: Piece)
    ensures Flatten(ps + [p]) == Flatten(ps) + PieceBytes(p)
  {
    assert (ps + [p])[..|ps|] == ps;
  }

  lemma {:induction false} StepConserved(s: State, ev: Event)
    requires Conserved(s) && Step(s, ev).To?
    ensures Conserved(Step(s, ev).s)
  {
    hide Flatten;
    var done, l, r := Flatten(s.pieces), s.local, s.shared;
    match ev
    case HandleMessage(buf) => Assoc(done + l, r, buf);
    case TakeBytes =>
      Assoc(done, l, r);
      assert done + (l + r) + [] == done + (l + r);
    case Fix(verdict, validLen) =>
      if verdict.Invalid? {
        FlattenAppend(s.pieces, Discarded(l));
        assert done + l + [] == done + l;
      } else if verdict.Complete? && s.worker.Cutting? {
        var k := CutLength(validLen, |l|);
        FlattenAppend(s.pieces, Frame(s.worker.name, l[..k]));
        Assoc(done, l[..k], l[k..]);
        assert l[..k] + l[k..] == l;
      }
    case _ =>
  }

  lemma {:induction false} RunConserved(s: State, evs: seq<Event>)
    requires Conserved(s) && Run(s, evs).To?
    ensures Conserved(Run(s, evs).s)
    decreases |evs|
  {
    hide Step, Conserved;
    if evs != [] {
      StepConserved(s, evs[0]);
      RunConserved(Step(s, evs[0]).s, evs[1..]);
    }
  }

  /** At every point of every run, whatever lengths the plugin answers. */
  lemma {:induction false} BytesConserved(evs: seq<Event>)
    requires Run(Init(), evs).To?
    ensures Conserved(Run(Init(), evs).s)
  {
    RunConserved(Init(), evs);
  }

  // ---------------------------------------------------------------- the right frame

  /** The name the worker carries, "" for none. */
  function Carried(w: Worker): Name {
    match w
    case Copied(n) => n
    case Cutting(n) => n
    case Delivering(n, _) => n
    case Posting(n) => n
    case _ => ""
  }

  /** The request a token would complete, or has completed. */
  predicate Armed(s: State, n: Name) {
    || s.requester == Reading(n)
    || ((s.requester == Naming(n) || s.requester == Pending(n)) && n in s.sem && s.sem[n] > 0)
  }

  /** While a token for n is out, the slot is n's and the worker can only write n's frames. */
  predicate Reserved(s: State, n: Name) {
    && s.slot.owner == n
    && (Carried(s.worker) == "" || Carried(s.worker) == n)
    && (s.worker.Clearing? || s.name == "" || s.name == n)
  }

  predicate Accepted(s: State, n: Name, frame: Bytes) {
    Frame(n, frame) in s.pieces
  }

  predicate NamesInv(s: State) {
    && (s.name != "" ==> s.name in s.sem)
    && (Carried(s.worker) != "" ==> Carried(s.worker) in s.sem)
    && (!s.requester.Idle? ==> s.requester.name in s.sem)
    && (!s.worker.LoopTop? && !s.worker.Clearing? ==> Carried(s.worker) != "")
  }

  predicate SlotInv(s: State) {
    && (s.worker.Delivering? ==> Accepted(s, s.worker.name, s.worker.frame))
    && (s.worker.Posting? ==> s.slot.owner == s.worker.name)
    && (s.slot.owner != "" ==> Accepted(s, s.slot.owner, s.slot.frame))
    && (!s.requester.Idle? && Armed(s, s.requester.name) ==> s.slot.owner != "" && Reserved(s, s.requester.name))
  }

  predicate ReturnedInv(s: State) {
    forall i | 0 <= i < |s.returned| :: Accepted(s, s.returned[i].0, s.returned[i].1)
  }

  lemma {:induction false} StepNames(s: State, ev: Event)
    requires NamesInv(s)
    ensures !Step(s, ev).Undefined?
    ensures Step(s, ev).To? ==> NamesInv(Step(s, ev).s)
  {
  }

  lemma {:induction false} WorkerSlot(s: State, ev: Event)
    requires NamesInv(s) && SlotInv(s) && WorkerStep(s, ev).To?
    ensures SlotInv(WorkerStep(s, ev).s)
  {
  }

  lemma {:induction false} RequesterSlot(s: State, ev: Event)
    requires NamesInv(s) && SlotInv(s) && RequesterStep(s, ev).To?
    ensures SlotInv(RequesterStep(s, ev).s)
  {
  }

  lemma {:induction false} StepSlot(s: State, ev: Event)
    requires NamesInv(s) && SlotInv(s) && Step(s, ev).To?
    ensures SlotInv(Step(s, ev).s)
  {
    hide WorkerStep, RequesterStep, NamesInv;
    if IsWorkerEvent(ev) {
      WorkerSlot(s, ev);
    } else if !ev.HandleMessage? {
      RequesterSlot(s, ev);
    }
  }

  lemma {:induction false} StepReturned(s: State, ev: Event)
    requires SlotInv(s) && ReturnedInv(s) && Step(s, ev).To?
    ensures ReturnedInv(Step(s, ev).s)
  {
  }

  lemma {:induction false} RunSafe(s: State, evs: seq<Event>)
    requires NamesInv(s) && SlotInv(s) && ReturnedInv(s)
    ensures !Run(s, evs).Undefined?
    ensures Run(s, evs).To? ==> ReturnedInv(Run(s, evs).s)
    decreases |evs|
  {
    hide Step, NamesInv, SlotInv, ReturnedInv;
    if evs != [] {
      StepNames(s, evs[0]);
      if Step(s, evs[0]).To? {
        StepSlot(s, evs[0]);
        StepReturned(s, evs[0]);
        RunSafe(Step(s, evs[0]).s, evs[1..]);
      }
    }
  }

  /**
   In every interleaving, timeouts included: no semaphore is used before it exists, and what
   recvFrame(n) returned is a frame that fixFrame accepted for n.
   */
  lemma {:induction false} ReturnsOwnFrames(evs: seq<Event>, i: nat)
    ensures !Run(Init(), evs).Undefined?
    ensures var r := Run(Init(), evs);
            r.To? && i < |r.s.returned| ==> Frame(r.s.returned[i].0, r.s.returned[i].1) in r.s.pieces
  {
    RunSafe(Init(), evs);
  }
}
