/** The JSON-RPC client as an interleaved protocol. A step is the code between
    two lock acquisitions or awaits; `Call` is one task inside
    `request_with_timeout_inner`. */
module ClientProtocol {
  import opened Wrappers
  import opened ReplyCache

  // ---- what the tasks share ----

  datatype CacheKind = Lenses | Actions

  /** One code lens or code action of a reply, as the server sent it. */
  datatype Item = Item(body: string)

  /** A request whose reply may fill the cache. */
  datatype Query = Query(kind: CacheKind, generation: nat, uri: string)

  /** An item read out of the cache, to be executed. */
  datatype Command = Command(kind: CacheKind, generation: nat, uri: string, index: nat, item: Item)

  /** Who closed a response channel without an answer. */
  datatype Remover = Canceller(call: nat) | Itself | Disconnect

  /** The oneshot channel of a request id. */
  datatype Channel = Open | Answered | Closed(who: Remover)

  datatype Message = Request(id: nat) | Cancel(id: nat, sender: nat) | Notification

  datatype Shared = Shared(
    nextId: nat,
    pending: set<nat>,
    channels: map<nat, Channel>,
    latest: map<string, (nat, nat)>,
    alive: bool,
    wire: seq<Message>,
    lenses: Content<Item>,
    actions: Content<Item>)
  {
    function AddPending(id: nat): Shared {
      this.(pending := pending + {id}, channels := channels[id := Open])
    }

    /** Take an id out of `pending`, if it is there: its channel is settled. */
    function Take(id: nat, settled: Channel): Shared {
      if id in pending then this.(pending := pending - {id}, channels := channels[id := settled]) else this
    }

    function EmptyPending(): Shared {
      this.(pending := {},
            channels := map id | id in channels :: if id in pending then Closed(Disconnect) else channels[id])
    }

    /** An editor request issued later already holds the key. */
    predicate Outranked(key: string, seqNo: nat) { key in latest && latest[key].0 > seqNo }

    predicate PointsAt(key: string, id: nat) { key in latest && latest[key].1 == id }

    function ClearLatest(key: string, id: nat): Shared {
      if PointsAt(key, id) then this.(latest := latest - {key}) else this
    }

    function Write(m: Message): Shared { this.(wire := wire + [m]) }

    function Reply(kind: CacheKind): Content<Item> { if kind == Lenses then lenses else actions }

    function Identity(kind: CacheKind): Identity { Reply(kind).identity }

    function Update(kind: CacheKind, op: Op<Item>): Shared {
      if kind == Lenses then this.(lenses := lenses.Apply(op)) else this.(actions := actions.Apply(op))
    }

    /** The command's reply is still the one that may be executed. */
    predicate Current(c: Command) { Identity(c.kind).Matches(c.generation, c.uri) }

    predicate Offers(c: Command) {
      && Current(c)
      && c.index < |Reply(c.kind).items| && Reply(c.kind).items[c.index] == c.item
    }
  }

  // ---- one call, between its awaits ----

  datatype Purpose = Plain | Latest(key: string, seqNo: nat) | Execute(command: Command)

  /** Where a failed write's cleanup returns to. */
  datatype Return = ToSend | ToFail | ToClear

  /** Why a call is about to give up its key. */
  datatype Reason = GotAnswer | GotClosed | GotTimeout

  datatype Outcome = Delivered | Nothing | Error

  datatype PC =
    | Created                    // has an id, not yet pending
    | Registered                 // pending; next its key, or straight to sending
    | Superseded                 // outranked: will leave `pending` and deliver nothing
    | TakePrevious(prior: nat)   // holds the key lock from here on
    | CheckCancel(target: nat)   // took `target`; checks `alive` before cancelling it
    | WriteCancel(target: nat)
    | CheckSend                  // checks `alive` before its own request
    | WriteSend
    | StoreDead(back: Return)    // a write failed: the three parts of `mark_dead`
    | Emptying(back: Return)
    | Retiring(back: Return)
    | UndoKey                    // the send failed: give the key back
    | Unregister                 // and leave `pending`
    | Waiting
    | Lost                       // the channel was dropped
    | TimedOut
    | Clearing(why: Reason)
    | Done(outcome: Outcome)
    | Dropped(at: PC)            // its future was dropped where it stood

  /** Where a call stands, or stood when it was dropped. */
  function Place(pc: PC): PC { if pc.Dropped? then pc.at else pc }

  /** Nothing more will happen in it. */
  predicate Ended(pc: PC) { pc.Done? || pc.Dropped? }

  datatype Call = Call(purpose: Purpose, pc: PC)

  datatype State = State(
    sh: Shared,
    calls: map<nat, Call>,
    lock: Option<nat>,           // holder of the latest-requests lock
    listening: bool,             // the dispatcher still reads responses
    emptied: bool,               // `pending` was emptied after `alive` was cleared
    asking: set<Query>,          // opened the cache and may still fill it
    fetched: set<Command>)       // read out of the cache, to be resolved or executed
  {
    function At(id: nat, pc: PC): State
      requires id in calls
    {
      this.(calls := calls[id := calls[id].(pc := pc)])
    }
  }

  datatype Action =
    | TakeId(purpose: Purpose)
    | Own(id: nat, ok: bool)     // the call's next step; `ok`: a write succeeds
    | TimeOut(id: nat)
    | Drop(id: nat)              // the caller drops the call's future: an aborted task, a timeout around it
    | Respond(id: nat)           // the dispatcher reads a response
    | EndOfStream                // the dispatcher stops and clears `alive`
    | Die                        // anyone else's `mark_dead` clears `alive`
    | Empty                      // and empties `pending`
    | Begin(kind: CacheKind, generation: nat, uri: string)
    | Replace(kind: CacheKind, generation: nat, uri: string, items: seq<Item>)
    | Fetch(command: Command)
    | Invalidate(kind: CacheKind)
    | InvalidateUri(kind: CacheKind, uri: string)
    | Notify

  const INITIAL := Shared(1, {}, map[], map[], true, [], Content(FRESH, []), Content(FRESH, []))

  const START := State(INITIAL, map[], None, true, false, {}, {})

  /** Of the locks only the key lock is held across awaits, so it alone makes a
      step wait here. A write also waits for the transport and its pipe: in the
      model it is one step, that may come arbitrarily late. */
  predicate NeedsLock(c: Call) { c.purpose.Latest? && (c.pc.Registered? || c.pc.Clearing?) }

  predicate Enabled(s: State, a: Action) {
    match a
    case TakeId(purpose) => purpose.Execute? ==> purpose.command in s.fetched
    case Own(id, _) =>
      && id in s.calls && !Ended(s.calls[id].pc)
      && (NeedsLock(s.calls[id]) ==> s.lock.None?)
      && (s.calls[id].pc.Waiting? ==> id in s.sh.channels && !s.sh.channels[id].Open?)
    case TimeOut(id) => id in s.calls && s.calls[id].pc.Waiting?
    case Drop(id) => id in s.calls && !Ended(s.calls[id].pc)
    case Respond(_) => s.listening
    case EndOfStream => s.listening
    case Empty => !s.sh.alive
    case Replace(kind, g, u, _) => Query(kind, g, u) in s.asking
    case Fetch(command) => s.sh.Offers(command)
    case _ => true
  }

  function AfterCancel(id: nat, target: nat): PC { if target == id then Clearing(GotTimeout) else CheckSend }

  function Resume(back: Return): PC {
    match back
    case ToSend => CheckSend
    case ToFail => UndoKey
    case ToClear => Clearing(GotTimeout)
  }

  /** What one step of a call does to the shared state. */
  datatype Effect =
    | Still
    | Join                                       // enter `pending`
    | Settle(target: nat, channel: Channel)      // take an id out of `pending`
    | Send(message: Message)
    | SendAndUnlock(message: Message)
    | Kill                                       // clear `alive`
    | EmptyOut                                   // empty `pending`
    | RetireActions
    | TakeOver(key: string, seqNo: nat)          // lock the key map and point the key here
    | GiveBack(key: string)                      // clear the key if it points here, and unlock
    | GiveUp(key: string)                        // clear the key if it points here

  function Perform(s: State, id: nat, e: Effect): State {
    match e
    case Still => s
    case Join => s.(sh := s.sh.AddPending(id))
    case Settle(target, channel) => s.(sh := s.sh.Take(target, channel))
    case Send(m) => s.(sh := s.sh.Write(m))
    case SendAndUnlock(m) => s.(sh := s.sh.Write(m), lock := None)
    case Kill => s.(sh := s.sh.(alive := false))
    case EmptyOut => s.(sh := s.sh.EmptyPending(), emptied := true)
    case RetireActions => s.(sh := s.sh.Update(Actions, Op.Invalidate))
    case TakeOver(key, seqNo) => s.(sh := s.sh.(latest := s.sh.latest[key := (seqNo, id)]), lock := Some(id))
    case GiveBack(key) => s.(sh := s.sh.ClearLatest(key, id), lock := None)
    case GiveUp(key) => s.(sh := s.sh.ClearLatest(key, id))
  }

  /** The next step of call `id`, and where it goes on. */
  function Plan(s: State, id: nat, ok: bool): (Effect, PC)
    requires Enabled(s, Own(id, ok))
  {
    var Call(purpose, pc) := s.calls[id];
    match pc
    case Created => (Join, Registered)
    case Registered =>
      if !purpose.Latest? then (Still, CheckSend)
      else if s.sh.Outranked(purpose.key, purpose.seqNo) then (Still, Superseded)
      else (TakeOver(purpose.key, purpose.seqNo),
            if purpose.key in s.sh.latest then TakePrevious(s.sh.latest[purpose.key].1) else CheckSend)
    case Superseded => (Settle(id, Closed(Itself)), Done(Nothing))
    case TakePrevious(prior) =>
      (Settle(prior, Closed(Canceller(id))), if prior in s.sh.pending then CheckCancel(prior) else CheckSend)
    case CheckCancel(target) => (Still, if s.sh.alive then WriteCancel(target) else AfterCancel(id, target))
    case WriteCancel(target) =>
      if ok then (Send(Cancel(target, id)), AfterCancel(id, target))
      else (Still, StoreDead(if target == id then ToClear else ToSend))
    case CheckSend => (Still, if s.sh.alive then WriteSend else UndoKey)
    case WriteSend =>
      if purpose.Execute? && !s.sh.Current(purpose.command) then (Still, Unregister)
      else if !ok then (Still, StoreDead(ToFail))
      else (if purpose.Latest? then SendAndUnlock(Request(id)) else Send(Request(id)), Waiting)
    case StoreDead(back) => (Kill, Emptying(back))
    case Emptying(back) => (EmptyOut, Retiring(back))
    case Retiring(back) => (RetireActions, Resume(back))
    case UndoKey => (if purpose.Latest? then GiveBack(purpose.key) else Still, Unregister)
    case Unregister => (Settle(id, Closed(Itself)), Done(Error))
    case Waiting => (Still, if s.sh.channels[id].Answered? then Clearing(GotAnswer) else Lost)
    case Lost => (Settle(id, Closed(Itself)), Clearing(GotClosed))
    case TimedOut =>
      (Settle(id, Closed(Canceller(id))), if id in s.sh.pending then CheckCancel(id) else Clearing(GotTimeout))
    case Clearing(why) =>
      (if purpose.Latest? then GiveUp(purpose.key) else Still,
       Done(if why == GotTimeout then Error
            else if purpose.Latest? && !s.sh.PointsAt(purpose.key, id) then Nothing
            else if why == GotAnswer then Delivered
            else Error))
    case _ => (Still, pc)
  }

  function OwnStep(s: State, id: nat, ok: bool): State
    requires Enabled(s, Own(id, ok))
  {
    Perform(s, id, Plan(s, id, ok).0).At(id, Plan(s, id, ok).1)
  }

  function Apply(s: State, a: Action): State
    requires Enabled(s, a)
  {
    match a
    case TakeId(purpose) =>
      s.(sh := s.sh.(nextId := s.sh.nextId + 1), calls := s.calls[s.sh.nextId := Call(purpose, Created)])
    case Own(id, ok) => OwnStep(s, id, ok)
    case TimeOut(id) => s.At(id, TimedOut)
    case Drop(id) =>
      s.At(id, PC.Dropped(s.calls[id].pc)).(lock := if s.lock == Some(id) then None else s.lock)
    case Respond(id) => s.(sh := s.sh.Take(id, Answered))
    case EndOfStream => s.(sh := s.sh.(alive := false), listening := false)
    case Die => s.(sh := s.sh.(alive := false))
    case Empty => s.(sh := s.sh.EmptyPending(), emptied := true)
    case Begin(kind, g, u) =>
      s.(sh := s.sh.Update(kind, Op.Begin(g, u)),
         asking := if s.sh.Identity(kind).Opens(g, u) then s.asking + {Query(kind, g, u)} else s.asking)
    case Replace(kind, g, u, items) =>
      s.(sh := s.sh.Update(kind, Op.Replace(g, u, items)), asking := s.asking - {Query(kind, g, u)})
    case Fetch(command) => s.(fetched := s.fetched + {command})
    case Invalidate(kind) => s.(sh := s.sh.Update(kind, Op.Invalidate))
    case InvalidateUri(kind, u) => s.(sh := s.sh.Update(kind, Op.InvalidateUri(u)))
    case Notify => s.(sh := s.sh.Write(Notification))
  }

  // ---- runs ----

  ghost predicate StepAt(states: seq<State>, acts: seq<Action>, i: nat)
    requires i < |acts| && |states| == |acts| + 1
  {
    Enabled(states[i], acts[i]) && states[i + 1] == Apply(states[i], acts[i])
  }

  ghost predicate Run(states: seq<State>, acts: seq<Action>) {
    && |states| == |acts| + 1 && states[0] == START
    && forall i | 0 <= i < |acts| :: StepAt(states, acts, i)
  }
}
