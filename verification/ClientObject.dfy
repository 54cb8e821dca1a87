/** The client object in imperative form. Its methods are the critical sections
    and awaits of the source; whatever sequence of them runs, the object goes
    through a run of the protocol and keeps all of its promises. */
module ClientObject {
  import opened Wrappers
  import opened ReplyCache
  import opened ClientProtocol
  import opened ClientSafety
  import opened ClientTheorems

  lemma PlanDying(s: State, id: nat, ok: bool)
    requires Enabled(s, Own(id, ok)) && Dying(s.calls[id].pc)
    ensures Plan(s, id, ok) ==
      match s.calls[id].pc
      case StoreDead(back) => (Kill, Emptying(back))
      case Emptying(back) => (EmptyOut, Retiring(back))
      case _ => (RetireActions, Resume(s.calls[id].pc.back))
  {
  }

  class LspClient {
    var nextId: nat
    var pending: set<nat>
    var channels: map<nat, Channel>
    var latest: map<string, (nat, nat)>
    var alive: bool
    var wire: seq<Message>
    const lenses: Cache<Item>
    const actions: Cache<Item>

    // The tasks inside the client, and what they hold between their awaits.
    var calls: map<nat, Call>
    var lock: Option<nat>
    var listening: bool
    var emptied: bool
    var asking: set<Query>
    var fetched: set<Command>

    ghost predicate Valid() { lenses != actions }

    function Common(): Shared
      reads this, lenses, actions
    {
      Shared(nextId, pending, channels, latest, alive, wire,
             Content(lenses.identity, lenses.items), Content(actions.identity, actions.items))
    }

    function View(): State
      reads this, lenses, actions
    {
      State(Common(), calls, lock, listening, emptied, asking, fetched)
    }

    constructor ()
      ensures Valid() && View() == START && fresh(lenses) && fresh(actions)
    {
      nextId, pending, channels, latest, alive, wire := 1, {}, map[], map[], true, [];
      calls, lock, listening, emptied, asking, fetched := map[], None, true, false, {}, {};
      lenses := new Cache();
      actions := new Cache();
    }

    // ---- critical sections ----

    method NextRequestId() returns (id: nat)
      modifies this`nextId
      ensures id == old(nextId) && Common() == old(Common()).(nextId := id + 1)
    {
      id := nextId;
      nextId := nextId + 1;
    }

    method InsertPending(id: nat)
      modifies this`pending, this`channels
      ensures Common() == old(Common()).AddPending(id)
    {
      pending := pending + {id};
      channels := channels[id := Open];
    }

    /** Dispatching a response, cancelling, and giving up all take the sender
        out of the map; only whoever finds it there may act on it. */
    method RemovePending(id: nat, settled: Channel) returns (removed: bool)
      modifies this`pending, this`channels
      ensures removed == (id in old(pending)) && Common() == old(Common()).Take(id, settled)
    {
      removed := id in pending;
      if removed {
        pending := pending - {id};
        channels := channels[id := settled];
      }
    }

    /** Under the latest-requests lock: give way to a later editor request, or
        take the key over and learn whom to cancel. */
    method TakeKey(key: string, seqNo: nat, id: nat) returns (registered: bool, previous: Option<nat>)
      modifies this`latest
      ensures registered == !old(Common()).Outranked(key, seqNo)
      ensures Common() == if registered then old(Common()).(latest := old(latest)[key := (seqNo, id)]) else old(Common())
      ensures previous == if registered && key in old(latest) then Some(old(latest)[key].1) else None
    {
      if key in latest && latest[key].0 > seqNo {
        return false, None;
      }
      previous := if key in latest then Some(latest[key].1) else None;
      latest := latest[key := (seqNo, id)];
      registered := true;
    }

    method ClearLatestRequest(key: string, id: nat) returns (cleared: bool)
      modifies this`latest
      ensures cleared == old(Common()).PointsAt(key, id) && Common() == old(Common()).ClearLatest(key, id)
    {
      if key !in latest || latest[key].1 != id {
        return false;
      }
      latest := latest - {key};
      cleared := true;
    }

    /** Dropping every sender wakes every waiting caller. */
    method ClearPending()
      modifies this`pending, this`channels, this`emptied
      ensures Common() == old(Common()).EmptyPending() && emptied
    {
      channels := map id | id in channels :: if id in pending then Closed(Disconnect) else channels[id];
      pending := {};
      emptied := true;
    }

    method ClearAlive()
      modifies this`alive
      ensures Common() == old(Common()).(alive := false)
    {
      alive := false;
    }

    method EmptyActions()
      requires Valid()
      modifies actions
      ensures Common() == old(Common()).Update(Actions, Op.Invalidate)
    {
      actions.Invalidate();
    }

    method Send(m: Message)
      modifies this`wire
      ensures Common() == old(Common()).Write(m)
    {
      wire := wire + [m];
    }

    /** Transport and cache are both locked here: the identity is checked
        immediately before the bytes go out. */
    method SendExecution(id: nat, c: Command, ok: bool) returns (current: bool)
      modifies this`wire
      ensures current == old(Common()).Current(c)
      ensures Common() == if current && ok then old(Common()).Write(Request(id)) else old(Common())
    {
      var identity := if c.kind == Lenses then lenses.identity else actions.identity;
      current := identity.Matches(c.generation, c.uri);
      if current && ok {
        Send(Request(id));
      }
    }

    // ---- one call: from one await to the next ----

    /** The step did what the plan of call `id` says, and goes on as planned. */
    twostate predicate Follows(id: nat, ok: bool, next: PC)
      requires Enabled(old(View()), Own(id, ok))
      reads this, lenses, actions
    {
      var (effect, pc) := Plan(old(View()), id, ok);
      View() == Perform(old(View()), id, effect) && next == pc
    }

    method Enter(id: nat, ok: bool) returns (next: PC)
      requires Valid() && Enabled(View(), Own(id, ok)) && Entering(calls[id].pc)
      modifies this`pending, this`channels, this`latest, this`lock
      ensures Follows(id, ok, next)
    {
      var Call(purpose, pc) := calls[id];
      match pc
      case Created =>
        InsertPending(id);
        next := Registered;
      case Registered =>
        if !purpose.Latest? {
          return CheckSend;
        }
        var registered, previous := TakeKey(purpose.key, purpose.seqNo, id);
        if !registered {
          return Superseded;
        }
        lock := Some(id);
        next := if previous.Some? then TakePrevious(previous.value) else CheckSend;
      case Superseded =>
        var removed := RemovePending(id, Closed(Itself));
        next := Done(Nothing);
    }

    method CancelPrior(id: nat, ok: bool) returns (next: PC)
      requires Valid() && Enabled(View(), Own(id, ok)) && Cancelling(calls[id].pc)
      modifies this`pending, this`channels, this`wire
      ensures Follows(id, ok, next)
    {
      match calls[id].pc
      case TakePrevious(prior) =>
        var removed := RemovePending(prior, Closed(Canceller(id)));
        next := if removed then CheckCancel(prior) else CheckSend;
      case CheckCancel(target) =>
        next := if alive then WriteCancel(target) else AfterCancel(id, target);
      case WriteCancel(target) =>
        if !ok {
          return StoreDead(if target == id then ToClear else ToSend);
        }
        Send(Cancel(target, id));
        next := AfterCancel(id, target);
    }

    method SendOwn(id: nat, ok: bool) returns (next: PC)
      requires Valid() && Enabled(View(), Own(id, ok)) && Sending(calls[id].pc)
      modifies this`wire, this`lock
      ensures Follows(id, ok, next)
    {
      var Call(purpose, pc) := calls[id];
      if pc.CheckSend? {
        return if alive then WriteSend else UndoKey;
      }
      if purpose.Execute? {
        var current := SendExecution(id, purpose.command, ok);
        if !current {
          return Unregister;
        }
      } else if ok {
        Send(Request(id));
        if purpose.Latest? {
          lock := None;
        }
      }
      next := if ok then Waiting else StoreDead(ToFail);
    }

    /** The three parts of `mark_dead`. */
    method MarkDead(id: nat, ok: bool) returns (next: PC)
      requires Valid() && Enabled(View(), Own(id, ok)) && Dying(calls[id].pc)
      modifies this`alive, this`pending, this`channels, this`emptied, actions
      ensures Follows(id, ok, next)
    {
      PlanDying(View(), id, ok);
      hide Plan, Enabled;
      match calls[id].pc
      case StoreDead(back) =>
        ClearAlive();
        next := Emptying(back);
      case Emptying(back) =>
        ClearPending();
        next := Retiring(back);
      case Retiring(back) =>
        EmptyActions();
        next := Resume(back);
    }

    method Withdraw(id: nat, ok: bool) returns (next: PC)
      requires Valid() && Enabled(View(), Own(id, ok)) && Withdrawing(calls[id].pc)
      modifies this`pending, this`channels, this`latest, this`lock
      ensures Follows(id, ok, next)
    {
      var Call(purpose, pc) := calls[id];
      if pc.UndoKey? {
        if purpose.Latest? {
          var cleared := ClearLatestRequest(purpose.key, id);
          lock := None;
        }
        return Unregister;
      }
      var removed := RemovePending(id, Closed(Itself));
      next := Done(Error);
    }

    method Receive(id: nat, ok: bool) returns (next: PC)
      requires Valid() && Enabled(View(), Own(id, ok)) && Ending(calls[id].pc)
      modifies this`pending, this`channels
      ensures Follows(id, ok, next)
    {
      match calls[id].pc
      case Waiting =>
        next := if channels[id].Answered? then Clearing(GotAnswer) else Lost;
      case Lost =>
        var removed := RemovePending(id, Closed(Itself));
        next := Clearing(GotClosed);
      case TimedOut =>
        var removed := RemovePending(id, Closed(Canceller(id)));
        next := if removed then CheckCancel(id) else Clearing(GotTimeout);
    }

    method Finish(id: nat, ok: bool) returns (next: PC)
      requires Valid() && Enabled(View(), Own(id, ok)) && calls[id].pc.Clearing?
      modifies this`latest
      ensures Follows(id, ok, next)
    {
      var Call(purpose, pc) := calls[id];
      var newest := true;
      if purpose.Latest? {
        newest := ClearLatestRequest(purpose.key, id);
      }
      next := Done(if pc.why == GotTimeout then Error
                   else if !newest then Nothing
                   else if pc.why == GotAnswer then Delivered
                   else Error);
    }

    method Advance(id: nat, ok: bool)
      requires Valid() && Enabled(View(), Own(id, ok))
      modifies this, actions
      ensures View() == OwnStep(old(View()), id, ok)
    {
      hide Plan, Perform;
      PerformCalls(View(), id, Plan(View(), id, ok).0);
      var next;
      var pc := calls[id].pc;
      if Entering(pc) {
        next := Enter(id, ok);
      } else if Cancelling(pc) {
        next := CancelPrior(id, ok);
      } else if Sending(pc) {
        next := SendOwn(id, ok);
      } else if Dying(pc) {
        next := MarkDead(id, ok);
      } else if Withdrawing(pc) {
        next := Withdraw(id, ok);
      } else if Ending(pc) {
        next := Receive(id, ok);
      } else {
        next := Finish(id, ok);
      }
      calls := calls[id := calls[id].(pc := next)];
    }

    // ---- everyone's steps ----

    /** The future goes, and with it the lock it may hold; what it registered
        stays behind. */
    method DropCall(id: nat)
      requires Valid() && Enabled(View(), Drop(id))
      modifies this`calls, this`lock
      ensures View() == Apply(old(View()), Drop(id))
    {
      calls := calls[id := calls[id].(pc := PC.Dropped(calls[id].pc))];
      if lock == Some(id) {
        lock := None;
      }
    }

    /** A request, a reply, a read, a document edge, on one of the two caches. */
    method UseCache(cache: Cache<Item>, kind: CacheKind, a: Action)
      requires Valid() && Enabled(View(), a) && cache == (if kind == Lenses then lenses else actions)
      requires a.Begin? || a.Replace? || a.Invalidate? || a.InvalidateUri?
      requires a.kind == kind
      modifies cache, this`asking
      ensures View() == Apply(old(View()), a)
    {
      match a
      case Begin(_, g, u) =>
        var begun := cache.Begin(g, u);
        if begun {
          asking := asking + {Query(kind, g, u)};
        }
      case Replace(_, g, u, items) =>
        var stored := cache.Replace(g, u, items);
        asking := asking - {Query(kind, g, u)};
      case Invalidate(_) => cache.Invalidate();
      case InvalidateUri(_, u) => cache.InvalidateUri(u);
    }

    method Step(a: Action)
      requires Valid() && Enabled(View(), a)
      modifies this, lenses, actions
      ensures View() == Apply(old(View()), a)
    {
      hide OwnStep;
      match a
      case TakeId(purpose) =>
        var id := NextRequestId();
        calls := calls[id := Call(purpose, Created)];
      case Own(id, ok) => Advance(id, ok);
      case TimeOut(id) => calls := calls[id := calls[id].(pc := TimedOut)];
      case Drop(id) => DropCall(id);
      case Respond(id) => var removed := RemovePending(id, Answered);
      case EndOfStream => alive, listening := false, false;
      case Die => alive := false;
      case Empty => ClearPending();
      case Fetch(command) => fetched := fetched + {command};
      case Notify => Send(Notification);
      case Begin(kind, _, _) => UseCache(if kind == Lenses then lenses else actions, kind, a);
      case Replace(kind, _, _, _) => UseCache(if kind == Lenses then lenses else actions, kind, a);
      case Invalidate(kind) => UseCache(if kind == Lenses then lenses else actions, kind, a);
      case InvalidateUri(kind, _) => UseCache(if kind == Lenses then lenses else actions, kind, a);
    }

    /** Any schedule, steps that are not enabled being skipped, takes the object
        along a run of the protocol. So it keeps the invariants, and every
        result about runs is a result about the object. */
    method Drive(schedule: seq<Action>) returns (ghost states: seq<State>, acts: seq<Action>)
      requires Valid() && View() == START
      modifies this, lenses, actions
      ensures Run(states, acts) && states[|acts|] == View() && Inv(View())
    {
      hide Inv, Apply, Enabled;
      states, acts := [View()], [];
      for k := 0 to |schedule|
        invariant |states| == |acts| + 1 && Run(states, acts) && states[|acts|] == View()
      {
        if Enabled(View(), schedule[k]) {
          Step(schedule[k]);
          RunGrows(states, acts, schedule[k]);
          states, acts := states + [View()], acts + [schedule[k]];
        }
      }
      RunInv(states, acts, |acts|);
    }
  }
}
