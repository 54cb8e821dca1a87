/** What every interleaving of the JSON-RPC client keeps. */
module ClientSafety {
  import opened Wrappers
  import opened ClientProtocol

  // ---- where a call stands ----

  /** Between taking its key's lock and releasing it. */
  predicate HoldsKey(c: Call, id: nat) {
    c.purpose.Latest? &&
    match c.pc
    case TakePrevious(_) => true
    case CheckCancel(target) => target != id
    case WriteCancel(target) => target != id
    case CheckSend => true
    case WriteSend => true
    case StoreDead(back) => back != ToClear
    case Emptying(back) => back != ToClear
    case Retiring(back) => back != ToClear
    case UndoKey => true
    case _ => false
  }

  /** Its request is not on the wire yet. */
  predicate Unsent(pc: PC, id: nat) {
    match pc
    case Created => true
    case Registered => true
    case Superseded => true
    case TakePrevious(_) => true
    case CheckCancel(target) => target != id
    case WriteCancel(target) => target != id
    case CheckSend => true
    case WriteSend => true
    case StoreDead(back) => back != ToClear
    case Emptying(back) => back != ToClear
    case Retiring(back) => back != ToClear
    case UndoKey => true
    case Unregister => true
    case _ => false
  }

  /** Its request went out. */
  predicate WasSent(pc: PC, id: nat) { !Unsent(pc, id) && !pc.Done? }

  /** It has stopped waiting for an answer. */
  predicate Settled(pc: PC, id: nat) { !Unsent(pc, id) && !pc.Waiting? && !pc.TimedOut? }

  /** Still to check `alive`, or already giving up. */
  predicate Doomed(pc: PC, id: nat) { Unsent(pc, id) && !pc.WriteSend? }

  predicate Entering(pc: PC) { pc.Created? || pc.Registered? || pc.Superseded? }

  predicate Cancelling(pc: PC) { pc.TakePrevious? || pc.CheckCancel? || pc.WriteCancel? }

  predicate Sending(pc: PC) { pc.CheckSend? || pc.WriteSend? }

  predicate Dying(pc: PC) { pc.StoreDead? || pc.Emptying? || pc.Retiring? }

  predicate Withdrawing(pc: PC) { pc.UndoKey? || pc.Unregister? }

  predicate Ending(pc: PC) { pc.Waiting? || pc.Lost? || pc.TimedOut? }

  // ---- keys ----

  predicate Keyless(pc: PC) {
    var p := Place(pc);
    p.Created? || p.Registered? || p.Superseded? || p.Unregister? || p.Done?
  }

  /** An entry of the latest-requests map belongs to a call for that key, with
      that editor sequence, that has not returned; it may have been dropped. */
  ghost predicate Keys(s: State) {
    forall k <- s.sh.latest ::
      var (seqNo, id) := s.sh.latest[k];
      id in s.calls && s.calls[id].purpose == Latest(k, seqNo) && !Keyless(s.calls[id].pc)
  }

  /** A latest-wins call stops or starts being keyless only along with its key. */
  lemma KeylessPlan(s: State, id: nat, ok: bool)
    requires Keys(s) && Enabled(s, Own(id, ok))
    ensures var (e, pc') := Plan(s, id, ok); KeyMove(s.calls[id], e, pc')
  {
  }

  ghost predicate KeyMove(c: Call, e: Effect, pc': PC) {
    && (e.TakeOver? ==> c.purpose == Latest(e.key, e.seqNo) && !Keyless(pc'))
    && (e.GiveBack? || e.GiveUp? ==> c.purpose.Latest? && e.key == c.purpose.key && !Keyless(c.pc))
    && (c.purpose.Latest? && Keyless(pc') ==> Keyless(c.pc) || e.GiveBack? || e.GiveUp?)
  }

  lemma PerformKeys(s: State, id: nat, e: Effect, pc': PC)
    requires Keys(s) && id in s.calls && KeyMove(s.calls[id], e, pc')
    ensures Keys(Perform(s, id, e).At(id, pc'))
  {
    hide Keyless;
  }

  lemma OwnKeys(s: State, id: nat, ok: bool)
    requires Keys(s) && Enabled(s, Own(id, ok))
    ensures Keys(OwnStep(s, id, ok))
  {
    hide Plan, Perform, KeyMove, Keys;
    KeylessPlan(s, id, ok);
    PerformKeys(s, id, Plan(s, id, ok).0, Plan(s, id, ok).1);
  }

  lemma StepKeys(s: State, a: Action)
    requires Keys(s) && Books(s) && Enabled(s, a)
    ensures Keys(Apply(s, a))
  {
    hide OwnStep, CallBooks;
    if a.Own? {
      OwnKeys(s, a.id, a.ok);
    } else if a.TakeId? {
      assert s.sh.nextId !in s.calls;
    }
  }

  // ---- bookkeeping ----

  ghost predicate CallBooks(s: State, id: nat)
    requires id in s.calls
  {
    var c, p := s.calls[id], Place(s.calls[id].pc);
    && (p.Created? <==> id !in s.sh.channels)
    && (id in s.sh.pending <==> id in s.sh.channels && s.sh.channels[id].Open?)
    && (HoldsKey(c, id) <==> s.lock == Some(id))
    && (Unsent(p, id) ==> Request(id) !in s.sh.wire)
    && (WasSent(p, id) ==> Request(id) in s.sh.wire)
    && (Settled(p, id) ==> id !in s.sh.pending)
    && (s.emptied && id in s.sh.pending ==> Doomed(p, id))
    && (p.TakePrevious? ==> p.prior != id)
    && (p.Emptying? || p.Retiring? ==> !s.sh.alive)
    && !p.Dropped?
  }

  ghost predicate Books(s: State) {
    && (forall id <- s.calls :: id < s.sh.nextId)
    && s.sh.channels.Keys <= s.calls.Keys
    && s.sh.pending <= s.sh.channels.Keys
    && (s.lock.Some? ==> s.lock.value in s.calls)
    && (s.emptied ==> !s.sh.alive)
    && (forall id :: Request(id) in s.sh.wire ==> id in s.calls)
    && (forall id <- s.calls :: CallBooks(s, id))
  }

  /** The message a step puts on the wire, if any. */
  function Sent(e: Effect): Option<Message> {
    match e
    case Send(m) => Some(m)
    case SendAndUnlock(m) => Some(m)
    case _ => None
  }

  /** What the plans of all calls have in common. */
  ghost predicate Sound(s: State, id: nat, e: Effect) {
    match e
    case Settle(_, channel) => !channel.Open?
    case Send(m) => m.Cancel? || m == Request(id)
    case SendAndUnlock(m) => s.lock == Some(id) && m == Request(id)
    case EmptyOut => !s.sh.alive
    case TakeOver(_, _) => s.lock == None
    case GiveBack(_) => s.lock == Some(id)
    case Join => id !in s.sh.channels
    case _ => true
  }

  lemma PlanSound(s: State, id: nat, ok: bool)
    requires Books(s) && Keys(s) && Enabled(s, Own(id, ok))
    ensures Sound(s, id, Plan(s, id, ok).0)
  {
    assert CallBooks(s, id);
    hide Books, Keys, Unsent, WasSent, Settled, Doomed;
  }

  /** What a step leaves as it was for a call that does not take it. */
  ghost predicate Aside(s: State, s': State, x: nat) {
    && (x in s'.sh.channels <==> x in s.sh.channels)
    && (x in s'.sh.pending ==> x in s.sh.pending)
    && (x in s'.sh.pending <==> x in s'.sh.channels && s'.sh.channels[x].Open?)
    && (s'.lock == Some(x) <==> s.lock == Some(x))
    && (Request(x) in s'.sh.wire <==> Request(x) in s.sh.wire)
    && (s'.emptied && x in s'.sh.pending ==> s.emptied)
    && (!s.sh.alive ==> !s'.sh.alive)
  }

  lemma PerformAside(s: State, id: nat, e: Effect, x: nat)
    requires Sound(s, id, e) && x != id && s.sh.pending <= s.sh.channels.Keys
    requires x in s.sh.pending <==> x in s.sh.channels && s.sh.channels[x].Open?
    ensures Aside(s, Perform(s, id, e), x) && Perform(s, id, e).calls == s.calls
  {
  }

  lemma AsideBooks(s: State, s': State, x: nat)
    requires x in s.calls && x in s'.calls && s'.calls[x] == s.calls[x] && CallBooks(s, x) && Aside(s, s', x)
    ensures CallBooks(s', x)
  {
    hide HoldsKey, Unsent, WasSent, Settled, Doomed, Place;
  }

  lemma OtherBooks(s: State, id: nat, e: Effect, pc: PC, x: nat)
    requires Books(s) && Sound(s, id, e) && id in s.calls && x in s.calls && x != id
    ensures CallBooks(Perform(s, id, e).At(id, pc), x)
  {
    assert CallBooks(s, x);
    hide Books, Perform, Sound, Aside, HoldsKey, Unsent, WasSent, Settled, Doomed, Place;
    PerformAside(s, id, e, x);
    AsideAt(s, Perform(s, id, e), id, pc, x);
    hide CallBooks;
    AsideBooks(s, Perform(s, id, e).At(id, pc), x);
  }

  lemma AsideAt(s: State, s': State, id: nat, pc: PC, x: nat)
    requires Aside(s, s', x) && id in s'.calls
    ensures Aside(s, s'.At(id, pc), x)
  {
  }

  /** What a step does to the books of the call that takes it. */
  ghost predicate SelfMove(s: State, id: nat, e: Effect, pc': PC)
    requires id in s.calls
  {
    var c := s.calls[id];
    && !c.pc.Dropped? && !pc'.Dropped? && !pc'.Created? && (c.pc.Created? <==> e.Join?)
    && HoldsKey(c.(pc := pc'), id) == (e.TakeOver? || (HoldsKey(c, id) && !e.SendAndUnlock? && !e.GiveBack?))
    && (Unsent(pc', id) ==> Unsent(c.pc, id) && Sent(e) != Some(Request(id)))
    && (WasSent(pc', id) ==> WasSent(c.pc, id) || Sent(e) == Some(Request(id)))
    && (Settled(pc', id) ==> Settled(c.pc, id) || (e.Settle? && e.target == id) || id !in s.sh.pending)
    && (Settled(pc', id) ==> !e.Join?)
    && (s.emptied && !Doomed(pc', id) ==> !e.Join? && (id !in s.sh.pending || (e.Settle? && e.target == id)))
    && (pc'.TakePrevious? ==> pc'.prior != id)
    && (pc'.Emptying? ==> e.Kill?) && (pc'.Retiring? ==> e.EmptyOut?)
  }

  lemma PlanSelf(s: State, id: nat, ok: bool)
    requires Keys(s) && Enabled(s, Own(id, ok)) && CallBooks(s, id) && (s.emptied ==> !s.sh.alive)
    ensures SelfMove(s, id, Plan(s, id, ok).0, Plan(s, id, ok).1)
  {
  }

  lemma PerformSelf(s: State, id: nat, e: Effect, pc': PC)
    requires id in s.calls && CallBooks(s, id) && Sound(s, id, e) && SelfMove(s, id, e, pc')
    ensures CallBooks(Perform(s, id, e).At(id, pc'), id)
  {
    hide HoldsKey, Unsent, WasSent, Settled, Doomed;
  }

  lemma GlobalBooks(s: State, id: nat, e: Effect)
    requires Books(s) && Sound(s, id, e) && id in s.calls
    ensures var s' := Perform(s, id, e);
      && s'.calls == s.calls && s'.sh.nextId == s.sh.nextId
      && s'.sh.channels.Keys <= s.calls.Keys
      && s'.sh.pending <= s'.sh.channels.Keys
      && (s'.lock.Some? ==> s'.lock.value in s.calls)
      && (s'.emptied ==> !s'.sh.alive)
      && (forall x :: Request(x) in s'.sh.wire ==> x in s.calls)
  {
    hide CallBooks;
  }

  lemma OwnBooks(s: State, id: nat, ok: bool)
    requires Books(s) && Keys(s) && Enabled(s, Own(id, ok))
    ensures Books(OwnStep(s, id, ok))
  {
    hide CallBooks, Plan, Perform, Keys;
    PlanSound(s, id, ok);
    GlobalBooks(s, id, Plan(s, id, ok).0);
    forall x | x in s.calls ensures CallBooks(OwnStep(s, id, ok), x) {
      if x != id {
        OtherBooks(s, id, Plan(s, id, ok).0, Plan(s, id, ok).1, x);
      } else {
        OwnSelf(s, id, ok);
      }
    }
  }

  lemma OwnSelf(s: State, id: nat, ok: bool)
    requires Books(s) && Keys(s) && Enabled(s, Own(id, ok))
    ensures CallBooks(OwnStep(s, id, ok), id)
  {
    hide CallBooks, Plan, Perform, Keys, Sound, SelfMove;
    PlanSound(s, id, ok);
    PlanSelf(s, id, ok);
    PerformSelf(s, id, Plan(s, id, ok).0, Plan(s, id, ok).1);
  }

  /** The books look at nothing but these. */
  ghost predicate SameForBooks(s: State, s': State) {
    && s'.calls == s.calls && s'.lock == s.lock && s'.emptied == s.emptied && s'.sh.nextId == s.sh.nextId
    && s'.sh.pending == s.sh.pending && s'.sh.channels == s.sh.channels
    && s'.sh.wire == s.sh.wire && s'.sh.alive == s.sh.alive
  }

  lemma UntouchedBooks(s: State, s': State)
    requires Books(s) && SameForBooks(s, s')
    ensures Books(s')
  {
    hide HoldsKey, Unsent, WasSent, Settled, Doomed, Place;
    forall x | x in s'.calls ensures CallBooks(s', x) {
      assert CallBooks(s, x);
    }
  }

  lemma TakeIdBooks(s: State, purpose: Purpose)
    requires Books(s) && Enabled(s, TakeId(purpose))
    ensures Books(Apply(s, TakeId(purpose)))
  {
    var s' := Apply(s, TakeId(purpose));
    NewBooks(s, purpose);
    hide HoldsKey, Unsent, WasSent, Settled, Doomed, Place;
    forall x | x in s.calls ensures CallBooks(s', x) {
      assert CallBooks(s, x);
    }
    hide CallBooks;
  }

  lemma NewBooks(s: State, purpose: Purpose)
    requires Books(s) && Enabled(s, TakeId(purpose))
    ensures CallBooks(Apply(s, TakeId(purpose)), s.sh.nextId)
  {
    var id := s.sh.nextId;
    assert id !in s.calls && id !in s.sh.channels && id !in s.sh.pending && s.lock != Some(id);
    assert Request(id) !in s.sh.wire;
    hide Books;
  }

  lemma TimeOutSelf(s: State, id: nat)
    requires Books(s) && Enabled(s, TimeOut(id))
    ensures CallBooks(Apply(s, TimeOut(id)), id)
  {
    assert CallBooks(s, id);
    hide Books;
  }

  lemma TimeOutBooks(s: State, id: nat)
    requires Books(s) && Enabled(s, TimeOut(id))
    ensures Books(Apply(s, TimeOut(id)))
  {
    var s' := Apply(s, TimeOut(id));
    TimeOutSelf(s, id);
    hide HoldsKey, Unsent, WasSent, Settled, Doomed, Place;
    forall x | x in s.calls && x != id ensures CallBooks(s', x) {
      assert CallBooks(s, x);
    }
    hide CallBooks;
  }

  lemma DropSelf(s: State, id: nat)
    requires Books(s) && Enabled(s, Drop(id))
    ensures CallBooks(Apply(s, Drop(id)), id)
  {
    assert CallBooks(s, id);
    hide Books, Unsent, WasSent, Settled, Doomed;
  }

  lemma DropBooks(s: State, id: nat)
    requires Books(s) && Enabled(s, Drop(id))
    ensures Books(Apply(s, Drop(id)))
  {
    var s' := Apply(s, Drop(id));
    DropSelf(s, id);
    hide HoldsKey, Unsent, WasSent, Settled, Doomed, Place;
    forall x | x in s.calls && x != id ensures CallBooks(s', x) {
      assert CallBooks(s, x);
    }
    hide CallBooks;
  }

  /** The dispatcher and whoever else marks the client dead. */
  lemma ServerBooks(s: State, a: Action)
    requires Books(s) && Enabled(s, a)
    requires a.Respond? || a.EndOfStream? || a.Die? || a.Notify?
    ensures Books(Apply(s, a))
  {
    hide HoldsKey, Unsent, WasSent, Settled, Doomed, Place;
    var s' := Apply(s, a);
    forall x | x in s'.calls ensures CallBooks(s', x) {
      assert CallBooks(s, x);
    }
    hide CallBooks;
  }

  lemma EmptyBooks(s: State)
    requires Books(s) && Enabled(s, Empty)
    ensures Books(Apply(s, Empty))
  {
    hide HoldsKey, Unsent, WasSent, Settled, Doomed, Place;
    var s' := Apply(s, Empty);
    forall x | x in s'.calls ensures CallBooks(s', x) {
      assert CallBooks(s, x);
    }
    hide CallBooks;
  }

  lemma StepBooks(s: State, a: Action)
    requires Books(s) && Keys(s) && Enabled(s, a)
    ensures Books(Apply(s, a))
  {
    hide OwnStep, Keys, Books;
    match a
    case Own(id, ok) => OwnBooks(s, id, ok);
    case TakeId(purpose) => TakeIdBooks(s, purpose);
    case TimeOut(id) => TimeOutBooks(s, id);
    case Drop(id) => DropBooks(s, id);
    case Empty => EmptyBooks(s);
    case Respond(_) => ServerBooks(s, a);
    case EndOfStream => ServerBooks(s, a);
    case Die => ServerBooks(s, a);
    case Notify => ServerBooks(s, a);
    case _ => UntouchedBooks(s, Apply(s, a));
  }

  // ---- cancelling ----

  predicate SameKey(s: State, a: nat, b: nat) {
    && a in s.calls && b in s.calls && s.calls[a].purpose.Latest? && s.calls[b].purpose.Latest?
    && s.calls[a].purpose.key == s.calls[b].purpose.key
  }

  /** It was dropped between taking its key and writing its request, so the
      request will never be written. */
  predicate Abandoned(s: State, x: nat) {
    x in s.calls && s.calls[x].pc.Dropped? && HoldsKey(s.calls[x].(pc := s.calls[x].pc.at), x)
  }

  predicate SentOrAbandoned(s: State, x: nat) { Request(x) in s.sh.wire || Abandoned(s, x) }

  /** `id` alone may cancel `target`, and has not done so yet. */
  ghost predicate MayCancel(s: State, id: nat, target: nat) {
    && target in s.sh.channels && s.sh.channels[target] == Closed(Canceller(id))
    && SentOrAbandoned(s, target)
    && (forall w :: Cancel(target, w) !in s.sh.wire)
    && (target != id ==> SameKey(s, id, target))
  }

  ghost predicate CancelBooks(s: State, id: nat)
    requires id in s.calls
  {
    match s.calls[id].pc
    case TakePrevious(prior) => SameKey(s, id, prior) && SentOrAbandoned(s, prior)
    case CheckCancel(target) => MayCancel(s, id, target)
    case WriteCancel(target) => MayCancel(s, id, target)
    case _ => true
  }

  /** A key never points at a call that has not written its request, except
      while that call holds the lock or if it was dropped while it did. */
  ghost predicate KeysSent(s: State) {
    forall k <- s.sh.latest :: SentOrAbandoned(s, s.sh.latest[k].1) || s.lock == Some(s.sh.latest[k].1)
  }

  /** A cancellation on the wire, at position `i`. */
  ghost predicate CancelAt(s: State, i: nat)
    requires i < |s.sh.wire| && s.sh.wire[i].Cancel?
  {
    var Cancel(x, w) := s.sh.wire[i];
    && x in s.sh.channels && s.sh.channels[x] == Closed(Canceller(w))
    && (Request(x) in s.sh.wire[..i] || Abandoned(s, x))
    && (forall j | 0 <= j < i && s.sh.wire[j].Cancel? :: s.sh.wire[j].id != x)
    && (w != x ==> SameKey(s, w, x) && Request(w) !in s.sh.wire[..i])
  }

  ghost predicate Cancels(s: State) {
    && KeysSent(s)
    && (forall id <- s.calls :: CancelBooks(s, id))
    && (forall i | 0 <= i < |s.sh.wire| && s.sh.wire[i].Cancel? :: CancelAt(s, i))
  }

  /** What keeps the cancel books of everything a step does not touch. */
  ghost predicate Kept(s: State, s': State) {
    && s.calls.Keys <= s'.calls.Keys
    && (forall x <- s.calls :: s'.calls[x].purpose == s.calls[x].purpose)
    && (forall x <- s.calls :: s.calls[x].pc.Dropped? ==> s'.calls[x] == s.calls[x])
    && (forall x <- s.sh.channels :: x in s'.sh.channels
          && (s.sh.channels[x].Closed? ==> s'.sh.channels[x] == s.sh.channels[x]))
    && s.sh.wire <= s'.sh.wire
  }

  lemma CancelAtKept(s: State, s': State, i: nat)
    requires Kept(s, s') && i < |s.sh.wire| && s.sh.wire[i].Cancel? && CancelAt(s, i)
    ensures CancelAt(s', i)
  {
    assert s'.sh.wire[..i] == s.sh.wire[..i];
    assert s'.sh.wire[i] == s.sh.wire[i];
  }

  lemma MayCancelKept(s: State, s': State, id: nat, target: nat, m: Message)
    requires Kept(s, s') && MayCancel(s, id, target)
    requires s'.sh.wire == s.sh.wire || s'.sh.wire == s.sh.wire + [m]
    requires m.Cancel? ==> m.id != target
    ensures MayCancel(s', id, target)
  {
  }

  lemma PendingOpen(s: State)
    requires Books(s)
    ensures forall x <- s.sh.pending :: x in s.sh.channels && s.sh.channels[x].Open?
  {
    forall x | x in s.sh.pending ensures s.sh.channels[x].Open? {
      assert CallBooks(s, x);
    }
  }

  lemma PerformShared(s: State, id: nat, e: Effect)
    requires Sound(s, id, e) && forall x <- s.sh.pending :: x in s.sh.channels && s.sh.channels[x].Open?
    ensures var s' := Perform(s, id, e);
      && s'.calls == s.calls
      && s'.sh.wire == (if Sent(e).Some? then s.sh.wire + [Sent(e).value] else s.sh.wire)
      && (forall x <- s.sh.channels :: x in s'.sh.channels
            && (s.sh.channels[x].Closed? ==> s'.sh.channels[x] == s.sh.channels[x]))
  {
  }

  lemma PerformKept(s: State, id: nat, e: Effect, pc: PC)
    requires Books(s) && Sound(s, id, e) && id in s.calls && !s.calls[id].pc.Dropped?
    ensures var s' := Perform(s, id, e).At(id, pc);
      Kept(s, s') && s'.sh.wire == if Sent(e).Some? then s.sh.wire + [Sent(e).value] else s.sh.wire
  {
    PendingOpen(s);
    hide Books, CallBooks, Perform, Sound;
    PerformShared(s, id, e);
  }

  /** Only a call that may cancel writes a cancellation, and it is then done. */
  lemma PlanSends(s: State, id: nat, ok: bool)
    requires Enabled(s, Own(id, ok))
    ensures var (e, pc') := Plan(s, id, ok);
      match Sent(e)
      case Some(Cancel(x, w)) => s.calls[id].pc == WriteCancel(x) && w == id && !pc'.TakePrevious? && !pc'.CheckCancel? && !pc'.WriteCancel?
      case Some(Request(x)) => x == id && pc' == Waiting
      case Some(Notification) => false
      case None => true
  {
  }

  /** The step of a call, seen from the others: at most one message, and a
      cancellation only of what the call itself may cancel. */
  ghost predicate Beside(s: State, s': State, id: nat, m: Option<Message>) {
    && Kept(s, s')
    && s'.sh.wire == (if m.Some? then s.sh.wire + [m.value] else s.sh.wire)
    && (m.Some? && m.value.Cancel? ==> MayCancel(s, id, m.value.id) && m.value.sender == id)
  }

  lemma StepBeside(s: State, id: nat, ok: bool)
    requires Books(s) && Keys(s) && Cancels(s) && Enabled(s, Own(id, ok))
    ensures Beside(s, OwnStep(s, id, ok), id, Sent(Plan(s, id, ok).0))
    ensures forall x <- s.calls :: x != id ==> OwnStep(s, id, ok).calls[x] == s.calls[x]
  {
    hide Books, Keys, Plan, Perform, Sound, Kept, KeysSent, CancelAt, MayCancel;
    PlanSound(s, id, ok);
    PlanSends(s, id, ok);
    assert CancelBooks(s, id);
    PerformKept(s, id, Plan(s, id, ok).0, Plan(s, id, ok).1);
    PerformCalls(s, id, Plan(s, id, ok).0);
  }

  lemma PerformCalls(s: State, id: nat, e: Effect)
    ensures Perform(s, id, e).calls == s.calls
  {
  }

  lemma BesideCancels(s: State, s': State, id: nat, m: Option<Message>, x: nat)
    requires Beside(s, s', id, m) && x in s.calls && x != id && CancelBooks(s, x)
    requires s'.calls[x] == s.calls[x]
    ensures CancelBooks(s', x)
  {
    var last := if m.Some? then m.value else Notification;
    match s.calls[x].pc
    case CheckCancel(target) => MayCancelKept(s, s', x, target, last);
    case WriteCancel(target) => MayCancelKept(s, s', x, target, last);
    case _ =>
  }

  lemma OtherCancels(s: State, s': State, id: nat, ok: bool, x: nat)
    requires Books(s) && Keys(s) && Cancels(s) && Enabled(s, Own(id, ok)) && x in s.calls && x != id
    requires s' == OwnStep(s, id, ok) && x in s'.calls
    ensures CancelBooks(s', x)
  {
    assert CancelBooks(s, x);
    hide *;
    StepBeside(s, id, ok);
    BesideCancels(s, s', id, Sent(Plan(s, id, ok).0), x);
  }

  lemma WireCancels(s: State, id: nat, ok: bool, i: nat)
    requires Books(s) && Keys(s) && Cancels(s) && Enabled(s, Own(id, ok))
    requires i < |OwnStep(s, id, ok).sh.wire| && OwnStep(s, id, ok).sh.wire[i].Cancel?
    ensures CancelAt(OwnStep(s, id, ok), i)
  {
    hide Books, Keys, KeysSent, Plan, Perform, Kept, OwnStep, MayCancel, CancelAt;
    var s' := OwnStep(s, id, ok);
    StepBeside(s, id, ok);
    PlanSends(s, id, ok);
    if i < |s.sh.wire| {
      assert CancelAt(s, i);
      CancelAtKept(s, s', i);
    } else {
      WritingUnsent(s, id);
      NewCancel(s, s', id, s.calls[id].pc.target);
    }
  }

  lemma WritingUnsent(s: State, id: nat)
    requires Books(s) && id in s.calls && s.calls[id].pc.WriteCancel?
    ensures s.calls[id].pc.target != id ==> Request(id) !in s.sh.wire
  {
    assert CallBooks(s, id);
  }

  lemma NewCancel(s: State, s': State, id: nat, target: nat)
    requires Kept(s, s') && MayCancel(s, id, target) && s'.sh.wire == s.sh.wire + [Cancel(target, id)]
    requires target != id ==> Request(id) !in s.sh.wire
    ensures CancelAt(s', |s.sh.wire|)
  {
    assert s'.sh.wire[..|s.sh.wire|] == s.sh.wire;
  }

  /** How a call comes to cancel another. */
  lemma PlanCancelling(s: State, id: nat, ok: bool)
    requires Enabled(s, Own(id, ok))
    ensures var pc, purpose, (e, pc') := s.calls[id].pc, s.calls[id].purpose, Plan(s, id, ok);
      && (pc'.TakePrevious? ==>
            (pc.Registered? && purpose.Latest? && e.TakeOver?
             && purpose.key in s.sh.latest && pc'.prior == s.sh.latest[purpose.key].1))
      && (pc'.CheckCancel? ==>
            (e == Settle(pc'.target, Closed(Canceller(id))) && pc'.target in s.sh.pending
             && (pc == TakePrevious(pc'.target) || (pc.TimedOut? && pc'.target == id))))
      && (pc'.WriteCancel? ==> (pc == CheckCancel(pc'.target) && e.Still?))
      && !pc'.Dropped?
  {
  }

  lemma SelfCancels(s: State, id: nat, ok: bool)
    requires Books(s) && Keys(s) && Cancels(s) && Enabled(s, Own(id, ok))
    ensures CancelBooks(OwnStep(s, id, ok), id)
  {
    hide Books, Keys, Plan, CallBooks, KeysSent, CancelAt, MayCancel, SentOrAbandoned, SameKey, Perform;
    PlanCancelling(s, id, ok);
    assert CancelBooks(s, id);
    match Plan(s, id, ok).1
    case TakePrevious(_) => RegisteredCancels(s, id, ok);
    case CheckCancel(_) => TakenCancels(s, id, ok);
    case WriteCancel(target) =>
      StillPerforms(s, id);
      StillCancels(s, s.At(id, WriteCancel(target)), id, target);
    case _ =>
  }

  lemma StillPerforms(s: State, id: nat)
    ensures Perform(s, id, Still) == s
  {
  }

  lemma StillCancels(s: State, s': State, id: nat, target: nat)
    requires MayCancel(s, id, target) && id in s.calls && !s.calls[id].pc.Dropped?
    requires s' == s.(calls := s'.calls) && s'.calls.Keys == s.calls.Keys
    requires forall x <- s.calls :: s'.calls[x].purpose == s.calls[x].purpose
    requires forall x <- s.calls :: x != id ==> s'.calls[x] == s.calls[x]
    ensures MayCancel(s', id, target)
  {
    hide HoldsKey;
  }

  lemma RegisteredCancels(s: State, id: nat, ok: bool)
    requires Keys(s) && Cancels(s) && Enabled(s, Own(id, ok)) && Plan(s, id, ok).1.TakePrevious?
    ensures CancelBooks(OwnStep(s, id, ok), id)
  {
    PlanCancelling(s, id, ok);
    var (e, pc') := Plan(s, id, ok);
    assert s.lock == None;
    hide Plan, CancelBooks, CancelAt, HoldsKey, Keyless;
    TookPrevious(s, id, e, pc');
  }

  lemma TookPrevious(s: State, id: nat, e: Effect, pc': PC)
    requires Keys(s) && KeysSent(s) && id in s.calls && s.calls[id].purpose.Latest? && s.lock == None
    requires !s.calls[id].pc.Dropped? && e.TakeOver? && s.calls[id].purpose.key in s.sh.latest
    requires pc' == TakePrevious(s.sh.latest[s.calls[id].purpose.key].1)
    ensures CancelBooks(Perform(s, id, e).At(id, pc'), id)
  {
    hide HoldsKey, Keyless;
    assert SentOrAbandoned(s, pc'.prior);
  }

  lemma TakenCancels(s: State, id: nat, ok: bool)
    requires Books(s) && Cancels(s) && Enabled(s, Own(id, ok)) && Plan(s, id, ok).1.CheckCancel?
    ensures CancelBooks(OwnStep(s, id, ok), id)
  {
    PlanCancelling(s, id, ok);
    var (e, pc') := Plan(s, id, ok);
    assert CancelBooks(s, id) && CallBooks(s, id) && CallBooks(s, pc'.target);
    assert SentOrAbandoned(s, pc'.target);
    forall w ensures Cancel(pc'.target, w) !in s.sh.wire {
      NeverCancelled(s, pc'.target, w);
    }
    hide Plan, Books, CallBooks, Cancels, HoldsKey;
    Took(s, id, e, pc');
  }

  lemma Took(s: State, id: nat, e: Effect, pc': PC)
    requires pc'.CheckCancel? && id in s.calls && !s.calls[id].pc.Dropped? && pc'.target in s.sh.pending
    requires e == Settle(pc'.target, Closed(Canceller(id))) && SentOrAbandoned(s, pc'.target)
    requires pc'.target != id ==> SameKey(s, id, pc'.target)
    requires forall w :: Cancel(pc'.target, w) !in s.sh.wire
    ensures CancelBooks(Perform(s, id, e).At(id, pc'), id)
  {
    hide HoldsKey;
  }

  lemma NeverCancelled(s: State, target: nat, w: nat)
    requires Cancels(s) && target in s.sh.channels && s.sh.channels[target].Open?
    ensures Cancel(target, w) !in s.sh.wire
  {
    forall i | 0 <= i < |s.sh.wire| ensures s.sh.wire[i] != Cancel(target, w) {
      if s.sh.wire[i].Cancel? { assert CancelAt(s, i); }
    }
  }

  lemma OwnKeysSent(s: State, id: nat, ok: bool)
    requires Books(s) && Keys(s) && KeysSent(s) && Enabled(s, Own(id, ok))
    ensures KeysSent(OwnStep(s, id, ok))
  {
    var (e, pc') := Plan(s, id, ok);
    PlanSound(s, id, ok);
    PlanSends(s, id, ok);
    KeylessPlan(s, id, ok);
    assert e.SendAndUnlock? ==> e.message == Request(id);
    hide Plan, Books, Keyless;
    PerformKeysSent(s, id, e, pc');
  }

  lemma PerformKeysSent(s: State, id: nat, e: Effect, pc': PC)
    requires Keys(s) && KeysSent(s) && id in s.calls && !s.calls[id].pc.Dropped? && Sound(s, id, e) && KeyMove(s.calls[id], e, pc')
    ensures KeysSent(Perform(s, id, e).At(id, pc'))
  {
    hide Keyless;
  }

  lemma OwnCancels(s: State, id: nat, ok: bool)
    requires Books(s) && Keys(s) && Cancels(s) && Enabled(s, Own(id, ok))
    ensures Cancels(OwnStep(s, id, ok))
  {
    hide Books, Keys, KeysSent, CancelBooks, CancelAt, Plan, Perform;
    var s' := OwnStep(s, id, ok);
    OwnKeysSent(s, id, ok);
    forall x | x in s'.calls ensures CancelBooks(s', x) {
      SameCalls(s, id, ok);
      if x == id { SelfCancels(s, id, ok); } else { OtherCancels(s, s', id, ok, x); }
    }
    forall i | 0 <= i < |s'.sh.wire| && s'.sh.wire[i].Cancel? ensures CancelAt(s', i) {
      WireCancels(s, id, ok, i);
    }
  }

  lemma SameCalls(s: State, id: nat, ok: bool)
    requires Enabled(s, Own(id, ok))
    ensures OwnStep(s, id, ok).calls.Keys == s.calls.Keys
  {
    hide Plan;
  }

  /** What an outsider's step must leave alone. */
  ghost predicate Bystander(s: State, s': State) {
    Kept(s, s') && KeysSent(s') && (s'.sh.wire == s.sh.wire || s'.sh.wire == s.sh.wire + [Notification])
  }

  lemma UntouchedKept(s: State, s': State)
    requires KeysSent(s) && SameForBooks(s, s') && s'.sh.latest == s.sh.latest
    ensures Bystander(s, s')
  {
    hide HoldsKey;
  }

  lemma TakeIdKept(s: State, purpose: Purpose)
    requires Books(s) && KeysSent(s) && Enabled(s, TakeId(purpose))
    ensures Bystander(s, Apply(s, TakeId(purpose)))
  {
    hide CallBooks, HoldsKey;
    assert s.sh.nextId !in s.calls;
  }

  lemma TimeOutKept(s: State, id: nat)
    requires KeysSent(s) && Enabled(s, TimeOut(id))
    ensures Bystander(s, Apply(s, TimeOut(id)))
  {
    hide HoldsKey;
  }

  /** Dropping a lock holder abandons it. */
  lemma DropKept(s: State, id: nat)
    requires Books(s) && KeysSent(s) && Enabled(s, Drop(id))
    ensures Bystander(s, Apply(s, Drop(id)))
  {
    assert HoldsKey(s.calls[id], id) <==> s.lock == Some(id) by { assert CallBooks(s, id); }
    hide Books, HoldsKey;
  }

  lemma ServerKept(s: State, a: Action)
    requires Books(s) && KeysSent(s) && Enabled(s, a)
    requires a.Respond? || a.EndOfStream? || a.Die? || a.Notify? || a.Empty?
    ensures Bystander(s, Apply(s, a))
  {
    PendingOpen(s);
    hide Books, HoldsKey;
  }

  lemma OutsideKept(s: State, a: Action)
    requires Books(s) && Cancels(s) && Enabled(s, a) && !a.Own?
    ensures Bystander(s, Apply(s, a))
  {
    hide Books, KeysSent, CancelBooks, CancelAt, Bystander;
    match a
    case TakeId(purpose) => TakeIdKept(s, purpose);
    case TimeOut(id) => TimeOutKept(s, id);
    case Drop(id) => DropKept(s, id);
    case Empty => ServerKept(s, a);
    case Respond(_) => ServerKept(s, a);
    case EndOfStream => ServerKept(s, a);
    case Die => ServerKept(s, a);
    case Notify => ServerKept(s, a);
    case Begin(_, _, _) => UntouchedKept(s, Apply(s, a));
    case Replace(_, _, _, _) => UntouchedKept(s, Apply(s, a));
    case Fetch(_) => UntouchedKept(s, Apply(s, a));
    case Invalidate(_) => UntouchedKept(s, Apply(s, a));
    case InvalidateUri(_, _) => UntouchedKept(s, Apply(s, a));
  }

  /** An outsider leaves a call alone, times it out, drops it or creates it. */
  lemma OutsideCalls(s: State, a: Action, x: nat)
    requires Enabled(s, a) && !a.Own? && x in Apply(s, a).calls
    ensures var pc' := Apply(s, a).calls[x].pc;
      pc'.TimedOut? || pc'.Dropped? || pc'.Created? || (x in s.calls && Apply(s, a).calls[x] == s.calls[x])
  {
  }

  lemma OutsideCall(s: State, a: Action, x: nat)
    requires Books(s) && Cancels(s) && Enabled(s, a) && !a.Own? && x in Apply(s, a).calls
    ensures CancelBooks(Apply(s, a), x)
  {
    hide Apply, Enabled, Books, KeysSent, CancelAt, Kept, MayCancel;
    OutsideKept(s, a);
    OutsideCalls(s, a, x);
    var s' := Apply(s, a);
    if x in s.calls && s'.calls[x] == s.calls[x] {
      assert CancelBooks(s, x);
      KeptCancels(s, s', x);
    }
  }

  lemma KeptCancels(s: State, s': State, x: nat)
    requires Kept(s, s') && (s'.sh.wire == s.sh.wire || s'.sh.wire == s.sh.wire + [Notification])
    requires x in s.calls && x in s'.calls && s'.calls[x] == s.calls[x] && CancelBooks(s, x)
    ensures CancelBooks(s', x)
  {
    hide HoldsKey;
    match s.calls[x].pc
    case CheckCancel(target) => MayCancelKept(s, s', x, target, Notification);
    case WriteCancel(target) => MayCancelKept(s, s', x, target, Notification);
    case _ =>
  }

  lemma OutsideCancels(s: State, a: Action)
    requires Books(s) && Cancels(s) && Enabled(s, a) && !a.Own?
    ensures Cancels(Apply(s, a))
  {
    hide Books, CancelBooks, Apply, KeysSent, CancelAt;
    var s' := Apply(s, a);
    OutsideKept(s, a);
    forall x | x in s'.calls ensures CancelBooks(s', x) {
      OutsideCall(s, a, x);
    }
    forall i | 0 <= i < |s'.sh.wire| && s'.sh.wire[i].Cancel? ensures CancelAt(s', i) {
      assert i < |s.sh.wire| && CancelAt(s, i);
      CancelAtKept(s, s', i);
    }
  }
}
