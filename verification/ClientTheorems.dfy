/** The client's promises, over all runs. */
module ClientTheorems {
  import opened Wrappers
  import opened ReplyCache
  import opened ClientProtocol
  import opened ClientSafety
  import opened ClientReplies

  ghost predicate Inv(s: State) { Books(s) && Keys(s) && Cancels(s) && Replies(s) }

  lemma StepInv(s: State, a: Action)
    requires Inv(s) && Enabled(s, a)
    ensures Inv(Apply(s, a))
  {
    hide Books, Keys, Cancels, Replies, OwnStep;
    StepReplies(s, a);
    StepBooks(s, a);
    StepKeys(s, a);
    if a.Own? { OwnCancels(s, a.id, a.ok); } else { OutsideCancels(s, a); }
  }

  lemma {:induction false} RunInv(states: seq<State>, acts: seq<Action>, t: nat)
    requires Run(states, acts) && t < |states|
    ensures Inv(states[t])
  {
    if t > 0 {
      RunInv(states, acts, t - 1);
      RunStep(states, acts, t - 1);
      hide Inv, Enabled, Apply;
      StepInv(states[t - 1], acts[t - 1]);
    }
  }

  lemma RunBooks(states: seq<State>, acts: seq<Action>, t: nat)
    requires Run(states, acts) && t < |states|
    ensures Books(states[t]) && Keys(states[t])
  {
    RunInv(states, acts, t);
  }

  // ---- executing a command of a reply ----

  /** The step writes the execution request of `c`. */
  predicate Executes(s: State, a: Action, c: Command)
    requires Enabled(s, a)
  {
    && a.Own? && s.calls[a.id].purpose == Execute(c) && s.calls[a.id].pc.WriteSend?
    && Apply(s, a).sh.wire != s.sh.wire
  }

  /** The document changed or closed, the whole cache was dropped, or a newer
      reply identity began. */
  predicate Retires(s: State, a: Action, kind: CacheKind, g: nat, u: string) {
    match a
    case Invalidate(k) => k == kind
    case InvalidateUri(k, u') => k == kind && u' == u
    case Begin(k, g', u') => k == kind && g' > g && u' != ""
    case Own(id, _) => kind == Actions && id in s.calls && s.calls[id].pc.Retiring?
    case _ => false
  }

  lemma PlanRetires(s: State, id: nat, ok: bool)
    requires Enabled(s, Own(id, ok))
    ensures Plan(s, id, ok).0.RetireActions? <==> s.calls[id].pc.Retiring?
  {
  }

  /** Identities only move on: to a newer one, or to the same generation emptied. */
  predicate MovesOn(i: Identity, i': Identity) {
    i'.generation > i.generation || (i'.generation == i.generation && (i'.uri == i.uri || i'.uri == ""))
  }

  lemma IdentityMoves(s: State, a: Action, kind: CacheKind)
    requires Enabled(s, a)
    ensures MovesOn(s.sh.Identity(kind), Apply(s, a).sh.Identity(kind))
  {
    hide Plan, Perform;
    if a.Own? { PerformMoves(s, a.id, Plan(s, a.id, a.ok).0, kind); }
  }

  lemma PerformMoves(s: State, id: nat, e: Effect, kind: CacheKind)
    ensures MovesOn(s.sh.Identity(kind), Perform(s, id, e).sh.Identity(kind))
  {
  }

  lemma MovesOnKeeps(i: Identity, i': Identity, g: nat, u: string)
    requires MovesOn(i, i')
    ensures i.generation >= g ==> i'.generation >= g
    ensures i.Retired(g, u) && u != "" ==> i'.Retired(g, u)
  {
  }

  lemma RetiresNow(s: State, a: Action, kind: CacheKind, g: nat, u: string)
    requires Enabled(s, a) && Retires(s, a, kind, g, u) && u != "" && s.sh.Identity(kind).generation >= g
    ensures Apply(s, a).sh.Identity(kind).Retired(g, u)
  {
    if a.Own? { PlanRetires(s, a.id, a.ok); }
    hide Plan;
  }

  lemma {:induction false} MovesOnwards(states: seq<State>, acts: seq<Action>, kind: CacheKind, j: nat, k: nat, g: nat, u: string)
    requires Run(states, acts) && j <= k < |states|
    ensures states[j].sh.Identity(kind).generation >= g ==> states[k].sh.Identity(kind).generation >= g
    ensures states[j].sh.Identity(kind).Retired(g, u) && u != "" ==> states[k].sh.Identity(kind).Retired(g, u)
    decreases k
  {
    RunSize(states, acts);
    hide *;
    if j < k {
      MovesOnwards(states, acts, kind, j, k - 1, g, u);
      RunStep(states, acts, k - 1);
      IdentityMoves(states[k - 1], acts[k - 1], kind);
      MovesOnKeeps(states[k - 1].sh.Identity(kind), states[k].sh.Identity(kind), g, u);
    }
  }

  lemma RunSize(states: seq<State>, acts: seq<Action>)
    requires Run(states, acts)
    ensures |states| == |acts| + 1
  {
  }

  lemma RunStep(states: seq<State>, acts: seq<Action>, i: nat)
    requires Run(states, acts) && i < |acts|
    ensures Enabled(states[i], acts[i]) && states[i + 1] == Apply(states[i], acts[i])
  {
    assert StepAt(states, acts, i);
  }

  lemma RunGrows(states: seq<State>, acts: seq<Action>, a: Action)
    requires Run(states, acts) && Enabled(states[|acts|], a)
    ensures Run(states + [Apply(states[|acts|], a)], acts + [a])
  {
    var more, acts' := states + [Apply(states[|acts|], a)], acts + [a];
    forall i | 0 <= i < |acts'| ensures StepAt(more, acts', i) {
      assert i < |acts| ==> StepAt(states, acts, i);
    }
  }

  /** Once (g, u) has begun and has then been invalidated or overtaken, no
      execution for it is ever written, however long ago that execution was
      requested or had been waiting for the transport. */
  lemma NoStaleExecution(states: seq<State>, acts: seq<Action>, c: Command, i: nat, j: nat, k: nat)
    requires Run(states, acts) && i < j < k < |acts| && c.uri != ""
    requires acts[i] == Action.Begin(c.kind, c.generation, c.uri)
    requires Retires(states[j], acts[j], c.kind, c.generation, c.uri)
    ensures Enabled(states[k], acts[k]) && !Executes(states[k], acts[k], c)
  {
    RunSize(states, acts);
    hide *;
    var Command(kind, g, u, _, _) := c;
    RunStep(states, acts, i);
    RunStep(states, acts, j);
    RunStep(states, acts, k);
    Begun(states[i], acts[i], kind, g, u);
    MovesOnwards(states, acts, kind, i + 1, j, g, u);
    RetiresNow(states[j], acts[j], kind, g, u);
    MovesOnwards(states, acts, kind, j + 1, k, g, u);
    NotRetired(states[k], acts[k], c);
  }

  lemma Begun(s: State, a: Action, kind: CacheKind, g: nat, u: string)
    requires Enabled(s, a) && a == Action.Begin(kind, g, u) && u != ""
    ensures Apply(s, a).sh.Identity(kind).generation >= g
  {
  }

  lemma NotRetired(s: State, a: Action, c: Command)
    requires Enabled(s, a) && s.sh.Identity(c.kind).Retired(c.generation, c.uri)
    ensures !Executes(s, a, c)
  {
  }

  /** (g, u) began at step `i`, and no step from there to `t` retires it. */
  ghost predicate OpenSince(states: seq<State>, acts: seq<Action>, kind: CacheKind, g: nat, u: string, i: nat, t: nat)
    requires |states| == |acts| + 1
  {
    i < t <= |acts| && acts[i] == Action.Begin(kind, g, u)
    && forall j | i < j < t :: !Retires(states[j], acts[j], kind, g, u)
  }

  /** The reply to query `q` goes into the cache. */
  predicate Records(a: Action, q: Query) {
    a.Replace? && a.kind == q.kind && a.generation == q.generation && a.uri == q.uri
  }

  /** Between steps `i` and `t` exactly one reply was recorded for `q`, at `r`. */
  ghost predicate RecordedOnce(acts: seq<Action>, q: Query, items: seq<Item>, i: nat, r: nat, t: nat) {
    && i < r < t <= |acts| && acts[r] == Action.Replace(q.kind, q.generation, q.uri, items)
    && forall p | i < p < t && p != r :: !Records(acts[p], q)
  }

  ghost predicate NothingRecorded(acts: seq<Action>, q: Query, i: nat, t: nat) {
    t <= |acts| && forall p | i < p < t :: !Records(acts[p], q)
  }

  /** An identity comes to match only by its own `Begin`, and from then on its
      items change only with its own reply. */
  lemma MatchesStep(s: State, a: Action, q: Query)
    requires Replies(s) && Enabled(s, a) && Apply(s, a).sh.Identity(q.kind).Matches(q.generation, q.uri)
    ensures var s' := Apply(s, a); var items := s'.sh.Reply(q.kind).items;
      if !s.sh.Identity(q.kind).Matches(q.generation, q.uri) then
        a == Action.Begin(q.kind, q.generation, q.uri) && items == [] && q in s'.asking
      else
        && !Retires(s, a, q.kind, q.generation, q.uri)
        && (if Records(a, q) then q in s.asking && q !in s'.asking && items == a.items
            else (q in s'.asking <==> q in s.asking) && items == s.sh.Reply(q.kind).items)
  {
    hide Plan, Perform;
    if a.Own? {
      PlanRetires(s, a.id, a.ok);
      PerformMatches(s, a.id, Plan(s, a.id, a.ok).0, q);
    }
  }

  lemma PerformMatches(s: State, id: nat, e: Effect, q: Query)
    requires Perform(s, id, e).sh.Identity(q.kind).Matches(q.generation, q.uri)
    ensures s.sh.Identity(q.kind).Matches(q.generation, q.uri) && !(q.kind == Actions && e.RetireActions?)
    ensures Perform(s, id, e).sh.Reply(q.kind) == s.sh.Reply(q.kind) && Perform(s, id, e).asking == s.asking
  {
  }

  /** While an identity matches, it has been open since its `Begin`; the items
      are those of the one reply recorded for it, and none before that. */
  lemma {:induction false} ReplyHistory(states: seq<State>, acts: seq<Action>, q: Query, t: nat)
    requires |states| == |acts| + 1 && Run(states, acts) && t < |states|
    requires states[t].sh.Identity(q.kind).Matches(q.generation, q.uri)
    ensures q in states[t].asking ==> exists i: nat ::
              OpenSince(states, acts, q.kind, q.generation, q.uri, i, t) && NothingRecorded(acts, q, i, t)
    ensures q !in states[t].asking ==> exists i: nat, r: nat ::
              && OpenSince(states, acts, q.kind, q.generation, q.uri, i, t)
              && RecordedOnce(acts, q, states[t].sh.Reply(q.kind).items, i, r, t)
    decreases t
  {
    if t > 0 {
      var Query(kind, g, u) := q;
      var s := states[t - 1];
      RunInv(states, acts, t - 1);
      RunStep(states, acts, t - 1);
      hide Run, Enabled, Apply, Retires, Replies, Books, Keys, Cancels;
      MatchesStep(s, acts[t - 1], q);
      if !s.sh.Identity(kind).Matches(g, u) {
        assert OpenSince(states, acts, kind, g, u, t - 1, t) && NothingRecorded(acts, q, t - 1, t);
      } else {
        ReplyHistory(states, acts, q, t - 1);
        if q in s.asking {
          var i: nat :| OpenSince(states, acts, kind, g, u, i, t - 1) && NothingRecorded(acts, q, i, t - 1);
          assert OpenSince(states, acts, kind, g, u, i, t);
          if Records(acts[t - 1], q) {
            assert RecordedOnce(acts, q, states[t].sh.Reply(kind).items, i, t - 1, t);
          } else {
            assert NothingRecorded(acts, q, i, t);
          }
        } else {
          var i: nat, r: nat :| OpenSince(states, acts, kind, g, u, i, t - 1)
                                && RecordedOnce(acts, q, s.sh.Reply(kind).items, i, r, t - 1);
          assert OpenSince(states, acts, kind, g, u, i, t);
          assert RecordedOnce(acts, q, states[t].sh.Reply(kind).items, i, r, t);
        }
      }
    }
  }

  /** So every command on the wire is, at its index, the item of the one reply
      recorded for its identity, written while that identity was still open. */
  lemma ExecutedWhileOpen(states: seq<State>, acts: seq<Action>, c: Command, k: nat)
    requires |states| == |acts| + 1 && Run(states, acts) && k < |acts|
    requires Enabled(states[k], acts[k]) && Executes(states[k], acts[k], c)
    ensures exists i: nat, r: nat, items ::
      && OpenSince(states, acts, c.kind, c.generation, c.uri, i, k)
      && RecordedOnce(acts, Query(c.kind, c.generation, c.uri), items, i, r, k)
      && c.index < |items| && items[c.index] == c.item
  {
    ExecutionCurrent(states[k], acts[k], c);
    RunInv(states, acts, k);
    CurrentFaithful(states[k], acts[k].id, c);
    hide *;
    ReplyHistory(states, acts, Query(c.kind, c.generation, c.uri), k);
  }

  lemma CurrentFaithful(s: State, id: nat, c: Command)
    requires Replies(s) && id in s.calls && s.calls[id].purpose == Execute(c) && s.sh.Current(c)
    ensures s.sh.Identity(c.kind).Matches(c.generation, c.uri) && Query(c.kind, c.generation, c.uri) !in s.asking
    ensures c.index < |s.sh.Reply(c.kind).items| && s.sh.Reply(c.kind).items[c.index] == c.item
  {
    assert Faithful(s, c);
  }

  lemma ExecutionCurrent(s: State, a: Action, c: Command)
    requires Enabled(s, a) && Executes(s, a, c)
    ensures s.sh.Current(c) && a.id in s.calls && s.calls[a.id].purpose == Execute(c)
  {
  }

  // ---- newest request per key ----

  /** The call becomes the newest request for its key. */
  predicate Registers(s: State, a: Action, id: nat, key: string) {
    && a.Own? && a.id == id && id in s.calls && s.calls[id].pc.Registered?
    && s.calls[id].purpose.Latest? && s.calls[id].purpose.key == key
    && !s.sh.Outranked(key, s.calls[id].purpose.seqNo)
  }

  predicate Delivers(s: State, a: Action, id: nat)
    requires Enabled(s, a)
  {
    a.Own? && a.id == id && s.calls[id].pc.Clearing? && Apply(s, a).calls[id].pc == Done(Delivered)
  }

  /** Past registration, and its key points elsewhere. */
  predicate Displaced(s: State, id: nat, key: string) {
    && id in s.calls && s.calls[id].purpose.Latest? && s.calls[id].purpose.key == key
    && !s.calls[id].pc.Created? && !s.calls[id].pc.Registered?
    && !s.sh.PointsAt(key, id)
  }

  lemma PlanMoves(s: State, id: nat, ok: bool)
    requires Enabled(s, Own(id, ok))
    ensures var (e, pc') := Plan(s, id, ok);
      && !pc'.Created? && (pc'.Registered? ==> s.calls[id].pc.Created?)
      && (e.TakeOver? ==> s.calls[id].pc.Registered?)
  {
  }

  lemma DisplacedStep(s: State, a: Action, id: nat, key: string)
    requires Displaced(s, id, key) && Books(s) && Enabled(s, a)
    ensures Displaced(Apply(s, a), id, key)
  {
    hide Plan, CallBooks, Perform;
    if a.Own? {
      var (e, pc') := Plan(s, a.id, a.ok);
      PlanMoves(s, a.id, a.ok);
      hide Books;
      PerformLatest(s, a.id, e, id, key);
    }
  }

  lemma PerformLatest(s: State, b: nat, e: Effect, id: nat, key: string)
    requires !s.sh.PointsAt(key, id) && (e.TakeOver? ==> b != id)
    ensures var s' := Perform(s, b, e); s'.calls == s.calls && !s'.sh.PointsAt(key, id)
  {
  }

  lemma {:induction false} DisplacedStays(states: seq<State>, acts: seq<Action>, id: nat, key: string, m: nat, j: nat)
    requires Run(states, acts) && m <= j < |states| && Displaced(states[m], id, key)
    ensures Displaced(states[j], id, key)
    decreases j
  {
    RunSize(states, acts);
    hide *;
    if m < j {
      DisplacedStays(states, acts, id, key, m, j - 1);
      RunBooks(states, acts, j - 1);
      RunStep(states, acts, j - 1);
      DisplacedStep(states[j - 1], acts[j - 1], id, key);
    }
  }

  lemma RegisterDisplaces(s: State, a: Action, b: nat, id: nat, key: string)
    requires Books(s) && Keys(s) && Enabled(s, a) && Registers(s, a, b, key) && b != id && id in s.calls
    requires s.calls[id].purpose.Latest? && s.calls[id].purpose.key == key
    requires !s.calls[id].pc.Created? && !s.calls[id].pc.Registered?
    ensures Displaced(Apply(s, a), id, key)
  {
    hide Books, Keys;
  }

  /** Where a call stands only ever moves on from its registration. */
  predicate PastRegistration(s: State, id: nat, key: string) {
    && id in s.calls && s.calls[id].purpose.Latest? && s.calls[id].purpose.key == key
    && !s.calls[id].pc.Created? && !s.calls[id].pc.Registered?
  }

  lemma PastStep(s: State, a: Action, id: nat, key: string)
    requires Books(s) && Enabled(s, a)
    requires PastRegistration(s, id, key) || Registers(s, a, id, key)
    ensures PastRegistration(Apply(s, a), id, key)
  {
    hide Plan, CallBooks, Perform;
    if a.Own? {
      PlanMoves(s, a.id, a.ok);
      hide Books;
      PerformCalls(s, a.id, Plan(s, a.id, a.ok).0);
    }
  }

  lemma {:induction false} PastStays(states: seq<State>, acts: seq<Action>, id: nat, key: string, i: nat, j: nat)
    requires Run(states, acts) && i < j < |states| && Registers(states[i], acts[i], id, key)
    ensures PastRegistration(states[j], id, key)
    decreases j
  {
    RunSize(states, acts);
    hide *;
    if i + 1 < j { PastStays(states, acts, id, key, i, j - 1); }
    RunBooks(states, acts, j - 1);
    RunStep(states, acts, j - 1);
    PastStep(states[j - 1], acts[j - 1], id, key);
  }

  lemma NotDelivered(s: State, a: Action, id: nat, key: string)
    requires Enabled(s, a) && Displaced(s, id, key)
    ensures !Delivers(s, a, id)
  {
  }

  /** A call delivers only if no other request for its key was registered
      between its own registration and the step that clears its key. */
  lemma LatestWins(states: seq<State>, acts: seq<Action>, id: nat, key: string, i: nat, j: nat)
    requires Run(states, acts) && i < j < |acts|
    requires Registers(states[i], acts[i], id, key)
    requires Enabled(states[j], acts[j]) && Delivers(states[j], acts[j], id)
    ensures forall m, b | i < m < j && b != id :: !Registers(states[m], acts[m], b, key)
  {
    forall m, b | i < m < j && b != id ensures !Registers(states[m], acts[m], b, key) {
      hide Enabled, Apply, Books, Keys, Cancels, Delivers, Registers;
      if Registers(states[m], acts[m], b, key) {
        RunStep(states, acts, m);
        RunStep(states, acts, j);
        RunInv(states, acts, m);
        PastStays(states, acts, id, key, i, m);
        RegisterDisplaces(states[m], acts[m], b, id, key);
        DisplacedStays(states, acts, id, key, m + 1, j);
        NotDelivered(states[j], acts[j], id, key);
      }
    }
  }

  /** So of two calls whose registered spans overlap at most one delivers. */
  lemma AtMostOneDelivers(states: seq<State>, acts: seq<Action>, key: string, a: nat, ia: nat, ja: nat, b: nat, ib: nat, jb: nat)
    requires Run(states, acts) && a != b && ia < ja < |acts| && ib < jb < |acts|
    requires Registers(states[ia], acts[ia], a, key) && Registers(states[ib], acts[ib], b, key)
    requires Enabled(states[ja], acts[ja]) && Delivers(states[ja], acts[ja], a)
    requires Enabled(states[jb], acts[jb]) && Delivers(states[jb], acts[jb], b)
    ensures ja < ib || jb < ia
  {
    hide Run, Enabled, Apply;
    LatestWins(states, acts, a, key, ia, ja);
    LatestWins(states, acts, b, key, ib, jb);
  }

  /** And a registration never displaces a request the editor issued later; what
      it displaces has not returned, though it may have been dropped. */
  lemma NoLaterRequestDisplaced(states: seq<State>, acts: seq<Action>, t: nat, b: nat, key: string)
    requires Run(states, acts) && t < |acts| && Registers(states[t], acts[t], b, key)
    requires key in states[t].sh.latest
    ensures var s := states[t]; var old_ := s.sh.latest[key].1;
      && old_ in s.calls && !s.calls[old_].pc.Done?
      && s.calls[old_].purpose.Latest? && s.calls[old_].purpose.key == key
      && s.calls[old_].purpose.seqNo <= s.calls[b].purpose.seqNo
  {
    RunInv(states, acts, t);
  }

  // ---- cancellation ----

  /** A call that was dropped, was dropped where its state says. */
  lemma {:induction false} DroppedThere(states: seq<State>, acts: seq<Action>, x: nat, t: nat)
    requires Run(states, acts) && t < |states| && x in states[t].calls && states[t].calls[x].pc.Dropped?
    ensures exists j: nat :: DroppedAt(states, acts, x, states[t].calls[x].pc.at, j, t)
    decreases t
  {
    RunSize(states, acts);
    if t > 0 {
      RunStep(states, acts, t - 1);
      hide Run, Enabled, Apply;
      DroppedStep(states[t - 1], acts[t - 1], x);
      if acts[t - 1] == Drop(x) {
        assert DroppedAt(states, acts, x, states[t].calls[x].pc.at, t - 1, t);
      } else {
        DroppedThere(states, acts, x, t - 1);
        var j: nat :| DroppedAt(states, acts, x, states[t - 1].calls[x].pc.at, j, t - 1);
        assert DroppedAt(states, acts, x, states[t].calls[x].pc.at, j, t);
      }
    }
  }

  ghost predicate DroppedAt(states: seq<State>, acts: seq<Action>, x: nat, at: PC, j: nat, t: nat) {
    && |states| == |acts| + 1 && j < t <= |acts|
    && acts[j] == Drop(x) && x in states[j].calls && states[j].calls[x].pc == at
  }

  lemma DroppedStep(s: State, a: Action, x: nat)
    requires Enabled(s, a) && x in Apply(s, a).calls && Apply(s, a).calls[x].pc.Dropped?
    ensures x in s.calls
    ensures if a == Drop(x) then Apply(s, a).calls[x].pc.at == s.calls[x].pc else Apply(s, a).calls[x] == s.calls[x]
  {
    if a.Own? {
      PlanCancelling(s, a.id, a.ok);
      PerformCalls(s, a.id, Plan(s, a.id, a.ok).0);
    }
    hide Plan, Perform;
  }

  lemma DroppedForGood(s: State, a: Action, x: nat)
    requires Enabled(s, a) && x in s.calls && s.calls[x].pc.Dropped?
    ensures x in Apply(s, a).calls && (a.TakeId? ==> x == s.sh.nextId || Apply(s, a).calls[x] == s.calls[x])
    ensures !a.TakeId? ==> Apply(s, a).calls[x] == s.calls[x]
  {
    if a.Own? {
      PerformCalls(s, a.id, Plan(s, a.id, a.ok).0);
    }
    hide Plan, Perform;
  }

  /** A dropped call stays as it was dropped. */
  lemma {:induction false} DroppedStays(states: seq<State>, acts: seq<Action>, x: nat, j: nat, t: nat)
    requires Run(states, acts) && j <= t < |states| && x in states[j].calls && states[j].calls[x].pc.Dropped?
    ensures x in states[t].calls && states[t].calls[x] == states[j].calls[x]
    decreases t
  {
    RunSize(states, acts);
    if j < t {
      DroppedStays(states, acts, x, j, t - 1);
      RunInv(states, acts, t - 1);
      RunStep(states, acts, t - 1);
      assert x < states[t - 1].sh.nextId;
      hide Run, Enabled, Apply, Inv;
      DroppedForGood(states[t - 1], acts[t - 1], x);
    }
  }

  /** Abandoned means: dropped while holding the lock of the key map, that is,
      between taking its key and writing its request. */
  lemma AbandonedExactly(states: seq<State>, acts: seq<Action>, x: nat, t: nat)
    requires |states| == |acts| + 1 && Run(states, acts) && t < |states|
    ensures Abandoned(states[t], x) <==> exists j: nat :: j < t && acts[j] == Drop(x) && states[j].lock == Some(x)
  {
    if Abandoned(states[t], x) {
      AbandonedThere(states, acts, x, t);
    }
    if j: nat :| j < t && acts[j] == Drop(x) && states[j].lock == Some(x) {
      RunInv(states, acts, j);
      RunStep(states, acts, j);
      hide Inv, Run;
      LockHolds(states[j], x);
      DroppedStays(states, acts, x, j + 1, t);
    }
  }

  lemma AbandonedThere(states: seq<State>, acts: seq<Action>, x: nat, t: nat)
    requires |states| == |acts| + 1 && Run(states, acts) && t < |states| && Abandoned(states[t], x)
    ensures exists j: nat :: j < t && acts[j] == Drop(x) && states[j].lock == Some(x)
  {
    hide Run, Inv, HoldsKey;
    DroppedThere(states, acts, x, t);
    var j: nat :| DroppedAt(states, acts, x, states[t].calls[x].pc.at, j, t);
    RunInv(states, acts, j);
    RunStep(states, acts, j);
    DroppedStays(states, acts, x, j + 1, t);
    LockHolds(states[j], x);
  }

  lemma LockHolds(s: State, x: nat)
    requires Inv(s) && (x in s.calls || s.lock == Some(x))
    ensures x in s.calls && (HoldsKey(s.calls[x], x) <==> s.lock == Some(x))
  {
    assert CallBooks(s, x);
  }

  /** An abandoned call never writes its request. */
  lemma AbandonedUnsent(s: State, x: nat)
    requires Inv(s) && Abandoned(s, x)
    ensures Request(x) !in s.sh.wire
  {
    assert CallBooks(s, x);
  }

  /** Every cancellation is the only one for its id, comes from whoever took
      that id out of `pending`, and, when a replacement sent it, concerns the same
      key and precedes the replacement's own request. It follows the request it
      cancels if and only if that call was not abandoned. */
  lemma CancelDiscipline(states: seq<State>, acts: seq<Action>, t: nat, i: nat)
    requires Run(states, acts) && t < |states|
    requires i < |states[t].sh.wire| && states[t].sh.wire[i].Cancel?
    ensures var s := states[t]; var wire := s.sh.wire; var Cancel(x, w) := wire[i];
      && ((exists r :: 0 <= r < i && wire[r] == Request(x)) <==> !Abandoned(s, x))
      && (Abandoned(s, x) ==> Request(x) !in wire && w != x)
      && (forall j | 0 <= j < |wire| && j != i && wire[j].Cancel? :: wire[j].id != x)
      && x in s.sh.channels && s.sh.channels[x] == Closed(Canceller(w))
      && (w != x ==> SameKey(s, w, x) && forall r | 0 <= r <= i :: wire[r] != Request(w))
  {
    RunInv(states, acts, t);
    var s := states[t];
    assert CancelAt(s, i);
    forall j | 0 <= j < |s.sh.wire| && j != i && s.sh.wire[j].Cancel? ensures s.sh.wire[j].id != s.sh.wire[i].id {
      assert CancelAt(s, j);
    }
    var x, w := s.sh.wire[i].id, s.sh.wire[i].sender;
    if Abandoned(s, x) {
      AbandonedUnsent(s, x);
      if w == x { NotByItself(states, acts, x, t); }
    } else {
      var r :| 0 <= r < i && s.sh.wire[..i][r] == Request(x);
      assert s.sh.wire[r] == Request(x);
    }
    if w != x {
      forall q | 0 <= q < i ensures s.sh.wire[q] != Request(w) {
        assert s.sh.wire[..i][q] == s.sh.wire[q];
      }
    }
  }

  /** Who took `x` out of `pending` to cancel it. */
  ghost predicate TookOut(states: seq<State>, acts: seq<Action>, w: nat, x: nat, j: nat, t: nat) {
    && |states| == |acts| + 1 && j < t <= |acts| && acts[j].Own? && acts[j].id == w && w in states[j].calls
    && x in states[j].sh.pending
    && (states[j].calls[w].pc == TakePrevious(x) || (w == x && states[j].calls[w].pc == TimedOut))
  }

  lemma PerformCloses(s: State, id: nat, e: Effect, x: nat, w: nat)
    requires x in Perform(s, id, e).sh.channels && Perform(s, id, e).sh.channels[x] == Closed(Canceller(w))
    ensures (x in s.sh.channels && s.sh.channels[x] == Closed(Canceller(w)))
            || (e == Settle(x, Closed(Canceller(w))) && x in s.sh.pending)
  {
  }

  lemma PlanCloses(s: State, id: nat, ok: bool)
    requires Enabled(s, Own(id, ok))
    ensures var e, pc := Plan(s, id, ok).0, s.calls[id].pc;
      e.Settle? && e.channel.Closed? && e.channel.who.Canceller? ==>
        e.channel.who.call == id && (pc == TakePrevious(e.target) || (pc == TimedOut && e.target == id))
  {
  }

  lemma ClosingStep(s: State, a: Action, x: nat, w: nat)
    requires Enabled(s, a) && x in Apply(s, a).sh.channels && Apply(s, a).sh.channels[x] == Closed(Canceller(w))
    ensures (x in s.sh.channels && s.sh.channels[x] == Closed(Canceller(w)))
            || (a.Own? && a.id == w && w in s.calls && x in s.sh.pending
                && (s.calls[w].pc == TakePrevious(x) || (w == x && s.calls[w].pc == TimedOut)))
  {
    hide Plan, Perform;
    if a.Own? {
      PlanCloses(s, a.id, a.ok);
      PerformCloses(s, a.id, Plan(s, a.id, a.ok).0, x, w);
    }
  }

  /** A cancelled id was still in `pending` when its canceller, having taken over
      its key or timed out itself, took it out. */
  lemma {:induction false} CancelledWhilePending(states: seq<State>, acts: seq<Action>, x: nat, w: nat, t: nat)
    requires Run(states, acts) && t < |states|
    requires x in states[t].sh.channels && states[t].sh.channels[x] == Closed(Canceller(w))
    ensures exists j: nat :: TookOut(states, acts, w, x, j, t)
    decreases t
  {
    RunSize(states, acts);
    if t > 0 {
      RunStep(states, acts, t - 1);
      hide Run, Enabled, Apply;
      ClosingStep(states[t - 1], acts[t - 1], x, w);
      if x in states[t - 1].sh.channels && states[t - 1].sh.channels[x] == Closed(Canceller(w)) {
        CancelledWhilePending(states, acts, x, w, t - 1);
        var j: nat :| TookOut(states, acts, w, x, j, t - 1);
        assert TookOut(states, acts, w, x, j, t);
      } else {
        assert TookOut(states, acts, w, x, t - 1, t);
      }
    }
  }

  lemma NotByItself(states: seq<State>, acts: seq<Action>, x: nat, t: nat)
    requires Run(states, acts) && t < |states| && Abandoned(states[t], x)
    requires x in states[t].sh.channels
    ensures states[t].sh.channels[x] != Closed(Canceller(x))
  {
    RunSize(states, acts);
    if states[t].sh.channels[x] == Closed(Canceller(x)) {
      RunInv(states, acts, t);
      AbandonedUnsent(states[t], x);
      CancelledWhilePending(states, acts, x, x, t);
      var j: nat :| TookOut(states, acts, x, x, j, t);
      RunInv(states, acts, j);
      assert Request(x) in states[j].sh.wire by { TimedOutSent(states[j], x); }
      RequestStays(states, acts, x, j, t);
    }
  }

  lemma TimedOutSent(s: State, x: nat)
    requires Inv(s) && x in s.calls && (s.calls[x].pc == TakePrevious(x) || s.calls[x].pc == TimedOut)
    ensures Request(x) in s.sh.wire
  {
    assert CallBooks(s, x);
  }

  lemma PerformWire(s: State, id: nat, e: Effect)
    ensures s.sh.wire <= Perform(s, id, e).sh.wire
  {
  }

  lemma WireStep(s: State, a: Action)
    requires Enabled(s, a)
    ensures s.sh.wire <= Apply(s, a).sh.wire
  {
    hide Plan, Perform;
    if a.Own? {
      PerformWire(s, a.id, Plan(s, a.id, a.ok).0);
    }
  }

  lemma {:induction false} RequestStays(states: seq<State>, acts: seq<Action>, x: nat, j: nat, t: nat)
    requires Run(states, acts) && j <= t < |states| && Request(x) in states[j].sh.wire
    ensures Request(x) in states[t].sh.wire
    decreases t
  {
    RunSize(states, acts);
    if j < t {
      RequestStays(states, acts, x, j, t - 1);
      RunStep(states, acts, t - 1);
      hide Run, Enabled, Apply;
      WireStep(states[t - 1], acts[t - 1]);
    }
  }

  // The steps of one call, one by one.

  lemma StepJoin(s: State, id: nat)
    requires id in s.calls && s.calls[id].pc == Created
    ensures Enabled(s, Own(id, true)) && Apply(s, Own(id, true)) == s.(sh := s.sh.AddPending(id)).At(id, Registered)
  {
  }

  lemma StepTakeKey(s: State, id: nat, key: string, seqNo: nat)
    requires id in s.calls && s.calls[id] == Call(Latest(key, seqNo), Registered)
    requires s.lock == None && !s.sh.Outranked(key, seqNo)
    ensures Enabled(s, Own(id, true))
    ensures Apply(s, Own(id, true))
            == s.(sh := s.sh.(latest := s.sh.latest[key := (seqNo, id)]), lock := Some(id))
                .At(id, if key in s.sh.latest then TakePrevious(s.sh.latest[key].1) else CheckSend)
  {
  }

  lemma StepTakePrevious(s: State, w: nat, x: nat)
    requires w in s.calls && s.calls[w].pc == TakePrevious(x)
    ensures Enabled(s, Own(w, true))
    ensures Apply(s, Own(w, true))
            == s.(sh := s.sh.Take(x, Closed(Canceller(w)))).At(w, if x in s.sh.pending then CheckCancel(x) else CheckSend)
  {
  }

  lemma StepCheckCancel(s: State, w: nat, x: nat)
    requires w in s.calls && s.calls[w].pc == CheckCancel(x) && w != x
    ensures Enabled(s, Own(w, true))
    ensures Apply(s, Own(w, true)) == s.At(w, if s.sh.alive then WriteCancel(x) else CheckSend)
  {
  }

  lemma StepWriteCancel(s: State, w: nat, x: nat)
    requires w in s.calls && s.calls[w].pc == WriteCancel(x) && w != x
    ensures Enabled(s, Own(w, true))
    ensures Apply(s, Own(w, true)) == s.(sh := s.sh.Write(Cancel(x, w))).At(w, CheckSend)
  {
  }

  lemma StepCheckSend(s: State, id: nat)
    requires id in s.calls && s.calls[id].pc == CheckSend
    ensures Enabled(s, Own(id, true))
    ensures Apply(s, Own(id, true)) == s.At(id, if s.sh.alive then WriteSend else UndoKey)
  {
  }

  lemma StepPlain(s: State, id: nat)
    requires id in s.calls && s.calls[id].purpose == Plain
    ensures s.calls[id].pc == Registered ==>
              Enabled(s, Own(id, true)) && Apply(s, Own(id, true)) == s.At(id, CheckSend)
    ensures s.calls[id].pc == WriteSend ==>
              Enabled(s, Own(id, true)) && Apply(s, Own(id, true)) == s.(sh := s.sh.Write(Request(id))).At(id, Waiting)
  {
  }

  lemma StepDrop(s: State, id: nat)
    requires id in s.calls && !Ended(s.calls[id].pc)
    ensures Enabled(s, Drop(id))
    ensures Apply(s, Drop(id))
            == s.At(id, PC.Dropped(s.calls[id].pc)).(lock := if s.lock == Some(id) then None else s.lock)
  {
  }

  lemma StepTakeId(s: State, purpose: Purpose)
    requires !purpose.Execute?
    ensures Enabled(s, TakeId(purpose))
    ensures Apply(s, TakeId(purpose))
            == s.(sh := s.sh.(nextId := s.sh.nextId + 1), calls := s.calls[s.sh.nextId := Call(purpose, Created)])
  {
  }

  /** When a call's key is taken over, abandoned or not, the replacement cancels
      it exactly if it is still in `pending` and the client is alive. */
  lemma TakeoverCancels(s: State, w: nat, x: nat)
    requires Inv(s) && w in s.calls && s.calls[w].pc == TakePrevious(x)
    ensures Enabled(s, Own(w, true))
    ensures var s1 := Apply(s, Own(w, true));
      && Enabled(s1, Own(w, true))
      && var s2 := Apply(s1, Own(w, true));
      && (if x in s.sh.pending && s.sh.alive then
            Enabled(s2, Own(w, true)) && Apply(s2, Own(w, true)).sh.wire == s.sh.wire + [Cancel(x, w)]
          else s2.sh.wire == s.sh.wire && w in s2.calls && !s2.calls[w].pc.WriteCancel?)
  {
    assert w != x by { assert CallBooks(s, w); }
    hide Inv, Abandoned, Enabled, Apply;
    StepTakePrevious(s, w, x);
    var s1 := Apply(s, Own(w, true));
    if x in s.sh.pending {
      StepCheckCancel(s1, w, x);
      if s.sh.alive {
        StepWriteCancel(Apply(s1, Own(w, true)), w, x);
      }
    } else {
      StepCheckSend(s1, w);
    }
  }

  // ---- two calls that were dropped ----

  /** A run so far, and where it has got to. */
  ghost predicate Reaches(states: seq<State>, acts: seq<Action>, s: State) {
    |states| == |acts| + 1 && Run(states, acts) && states[|acts|] == s
  }

  lemma Onward(states: seq<State>, acts: seq<Action>, s: State, a: Action, s': State)
      returns (states': seq<State>, acts': seq<Action>)
    requires Reaches(states, acts, s) && Enabled(s, a) && s' == Apply(s, a)
    ensures Reaches(states', acts', s')
  {
    RunGrows(states, acts, a);
    states', acts' := states + [s'], acts + [a];
  }

  /** Completion 1 is dropped while it waits for the transport, holding its key;
      completion 2 takes the key over, and the server is told to cancel a request
      it was never sent. */
  lemma CancelWithoutRequest() returns (states: seq<State>, acts: seq<Action>, s: State)
    ensures Reaches(states, acts, s) && s.sh.wire == [Cancel(1, 2)] && Abandoned(s, 1)
  {
    hide Reaches, Enabled, Apply;
    states, acts, s := TakenOver("completion:u");
    states, acts, s := CancelledBy(states, acts, s, 2, 1);
  }

  /** The three steps that cancel the previous holder of a key. */
  lemma CancelledBy(states: seq<State>, acts: seq<Action>, s: State, w: nat, x: nat)
      returns (states': seq<State>, acts': seq<Action>, s': State)
    requires Reaches(states, acts, s) && w in s.calls && s.calls[w].pc == TakePrevious(x) && w != x
    requires x in s.sh.pending && s.sh.alive
    ensures Reaches(states', acts', s')
    ensures s'.sh.wire == s.sh.wire + [Cancel(x, w)]
    ensures x in s.calls ==> x in s'.calls && s'.calls[x] == s.calls[x]
  {
    hide Reaches, Enabled, Apply, Abandoned;
    StepTakePrevious(s, w, x);
    var s1 := Apply(s, Own(w, true));
    states', acts' := Onward(states, acts, s, Own(w, true), s1);
    StepCheckCancel(s1, w, x);
    var s2 := Apply(s1, Own(w, true));
    states', acts' := Onward(states', acts', s1, Own(w, true), s2);
    StepWriteCancel(s2, w, x);
    s' := Apply(s2, Own(w, true));
    states', acts' := Onward(states', acts', s2, Own(w, true), s');
  }

  /** Call 2 has just taken the key over from call 1, dropped before it wrote. */
  lemma TakenOver(key: string) returns (states: seq<State>, acts: seq<Action>, s: State)
    ensures Reaches(states, acts, s) && s.sh.alive && s.sh.wire == [] && s.sh.pending == {1, 2}
    ensures 1 in s.calls && s.calls[1] == Call(Latest(key, 5), PC.Dropped(CheckSend))
    ensures 2 in s.calls && s.calls[2].pc == TakePrevious(1)
  {
    hide Reaches, Enabled, Apply;
    states, acts, s := ReadyToSend(key);
    StepDrop(s, 1);
    var s1 := Apply(s, Drop(1));
    states, acts := Onward(states, acts, s, Drop(1), s1);
    s := s1;
    states, acts, s := JoinedAs(states, acts, s, Latest(key, 6));
    StepTakeKey(s, 2, key, 6);
    s1 := Apply(s, Own(2, true));
    states, acts := Onward(states, acts, s, Own(2, true), s1);
    s := s1;
  }

  /** A new call takes an id and enters `pending`. */
  lemma JoinedAs(states: seq<State>, acts: seq<Action>, s: State, purpose: Purpose)
      returns (states': seq<State>, acts': seq<Action>, s': State)
    requires Reaches(states, acts, s) && !purpose.Execute?
    ensures Reaches(states', acts', s')
    ensures s' == s.(sh := s.sh.(nextId := s.sh.nextId + 1).AddPending(s.sh.nextId),
                     calls := s.calls[s.sh.nextId := Call(purpose, Registered)])
  {
    hide Reaches, Enabled, Apply;
    var id := s.sh.nextId;
    StepTakeId(s, purpose);
    var s1 := Apply(s, TakeId(purpose));
    states', acts' := Onward(states, acts, s, TakeId(purpose), s1);
    StepJoin(s1, id);
    s' := Apply(s1, Own(id, true));
    states', acts' := Onward(states', acts', s1, Own(id, true), s');
    assert s'.calls == s.calls[id := Call(purpose, Registered)];
  }

  lemma Beginning() returns (states: seq<State>, acts: seq<Action>)
    ensures Reaches(states, acts, START)
  {
    states, acts := [START], [];
  }

  /** A latest-wins call that has taken its key and is about to write. */
  lemma ReadyToSend(key: string) returns (states: seq<State>, acts: seq<Action>, s: State)
    ensures Reaches(states, acts, s)
    ensures s.calls == map[1 := Call(Latest(key, 5), CheckSend)] && s.lock == Some(1) && s.sh.alive && s.sh.wire == []
    ensures s.sh.nextId == 2 && s.sh.pending == {1} && s.sh.latest == map[key := (5, 1)]
  {
    hide Reaches, Enabled, Apply;
    states, acts := Beginning();
    states, acts, s := JoinedAs(states, acts, START, Latest(key, 5));
    StepTakeKey(s, 1, key, 5);
    var s1 := Apply(s, Own(1, true));
    states, acts := Onward(states, acts, s, Own(1, true), s1);
    s := s1;
  }

  /** A caller gives up on its call before the call times out: the id stays in
      `pending`, and nothing is cancelled. */
  lemma DroppedStaysPending() returns (states: seq<State>, acts: seq<Action>, s: State)
    ensures Reaches(states, acts, s) && 1 in s.calls && Ended(s.calls[1].pc)
    ensures 1 in s.sh.pending && s.sh.wire == [Request(1)]
  {
    hide Reaches, Enabled, Apply;
    states, acts := Beginning();
    states, acts, s := JoinedAs(states, acts, START, Plain);
    StepPlain(s, 1);
    var s1 := Apply(s, Own(1, true));
    states, acts := Onward(states, acts, s, Own(1, true), s1);
    StepCheckSend(s1, 1);
    var s2 := Apply(s1, Own(1, true));
    states, acts := Onward(states, acts, s1, Own(1, true), s2);
    StepPlain(s2, 1);
    var s3 := Apply(s2, Own(1, true));
    states, acts := Onward(states, acts, s2, Own(1, true), s3);
    StepDrop(s3, 1);
    s := Apply(s3, Drop(1));
    states, acts := Onward(states, acts, s3, Drop(1), s);
  }

  predicate WasAnswered(s: State, x: nat) { x in s.sh.channels && s.sh.channels[x].Answered? }

  lemma AnsweredStep(s: State, a: Action, x: nat)
    requires Books(s) && Keys(s) && Enabled(s, a) && WasAnswered(s, x)
    ensures WasAnswered(Apply(s, a), x)
  {
    PendingOpen(s);
    hide CallBooks, Keys, Plan, Perform, Sound;
    if a.Own? {
      PlanSound(s, a.id, a.ok);
      PerformAnswered(s, a.id, Plan(s, a.id, a.ok).0, x);
    } else {
      hide OwnStep;
    }
  }

  lemma PerformAnswered(s: State, id: nat, e: Effect, x: nat)
    requires Sound(s, id, e) && WasAnswered(s, x) && x !in s.sh.pending
    ensures WasAnswered(Perform(s, id, e), x)
  {
  }

  lemma {:induction false} AnsweredStays(states: seq<State>, acts: seq<Action>, x: nat, i: nat, t: nat)
    requires Run(states, acts) && i <= t < |states| && WasAnswered(states[i], x)
    ensures WasAnswered(states[t], x)
    decreases t
  {
    RunSize(states, acts);
    hide *;
    if i < t {
      AnsweredStays(states, acts, x, i, t - 1);
      RunBooks(states, acts, t - 1);
      RunStep(states, acts, t - 1);
      AnsweredStep(states[t - 1], acts[t - 1], x);
    }
  }

  /** A request whose response was dispatched is never cancelled. */
  lemma AnsweredNeverCancelled(states: seq<State>, acts: seq<Action>, x: nat, i: nat, t: nat)
    requires Run(states, acts) && i < t < |states|
    requires acts[i] == Respond(x) && x in states[i].sh.pending
    ensures forall w :: Cancel(x, w) !in states[t].sh.wire
  {
    RunInv(states, acts, i);
    RunStep(states, acts, i);
    AnsweredStays(states, acts, x, i + 1, t);
    forall w ensures Cancel(x, w) !in states[t].sh.wire {
      forall p | 0 <= p < |states[t].sh.wire| ensures states[t].sh.wire[p] != Cancel(x, w) {
        if states[t].sh.wire[p].Cancel? { CancelDiscipline(states, acts, t, p); }
      }
    }
  }

  // ---- disconnecting and returning ----

  /** After a disconnect has emptied `pending`, whatever is in it belongs to a
      call that has yet to find the client dead, or was dropped before it could;
      every other caller can go on. */
  lemma NoStrandedCaller(states: seq<State>, acts: seq<Action>, t: nat)
    requires Run(states, acts) && t < |states| && states[t].emptied
    ensures !states[t].sh.alive
    ensures forall id <- states[t].sh.pending :: id in states[t].calls && Doomed(Place(states[t].calls[id].pc), id)
    ensures forall id <- states[t].calls, ok | states[t].calls[id].pc.Waiting? :: Enabled(states[t], Own(id, ok))
  {
    RunInv(states, acts, t);
    var s := states[t];
    forall id | id in s.sh.pending ensures Doomed(Place(s.calls[id].pc), id) {
      assert CallBooks(s, id);
    }
    forall id, ok | id in s.calls && s.calls[id].pc.Waiting? ensures Enabled(s, Own(id, ok)) {
      assert CallBooks(s, id);
    }
  }

  /** Dead client, request unsent: failing, or failed. */
  predicate WillFail(s: State, id: nat) {
    && !s.sh.alive && id in s.calls
    && (Doomed(Place(s.calls[id].pc), id) || s.calls[id].pc == Done(Nothing) || s.calls[id].pc == Done(Error))
    && Request(id) !in s.sh.wire
  }

  lemma WillFailStep(s: State, a: Action, id: nat)
    requires Books(s) && Keys(s) && Enabled(s, a) && WillFail(s, id)
    ensures WillFail(Apply(s, a), id)
  {
    hide CallBooks, Keys, Plan, Perform, Doomed;
    if a.Own? && a.id == id {
      OwnFailStep(s, id, a.ok);
    } else if a.Own? {
      PlanSends(s, a.id, a.ok);
      PerformUnsent(s, a.id, Plan(s, a.id, a.ok).0, id);
    } else {
      OutsideFailStep(s, a, id);
    }
  }

  lemma OutsideFailStep(s: State, a: Action, id: nat)
    requires Books(s) && Enabled(s, a) && WillFail(s, id) && !a.Own?
    ensures WillFail(Apply(s, a), id)
  {
    hide CallBooks;
  }

  lemma PerformUnsent(s: State, b: nat, e: Effect, id: nat)
    requires !s.sh.alive && Request(id) !in s.sh.wire && Sent(e) != Some(Request(id))
    ensures var s' := Perform(s, b, e); s'.calls == s.calls && !s'.sh.alive && Request(id) !in s'.sh.wire
  {
  }

  lemma FailPlan(s: State, id: nat, ok: bool)
    requires Enabled(s, Own(id, ok)) && WillFail(s, id) && CallBooks(s, id)
    ensures var (e, pc') := Plan(s, id, ok);
      && (Doomed(Place(pc'), id) || pc' == Done(Nothing) || pc' == Done(Error))
      && Sent(e) != Some(Request(id))
  {
  }

  lemma OwnFailStep(s: State, id: nat, ok: bool)
    requires Books(s) && Enabled(s, Own(id, ok)) && WillFail(s, id)
    ensures WillFail(OwnStep(s, id, ok), id)
  {
    hide Plan, Perform, Doomed, CallBooks;
    assert CallBooks(s, id);
    FailPlan(s, id, ok);
    PerformUnsent(s, id, Plan(s, id, ok).0, id);
  }

  /** Such a call never writes its request and never delivers. */
  lemma {:induction false} DoomedFails(states: seq<State>, acts: seq<Action>, id: nat, i: nat, t: nat)
    requires Run(states, acts) && i <= t < |states|
    requires !states[i].sh.alive && id in states[i].calls && Doomed(states[i].calls[id].pc, id)
    ensures WillFail(states[t], id)
    decreases t
  {
    if i == t {
      RunInv(states, acts, t);
      assert CallBooks(states[t], id);
    } else {
      DoomedFails(states, acts, id, i, t - 1);
      RunInv(states, acts, t - 1);
      RunStep(states, acts, t - 1);
      hide Apply, Enabled, WillFail, Books, Keys;
      WillFailStep(states[t - 1], acts[t - 1], id);
    }
  }

  /** The holder of the key lock waits neither for that lock nor for a response:
      its next step can be taken, once the transport lets it. */
  lemma HolderMoves(states: seq<State>, acts: seq<Action>, t: nat, ok: bool)
    requires Run(states, acts) && t < |states| && states[t].lock.Some?
    ensures states[t].lock.value in states[t].calls && Enabled(states[t], Own(states[t].lock.value, ok))
  {
    RunInv(states, acts, t);
    assert CallBooks(states[t], states[t].lock.value);
  }

  /** After a disconnect, once no call can take a step, every call has returned
      or was dropped. */
  lemma QuietMeansReturned(states: seq<State>, acts: seq<Action>, t: nat)
    requires Run(states, acts) && t < |states| && states[t].emptied
    requires forall id, ok :: !Enabled(states[t], Own(id, ok))
    ensures forall id <- states[t].calls :: Ended(states[t].calls[id].pc)
  {
    var s := states[t];
    NoStrandedCaller(states, acts, t);
    if s.lock.Some? {
      HolderMoves(states, acts, t, true);
    }
    forall id | id in s.calls ensures Ended(s.calls[id].pc) {
      assert !Enabled(s, Own(id, true));
    }
  }

  const LONGEST_CALL: nat := 18

  /** How many own steps a call in this position has left at most. */
  function StepsLeft(pc: PC, id: nat): (n: nat)
    ensures n <= LONGEST_CALL && (n == 0 <==> Ended(pc))
  {
    match pc
    case Done(_) => 0
    case Dropped(_) => 0
    case Superseded => 1
    case Unregister => 1
    case UndoKey => 2
    case Clearing(_) => 1
    case Lost => 2
    case Retiring(back) => if back == ToSend then 11 else if back == ToFail then 3 else 2
    case Emptying(back) => if back == ToSend then 12 else if back == ToFail then 4 else 3
    case StoreDead(back) => if back == ToSend then 13 else if back == ToFail then 5 else 4
    case WriteCancel(target) => if target == id then 5 else 14
    case CheckCancel(target) => if target == id then 6 else 15
    case TimedOut => 7
    case Waiting => 8
    case WriteSend => 9
    case CheckSend => 10
    case TakePrevious(_) => 16
    case Registered => 17
    case Created => 18
  }

  lemma PlanProgresses(s: State, id: nat, ok: bool)
    requires Enabled(s, Own(id, ok)) && (s.calls[id].pc.TakePrevious? ==> s.calls[id].pc.prior != id)
    ensures StepsLeft(Plan(s, id, ok).1, id) < StepsLeft(s.calls[id].pc, id)
  {
  }

  /** No step of anyone lengthens a call, and its own steps shorten it. */
  lemma StepsLeftStep(s: State, a: Action, id: nat)
    requires Books(s) && Enabled(s, a) && id in s.calls
    ensures id in Apply(s, a).calls
    ensures StepsLeft(Apply(s, a).calls[id].pc, id) + (if a.Own? && a.id == id then 1 else 0)
            <= StepsLeft(s.calls[id].pc, id)
  {
    assert CallBooks(s, id);
    hide CallBooks, Plan, Perform, StepsLeft;
    DroppedNoSteps(s.calls[id].pc, id);
    if a.Own? {
      PerformCalls(s, a.id, Plan(s, a.id, a.ok).0);
      if a.id == id {
        if s.calls[id].pc.TakePrevious? { TakesAnother(s, id); }
        PlanProgresses(s, id, a.ok);
      }
    } else if a == TimeOut(id) {
      TimingOutShortens(id);
    }
  }

  lemma TakesAnother(s: State, id: nat)
    requires Books(s) && id in s.calls && s.calls[id].pc.TakePrevious?
    ensures s.calls[id].pc.prior != id
  {
    assert CallBooks(s, id);
  }

  lemma DroppedNoSteps(pc: PC, id: nat)
    ensures StepsLeft(PC.Dropped(pc), id) == 0
  {
  }

  lemma TimingOutShortens(id: nat)
    ensures StepsLeft(TimedOut, id) <= StepsLeft(Waiting, id)
  {
  }

  /** The own steps of a call among the actions from `i` to `t`. */
  function OwnSteps(acts: seq<Action>, id: nat, i: nat, t: nat): nat
    requires i <= t <= |acts|
    decreases t
  {
    if i == t then 0
    else OwnSteps(acts, id, i, t - 1) + if acts[t - 1].Own? && acts[t - 1].id == id then 1 else 0
  }

  /** Every call has returned after at most 18 steps of its own, whatever the
      server, the other calls and a disconnect do in between. */
  lemma {:induction false} ReturnsWithin(states: seq<State>, acts: seq<Action>, id: nat, i: nat, t: nat)
    requires |states| == |acts| + 1 && Run(states, acts) && i <= t <= |acts| && id in states[i].calls
    ensures id in states[t].calls
    ensures OwnSteps(acts, id, i, t) + StepsLeft(states[t].calls[id].pc, id) <= StepsLeft(states[i].calls[id].pc, id)
    ensures OwnSteps(acts, id, i, t) == LONGEST_CALL ==> Ended(states[t].calls[id].pc)
    decreases t
  {
    if i < t {
      ReturnsWithin(states, acts, id, i, t - 1);
      RunInv(states, acts, t - 1);
      RunStep(states, acts, t - 1);
      hide Apply, Enabled, Books, Keys, StepsLeft;
      StepsLeftStep(states[t - 1], acts[t - 1], id);
    }
  }

  /** A call that returned left nothing behind: not in `pending`, under no key,
      and without the lock. */
  lemma ReturnedLeavesNothing(states: seq<State>, acts: seq<Action>, t: nat, id: nat)
    requires Run(states, acts) && t < |states| && id in states[t].calls && states[t].calls[id].pc.Done?
    ensures id !in states[t].sh.pending && states[t].lock != Some(id)
    ensures forall k :: !states[t].sh.PointsAt(k, id)
  {
    RunInv(states, acts, t);
    assert CallBooks(states[t], id);
  }

  /** Dropped at step `j` while in `pending`, and there ever since. */
  ghost predicate LeftBehind(states: seq<State>, acts: seq<Action>, id: nat, j: nat, t: nat) {
    && |states| == |acts| + 1 && j < t <= |acts| && acts[j] == Drop(id)
    && forall m | j <= m <= t :: id in states[m].sh.pending
  }

  lemma PerformPending(s: State, b: nat, e: Effect, id: nat)
    requires b != id
    ensures id in Perform(s, b, e).sh.pending ==> id in s.sh.pending
    ensures id in s.sh.pending && id !in Perform(s, b, e).sh.pending ==> e.EmptyOut? || (e.Settle? && e.target == id)
  {
  }

  lemma PlanSettles(s: State, b: nat, ok: bool)
    requires Enabled(s, Own(b, ok))
    ensures var e, pc := Plan(s, b, ok).0, s.calls[b].pc;
      && (e.EmptyOut? ==> pc.Emptying?)
      && (e.Settle? ==> e.target == b || pc == TakePrevious(e.target))
  {
  }

  lemma DroppedPending(s: State, a: Action, id: nat)
    requires Enabled(s, a) && id in s.calls && s.calls[id].pc.Dropped? && id in Apply(s, a).sh.pending
    ensures id in s.sh.pending
  {
    hide Plan, Perform;
    if a.Own? {
      PerformPending(s, a.id, Plan(s, a.id, a.ok).0, id);
    }
  }

  /** A call that has ended is still in `pending` exactly when it was dropped
      there and nothing has taken it out since. */
  lemma EndedInPending(states: seq<State>, acts: seq<Action>, t: nat, id: nat)
    requires |states| == |acts| + 1 && Run(states, acts) && t < |states|
    requires id in states[t].calls && Ended(states[t].calls[id].pc)
    ensures id in states[t].sh.pending <==> exists j: nat :: LeftBehind(states, acts, id, j, t)
  {
    if id in states[t].sh.pending {
      if states[t].calls[id].pc.Done? { ReturnedLeavesNothing(states, acts, t, id); }
      DroppedThere(states, acts, id, t);
      var j: nat :| DroppedAt(states, acts, id, states[t].calls[id].pc.at, j, t);
      RunStep(states, acts, j);
      PendingThroughout(states, acts, id, j, t);
      assert LeftBehind(states, acts, id, j, t);
    }
  }

  lemma {:induction false} PendingThroughout(states: seq<State>, acts: seq<Action>, id: nat, j: nat, t: nat)
    requires |states| == |acts| + 1 && Run(states, acts) && j < t <= |acts|
    requires acts[j] == Drop(id) && id in states[t].sh.pending
    ensures forall m | j <= m <= t :: id in states[m].sh.pending
    decreases t
  {
    RunStep(states, acts, j);
    RunStep(states, acts, t - 1);
    if j + 1 < t {
      DroppedStays(states, acts, id, j + 1, t - 1);
      hide Run, Enabled, Apply;
      DroppedPending(states[t - 1], acts[t - 1], id);
      PendingThroughout(states, acts, id, j, t - 1);
    }
  }

  /** What may still take it out: a late answer, a disconnect, or the call that
      takes over its key. */
  lemma LeavesPending(s: State, a: Action, id: nat)
    requires Enabled(s, a) && id in s.calls && s.calls[id].pc.Dropped?
    requires id in s.sh.pending && id !in Apply(s, a).sh.pending
    ensures a == Respond(id) || a == Empty
            || (a.Own? && (s.calls[a.id].pc == TakePrevious(id) || s.calls[a.id].pc.Emptying?))
  {
    hide Plan, Perform;
    if a.Own? {
      PlanSettles(s, a.id, a.ok);
      PerformPending(s, a.id, Plan(s, a.id, a.ok).0, id);
    }
  }

  /** And the entry of a dropped call stays until its key is taken over. */
  lemma EntryStays(s: State, a: Action, id: nat, k: string)
    requires Enabled(s, a) && id in s.calls && s.calls[id].pc.Dropped? && s.sh.PointsAt(k, id)
    ensures Apply(s, a).sh.PointsAt(k, id) || exists b: nat :: Registers(s, a, b, k)
  {
    hide Plan, Perform, Registers;
    if a.Own? {
      PlanRegisters(s, a.id, a.ok);
      var e := Plan(s, a.id, a.ok).0;
      if !(e.TakeOver? && e.key == k) {
        PerformEntry(s, a.id, e, id, k);
      }
    }
  }

  lemma PlanRegisters(s: State, b: nat, ok: bool)
    requires Enabled(s, Own(b, ok))
    ensures Plan(s, b, ok).0.TakeOver? ==> Registers(s, Own(b, ok), b, Plan(s, b, ok).0.key)
  {
  }

  lemma PerformEntry(s: State, b: nat, e: Effect, id: nat, k: string)
    requires s.sh.PointsAt(k, id) && b != id && !(e.TakeOver? && e.key == k)
    ensures Perform(s, b, e).sh.PointsAt(k, id)
  {
  }

}
