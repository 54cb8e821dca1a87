/** What becomes of a call: exactly when it delivers, that an undisturbed one
    does, and what failing, timing out and disconnecting do. */
module ClientDelivery {
  import opened Wrappers
  import opened ReplyCache
  import opened ClientProtocol
  import opened ClientSafety
  import opened ClientTheorems

  // ---- what has happened to a call so far ----

  ghost predicate TimedOutBy(acts: seq<Action>, id: nat, t: nat)
    requires t <= |acts|
  {
    exists m | 0 <= m < t :: acts[m] == TimeOut(id)
  }

  ghost predicate RegistersAt(states: seq<State>, acts: seq<Action>, id: nat, key: string, i: nat)
    requires i < |acts| && |states| == |acts| + 1
  {
    Registers(states[i], acts[i], id, key)
  }

  ghost predicate RegisteredBy(states: seq<State>, acts: seq<Action>, id: nat, key: string, t: nat)
    requires t <= |acts| && |states| == |acts| + 1
  {
    exists i: nat | i < t :: RegistersAt(states, acts, id, key, i)
  }

  /** Another call registers for the key while `id` has not ended. */
  ghost predicate TakesFrom(s: State, a: Action, id: nat, key: string) {
    && id in s.calls && !Ended(s.calls[id].pc)
    && a.Own? && a.id != id && Registers(s, a, a.id, key)
  }

  ghost predicate TakesFromAt(states: seq<State>, acts: seq<Action>, id: nat, key: string, m: nat)
    requires m < |acts| && |states| == |acts| + 1
  {
    TakesFrom(states[m], acts[m], id, key)
  }

  /** Between its own registration and its end another call registered. */
  ghost predicate OvertakenBy(states: seq<State>, acts: seq<Action>, id: nat, key: string, t: nat)
    requires t <= |acts| && |states| == |acts| + 1
  {
    exists m: nat | m < t :: TakesFromAt(states, acts, id, key, m) && RegisteredBy(states, acts, id, key, m)
  }

  // ---- and what its state remembers of that ----

  /** It stopped waiting because its time was up. */
  predicate AfterTimeout(pc: PC, id: nat) {
    match pc
    case TimedOut => true
    case CheckCancel(target) => target == id
    case WriteCancel(target) => target == id
    case StoreDead(back) => back == ToClear
    case Emptying(back) => back == ToClear
    case Retiring(back) => back == ToClear
    case Clearing(why) => why == GotTimeout
    case _ => false
  }

  predicate Key(c: Call, key: string) { c.purpose.Latest? && c.purpose.key == key }

  ghost predicate Fated(s: State, id: nat, key: string, timedOut: bool, registered: bool, overtaken: bool)
    requires id in s.calls
  {
    var c := s.calls[id];
    match c.pc
    case Dropped(_) => true
    case Done(outcome) =>
      (outcome == Delivered) == (WasAnswered(s, id) && !timedOut && Request(id) in s.sh.wire && !(Key(c, key) && overtaken))
    case _ =>
      && (timedOut <==> AfterTimeout(c.pc, id))
      && (c.pc == Clearing(GotAnswer) ==> WasAnswered(s, id))
      && (c.pc.Lost? || c.pc == Clearing(GotClosed) ==> !WasAnswered(s, id))
      && (c.pc.Created? || c.pc.Registered? ==> !registered && !overtaken)
      && (Key(c, key) && !Keyless(c.pc) ==> registered && (overtaken <==> !s.sh.PointsAt(key, id)))
  }

  lemma ClearingFate(s: State, id: nat, key: string, timedOut: bool, registered: bool, overtaken: bool, ok: bool)
    requires Enabled(s, Own(id, ok)) && CallBooks(s, id) && Fated(s, id, key, timedOut, registered, overtaken)
    requires s.calls[id].pc.Clearing? && (s.calls[id].purpose.Latest? ==> s.calls[id].purpose.key == key)
    ensures Fated(OwnStep(s, id, ok), id, key, timedOut, registered, overtaken)
  {
  }

  /** What the plan of a call that is not at its last step says of its fate. */
  ghost predicate FateMove(s: State, id: nat, e: Effect, pc': PC)
    requires id in s.calls
  {
    var c := s.calls[id];
    && (AfterTimeout(pc', id) <==> AfterTimeout(c.pc, id))
    && (pc' == Clearing(GotAnswer) ==> WasAnswered(s, id))
    && (pc'.Lost? || pc' == Clearing(GotClosed) ==> !WasAnswered(s, id) && id !in s.sh.pending)
    && !pc'.Created? && (pc'.Registered? ==> c.pc.Created?) && (e.TakeOver? ==> c.pc.Registered?)
    && (c.purpose.Latest? && !Keyless(pc') ==>
          if e.TakeOver? then c.pc.Registered? && e.key == c.purpose.key
          else !Keyless(c.pc) && !e.GiveBack? && !e.GiveUp?)
    && (e.Settle? ==> !e.channel.Answered?) && (e.Join? ==> c.pc.Created?)
  }

  lemma PlanFate(s: State, id: nat, key: string, timedOut: bool, registered: bool, overtaken: bool, ok: bool)
    requires Enabled(s, Own(id, ok)) && CallBooks(s, id) && Fated(s, id, key, timedOut, registered, overtaken)
    requires !Plan(s, id, ok).1.Done?
    ensures FateMove(s, id, Plan(s, id, ok).0, Plan(s, id, ok).1)
  {
  }

  lemma PerformFate(s: State, id: nat, key: string, timedOut: bool, registered: bool, overtaken: bool, e: Effect, pc': PC)
    requires id in s.calls && !Ended(s.calls[id].pc) && CallBooks(s, id) && FateMove(s, id, e, pc') && !Ended(pc')
    requires Fated(s, id, key, timedOut, registered, overtaken)
    ensures Fated(Perform(s, id, e).At(id, pc'), id, key, timedOut,
                  registered || (Key(s.calls[id], key) && e.TakeOver?), overtaken)
  {
    hide AfterTimeout, Keyless, HoldsKey, Unsent, WasSent, Settled, Doomed;
  }

  /** A step of the call itself. */
  lemma OwnFate(s: State, id: nat, key: string, timedOut: bool, registered: bool, overtaken: bool, ok: bool)
    requires Enabled(s, Own(id, ok)) && CallBooks(s, id) && Fated(s, id, key, timedOut, registered, overtaken)
    requires s.calls[id].purpose.Latest? ==> s.calls[id].purpose.key == key
    ensures Fated(OwnStep(s, id, ok), id, key, timedOut,
                  registered || Registers(s, Own(id, ok), id, key), overtaken)
  {
    PlanTakesOver(s, id, ok);
    if s.calls[id].pc.Clearing? {
      ClearingFate(s, id, key, timedOut, registered, overtaken, ok);
    } else if Plan(s, id, ok).1.Done? {
      FailedFate(s, id, key, timedOut, registered, overtaken, ok);
    } else {
      PlanFate(s, id, key, timedOut, registered, overtaken, ok);
      PlanOngoing(s, id, ok);
      hide Plan, Perform, FateMove, Fated, CallBooks, Registers;
      PerformFate(s, id, key, timedOut, registered, overtaken, Plan(s, id, ok).0, Plan(s, id, ok).1);
    }
  }

  lemma PlanOngoing(s: State, id: nat, ok: bool)
    requires Enabled(s, Own(id, ok))
    ensures !Plan(s, id, ok).1.Dropped?
  {
  }

  lemma PlanTakesOver(s: State, id: nat, ok: bool)
    requires Enabled(s, Own(id, ok))
    ensures var e, c := Plan(s, id, ok).0, s.calls[id];
      e.TakeOver? <==> c.purpose.Latest? && Registers(s, Own(id, ok), id, c.purpose.key)
  {
  }

  /** The two ends that no response reaches: it never wrote its request. */
  lemma FailedFate(s: State, id: nat, key: string, timedOut: bool, registered: bool, overtaken: bool, ok: bool)
    requires Enabled(s, Own(id, ok)) && CallBooks(s, id) && Fated(s, id, key, timedOut, registered, overtaken)
    requires Plan(s, id, ok).1.Done? && !s.calls[id].pc.Clearing?
    ensures forall r :: Fated(OwnStep(s, id, ok), id, key, timedOut, r, overtaken)
  {
  }

  // ---- everyone else's steps ----

  /** What Fated reads of the shared state. */
  ghost predicate SameFate(s: State, s': State, id: nat) {
    && (WasAnswered(s', id) <==> WasAnswered(s, id))
    && (Request(id) in s'.sh.wire <==> Request(id) in s.sh.wire)
  }

  lemma BesideFate(s: State, s': State, id: nat, key: string, timedOut: bool, registered: bool, overtaken: bool, takes: bool)
    requires id in s.calls && id in s'.calls && s'.calls[id] == s.calls[id]
    requires Fated(s, id, key, timedOut, registered, overtaken)
    requires s.calls[id].pc.Lost? || s.calls[id].pc.Clearing? || s.calls[id].pc.Done? ==> SameFate(s, s', id)
    requires WasAnswered(s, id) ==> WasAnswered(s', id)
    requires s'.sh.PointsAt(key, id) <==> s.sh.PointsAt(key, id) && !takes
    requires Ended(s.calls[id].pc) ==> !takes
    ensures Fated(s', id, key, timedOut, registered, overtaken || (registered && takes))
  {
    hide AfterTimeout, Keyless, WasAnswered;
  }

  lemma PerformBeside(s: State, b: nat, e: Effect, id: nat, key: string)
    requires b != id && Sound(s, b, e) && (id !in s.sh.pending || !(e.Settle? && e.channel.Answered?))
    requires id in s.sh.pending ==> id in s.sh.channels && s.sh.channels[id].Open?
    ensures var s' := Perform(s, b, e);
      && SameFate(s, s', id)
      && (s'.sh.PointsAt(key, id) <==> s.sh.PointsAt(key, id) && !(e.TakeOver? && e.key == key))
  {
    PerformKeys(s, b, e, id, key);
    PerformAnswers(s, b, e, id);
    hide Perform;
  }

  lemma PerformKeys(s: State, b: nat, e: Effect, id: nat, key: string)
    requires b != id
    ensures Perform(s, b, e).sh.PointsAt(key, id) <==> s.sh.PointsAt(key, id) && !(e.TakeOver? && e.key == key)
  {
  }

  lemma PerformAnswers(s: State, b: nat, e: Effect, id: nat)
    requires b != id && Sound(s, b, e) && (id !in s.sh.pending || !(e.Settle? && e.channel.Answered?))
    requires id in s.sh.pending ==> id in s.sh.channels && s.sh.channels[id].Open?
    ensures SameFate(s, Perform(s, b, e), id)
  {
  }

  lemma PlanNeverAnswers(s: State, id: nat, ok: bool)
    requires Enabled(s, Own(id, ok))
    ensures Plan(s, id, ok).0.Settle? ==> !Plan(s, id, ok).0.channel.Answered?
  {
  }

  lemma OtherFate(s: State, b: nat, ok: bool, id: nat, key: string, timedOut: bool, registered: bool, overtaken: bool)
    requires Inv(s) && Enabled(s, Own(b, ok)) && b != id && id in s.calls
    requires Fated(s, id, key, timedOut, registered, overtaken)
    ensures id in OwnStep(s, b, ok).calls
    ensures Fated(OwnStep(s, b, ok), id, key, timedOut, registered,
                  overtaken || (registered && TakesFrom(s, Own(b, ok), id, key)))
  {
    OtherStep(s, b, ok, id, key);
    hide OwnStep, Inv, Fated, SameFate, TakesFrom, WasAnswered;
    var s' := OwnStep(s, b, ok);
    EndedFate(s, s', id, key, timedOut, registered, overtaken);
    if !Ended(s.calls[id].pc) {
      SameAnswer(s, s', id);
      BesideFate(s, s', id, key, timedOut, registered, overtaken, TakesFrom(s, Own(b, ok), id, key));
    }
  }

  lemma SameAnswer(s: State, s': State, id: nat)
    requires SameFate(s, s', id)
    ensures WasAnswered(s, id) ==> WasAnswered(s', id)
  {
  }

  /** What a step of another call leaves alone. */
  lemma OtherStep(s: State, b: nat, ok: bool, id: nat, key: string)
    requires Inv(s) && Enabled(s, Own(b, ok)) && b != id && id in s.calls
    ensures var s' := OwnStep(s, b, ok);
      && id in s'.calls && s'.calls[id] == s.calls[id] && SameFate(s, s', id)
      && (!Ended(s.calls[id].pc) ==>
            (s'.sh.PointsAt(key, id) <==> s.sh.PointsAt(key, id) && !TakesFrom(s, Own(b, ok), id, key)))
      && (Ended(s.calls[id].pc) ==> !TakesFrom(s, Own(b, ok), id, key))
  {
    var e := Plan(s, b, ok).0;
    PlanTakesOver(s, b, ok);
    PlanNeverAnswers(s, b, ok);
    PlanSound(s, b, ok);
    PendingOpen(s);
    PlanKey(s, b, ok);
    hide Plan, Perform, Inv, SameFate;
    PerformCalls(s, b, e);
    PerformBeside(s, b, e, id, key);
    SameFateAt(s, Perform(s, b, e), b, Plan(s, b, ok).1, id);
  }

  lemma PlanKey(s: State, b: nat, ok: bool)
    requires Enabled(s, Own(b, ok))
    ensures var e := Plan(s, b, ok).0; e.TakeOver? ==> s.calls[b].purpose.Latest? && e.key == s.calls[b].purpose.key
  {
  }

  lemma SameFateAt(s: State, t: State, b: nat, pc: PC, id: nat)
    requires b in t.calls
    ensures SameFate(s, t, id) ==> SameFate(s, t.At(b, pc), id)
  {
  }

  lemma EndedFate(s: State, s': State, id: nat, key: string, timedOut: bool, registered: bool, overtaken: bool)
    requires id in s.calls && Fated(s, id, key, timedOut, registered, overtaken)
    ensures id in s'.calls && s'.calls[id] == s.calls[id] && Ended(s.calls[id].pc) && SameFate(s, s', id) ==>
              Fated(s', id, key, timedOut, registered, overtaken)
  {
  }

  /** What the others do to a call that they neither time out nor drop. */
  lemma OutsideShared(s: State, a: Action, id: nat, key: string)
    requires Enabled(s, a) && !a.Own? && id in s.calls && id < s.sh.nextId && a != TimeOut(id) && a != Drop(id)
    requires id in s.sh.pending <==> id in s.sh.channels && s.sh.channels[id].Open?
    ensures var s' := Apply(s, a);
      && id in s'.calls && s'.calls[id] == s.calls[id]
      && (WasAnswered(s, id) ==> WasAnswered(s', id)) && (id !in s.sh.pending ==> SameFate(s, s', id))
      && (s'.sh.PointsAt(key, id) <==> s.sh.PointsAt(key, id))
  {
    OutsideCalls(s, a, id);
    OutsideAnswers(s, a, id);
    hide Apply;
  }

  lemma OutsideCalls(s: State, a: Action, id: nat)
    requires Enabled(s, a) && !a.Own? && id in s.calls && id < s.sh.nextId && a != TimeOut(id) && a != Drop(id)
    ensures var s' := Apply(s, a);
      id in s'.calls && s'.calls[id] == s.calls[id] && s'.sh.latest == s.sh.latest
  {
  }

  lemma OutsideAnswers(s: State, a: Action, id: nat)
    requires Enabled(s, a) && !a.Own?
    requires id in s.sh.pending <==> id in s.sh.channels && s.sh.channels[id].Open?
    ensures var s' := Apply(s, a);
      (WasAnswered(s, id) ==> WasAnswered(s', id)) && (id !in s.sh.pending ==> SameFate(s, s', id))
  {
  }

  lemma OutsideFate(s: State, a: Action, id: nat, key: string, timedOut: bool, registered: bool, overtaken: bool)
    requires Inv(s) && Enabled(s, a) && !a.Own? && id in s.calls
    requires Fated(s, id, key, timedOut, registered, overtaken)
    ensures id in Apply(s, a).calls
    ensures Fated(Apply(s, a), id, key, timedOut || a == TimeOut(id), registered, overtaken)
  {
    assert CallBooks(s, id) && id < s.sh.nextId;
    if a == TimeOut(id) {
      hide Inv, Apply, CallBooks, Fated;
      TimeOutFate(s, id, key, timedOut, registered, overtaken);
    } else if a == Drop(id) {
      hide Inv, CallBooks, Fated;
      DroppedFate(Apply(s, a), id, key, timedOut, registered, overtaken);
    } else {
      OutsideShared(s, a, id, key);
      NotPending(s, id);
      hide Inv, Apply, Enabled, CallBooks, Fated;
      EndedFate(s, Apply(s, a), id, key, timedOut, registered, overtaken);
      if !s.calls[id].pc.Dropped? {
        BesideFate(s, Apply(s, a), id, key, timedOut, registered, overtaken, false);
      } else {
        DroppedFate(Apply(s, a), id, key, timedOut, registered, overtaken);
      }
    }
  }

  lemma TimeOutFate(s: State, id: nat, key: string, timedOut: bool, registered: bool, overtaken: bool)
    requires Enabled(s, TimeOut(id)) && Fated(s, id, key, timedOut, registered, overtaken)
    ensures id in Apply(s, TimeOut(id)).calls
    ensures Fated(Apply(s, TimeOut(id)), id, key, true, registered, overtaken)
  {
  }

  lemma NotPending(s: State, id: nat)
    requires id in s.calls && CallBooks(s, id)
    ensures s.calls[id].pc.Lost? || s.calls[id].pc.Clearing? || s.calls[id].pc.Done? ==> id !in s.sh.pending
  {
    hide HoldsKey;
  }

  lemma DroppedFate(s: State, id: nat, key: string, timedOut: bool, registered: bool, overtaken: bool)
    requires id in s.calls && s.calls[id].pc.Dropped?
    ensures Fated(s, id, key, timedOut, registered, overtaken)
  {
  }

  lemma FateStep(s: State, a: Action, id: nat, key: string, timedOut: bool, registered: bool, overtaken: bool)
    requires Inv(s) && Enabled(s, a) && id in s.calls && Fated(s, id, key, timedOut, registered, overtaken)
    requires s.calls[id].purpose.Latest? ==> s.calls[id].purpose.key == key
    ensures id in Apply(s, a).calls
    ensures Fated(Apply(s, a), id, key, timedOut || a == TimeOut(id), registered || Registers(s, a, id, key),
                  overtaken || (registered && TakesFrom(s, a, id, key)))
  {
    if a.Own? && a.id == id {
      assert CallBooks(s, id);
      hide Inv, Fated, CallBooks, OwnStep, Registers;
      SameCalls(s, id, a.ok);
      OwnFate(s, id, key, timedOut, registered, overtaken, a.ok);
    } else {
      hide Fated, OwnStep, Inv;
      if a.Own? {
        OtherFate(s, a.id, a.ok, id, key, timedOut, registered, overtaken);
      } else {
        OutsideFate(s, a, id, key, timedOut, registered, overtaken);
      }
    }
  }

  // ---- over runs ----

  lemma CallStays(s: State, a: Action, id: nat)
    requires Enabled(s, a) && id in s.calls && (a.TakeId? ==> id != s.sh.nextId)
    ensures id in Apply(s, a).calls && Apply(s, a).calls[id].purpose == s.calls[id].purpose
  {
    if a.Own? {
      PerformCalls(s, a.id, Plan(s, a.id, a.ok).0);
    }
    hide Plan, Perform;
  }

  lemma {:induction false} NotBefore(states: seq<State>, acts: seq<Action>, id: nat, m: nat, t: nat)
    requires Run(states, acts) && m <= t < |states| && id !in states[t].calls
    ensures id !in states[m].calls
    decreases t
  {
    RunSize(states, acts);
    if m < t {
      RunInv(states, acts, t - 1);
      RunStep(states, acts, t - 1);
      if id in states[t - 1].calls {
        assert id < states[t - 1].sh.nextId;
        hide Inv, Run, Enabled, Apply;
        CallStays(states[t - 1], acts[t - 1], id);
      }
      NotBefore(states, acts, id, m, t - 1);
    }
  }

  lemma HistoryStep(states: seq<State>, acts: seq<Action>, id: nat, key: string, t: nat)
    requires |states| == |acts| + 1 && 0 < t <= |acts|
    ensures TimedOutBy(acts, id, t) <==> TimedOutBy(acts, id, t - 1) || acts[t - 1] == TimeOut(id)
    ensures RegisteredBy(states, acts, id, key, t)
            <==> RegisteredBy(states, acts, id, key, t - 1) || Registers(states[t - 1], acts[t - 1], id, key)
    ensures OvertakenBy(states, acts, id, key, t)
            <==> OvertakenBy(states, acts, id, key, t - 1)
                 || (RegisteredBy(states, acts, id, key, t - 1) && TakesFrom(states[t - 1], acts[t - 1], id, key))
  {
    hide Registers, TakesFrom;
    assert RegistersAt(states, acts, id, key, t - 1) <==> Registers(states[t - 1], acts[t - 1], id, key);
    assert TakesFromAt(states, acts, id, key, t - 1) <==> TakesFrom(states[t - 1], acts[t - 1], id, key);
    hide RegistersAt, TakesFromAt;
    hide RegisteredBy;
  }

  lemma NoHistory(states: seq<State>, acts: seq<Action>, id: nat, key: string, t: nat)
    requires |states| == |acts| + 1 && Run(states, acts) && t <= |acts| && id !in states[t].calls
    ensures !TimedOutBy(acts, id, t) && !RegisteredBy(states, acts, id, key, t) && !OvertakenBy(states, acts, id, key, t)
  {
    forall m: nat | m < t
      ensures acts[m] != TimeOut(id) && !RegistersAt(states, acts, id, key, m) && !TakesFromAt(states, acts, id, key, m)
    {
      NotBefore(states, acts, id, m, t);
      RunStep(states, acts, m);
      hide Run, Apply;
    }
    hide RegistersAt, TakesFromAt;
  }

  lemma {:induction false} FatedAlways(states: seq<State>, acts: seq<Action>, id: nat, key: string, t: nat)
    requires |states| == |acts| + 1 && Run(states, acts) && t <= |acts| && id in states[t].calls
    requires states[t].calls[id].purpose.Latest? ==> states[t].calls[id].purpose.key == key
    ensures Fated(states[t], id, key, TimedOutBy(acts, id, t), RegisteredBy(states, acts, id, key, t),
                  OvertakenBy(states, acts, id, key, t))
    decreases t
  {
    if t > 0 {
      var s, a := states[t - 1], acts[t - 1];
      RunInv(states, acts, t - 1);
      RunStep(states, acts, t - 1);
      HistoryStep(states, acts, id, key, t);
      if id in s.calls {
        SamePurpose(s, a, id);
        hide *;
        FatedAlways(states, acts, id, key, t - 1);
        FateStep(s, a, id, key, TimedOutBy(acts, id, t - 1), RegisteredBy(states, acts, id, key, t - 1),
                 OvertakenBy(states, acts, id, key, t - 1));
      } else {
        NoHistory(states, acts, id, key, t - 1);
        JustCreated(s, a, id, key);
        hide *;
      }
    }
  }

  lemma SamePurpose(s: State, a: Action, id: nat)
    requires Inv(s) && Enabled(s, a) && id in s.calls
    ensures id in Apply(s, a).calls && Apply(s, a).calls[id].purpose == s.calls[id].purpose
  {
    assert id < s.sh.nextId;
    hide Inv, Apply;
    CallStays(s, a, id);
  }

  lemma JustCreated(s: State, a: Action, id: nat, key: string)
    requires Enabled(s, a) && id !in s.calls && id in Apply(s, a).calls
    ensures Fated(Apply(s, a), id, key, false, false, false)
    ensures a != TimeOut(id) && !Registers(s, a, id, key) && !TakesFrom(s, a, id, key)
  {
    if a.Own? {
      PerformCalls(s, a.id, Plan(s, a.id, a.ok).0);
    }
    hide Plan, Perform;
  }

  /** A response found the id in `pending`. */
  ghost predicate RespondedBy(states: seq<State>, acts: seq<Action>, id: nat, t: nat)
    requires t <= |acts| && |states| == |acts| + 1
  {
    exists j | 0 <= j < t :: acts[j] == Respond(id) && id in states[j].sh.pending
  }

  lemma AnsweredOnly(s: State, a: Action, id: nat)
    requires Enabled(s, a) && WasAnswered(Apply(s, a), id) && !WasAnswered(s, id)
    ensures a == Respond(id) && id in s.sh.pending
  {
    hide Plan, Perform;
    if a.Own? {
      PlanNeverAnswers(s, a.id, a.ok);
      PerformNeverAnswers(s, a.id, Plan(s, a.id, a.ok).0, id);
    }
  }

  lemma PerformNeverAnswers(s: State, b: nat, e: Effect, id: nat)
    requires !(e.Settle? && e.channel.Answered?) && WasAnswered(Perform(s, b, e), id)
    ensures WasAnswered(s, id)
  {
  }

  lemma {:induction false} AnsweredHistory(states: seq<State>, acts: seq<Action>, id: nat, t: nat)
    requires |states| == |acts| + 1 && Run(states, acts) && t <= |acts|
    ensures WasAnswered(states[t], id) <==> RespondedBy(states, acts, id, t)
    decreases t
  {
    if j :| 0 <= j < t && acts[j] == Respond(id) && id in states[j].sh.pending {
      RunBooks(states, acts, j);
      RunStep(states, acts, j);
      hide Run, Books, Keys, CallBooks;
      AnsweredStays(states, acts, id, j + 1, t);
    } else if t > 0 {
      RunStep(states, acts, t - 1);
      AnsweredHistory(states, acts, id, t - 1);
      hide Run, Apply, Enabled;
      if WasAnswered(states[t], id) && !WasAnswered(states[t - 1], id) {
        AnsweredOnly(states[t - 1], acts[t - 1], id);
      }
    }
  }

  /** A call that returned had delivered if and only if its request was written, a
      response found its id in `pending`, it never timed out, and, if it has a
      key, no other call registered for that key between its own registration and
      its end. */
  lemma DeliversExactly(states: seq<State>, acts: seq<Action>, id: nat, t: nat)
    requires |states| == |acts| + 1 && Run(states, acts) && t <= |acts|
    requires id in states[t].calls && states[t].calls[id].pc.Done?
    ensures states[t].calls[id].pc == Done(Delivered) <==>
      && Request(id) in states[t].sh.wire && RespondedBy(states, acts, id, t) && !TimedOutBy(acts, id, t)
      && (states[t].calls[id].purpose.Latest? ==>
            !OvertakenBy(states, acts, id, states[t].calls[id].purpose.key, t))
  {
    var purpose := states[t].calls[id].purpose;
    FatedAlways(states, acts, id, if purpose.Latest? then purpose.key else "", t);
    AnsweredHistory(states, acts, id, t);
    hide Run, WasAnswered, RespondedBy, TimedOutBy, OvertakenBy, RegisteredBy;
  }

  // ---- one call on its own ----

  /** Only `id` moves, and its writes succeed. */
  ghost predicate Alone(path: seq<State>, id: nat) {
    path != [] && forall i | 0 <= i < |path| - 1 :: AloneAt(path, id, i)
  }

  ghost predicate AloneAt(path: seq<State>, id: nat, i: nat)
    requires i + 1 < |path|
  {
    Enabled(path[i], Own(id, true)) && path[i + 1] == Apply(path[i], Own(id, true))
  }

  lemma Longer(path: seq<State>, id: nat, s': State)
    requires Alone(path, id) && Enabled(path[|path| - 1], Own(id, true))
    requires s' == Apply(path[|path| - 1], Own(id, true))
    ensures Alone(path + [s'], id)
  {
    var more := path + [s'];
    forall i | 0 <= i < |more| - 1 ensures AloneAt(more, id, i) {
      assert i < |path| - 1 ==> AloneAt(path, id, i);
    }
  }

  lemma Moved(path: seq<State>, id: nat) returns (path': seq<State>)
    requires Alone(path, id) && Enabled(path[|path| - 1], Own(id, true))
    ensures Alone(path', id) && path'[0] == path[0]
    ensures path'[|path'| - 1] == Apply(path[|path| - 1], Own(id, true))
  {
    var s' := Apply(path[|path| - 1], Own(id, true));
    Longer(path, id, s');
    path' := path + [s'];
  }

  lemma Still1(s: State, id: nat)
    ensures Alone([s], id)
  {
  }

  lemma StepNoKey(s: State, id: nat)
    requires id in s.calls && s.calls[id].pc == Registered && !s.calls[id].purpose.Latest?
    ensures Enabled(s, Own(id, true)) && Apply(s, Own(id, true)) == s.At(id, CheckSend)
  {
  }

  lemma StepWrite(s: State, id: nat)
    requires id in s.calls && s.calls[id].pc == WriteSend
    requires s.calls[id].purpose.Execute? ==> s.sh.Current(s.calls[id].purpose.command)
    ensures Enabled(s, Own(id, true))
    ensures Apply(s, Own(id, true))
            == s.(sh := s.sh.Write(Request(id)), lock := if s.calls[id].purpose.Latest? then None else s.lock)
                .At(id, Waiting)
  {
  }

  /** From the alive check to the wire. */
  lemma Sends(path: seq<State>, id: nat) returns (path': seq<State>)
    requires Alone(path, id)
    requires var s := path[|path| - 1];
      && id in s.calls && s.calls[id].pc == CheckSend && s.sh.alive
      && (s.calls[id].purpose.Execute? ==> s.sh.Current(s.calls[id].purpose.command))
    ensures Alone(path', id) && path'[0] == path[0]
    ensures var s, e := path[|path| - 1], path'[|path'| - 1];
      && e.sh == s.sh.Write(Request(id)) && id in e.calls && e.calls[id] == Call(s.calls[id].purpose, Waiting)
      && e.lock == if s.calls[id].purpose.Latest? then None else s.lock
  {
    hide Alone, Enabled, Apply, Reaches;
    AloneEnds(path, id);
    var s := path[|path| - 1];
    StepCheckSend(s, id);
    path' := Moved(path, id);
    AloneEnds(path', id);
    StepWrite(path'[|path'| - 1], id);
    path' := Moved(path', id);
    AloneEnds(path', id);
  }

  lemma AloneEnds(path: seq<State>, id: nat)
    requires Alone(path, id)
    ensures path != []
  {
  }

  /** May go first: its key, if any, is not held by a later editor request, and
      its command, if any, is of a reply still open. */
  predicate Timely(s: State, id: nat) {
    && id in s.calls && s.sh.alive && s.lock == None
    && match s.calls[id].purpose
       case Plain => true
       case Latest(key, seqNo) => !(key in s.sh.latest && s.sh.latest[key].0 > seqNo)
       case Execute(command) => s.sh.Current(command)
  }

  /** A timely call without a key writes its request and then waits. */
  lemma PlainCallSends(s: State, id: nat) returns (path: seq<State>)
    requires Timely(s, id) && s.calls[id].pc == Created && !s.calls[id].purpose.Latest?
    ensures Alone(path, id) && path[0] == s
    ensures var e := path[|path| - 1];
      && id in e.calls && e.calls[id] == Call(s.calls[id].purpose, Waiting)
      && e.sh.wire == s.sh.wire + [Request(id)] && e.lock == None
      && id in e.sh.pending && id in e.sh.channels && e.sh.channels[id] == Open
  {
    hide Alone, Enabled, Apply;
    Still1(s, id);
    path := [s];
    StepJoin(s, id);
    path := Moved(path, id);
    AloneEnds(path, id);
    StepNoKey(path[|path| - 1], id);
    path := Moved(path, id);
    AloneEnds(path, id);
    path := Sends(path, id);
    AloneEnds(path, id);
  }

  /** A timely call with a key takes it, cancels the call that held it if that one
      still waits, writes its request and then waits. */
  lemma LatestCallSends(s: State, id: nat) returns (path: seq<State>)
    requires Inv(s) && Timely(s, id) && s.calls[id].pc == Created && s.calls[id].purpose.Latest?
    ensures Alone(path, id) && path[0] == s
    ensures var e, key := path[|path| - 1], s.calls[id].purpose.key;
      && id in e.calls && e.calls[id] == Call(s.calls[id].purpose, Waiting)
      && e.sh.wire == s.sh.wire
                      + (if key in s.sh.latest && s.sh.latest[key].1 in s.sh.pending then [Cancel(s.sh.latest[key].1, id)] else [])
                      + [Request(id)]
      && e.lock == None && e.sh.PointsAt(key, id)
      && id in e.sh.pending && id in e.sh.channels && e.sh.channels[id] == Open
  {
    var Latest(key, seqNo) := s.calls[id].purpose;
    HolderIsOther(s, id, key);
    hide Alone, Enabled, Apply, Inv;
    path := KeyTaken(s, id, key, seqNo);
    AloneEnds(path, id);
    if key in s.sh.latest {
      path := TakesOver(path, id, s.sh.latest[key].1);
      AloneEnds(path, id);
    }
    path := Sends(path, id);
    AloneEnds(path, id);
    NothingWritten(s.sh.wire);
  }

  lemma NothingWritten(wire: seq<Message>)
    ensures wire + [] == wire
  {
  }

  /** Joining `pending` and pointing the key at itself. */
  lemma KeyTaken(s: State, id: nat, key: string, seqNo: nat) returns (path: seq<State>)
    requires Timely(s, id) && s.calls[id] == Call(Latest(key, seqNo), Created)
    ensures Alone(path, id) && path[0] == s
    ensures var e := path[|path| - 1];
      && id in e.calls
      && e.calls[id] == Call(Latest(key, seqNo), if key in s.sh.latest then TakePrevious(s.sh.latest[key].1) else CheckSend)
      && e.sh.wire == s.sh.wire && e.sh.alive && e.sh.pending == s.sh.pending + {id}
      && e.sh.channels == s.sh.channels[id := Open] && e.sh.latest == s.sh.latest[key := (seqNo, id)]
  {
    hide Alone, Enabled, Apply;
    Still1(s, id);
    path := [s];
    StepJoin(s, id);
    path := Moved(path, id);
    AloneEnds(path, id);
    StepTakeKey(path[|path| - 1], id, key, seqNo);
    path := Moved(path, id);
    AloneEnds(path, id);
  }

  lemma HolderIsOther(s: State, id: nat, key: string)
    requires Inv(s) && id in s.calls && s.calls[id].pc == Created
    ensures key in s.sh.latest ==> s.sh.latest[key].1 != id
  {
  }

  /** Taking the previous holder out of `pending` and cancelling it. */
  lemma TakesOver(path: seq<State>, w: nat, x: nat) returns (path': seq<State>)
    requires Alone(path, w) && x != w
    requires var s := path[|path| - 1]; w in s.calls && s.calls[w].pc == TakePrevious(x) && s.sh.alive
    ensures Alone(path', w) && path'[0] == path[0]
    ensures var s, e := path[|path| - 1], path'[|path'| - 1];
      && e.sh.wire == s.sh.wire + (if x in s.sh.pending then [Cancel(x, w)] else [])
      && e.sh.latest == s.sh.latest && e.sh.alive && w in e.calls && e.calls[w] == Call(s.calls[w].purpose, CheckSend)
      && (w in s.sh.pending ==> w in e.sh.pending)
      && (w in s.sh.channels ==> w in e.sh.channels && e.sh.channels[w] == s.sh.channels[w])
  {
    hide Alone, Enabled, Apply;
    AloneEnds(path, w);
    var s := path[|path| - 1];
    StepTakePrevious(s, w, x);
    path' := Moved(path, w);
    AloneEnds(path', w);
    if x in s.sh.pending {
      StepCheckCancel(path'[|path'| - 1], w, x);
      path' := Moved(path', w);
      AloneEnds(path', w);
      StepWriteCancel(path'[|path'| - 1], w, x);
      path' := Moved(path', w);
      AloneEnds(path', w);
    }
  }

  /** When its response comes, a waiting call that still holds its key delivers,
      and gives the key up. */
  lemma WaitingDelivers(s: State, id: nat)
    requires id in s.calls && s.calls[id].pc == Waiting && s.listening && s.lock == None && id in s.sh.pending
    requires s.calls[id].purpose.Latest? ==> s.sh.PointsAt(s.calls[id].purpose.key, id)
    ensures Enabled(s, Respond(id))
    ensures var s1 := Apply(s, Respond(id));
      && id !in s1.sh.pending && Enabled(s1, Own(id, true))
      && var s2 := Apply(s1, Own(id, true));
      && Enabled(s2, Own(id, true))
      && var s3 := Apply(s2, Own(id, true));
      && id in s3.calls && s3.calls[id].pc == Done(Delivered)
      && (s.calls[id].purpose.Latest? ==> s.calls[id].purpose.key !in s3.sh.latest)
  {
    StepRespond(s, id);
    hide Apply, Enabled;
    var s1 := Apply(s, Respond(id));
    StepWaiting(s1, id);
    var s2 := Apply(s1, Own(id, true));
    StepClearing(s2, id, GotAnswer);
  }

  lemma StepRespond(s: State, id: nat)
    requires s.listening && id in s.sh.pending
    ensures Enabled(s, Respond(id))
    ensures Apply(s, Respond(id))
            == s.(sh := s.sh.(pending := s.sh.pending - {id}, channels := s.sh.channels[id := Answered]))
  {
  }

  lemma StepWaiting(s: State, id: nat)
    requires id in s.calls && s.calls[id].pc == Waiting && id in s.sh.channels && !s.sh.channels[id].Open?
    ensures Enabled(s, Own(id, true))
    ensures Apply(s, Own(id, true)) == s.At(id, if s.sh.channels[id] == Answered then Clearing(GotAnswer) else Lost)
  {
  }

  lemma StepClearing(s: State, id: nat, why: Reason)
    requires id in s.calls && s.calls[id].pc == Clearing(why) && s.lock == None
    ensures Enabled(s, Own(id, true))
    ensures var purpose := s.calls[id].purpose;
      Apply(s, Own(id, true))
        == (if purpose.Latest? && s.sh.PointsAt(purpose.key, id)
            then s.(sh := s.sh.(latest := s.sh.latest - {purpose.key})) else s)
           .At(id, Done(if why == GotTimeout then Error
                        else if purpose.Latest? && !s.sh.PointsAt(purpose.key, id) then Nothing
                        else if why == GotAnswer then Delivered else Error))
  {
  }

  /** A request that gives way to a later one of the editor's leaves no trace. */
  lemma OutrankedGivesWay(s: State, id: nat, key: string, seqNo: nat)
    requires id in s.calls && s.calls[id] == Call(Latest(key, seqNo), Registered) && s.lock == None
    requires key in s.sh.latest && s.sh.latest[key].0 > seqNo && id in s.sh.pending
    ensures Enabled(s, Own(id, true))
    ensures var s1 := Apply(s, Own(id, true));
      && Enabled(s1, Own(id, true))
      && var s2 := Apply(s1, Own(id, true));
      && id in s2.calls && s2.calls[id].pc == Done(Nothing) && id !in s2.sh.pending
      && s2.sh.latest == s.sh.latest && s2.sh.wire == s.sh.wire
  {
    hide Reaches;
    assert Apply(s, Own(id, true)) == s.At(id, Superseded);
  }

  /** A request still in `pending` when its time is up leaves it, and is cancelled
      if the client is alive. */
  lemma TimedOutIsCancelled(s: State, id: nat)
    requires id in s.calls && s.calls[id].pc == TimedOut && id in s.sh.pending
    ensures Enabled(s, Own(id, true))
    ensures var s1 := Apply(s, Own(id, true));
      && id !in s1.sh.pending && Enabled(s1, Own(id, true))
      && var s2 := Apply(s1, Own(id, true));
      && s2.sh.wire == s.sh.wire
      && (s.sh.alive ==> Enabled(s2, Own(id, true)) && Apply(s2, Own(id, true)).sh.wire == s.sh.wire + [Cancel(id, id)])
  {
    StepTimedOut(s, id);
    hide Apply;
    var s1 := Apply(s, Own(id, true));
    StepOwnCancel(s1, id);
  }

  lemma StepTimedOut(s: State, id: nat)
    requires id in s.calls && s.calls[id].pc == TimedOut
    ensures Enabled(s, Own(id, true))
    ensures Apply(s, Own(id, true))
            == s.(sh := s.sh.Take(id, Closed(Canceller(id))))
                .At(id, if id in s.sh.pending then CheckCancel(id) else Clearing(GotTimeout))
  {
  }

  lemma StepOwnCancel(s: State, id: nat)
    requires id in s.calls && s.calls[id].pc == CheckCancel(id)
    ensures Enabled(s, Own(id, true))
    ensures var s1 := Apply(s, Own(id, true));
      && s1 == s.At(id, if s.sh.alive then WriteCancel(id) else Clearing(GotTimeout))
      && (s.sh.alive ==> Enabled(s1, Own(id, true)) && Apply(s1, Own(id, true)).sh.wire == s.sh.wire + [Cancel(id, id)])
  {
  }

  /** A write that fails marks the client dead: nothing is waited for any longer,
      and no code action may be executed. */
  lemma FailedWriteKills(s: State, id: nat) returns (s1: State, s2: State, s3: State, s4: State)
    requires id in s.calls && s.calls[id].pc == WriteSend
    requires s.calls[id].purpose.Execute? ==> s.sh.Current(s.calls[id].purpose.command)
    ensures Enabled(s, Own(id, false)) && s1 == Apply(s, Own(id, false)) && s1.sh == s.sh
    ensures Enabled(s1, Own(id, true)) && s2 == Apply(s1, Own(id, true)) && !s2.sh.alive
    ensures Enabled(s2, Own(id, true)) && s3 == Apply(s2, Own(id, true)) && s3.sh.pending == {}
    ensures forall x | x in s.sh.pending && x in s.sh.channels ::
              x in s3.sh.channels && s3.sh.channels[x] == Closed(Disconnect)
    ensures Enabled(s3, Own(id, true)) && s4 == Apply(s3, Own(id, true))
    ensures s4.sh.actions == Content(Identity(s.sh.actions.identity.generation, ""), [])
    ensures id in s4.calls && s4.calls[id].pc == UndoKey && s4.sh.wire == s.sh.wire
  {
    StepWriteFails(s, id);
    hide Apply, Enabled;
    s1 := Apply(s, Own(id, false));
    StepStoreDead(s1, id, ToFail);
    s2 := Apply(s1, Own(id, true));
    StepEmptying(s2, id, ToFail);
    s3 := Apply(s2, Own(id, true));
    StepRetiring(s3, id, ToFail);
    s4 := Apply(s3, Own(id, true));
  }

  lemma StepWriteFails(s: State, id: nat)
    requires id in s.calls && s.calls[id].pc == WriteSend
    requires s.calls[id].purpose.Execute? ==> s.sh.Current(s.calls[id].purpose.command)
    ensures Enabled(s, Own(id, false)) && Apply(s, Own(id, false)) == s.At(id, PC.StoreDead(ToFail))
  {
  }

  lemma StepStoreDead(s: State, id: nat, back: Return)
    requires id in s.calls && s.calls[id].pc == StoreDead(back)
    ensures Enabled(s, Own(id, true)) && Apply(s, Own(id, true)) == s.(sh := s.sh.(alive := false)).At(id, Emptying(back))
  {
  }

  lemma StepEmptying(s: State, id: nat, back: Return)
    requires id in s.calls && s.calls[id].pc == Emptying(back)
    ensures Enabled(s, Own(id, true))
    ensures Apply(s, Own(id, true)) == s.(sh := s.sh.EmptyPending(), emptied := true).At(id, Retiring(back))
  {
  }

  lemma StepRetiring(s: State, id: nat, back: Return)
    requires id in s.calls && s.calls[id].pc == Retiring(back)
    ensures Enabled(s, Own(id, true))
    ensures Apply(s, Own(id, true)) == s.(sh := s.sh.Update(Actions, Op.Invalidate)).At(id, Resume(back))
  {
  }

  // ---- disconnecting ----

  lemma DeadStep(s: State, a: Action)
    requires Enabled(s, a)
    ensures !s.sh.alive ==> !Apply(s, a).sh.alive
    ensures !s.listening ==> !Apply(s, a).listening
    ensures a == EndOfStream ==> !Apply(s, a).sh.alive && !Apply(s, a).listening
  {
    hide Plan, Perform;
    if a.Own? {
      PerformDead(s, a.id, Plan(s, a.id, a.ok).0);
    }
  }

  lemma PerformDead(s: State, id: nat, e: Effect)
    ensures !s.sh.alive ==> !Perform(s, id, e).sh.alive
    ensures Perform(s, id, e).listening == s.listening
  {
  }

  /** After the end of the server's output the client is dead for good, and no
      response is dispatched any more. */
  lemma {:induction false} DeadForGood(states: seq<State>, acts: seq<Action>, i: nat, t: nat)
    requires |states| == |acts| + 1 && Run(states, acts) && i < t <= |acts| && acts[i] == EndOfStream
    ensures !states[t].sh.alive && !states[t].listening
    ensures t < |acts| ==> !acts[t].Respond?
    decreases t
  {
    RunStep(states, acts, t - 1);
    if t < |acts| { RunStep(states, acts, t); }
    if i + 1 < t {
      DeadForGood(states, acts, i, t - 1);
    }
    hide Run, Apply;
    DeadStep(states[t - 1], acts[t - 1]);
  }
}
