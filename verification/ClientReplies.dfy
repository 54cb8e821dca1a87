/** What the client keeps about replies whose items may be executed: an item
    once read out of a cache stays the item of that reply. */
module ClientReplies {
  import opened ReplyCache
  import opened ClientProtocol

  /** What was read out of the cache is still what an open reply holds there. */
  ghost predicate Faithful(s: State, c: Command) {
    && c.generation <= s.sh.Identity(c.kind).generation
    && (s.sh.Current(c) ==> s.sh.Offers(c) && Query(c.kind, c.generation, c.uri) !in s.asking)
  }

  /** A reply still awaited is no newer than the cache, and has not filled it. */
  ghost predicate Awaited(s: State, q: Query) {
    && q.generation <= s.sh.Identity(q.kind).generation
    && (s.sh.Identity(q.kind).Matches(q.generation, q.uri) ==> s.sh.Reply(q.kind).items == [])
  }

  ghost predicate Replies(s: State) {
    && (forall c <- s.fetched :: Faithful(s, c))
    && (forall q <- s.asking :: Awaited(s, q))
    && (forall id <- s.calls :: s.calls[id].purpose.Execute? ==> s.calls[id].purpose.command in s.fetched)
  }

  /** A step of a call reads nothing out of the caches and at most empties one. */
  ghost predicate AtMostRetires(s: State, s': State) {
    && s'.asking == s.asking && s'.fetched == s.fetched
    && s'.sh.lenses == s.sh.lenses
    && (s'.sh.actions == s.sh.actions || s'.sh.actions == s.sh.actions.Apply(Op.Invalidate))
  }

  lemma PerformRetires(s: State, id: nat, e: Effect)
    ensures AtMostRetires(s, Perform(s, id, e)) && Perform(s, id, e).calls == s.calls
  {
  }

  lemma RetiringKeeps(s: State, s': State)
    requires Replies(s) && AtMostRetires(s, s')
    requires forall id <- s'.calls :: id in s.calls && s'.calls[id].purpose == s.calls[id].purpose
    ensures Replies(s')
  {
    forall c | c in s'.fetched ensures Faithful(s', c) {
      assert Faithful(s, c);
    }
    forall q | q in s'.asking ensures Awaited(s', q) {
      assert Awaited(s, q);
    }
  }

  lemma OwnReplies(s: State, id: nat, ok: bool)
    requires Replies(s) && Enabled(s, Own(id, ok))
    ensures Replies(OwnStep(s, id, ok))
  {
    hide Plan, Perform, Replies, AtMostRetires;
    PerformRetires(s, id, Plan(s, id, ok).0);
    RetiresAt(s, Perform(s, id, Plan(s, id, ok).0), id, Plan(s, id, ok).1);
    RetiringKeeps(s, OwnStep(s, id, ok));
  }

  lemma RetiresAt(s: State, s': State, id: nat, pc: PC)
    requires AtMostRetires(s, s') && id in s'.calls
    ensures AtMostRetires(s, s'.At(id, pc))
  {
  }

  /** The caches' own steps. */
  lemma CacheReplies(s: State, a: Action)
    requires Replies(s) && Enabled(s, a)
    requires a.Begin? || a.Replace? || a.Fetch? || a.Invalidate? || a.InvalidateUri?
    ensures Replies(Apply(s, a))
  {
    var s' := Apply(s, a);
    forall c | c in s'.fetched ensures Faithful(s', c) {
      CacheFaithful(s, a, c);
    }
    forall q | q in s'.asking ensures Awaited(s', q) {
      CacheAwaited(s, a, q);
    }
  }

  lemma CacheFaithful(s: State, a: Action, c: Command)
    requires Replies(s) && Enabled(s, a) && c in Apply(s, a).fetched
    requires a.Begin? || a.Replace? || a.Fetch? || a.Invalidate? || a.InvalidateUri?
    ensures Faithful(Apply(s, a), c)
  {
    if c in s.fetched {
      assert Faithful(s, c);
      hide Replies;
      if a.Replace? && a.kind == c.kind { ReplacedFaithful(s, a, c); }
    }
  }

  /** The cache is filled only for a reply still awaited, not for `c`'s. */
  lemma ReplacedFaithful(s: State, a: Action, c: Command)
    requires a.Replace? && a.kind == c.kind && Faithful(s, c) && Enabled(s, a)
    ensures Faithful(Apply(s, a), c)
  {
  }

  lemma CacheAwaited(s: State, a: Action, q: Query)
    requires Replies(s) && Enabled(s, a) && q in Apply(s, a).asking
    requires a.Begin? || a.Replace? || a.Fetch? || a.Invalidate? || a.InvalidateUri?
    ensures Awaited(Apply(s, a), q)
  {
    if q in s.asking {
      assert Awaited(s, q);
      hide Replies;
      StillAwaited(s, a, q);
    } else {
      hide Replies;
    }
  }

  lemma StillAwaited(s: State, a: Action, q: Query)
    requires Awaited(s, q) && Enabled(s, a) && q in Apply(s, a).asking
    requires a.Begin? || a.Replace? || a.Fetch? || a.Invalidate? || a.InvalidateUri?
    ensures Awaited(Apply(s, a), q)
  {
  }

  lemma StepReplies(s: State, a: Action)
    requires Replies(s) && Enabled(s, a)
    ensures Replies(Apply(s, a))
  {
    hide OwnStep;
    if a.Own? {
      OwnReplies(s, a.id, a.ok);
    } else if a.Begin? || a.Replace? || a.Fetch? || a.Invalidate? || a.InvalidateUri? {
      CacheReplies(s, a);
    } else {
      var s' := Apply(s, a);
      forall c | c in s'.fetched ensures Faithful(s', c) {
        assert Faithful(s, c);
      }
      forall q | q in s'.asking ensures Awaited(s', q) {
        assert Awaited(s, q);
      }
    }
  }
}
