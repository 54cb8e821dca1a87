/** Suppression of repeated file-watcher events. A notification is sent at most
    once in 250 ms for the same file and kind of change; what was sent more than
    two seconds ago is forgotten. Times are clock readings in nanoseconds. */
module WatchedFiles {

  const DEBOUNCE := 250_000_000

  const RETENTION := 2_000_000_000

  datatype Change = Change(uri: string, kind: nat)

  /** `Instant::duration_since`: nothing has elapsed since a later instant. */
  function Elapsed(now: nat, seen: nat): nat { if now >= seen then now - seen else 0 }

  function Prune(recent: map<Change, nat>, now: nat): map<Change, nat> {
    map c | c in recent && Elapsed(now, recent[c]) < RETENTION :: recent[c]
  }

  predicate Suppressed(recent: map<Change, nat>, c: Change, now: nat) {
    c in recent && Elapsed(now, recent[c]) < DEBOUNCE
  }

  /** The events of one batch, in order: what is remembered and what is sent. */
  function Debounce(recent: map<Change, nat>, changes: seq<Change>, now: nat): (map<Change, nat>, seq<Change>) {
    if changes == [] then (recent, [])
    else
      var (before, sent) := Debounce(recent, changes[..|changes| - 1], now);
      var c := changes[|changes| - 1];
      if Suppressed(before, c, now) then (before, sent) else (before[c := now], sent + [c])
  }

  function Registered(matches: Change -> bool, changes: seq<Change>): seq<Change> {
    if changes == [] then []
    else
      Registered(matches, changes[..|changes| - 1])
      + if matches(changes[|changes| - 1]) then [changes[|changes| - 1]] else []
  }

  /** A batch with no registered event does not even look at the clock. */
  function Step(recent: map<Change, nat>, changes: seq<Change>, now: nat): (map<Change, nat>, seq<Change>) {
    if changes == [] then (recent, []) else Debounce(Prune(recent, now), changes, now)
  }

  class Watcher {
    var recent: map<Change, nat>

    constructor ()
      ensures recent == map[]
    {
      recent := map[];
    }

    method DidChangeWatchedFiles(changes: seq<Change>, matches: Change -> bool, now: nat) returns (sent: seq<Change>)
      modifies this
      ensures (recent, sent) == Step(old(recent), Registered(matches, changes), now)
    {
      sent := [];
      var registered := [];
      for i := 0 to |changes|
        invariant registered == Registered(matches, changes[..i]) && recent == old(recent)
      {
        assert changes[..i + 1][..i] == changes[..i];
        if matches(changes[i]) {
          registered := registered + [changes[i]];
        }
      }
      assert changes[..|changes|] == changes;
      if registered == [] {
        return;
      }
      recent := map c | c in recent && Elapsed(now, recent[c]) < RETENTION :: recent[c];
      for i := 0 to |registered|
        invariant (recent, sent) == Debounce(Prune(old(recent), now), registered[..i], now)
      {
        assert registered[..i + 1][..i] == registered[..i];
        var c := registered[i];
        if c in recent && Elapsed(now, recent[c]) < DEBOUNCE {
          continue;
        }
        recent := recent[c := now];
        sent := sent + [c];
      }
      assert registered[..|registered|] == registered;
    }
  }

  /** Within one batch duplicates collapse: every registered event of the batch
      that is not suppressed is sent, once. */
  lemma {:induction false} BatchCollapses(recent: map<Change, nat>, changes: seq<Change>, now: nat)
    ensures var (after, sent) := Debounce(recent, changes, now);
            && (forall i, j | 0 <= i < j < |sent| :: sent[i] != sent[j])
            && (forall c :: c in sent <==> c in changes && !Suppressed(recent, c, now))
            && (forall c :: c in after <==> c in recent || c in sent)
            && (forall c <- after :: after[c] == if c in sent then now else recent[c])
  {
    if changes != [] {
      var n := |changes| - 1;
      BatchCollapses(recent, changes[..n], now);
      var (before, sent) := Debounce(recent, changes[..n], now);
      var c := changes[n];
      assert Suppressed(before, c, now) <==> c in sent || Suppressed(recent, c, now);
      assert changes == changes[..n] + [c];
      assert forall x :: x in changes <==> x in changes[..n] || x == c;
    }
  }

  // ---- against a history that forgets nothing ----

  datatype Emission = Emission(change: Change, time: nat)

  /** No emission of `c` is less than 250 ms old. */
  ghost predicate Fresh(log: seq<Emission>, c: Change, now: nat) {
    forall e <- log :: e.change == c ==> e.time + 250_000_000 <= now
  }

  ghost function Extend(log: seq<Emission>, changes: seq<Change>, now: nat): seq<Emission> {
    if changes == [] then log
    else
      var before := Extend(log, changes[..|changes| - 1], now);
      var c := changes[|changes| - 1];
      if Fresh(before, c, now) then before + [Emission(c, now)] else before
  }

  /** The registered events of one call and the clock it read. Calls are listed
      in the order they took the lock. */
  datatype Batch = Batch(changes: seq<Change>, now: nat)

  ghost function Reference(batches: seq<Batch>): seq<Emission> {
    if batches == [] then []
    else
      var last := batches[|batches| - 1];
      Extend(Reference(batches[..|batches| - 1]), last.changes, last.now)
  }

  function Stamp(sent: seq<Change>, now: nat): seq<Emission> {
    seq(|sent|, i requires 0 <= i < |sent| => Emission(sent[i], now))
  }

  /** The watcher's memory and everything it has sent. */
  function Run(batches: seq<Batch>): (map<Change, nat>, seq<Emission>) {
    if batches == [] then (map[], [])
    else
      var last := batches[|batches| - 1];
      var (recent, log) := Run(batches[..|batches| - 1]);
      var (after, sent) := Step(recent, last.changes, last.now);
      (after, log + Stamp(sent, last.now))
  }

  function Clocks(batches: seq<Batch>): seq<nat> { seq(|batches|, i requires 0 <= i < |batches| => batches[i].now) }

  /** The memory tells of every event whether it is fresh. */
  ghost predicate Tracks(recent: map<Change, nat>, log: seq<Emission>, now: nat) {
    && (forall c <- recent :: Emission(c, recent[c]) in log)
    && (forall e <- log :: if e.change in recent then e.time <= recent[e.change] else now >= e.time + DEBOUNCE)
  }

  lemma OneTracked(recent: map<Change, nat>, log: seq<Emission>, c: Change, now: nat)
    requires Tracks(recent, log, now)
    ensures Suppressed(recent, c, now) <==> !Fresh(log, c, now)
    ensures Fresh(log, c, now) ==> Tracks(recent[c := now], log + [Emission(c, now)], now)
  {
  }

  lemma {:induction false} BatchTracked(recent: map<Change, nat>, log: seq<Emission>, changes: seq<Change>, now: nat)
    requires Tracks(recent, log, now)
    ensures var (after, sent) := Debounce(recent, changes, now);
            Extend(log, changes, now) == log + Stamp(sent, now) && Tracks(after, log + Stamp(sent, now), now)
  {
    hide Tracks, Fresh, Suppressed;
    if changes == [] {
      assert log + Stamp([], now) == log;
    } else {
      var n := |changes| - 1;
      var (before, sent) := Debounce(recent, changes[..n], now);
      BatchTracked(recent, log, changes[..n], now);
      OneTracked(before, log + Stamp(sent, now), changes[n], now);
      assert log + Stamp(sent + [changes[n]], now) == log + Stamp(sent, now) + [Emission(changes[n], now)];
    }
  }

  // ---- when forgetting is invisible ----

  /** No call reads a clock within 250 ms of (or before) a reading that an
      intermediate call has already seen go two seconds stale. */
  ghost predicate Punctual(clocks: seq<nat>) {
    forall i, j, k | 0 <= i < j < k < |clocks| ::
      clocks[j] >= clocks[i] + 2_000_000_000 ==> clocks[k] >= clocks[i] + 250_000_000
  }

  ghost predicate Read(clocks: seq<nat>, time: nat) { time in clocks }

  ghost predicate Stale(clocks: seq<nat>, time: nat) {
    exists i, j :: 0 <= i < j < |clocks| && clocks[i] == time && clocks[j] >= time + RETENTION
  }

  ghost predicate Remembers(recent: map<Change, nat>, log: seq<Emission>, clocks: seq<nat>) {
    && (forall c <- recent :: Emission(c, recent[c]) in log)
    && (forall e <- log :: Read(clocks, e.time))
    && (forall e <- log :: if e.change in recent then e.time <= recent[e.change] else Stale(clocks, e.time))
  }

  lemma StaleGrows(clocks: seq<nat>, now: nat, time: nat)
    ensures Stale(clocks, time) ==> Stale(clocks + [now], time)
    ensures Read(clocks, time) ==> Read(clocks + [now], time)
    ensures Read(clocks, time) && now >= time + RETENTION ==> Stale(clocks + [now], time)
    ensures Read(clocks + [now], now)
  {
    var more := clocks + [now];
    if Stale(clocks, time) {
      var i, j :| 0 <= i < j < |clocks| && clocks[i] == time && clocks[j] >= time + RETENTION;
      assert more[i] == time && more[j] >= time + RETENTION;
    }
    if Read(clocks, time) && now >= time + RETENTION {
      var i :| 0 <= i < |clocks| && clocks[i] == time;
      assert more[i] == time && more[|clocks|] == now;
    }
    assert more[|clocks|] == now;
  }

  lemma PrunedTracks(recent: map<Change, nat>, log: seq<Emission>, clocks: seq<nat>, now: nat)
    requires Remembers(recent, log, clocks) && Punctual(clocks + [now])
    ensures Tracks(Prune(recent, now), log, now)
  {
    var pruned := Prune(recent, now);
    forall e <- log | e.change !in pruned ensures now >= e.time + DEBOUNCE {
      if e.change !in recent {
        var i, j :| 0 <= i < j < |clocks| && clocks[i] == e.time && clocks[j] >= e.time + RETENTION;
        var all := clocks + [now];
        assert all[i] == e.time && all[j] == clocks[j] && all[|clocks|] == now;
      }
    }
  }

  lemma StillRemembers(recent: map<Change, nat>, log: seq<Emission>, clocks: seq<nat>, changes: seq<Change>, now: nat)
    requires Remembers(recent, log, clocks)
    ensures var (after, sent) := Debounce(Prune(recent, now), changes, now);
            Tracks(after, log + Stamp(sent, now), now) ==> Remembers(after, log + Stamp(sent, now), clocks + [now])
  {
    hide Stale, Read, Debounce;
    var pruned := Prune(recent, now);
    var (after, sent) := Debounce(pruned, changes, now);
    BatchCollapses(pruned, changes, now);
    if Tracks(after, log + Stamp(sent, now), now) {
      forall e <- log + Stamp(sent, now)
        ensures Read(clocks + [now], e.time)
        ensures e.change !in after ==> Stale(clocks + [now], e.time)
      {
        StaleGrows(clocks, now, e.time);
        if e in log && e.change !in after && e.change in recent {
          assert e.change !in pruned && Elapsed(now, recent[e.change]) >= RETENTION;
        }
      }
    }
  }

  lemma IdleRemembers(recent: map<Change, nat>, log: seq<Emission>, clocks: seq<nat>, now: nat)
    requires Remembers(recent, log, clocks)
    ensures Remembers(recent, log, clocks + [now])
  {
    hide Stale, Read;
    forall e <- log
      ensures Read(clocks + [now], e.time) && (e.change !in recent ==> Stale(clocks + [now], e.time))
    {
      StaleGrows(clocks, now, e.time);
    }
  }

  lemma ClocksGrow(batches: seq<Batch>)
    requires batches != []
    ensures Clocks(batches) == Clocks(batches[..|batches| - 1]) + [batches[|batches| - 1].now]
    ensures Punctual(Clocks(batches)) ==> Punctual(Clocks(batches[..|batches| - 1]))
  {
    var n := |batches| - 1;
    var all, some := Clocks(batches), Clocks(batches[..n]);
    assert all == some + [batches[n].now];
    if Punctual(all) {
      forall i, j, k | 0 <= i < j < k < |some| && some[j] >= some[i] + RETENTION ensures some[k] >= some[i] + DEBOUNCE {
        assert all[i] == some[i] && all[j] == some[j] && all[k] == some[k];
      }
    }
  }

  lemma {:induction false} PunctualRun(batches: seq<Batch>)
    requires Punctual(Clocks(batches))
    ensures var (recent, log) := Run(batches);
            log == Reference(batches) && Remembers(recent, log, Clocks(batches))
  {
    hide Punctual, Tracks, Debounce, Clocks, Prune, Extend;
    if batches == [] {
    } else {
      var n := |batches| - 1;
      var last := batches[n];
      ClocksGrow(batches);
      PunctualRun(batches[..n]);
      var (recent, log) := Run(batches[..n]);
      OneBatch(recent, log, Clocks(batches[..n]), last);
    }
  }

  lemma OneBatch(recent: map<Change, nat>, log: seq<Emission>, clocks: seq<nat>, batch: Batch)
    requires Remembers(recent, log, clocks) && Punctual(clocks + [batch.now])
    ensures var (after, sent) := Step(recent, batch.changes, batch.now);
            && log + Stamp(sent, batch.now) == Extend(log, batch.changes, batch.now)
            && Remembers(after, log + Stamp(sent, batch.now), clocks + [batch.now])
  {
    hide Remembers, Punctual, Tracks, Debounce, Prune;
    if batch.changes == [] {
      IdleRemembers(recent, log, clocks, batch.now);
      assert log + Stamp([], batch.now) == log;
    } else {
      PrunedTracks(recent, log, clocks, batch.now);
      BatchTracked(Prune(recent, batch.now), log, batch.changes, batch.now);
      StillRemembers(recent, log, clocks, batch.changes, batch.now);
    }
  }

  // ---- and when it is not ----

  lemma {:induction false} Idle(batches: seq<Batch>, m: nat, n: nat)
    requires m <= n <= |batches|
    requires forall i | m <= i < n :: batches[i].changes == []
    ensures Run(batches[..n]) == Run(batches[..m]) && Reference(batches[..n]) == Reference(batches[..m])
  {
    if m < n {
      Idle(batches, m, n - 1);
      assert batches[..n][..n - 1] == batches[..n - 1];
      var log := Run(batches[..n - 1]).1;
      assert log + Stamp([], batches[n - 1].now) == log;
    }
  }

  lemma OneEvent(batches: seq<Batch>, n: nat, c: Change)
    requires n < |batches| && batches[n].changes == [c]
    ensures var (recent, log) := Run(batches[..n]);
            var pruned := Prune(recent, batches[n].now);
            Run(batches[..n + 1]) == if Suppressed(pruned, c, batches[n].now) then (pruned, log)
                                     else (pruned[c := batches[n].now], log + [Emission(c, batches[n].now)])
    ensures Reference(batches[..n + 1])
            == if Fresh(Reference(batches[..n]), c, batches[n].now)
               then Reference(batches[..n]) + [Emission(c, batches[n].now)] else Reference(batches[..n])
  {
    var now := batches[n].now;
    assert batches[..n + 1][..n] == batches[..n];
    var (recent, log) := Run(batches[..n]);
    assert log + Stamp([], now) == log && log + Stamp([c], now) == log + [Emission(c, now)];
    assert [c][..0] == [];
    var pruned := Prune(recent, now);
    assert Debounce(pruned, [], now) == (pruned, []);
    var none: seq<Change> := [];
    assert none + [c] == [c] && [c][..0] == none && [c][0] == c;
    assert Debounce(pruned, [c], now) == if Suppressed(pruned, c, now) then (pruned, []) else (pruned[c := now], [c]);
    assert Extend(Reference(batches[..n]), [], now) == Reference(batches[..n]);
  }

  /** One call makes a reading two seconds stale, a later one comes back to it:
      the event is sent again within 250 ms. */
  lemma LateCallResends(clocks: seq<nat>, i: nat, j: nat, k: nat) returns (batches: seq<Batch>)
    requires i < j < k < |clocks|
    requires clocks[j] >= clocks[i] + 2_000_000_000 && clocks[k] < clocks[i] + 250_000_000
    ensures Clocks(batches) == clocks && Run(batches).1 != Reference(batches)
  {
    hide *;
    var c, d := Change("c", 1), Change("d", 1);
    batches := ThreeEvents(clocks, i, j, k, c, d);
    UntilFirst(batches, i, c);
    UntilSecond(batches, i, j, c, d);
    UntilThird(batches, i, j, k, c, d);
    Idle(batches, k + 1, |batches|);
    assert batches[..|batches|] == batches;
  }

  lemma UntilFirst(batches: seq<Batch>, i: nat, c: Change)
    requires i < |batches| && batches[i].changes == [c] && forall n | 0 <= n < i :: batches[n].changes == []
    ensures var first := Emission(c, batches[i].now);
      Run(batches[..i + 1]) == (map[c := first.time], [first]) && Reference(batches[..i + 1]) == [first]
  {
    hide *;
    StartsEmpty(batches);
    Idle(batches, 0, i);
    OneEvent(batches, i, c);
    FirstSent(c, batches[i].now);
  }

  lemma UntilSecond(batches: seq<Batch>, i: nat, j: nat, c: Change, d: Change)
    requires i < j < |batches| && c != d && batches[j].changes == [d]
    requires forall n | i < n < j :: batches[n].changes == []
    requires batches[j].now >= batches[i].now + 2_000_000_000
    requires var first := Emission(c, batches[i].now);
      Run(batches[..i + 1]) == (map[c := first.time], [first]) && Reference(batches[..i + 1]) == [first]
    ensures var first, second := Emission(c, batches[i].now), Emission(d, batches[j].now);
      && Run(batches[..j + 1]) == (map[d := second.time], [first, second])
      && Reference(batches[..j + 1]) == [first, second]
  {
    hide *;
    Idle(batches, i + 1, j);
    OneEvent(batches, j, d);
    SecondSent(c, d, batches[i].now, batches[j].now);
  }

  lemma UntilThird(batches: seq<Batch>, i: nat, j: nat, k: nat, c: Change, d: Change)
    requires i < j < k < |batches| && c != d && batches[k].changes == [c]
    requires forall n | j < n < k :: batches[n].changes == []
    requires batches[k].now < batches[i].now + 250_000_000
    requires var first, second := Emission(c, batches[i].now), Emission(d, batches[j].now);
      && Run(batches[..j + 1]) == (map[d := second.time], [first, second])
      && Reference(batches[..j + 1]) == [first, second]
    ensures |Run(batches[..k + 1]).1| == 3 && |Reference(batches[..k + 1])| == 2
  {
    hide *;
    Idle(batches, j + 1, k);
    OneEvent(batches, k, c);
    SentAgain(c, d, batches[i].now, batches[j].now, batches[k].now);
  }

  // The three calls of the failing schedule, on the memory and on the log.

  lemma FirstSent(c: Change, now: nat)
    ensures Prune(map[], now)[c := now] == map[c := now] && !Suppressed(Prune(map[], now), c, now)
    ensures Fresh([], c, now) && [] + [Emission(c, now)] == [Emission(c, now)]
  {
  }

  lemma SecondSent(c: Change, d: Change, time: nat, now: nat)
    requires c != d && now >= time + 2_000_000_000
    ensures Prune(map[c := time], now)[d := now] == map[d := now] && !Suppressed(Prune(map[c := time], now), d, now)
    ensures Fresh([Emission(c, time)], d, now)
    ensures [Emission(c, time)] + [Emission(d, now)] == [Emission(c, time), Emission(d, now)]
  {
  }

  lemma SentAgain(c: Change, d: Change, first: nat, second: nat, now: nat)
    requires c != d && now < first + 250_000_000
    ensures !Suppressed(Prune(map[d := second], now), c, now)
    ensures !Fresh([Emission(c, first), Emission(d, second)], c, now)
  {
    assert Emission(c, first) in [Emission(c, first), Emission(d, second)];
  }

  lemma ThreeEvents(clocks: seq<nat>, i: nat, j: nat, k: nat, c: Change, d: Change) returns (batches: seq<Batch>)
    requires i < j < k < |clocks|
    ensures |batches| == |clocks| && Clocks(batches) == clocks
    ensures batches[i] == Batch([c], clocks[i]) && batches[j] == Batch([d], clocks[j])
    ensures batches[k] == Batch([c], clocks[k])
    ensures forall n | 0 <= n < |batches| && n != i && n != j && n != k :: batches[n].changes == []
  {
    batches := seq(|clocks|, n requires 0 <= n < |clocks| =>
                   Batch(if n == i || n == k then [c] else if n == j then [d] else [], clocks[n]));
  }

  lemma StartsEmpty(batches: seq<Batch>)
    ensures Run(batches[..0]) == (map[], []) && Reference(batches[..0]) == []
  {
  }

  /** Forgetting after two seconds never changes what is sent, whatever the
      batches hold, exactly when no call is that late for the lock. */
  lemma PruningInvisible(clocks: seq<nat>)
    ensures (forall batches | Clocks(batches) == clocks :: Run(batches).1 == Reference(batches)) <==> Punctual(clocks)
  {
    hide Run, Reference, Clocks;
    if Punctual(clocks) {
      forall batches | Clocks(batches) == clocks ensures Run(batches).1 == Reference(batches) {
        PunctualRun(batches);
      }
    } else {
      var i, j, k :| 0 <= i < j < k < |clocks|
                     && clocks[j] >= clocks[i] + RETENTION && clocks[k] < clocks[i] + DEBOUNCE;
      var batches := LateCallResends(clocks, i, j, k);
    }
  }

  /** Calls that take the lock in clock order, or lag it by no more than 1.75 s,
      are never too late. */
  lemma SmallLagIsPunctual(clocks: seq<nat>)
    requires forall j, k | 0 <= j < k < |clocks| :: clocks[k] + 1_750_000_000 >= clocks[j]
    ensures Punctual(clocks)
    ensures forall batches | Clocks(batches) == clocks :: Run(batches).1 == Reference(batches)
  {
    hide Run, Reference, Clocks;
    PruningInvisible(clocks);
  }

  /** Exactly the events that a registration matches are looked at, each as often
      as it comes, and in the order they come. */
  lemma {:induction false} RegisteredMeans(matches: Change -> bool, changes: seq<Change>)
    ensures forall c :: multiset(Registered(matches, changes))[c] == if matches(c) then multiset(changes)[c] else 0
    decreases |changes|
  {
    if changes != [] {
      var n := |changes| - 1;
      RegisteredMeans(matches, changes[..n]);
      assert changes == changes[..n] + [changes[n]];
    }
  }

  lemma {:induction false} RegisteredInOrder(matches: Change -> bool, a: seq<Change>, b: seq<Change>)
    ensures Registered(matches, a + b) == Registered(matches, a) + Registered(matches, b)
    decreases |b|
  {
    if b == [] {
      assert a + b == a;
    } else {
      var n := |b| - 1;
      assert (a + b)[..|a + b| - 1] == a + b[..n] && (a + b)[|a + b| - 1] == b[n];
      RegisteredInOrder(matches, a, b[..n]);
    }
  }
}
