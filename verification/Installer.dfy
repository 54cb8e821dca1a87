/** Managed server installation: staged beside the active tree, promoted by two
    renames, recovered at the next start. The process may be killed between any
    two file-system operations, and inside a recursive removal. */
module Installer {
  import opened Wrappers
  import opened StableSort

  datatype Label = Installing | Abandoned | Backup

  /** The destination, and its hidden siblings `.name.label-pid-stamp`. */
  datatype Path = Destination | Sibling(tag: Label, pid: nat, stamp: nat)

  datatype Tree = Complete(version: nat) | Partial

  type Disk = map<Path, Tree>

  predicate IsBackup(p: Path) { p.Sibling? && p.tag == Backup }

  predicate IsNewest(d: Disk, p: Path) {
    p in d && IsBackup(p) && forall q <- d :: IsBackup(q) && q != p ==> q.stamp < p.stamp
  }

  /** A complete tree is active, or the next recovery will find one. */
  ghost predicate Serviceable(d: Disk) {
    if Destination in d then d[Destination].Complete?
    else exists p :: IsNewest(d, p) && d[p].Complete?
  }

  /** The active tree is never partial, and a missing one is recoverable. */
  ghost predicate Sound(d: Disk) {
    && (Destination in d ==> d[Destination].Complete?)
    && (Destination !in d ==> (forall q <- d :: !IsBackup(q)) || Serviceable(d))
  }

  /** What no operation may break, from disk `d` on. */
  ghost predicate Kept(d: Disk, t: Disk) { Sound(d) ==> Sound(t) && (Serviceable(d) ==> Serviceable(t)) }

  predicate Dated(d: Disk, clock: nat) { forall p <- d :: p.Sibling? ==> p.stamp < clock }

  /** Stamps come from one increasing clock: no two backups share one. */
  predicate Distinct(d: Disk) {
    forall p, q | p in d && q in d && IsBackup(p) && IsBackup(q) && p.stamp == q.stamp :: p == q
  }

  /** An operation on the file system. */
  datatype Operation = Make(p: Path) | Fill(p: Path, version: nat) | Move(p: Path, to: Path) | CutShort(p: Path) | Remove(p: Path)

  class FileSystem {
    var disk: Disk
    /** Every state the disk passed through: where a crash may have stopped. */
    var trail: seq<Disk>
    var clock: nat
    /** Every disk that a recovery has found. */
    var found: seq<Disk>
    /** Every operation that the operating system failed. */
    var faults: seq<Operation>

    ghost predicate Valid()
      reads this
    {
      && trail != [] && trail[|trail| - 1] == disk
      && forall t <- trail :: Dated(t, clock) && Distinct(t)
    }

    constructor ()
      ensures Valid() && disk == map[] && Sound(disk) && found == [] && faults == []
    {
      disk, trail, clock, found, faults := map[], [map[]], 0, [], [];
    }

    /** The trail has grown by states that keep what `d` had. */
    ghost predicate Grown(before: seq<Disk>, d: Disk)
      reads this
    {
      && before <= trail
      && forall i | |before| <= i < |trail| :: Kept(d, trail[i])
    }

    method Now() returns (stamp: nat)
      requires Valid()
      modifies this`clock
      ensures Valid() && stamp == old(clock) && clock == stamp + 1
    {
      stamp := clock;
      clock := clock + 1;
    }

    /** List the parent directory. */
    method ReadDir() returns (entries: set<Path>)
      modifies this`found
      ensures found == old(found) + [disk] && entries == disk.Keys
    {
      found := found + [disk];
      entries := disk.Keys;
    }

    /** Atomic: it happens as a whole or fails, and without a fault it fails only
        if there is nothing to move or something in the way. */
    method Rename(from: Path, to: Path) returns (ok: bool)
      requires Valid() && from != to
      requires to.Sibling? ==> to.stamp < clock && forall q <- disk :: IsBackup(q) ==> q.stamp != to.stamp
      modifies this`disk, this`trail, this`faults
      ensures Valid()
      ensures ok ==> from in old(disk) && to !in old(disk)
      ensures disk == if ok then (old(disk) - {from})[to := old(disk)[from]] else old(disk)
      ensures faults == old(faults) || faults == old(faults) + [Move(from, to)]
      ensures if faults == old(faults) then ok <==> from in old(disk) && to !in old(disk) else !ok
      ensures trail == old(trail) + [disk]
    {
      assert Dated(trail[|trail| - 1], clock) && Distinct(trail[|trail| - 1]);
      var fault := *;
      ok := !fault && from in disk && to !in disk;
      if fault {
        faults := faults + [Move(from, to)];
      }
      if ok {
        disk := (disk - {from})[to := disk[from]];
      }
      trail := trail + [disk];
    }

    /** Not atomic: it may stop anywhere, leaving part of the tree behind. */
    method RemovePath(p: Path) returns (ok: bool)
      requires Valid()
      modifies this`disk, this`trail, this`faults
      ensures Valid()
      ensures disk == old(disk) || Removing(old(disk), p, disk)
      ensures ok ==> p !in disk
      ensures faults == if ok then old(faults) else old(faults) + [Remove(p)]
      ensures old(trail) <= trail
      ensures forall i | |old(trail)| <= i < |trail| :: trail[i] == old(disk) || Removing(old(disk), p, trail[i])
    {
      assert Dated(trail[|trail| - 1], clock) && Distinct(trail[|trail| - 1]);
      if p !in disk {
        return true;
      }
      ghost var start, before := disk, trail;
      ok := *;
      var started := *;
      if ok || started {
        disk := disk[p := Partial];
        trail := trail + [disk];
      }
      if ok {
        disk := disk - {p};
        trail := trail + [disk];
        assert disk == start - {p};
      } else {
        faults := faults + [Remove(p)];
      }
    }

    method CreateDir(p: Path) returns (ok: bool)
      requires Valid() && p.Sibling? && p.stamp < clock && !IsBackup(p)
      modifies this`disk, this`trail, this`faults
      ensures Valid() && trail == old(trail) + [disk]
      ensures disk == if ok then old(disk)[p := Partial] else old(disk)
      ensures faults == old(faults) || faults == old(faults) + [Make(p)]
      ensures if faults == old(faults) then ok <==> p !in old(disk) else !ok
    {
      assert Dated(trail[|trail| - 1], clock) && Distinct(trail[|trail| - 1]);
      var fault := *;
      ok := !fault && p !in disk;
      if fault {
        faults := faults + [Make(p)];
      }
      if ok {
        disk := disk[p := Partial];
      }
      trail := trail + [disk];
    }

    /** Download and extract, or run the package manager: the staged tree is
        partial until everything succeeded. */
    method Populate(p: Path, version: nat) returns (ok: bool)
      requires Valid() && p.Sibling? && p in disk
      modifies this`disk, this`trail, this`faults
      ensures Valid() && trail == old(trail) + [disk]
      ensures disk == if ok then old(disk)[p := Complete(version)] else old(disk)[p := Partial]
      ensures faults == if ok then old(faults) else old(faults) + [Fill(p, version)]
    {
      assert Dated(trail[|trail| - 1], clock) && Distinct(trail[|trail| - 1]);
      ok := *;
      if !ok {
        faults := faults + [Fill(p, version)];
      }
      disk := disk[p := if ok then Complete(version) else Partial];
      trail := trail + [disk];
    }

    /** The process dies: the disk stays as it was at some moment since `from`. */
    method Crash(from: nat)
      requires Valid() && from < |trail|
      modifies this`disk, this`trail
      ensures Valid() && exists i :: from <= i < |old(trail)| && disk == old(trail)[i]
      ensures trail == [disk]
    {
      var i :| from <= i < |trail|;
      disk := trail[i];
      trail := [disk];
    }
  }

  /** `t` has at `p` what `d` had there. */
  predicate Untouched(d: Disk, t: Disk, p: Path) { (p in t <==> p in d) && (p in d ==> t[p] == d[p]) }

  /** Siblings whose owner may still be alive are left alone. */
  ghost predicate SparesOwners(d: Disk, t: Disk, stale: nat -> bool) {
    forall p: Path | p.Sibling? && !stale(p.pid) :: Untouched(d, t, p)
  }

  ghost predicate Removing(d: Disk, p: Path, t: Disk) { p in d && (t == d[p := Partial] || t == d - {p}) }

  /** What failed between two moments. */
  function Since(before: seq<Operation>, faults: seq<Operation>): seq<Operation> {
    if before <= faults then faults[|before|..] else faults
  }

  predicate OnlyRemovals(faults: seq<Operation>) { forall f <- faults :: f.Remove? }

  /** Of what is stale only that is left whose removal failed. */
  ghost predicate Cleared(d: Disk, stale: nat -> bool, faults: seq<Operation>) {
    forall p <- d :: p.Sibling? && stale(p.pid) ==> Remove(p) in faults
  }

  lemma OneFault(before: seq<Operation>, op: Operation)
    ensures before <= before + [op] && Since(before, before + [op]) == [op]
    ensures OnlyRemovals(Since(before, before + [op])) <==> op.Remove?
    ensures Since(before, before) == [] && OnlyRemovals([])
  {
    assert op in [op];
  }

  lemma SinceThrough(a: seq<Operation>, b: seq<Operation>, c: seq<Operation>)
    requires a <= b <= c
    ensures a <= c && Since(a, c) == Since(a, b) + Since(b, c)
    ensures OnlyRemovals(Since(a, c)) <==> OnlyRemovals(Since(a, b)) && OnlyRemovals(Since(b, c))
    ensures forall f :: f in Since(a, c) <==> f in Since(a, b) || f in Since(b, c)
  {
    assert Since(a, c) == Since(a, b) + Since(b, c);
  }

  // ---- what one operation keeps ----

  lemma SameKept(d: Disk)
    ensures Kept(d, d)
  {
  }

  lemma KeptTransitive(a: Disk, b: Disk, c: Disk)
    ensures Kept(a, b) && Kept(b, c) ==> Kept(a, c)
  {
  }

  /** Removing a staging tree, or a backup once a destination is there. */
  lemma RemovalKept(d: Disk, p: Path, t: Disk)
    requires p != Destination && (IsBackup(p) ==> Destination in d)
    requires t == d || Removing(d, p, t)
    ensures Kept(d, t)
    ensures Destination in d <==> Destination in t
    ensures Destination in d ==> t[Destination] == d[Destination]
    ensures forall q | q != p :: (q in t <==> q in d) && (q in d ==> t[q] == d[q])
  {
    if Destination !in d && exists n :: IsNewest(d, n) && d[n].Complete? {
      var n :| IsNewest(d, n) && d[n].Complete?;
      assert IsNewest(t, n) && t[n].Complete?;
    }
  }

  lemma StagingKept(d: Disk, p: Path, tree: Tree)
    requires p.Sibling? && !IsBackup(p)
    ensures Kept(d, d[p := tree])
  {
    if Destination !in d && exists n :: IsNewest(d, n) && d[n].Complete? {
      var n :| IsNewest(d, n) && d[n].Complete?;
      assert IsNewest(d[p := tree], n);
    }
  }

  lemma RestoreKept(d: Disk, n: Path)
    requires Destination !in d && IsNewest(d, n)
    ensures Sound(d) ==> d[n].Complete?
    ensures Kept(d, (d - {n})[Destination := d[n]])
  {
    if Sound(d) {
      var m :| IsNewest(d, m) && d[m].Complete?;
      assert m == n;
    }
  }

  /** The first rename of a promotion: the active tree becomes the newest backup. */
  lemma SetAsideKept(d: Disk, backup: Path)
    requires Destination in d && IsBackup(backup) && backup !in d && Dated(d, backup.stamp)
    ensures var t := (d - {Destination})[backup := d[Destination]];
      Kept(d, t) && IsNewest(t, backup)
  {
  }

  lemma ActivateKept(d: Disk, staged: Path)
    requires Destination !in d && staged in d && staged.Sibling? && d[staged].Complete?
    ensures var t := (d - {staged})[Destination := d[staged]]; Kept(d, t) && Serviceable(t)
  {
  }

  // ---- promotion ----

  datatype Promotion = Promoted(backup: Option<Path>) | NotPromoted

  method PromoteInstallation(fs: FileSystem, pid: nat, staged: Path) returns (r: Promotion)
    requires fs.Valid()
    requires staged.Sibling? && !IsBackup(staged) && staged in fs.disk && fs.disk[staged].Complete?
    modifies fs`disk, fs`trail, fs`faults, fs`clock
    ensures fs.Valid() && fs.Grown(old(fs.trail), old(fs.disk)) && Kept(old(fs.disk), fs.disk)
    ensures r.Promoted? ==> Destination in fs.disk && fs.disk[Destination] == old(fs.disk)[staged]
    ensures r.Promoted? ==> (r.backup.Some? <==> Destination in old(fs.disk))
    ensures r.Promoted? && r.backup.Some? ==> r.backup.value in fs.disk && IsBackup(r.backup.value)
                                              && fs.disk[r.backup.value] == old(fs.disk)[Destination]
    ensures old(fs.faults) <= fs.faults && forall f <- Since(old(fs.faults), fs.faults) :: !f.Remove?
    ensures r.Promoted? <==> fs.faults == old(fs.faults)
    ensures r.NotPromoted? ==> !OnlyRemovals(Since(old(fs.faults), fs.faults))
    ensures r.Promoted? ==> staged !in fs.disk && forall p <- fs.disk :: p.Sibling? ==> p in old(fs.disk) || r.backup == Some(p)
    ensures |fs.faults| == |old(fs.faults)| + 1 ==> fs.disk == old(fs.disk)
  {
    hide Sound, Serviceable, Kept, OnlyRemovals, Since;
    ghost var start, first, faults := fs.disk, fs.trail, fs.faults;
    var stamp := fs.Now();
    var backup := Sibling(Backup, pid, stamp);
    var hadDestination := Destination in fs.disk;
    assert Dated(start, stamp) && backup !in start;
    SameKept(start);
    if hadDestination {
      var moved := SetAside(fs, backup);
      if !moved {
        OneFault(faults, Move(Destination, backup));
        return NotPromoted;
      }
    }
    ghost var aside, second, between := fs.disk, fs.trail, fs.faults;
    r := Promoted(if hadDestination then Some(backup) else None);
    var activated := ActivateOrRestore(fs, staged, r.backup);
    Onwards(fs, first, start, second, aside);
    NoneSince(faults);
    if !activated {
      r := NotPromoted;
    }
  }

  /** The second rename and, if it fails, the way back. */
  method ActivateOrRestore(fs: FileSystem, staged: Path, backup: Option<Path>) returns (ok: bool)
    requires fs.Valid() && Destination !in fs.disk
    requires staged.Sibling? && staged in fs.disk && fs.disk[staged].Complete?
    requires backup.Some? ==> IsNewest(fs.disk, backup.value)
    modifies fs`disk, fs`trail, fs`faults
    ensures fs.Valid() && fs.Grown(old(fs.trail), old(fs.disk)) && Kept(old(fs.disk), fs.disk)
    ensures ok ==> fs.faults == old(fs.faults)
                   && fs.disk == (old(fs.disk) - {staged})[Destination := old(fs.disk)[staged]]
    ensures !ok ==> old(fs.faults) <= fs.faults && !OnlyRemovals(Since(old(fs.faults), fs.faults))
                    && forall f <- Since(old(fs.faults), fs.faults) :: !f.Remove?
    ensures !ok && |fs.faults| == |old(fs.faults)| + 1 ==>
              fs.disk == if backup.None? then old(fs.disk)
                         else (old(fs.disk) - {backup.value})[Destination := old(fs.disk)[backup.value]]
  {
    hide Sound, Serviceable, Kept, OnlyRemovals, Since;
    ghost var start, first, faults := fs.disk, fs.trail, fs.faults;
    SameKept(start);
    ok := Activate(fs, staged);
    OneFault(faults, Move(staged, Destination));
    if !ok && backup.Some? {
      ghost var second, failed := fs.trail, fs.faults;
      var restored := Restore(fs, backup.value);
      Onwards(fs, first, start, second, start);
      OneFault(failed, Move(backup.value, Destination));
      NoneSince(failed);
      SinceThrough(faults, failed, fs.faults);
    }
  }

  /** The first rename: the active tree becomes the newest backup. */
  method SetAside(fs: FileSystem, backup: Path) returns (ok: bool)
    requires fs.Valid() && Destination in fs.disk && IsBackup(backup) && backup !in fs.disk
    requires Dated(fs.disk, backup.stamp) && backup.stamp < fs.clock
    modifies fs`disk, fs`trail, fs`faults
    ensures fs.Valid() && fs.trail == old(fs.trail) + [fs.disk] && Kept(old(fs.disk), fs.disk)
    ensures fs.disk == if ok then (old(fs.disk) - {Destination})[backup := old(fs.disk)[Destination]] else old(fs.disk)
    ensures ok ==> IsNewest(fs.disk, backup)
    ensures fs.faults == if ok then old(fs.faults) else old(fs.faults) + [Move(Destination, backup)]
  {
    SetAsideKept(fs.disk, backup);
    SameKept(fs.disk);
    hide Sound, Serviceable, Kept;
    ok := fs.Rename(Destination, backup);
  }

  /** The second: the staged tree becomes active. */
  method Activate(fs: FileSystem, staged: Path) returns (ok: bool)
    requires fs.Valid() && Destination !in fs.disk
    requires staged.Sibling? && staged in fs.disk && fs.disk[staged].Complete?
    modifies fs`disk, fs`trail, fs`faults
    ensures fs.Valid() && fs.trail == old(fs.trail) + [fs.disk] && Kept(old(fs.disk), fs.disk)
    ensures fs.disk == if ok then (old(fs.disk) - {staged})[Destination := old(fs.disk)[staged]] else old(fs.disk)
    ensures fs.faults == if ok then old(fs.faults) else old(fs.faults) + [Move(staged, Destination)]
  {
    ActivateKept(fs.disk, staged);
    SameKept(fs.disk);
    hide Sound, Serviceable, Kept;
    ok := fs.Rename(staged, Destination);
  }

  /** Or, if that failed, the old tree comes back. */
  method Restore(fs: FileSystem, backup: Path) returns (ok: bool)
    requires fs.Valid() && Destination !in fs.disk && IsNewest(fs.disk, backup)
    modifies fs`disk, fs`trail, fs`faults
    ensures fs.Valid() && fs.trail == old(fs.trail) + [fs.disk] && Kept(old(fs.disk), fs.disk)
    ensures fs.disk == if ok then (old(fs.disk) - {backup})[Destination := old(fs.disk)[backup]] else old(fs.disk)
    ensures fs.faults == if ok then old(fs.faults) else old(fs.faults) + [Move(backup, Destination)]
  {
    RestoreKept(fs.disk, backup);
    SameKept(fs.disk);
    hide Sound, Serviceable, Kept;
    ok := fs.Rename(backup, Destination);
  }

  // ---- recovery ----

  function ByStamp(): (Path, Path) -> bool {
    (p: Path, q: Path) => (if p.Sibling? then p.stamp else 0) <= (if q.Sibling? then q.stamp else 0)
  }

  /** The backup that recovery would put back. */
  ghost predicate NewestStale(d: Disk, n: Path, stale: nat -> bool) {
    && n in d && IsBackup(n) && stale(n.pid)
    && forall q <- d :: IsBackup(q) && stale(q.pid) && q != n ==> q.stamp < n.stamp
  }

  /** Nothing is missing, or what recovery would put back is complete. */
  ghost predicate Recoverable(d: Disk, stale: nat -> bool) {
    Destination in d || forall n | NewestStale(d, n, stale) :: d[n].Complete?
  }

  /** Putting back the newest stale backup keeps the disk exactly when that
      backup is complete. */
  lemma RestoreExact(d: Disk, n: Path, stale: nat -> bool)
    requires Sound(d) && Destination !in d && NewestStale(d, n, stale)
    ensures var t := (d - {n})[Destination := d[n]];
      && (Sound(t) <==> d[n].Complete?) && (Kept(d, t) <==> d[n].Complete?)
      && (Recoverable(d, stale) <==> d[n].Complete?)
  {
    forall m | NewestStale(d, m, stale) ensures m == n {
      assert m in d && n in d;
    }
  }

  /** If the owner of the newest backup is gone, recovery is safe. */
  lemma NewestOwnerGone(d: Disk, stale: nat -> bool)
    requires Sound(d) && forall n | IsNewest(d, n) :: stale(n.pid)
    ensures Recoverable(d, stale)
  {
    forall n | Destination !in d && NewestStale(d, n, stale) ensures d[n].Complete? {
      var m :| IsNewest(d, m) && d[m].Complete?;
      assert m in d && n in d;
    }
  }

  /** Two backups are left, and no destination: the newest one of a live daemon
      whose promotion failed half way, and an older one whose removal was cut
      short. */
  function StuckDisk(): Disk { map[Sibling(Backup, 1, 9) := Complete(2), Sibling(Backup, 0, 4) := Partial] }

  /** On that disk recovery makes the partial tree active. */
  lemma LiveOwnerBreaksRecovery()
    ensures var d, cut, stale := StuckDisk(), Sibling(Backup, 0, 4), (pid: nat) => pid == 0;
      && Sound(d) && Serviceable(d) && NewestStale(d, cut, stale) && !Recoverable(d, stale)
      && !Sound((d - {cut})[Destination := d[cut]])
  {
    var live, cut, d := Sibling(Backup, 1, 9), Sibling(Backup, 0, 4), StuckDisk();
    assert IsNewest(d, live) && d[live].Complete?;
    RestoreExact(d, cut, (pid: nat) => pid == 0);
  }

  /** The operation takes effect. */
  predicate Performs(d: Disk, op: Operation, t: Disk) {
    match op
    case Make(p) => p.Sibling? && p !in d && t == d[p := Partial]
    case Fill(p, version) => p.Sibling? && p in d && t == d[p := Complete(version)]
    case Move(p, to) => p in d && to !in d && t == (d - {p})[to := d[p]]
    case CutShort(p) => p in d && t == d[p := Partial]
    case Remove(p) => p in d && t == d - {p}
  }

  ghost predicate Performed(disks: seq<Disk>, ops: seq<Operation>) {
    |disks| == |ops| + 1 && forall i | 0 <= i < |ops| :: Performs(disks[i], ops[i], disks[i + 1])
  }

  lemma AlsoPerformed(disks: seq<Disk>, ops: seq<Operation>, op: Operation, t: Disk)
    requires Performed(disks, ops) && Performs(disks[|ops|], op, t)
    ensures Performed(disks + [t], ops + [op])
  {
    var more, ops' := disks + [t], ops + [op];
    forall i | 0 <= i < |ops'| ensures Performs(more[i], ops'[i], more[i + 1]) {
      assert i < |ops| ==> more[i + 1] == disks[i + 1];
    }
  }

  /** A staging directory, created and filled. */
  lemma Staged(disks: seq<Disk>, ops: seq<Operation>, d: Disk, staging: Path, version: nat)
      returns (disks': seq<Disk>, ops': seq<Operation>)
    requires Performed(disks, ops) && |disks| == |ops| + 1 && disks[|ops|] == d && staging.Sibling? && staging !in d
    ensures Performed(disks', ops') && |disks'| == |ops'| + 1 && disks'[0] == disks[0]
    ensures disks'[|ops'|] == d[staging := Complete(version)]
  {
    AlsoPerformed(disks, ops, Make(staging), d[staging := Partial]);
    disks', ops' := disks + [d[staging := Partial]], ops + [Make(staging)];
    var filled := d[staging := Complete(version)];
    assert d[staging := Partial][staging := Complete(version)] == filled;
    AlsoPerformed(disks', ops', Fill(staging, version), filled);
    disks', ops' := disks' + [filled], ops' + [Fill(staging, version)];
  }

  /** The disk is reached from an empty one: daemon 0 installs, upgrades, and dies
      while it removes its backup; daemon 1 upgrades, but neither its activation
      nor its restore succeeds, and it cleans up and lives on. */
  lemma StuckDiskReached() returns (disks: seq<Disk>, ops: seq<Operation>)
    ensures |disks| == |ops| + 1 && Performed(disks, ops)
    ensures disks[0] == map[] && disks[|ops|] == StuckDisk()
  {
    hide Performed;
    var s1, s3, s7 := Sibling(Installing, 0, 1), Sibling(Installing, 0, 3), Sibling(Installing, 1, 7);
    var b4, b9 := Sibling(Backup, 0, 4), Sibling(Backup, 1, 9);
    disks, ops := NothingYet();
    disks, ops := Staged(disks, ops, map[], s1, 1);
    disks, ops := Then(disks, ops, Move(s1, Destination), map[Destination := Complete(1)]);
    disks, ops := Staged(disks, ops, map[Destination := Complete(1)], s3, 2);
    disks, ops := Then(disks, ops, Move(Destination, b4), map[s3 := Complete(2), b4 := Complete(1)]);
    disks, ops := Then(disks, ops, Move(s3, Destination), map[Destination := Complete(2), b4 := Complete(1)]);
    var found: Disk := map[Destination := Complete(2), b4 := Partial];
    disks, ops := Then(disks, ops, CutShort(b4), found);
    disks, ops := Staged(disks, ops, found, s7, 3);
    disks, ops := Then(disks, ops, Move(Destination, b9), map[s7 := Complete(3), b4 := Partial, b9 := Complete(2)]);
    disks, ops := Then(disks, ops, CutShort(s7), map[s7 := Partial, b4 := Partial, b9 := Complete(2)]);
    disks, ops := Then(disks, ops, Remove(s7), StuckDisk());
  }

  lemma NothingYet() returns (disks: seq<Disk>, ops: seq<Operation>)
    ensures Performed(disks, ops) && |disks| == |ops| + 1 && disks[0] == map[] && disks[|ops|] == map[]
  {
    disks, ops := [map[]], [];
  }

  lemma Then(disks: seq<Disk>, ops: seq<Operation>, op: Operation, t: Disk)
      returns (disks': seq<Disk>, ops': seq<Operation>)
    requires Performed(disks, ops) && |disks| == |ops| + 1 && Performs(disks[|ops|], op, t)
    ensures Performed(disks', ops') && |disks'| == |ops'| + 1 && disks'[0] == disks[0] && disks'[|ops'|] == t
  {
    AlsoPerformed(disks, ops, op, t);
    disks', ops' := disks + [t], ops + [op];
  }

  /** The last of the sorted backups is the newest stale one on disk. */
  lemma LastIsNewest(d: Disk, backups: seq<Path>, stale: nat -> bool)
    requires Distinct(d) && backups != []
    requires forall q :: q in backups <==> q in d && IsBackup(q) && stale(q.pid)
    ensures var sorted := Sort(ByStamp(), backups); sorted != [] && NewestStale(d, sorted[|sorted| - 1], stale)
    ensures forall b <- Sort(ByStamp(), backups) :: b in backups
  {
    hide Sort, Insert;
    var sorted := Sort(ByStamp(), backups);
    SameElements(ByStamp(), backups);
    SortSorted(ByStamp(), backups);
    SortPermutes(ByStamp(), backups);
    var last := sorted[|sorted| - 1];
    assert last in sorted && last in backups;
    forall q <- d | IsBackup(q) && stale(q.pid) && q != last ensures q.stamp < last.stamp {
      assert q in backups && q in sorted;
      var i :| 0 <= i < |sorted| && sorted[i] == q;
      assert i < |sorted| - 1 && ByStamp()(sorted[i], sorted[|sorted| - 1]);
      assert q.stamp != last.stamp;
    }
  }

  /** Recovery restores the newest backup whose owner is gone. Every moment of it
      keeps the disk, and of all disks just the recoverable ones are kept. */
  method RecoverStaleInstallSiblings(fs: FileSystem, stale: nat -> bool) returns (ok: bool)
    requires fs.Valid()
    modifies fs`disk, fs`trail, fs`faults, fs`found
    ensures fs.found == old(fs.found) + [old(fs.disk)]
    ensures fs.Valid() && old(fs.trail) <= fs.trail
    ensures (Sound(old(fs.disk)) ==> Recoverable(old(fs.disk), stale)) ==>
              fs.Grown(old(fs.trail), old(fs.disk)) && Kept(old(fs.disk), fs.disk)
    ensures ok && Sound(old(fs.disk)) && fs.Grown(old(fs.trail), old(fs.disk)) ==> Recoverable(old(fs.disk), stale)
    ensures Destination in old(fs.disk) ==> Destination in fs.disk && fs.disk[Destination] == old(fs.disk)[Destination]
    ensures forall n | ok && Destination !in old(fs.disk) && NewestStale(old(fs.disk), n, stale) ::
              n !in fs.disk && Destination in fs.disk && fs.disk[Destination] == old(fs.disk)[n]
    ensures forall n | ok && Destination !in old(fs.disk) && IsNewest(old(fs.disk), n) ::
              stale(n.pid) <==> n !in fs.disk && Destination in fs.disk && fs.disk[Destination] == old(fs.disk)[n]
    ensures ok && Destination !in old(fs.disk) && Destination in fs.disk ==> exists n :: NewestStale(old(fs.disk), n, stale)
    ensures SparesOwners(old(fs.disk), fs.disk, stale)
    ensures old(fs.faults) <= fs.faults && (ok <==> OnlyRemovals(Since(old(fs.faults), fs.faults)))
    ensures ok ==> Cleared(fs.disk, stale, Since(old(fs.faults), fs.faults))
    ensures forall p <- fs.disk :: p.Sibling? ==> p in old(fs.disk)
  {
    hide Sound, Serviceable, Recoverable, NewestStale, SparesOwners, OnlyRemovals, Since;
    ghost var faults := fs.faults;
    ghost var start, first := fs.disk, fs.trail;
    var backups := CollectBackups(fs, stale);
    ghost var cleaned, swept := fs.disk, fs.faults;
    SameNewest(start, cleaned, stale);
    NothingStale(start, cleaned, backups, stale);
    if Destination !in fs.disk && backups != [] {
      var restored;
      restored, backups := RestoreNewest(fs, backups, stale);
      KeptTransitive(start, cleaned, fs.disk);
      SinceThrough(faults, swept, fs.faults);
      if !restored {
        return false;
      }
    }
    ghost var middle, second := fs.disk, fs.trail;
    RemoveAll(fs, backups, stale);
    SinceThrough(faults, swept, fs.faults);
    Onwards(fs, first, start, second, middle);
    SparedThrough(start, cleaned, middle, stale);
    SparedThrough(start, middle, fs.disk, stale);
    NewestStays(start, fs.disk, stale);
    ok := true;
  }

  lemma NewestStays(d: Disk, t: Disk, stale: nat -> bool)
    requires SparesOwners(d, t, stale)
    ensures forall n | IsNewest(d, n) :: if stale(n.pid) then NewestStale(d, n, stale) else n in t
  {
    forall n | IsNewest(d, n) && !stale(n.pid) ensures n in t {
      assert Untouched(d, t, n);
    }
  }

  lemma SparedThrough(a: Disk, b: Disk, c: Disk, stale: nat -> bool)
    ensures SparesOwners(a, b, stale) && SparesOwners(b, c, stale) ==> SparesOwners(a, c, stale)
  {
    if SparesOwners(a, b, stale) && SparesOwners(b, c, stale) {
      forall p: Path | p.Sibling? && !stale(p.pid) ensures Untouched(a, c, p) {
        assert Untouched(a, b, p) && Untouched(b, c, p);
      }
    }
  }

  lemma AllButLast(backups: seq<Path>)
    requires Sort(ByStamp(), backups) != []
    ensures var sorted := Sort(ByStamp(), backups); var last := |sorted| - 1;
      forall b :: b in backups <==> b in sorted[..last] || b == sorted[last]
  {
    var sorted := Sort(ByStamp(), backups);
    SameElements(ByStamp(), backups);
    assert sorted == sorted[..|sorted| - 1] + [sorted[|sorted| - 1]];
  }

  /** Sort the collected backups and rename the last one into place. */
  method RestoreNewest(fs: FileSystem, backups: seq<Path>, stale: nat -> bool) returns (ok: bool, rest: seq<Path>)
    requires fs.Valid() && Destination !in fs.disk && backups != []
    requires forall q :: q in backups <==> q in fs.disk && IsBackup(q) && stale(q.pid)
    modifies fs`disk, fs`trail, fs`faults
    ensures fs.Valid() && fs.trail == old(fs.trail) + [fs.disk]
    ensures forall b <- rest :: b in backups
    ensures ok ==> fs.faults == old(fs.faults) && forall b <- backups :: b in rest || b !in fs.disk
    ensures !ok ==> old(fs.faults) <= fs.faults && !OnlyRemovals(Since(old(fs.faults), fs.faults))
    ensures forall p <- fs.disk :: p.Sibling? ==> p in old(fs.disk)
    ensures !ok ==> fs.disk == old(fs.disk)
    ensures ok ==> Destination in fs.disk
    ensures forall n | NewestStale(old(fs.disk), n, stale) ::
              ok ==> n !in fs.disk && fs.disk[Destination] == old(fs.disk)[n]
    ensures ok && Sound(old(fs.disk)) ==> (Sound(fs.disk) <==> Recoverable(old(fs.disk), stale))
    ensures Sound(old(fs.disk)) && Recoverable(old(fs.disk), stale) ==> Kept(old(fs.disk), fs.disk)
    ensures (exists n :: NewestStale(old(fs.disk), n, stale)) && SparesOwners(old(fs.disk), fs.disk, stale)
  {
    hide Sound, Serviceable, Recoverable, NewestStale, Distinct;
    ghost var start := fs.disk;
    assert Distinct(start) by { assert start == fs.trail[|fs.trail| - 1]; }
    LastIsNewest(start, backups, stale);
    rest := Sort(ByStamp(), backups);
    var newest := rest[|rest| - 1];
    rest := rest[..|rest| - 1];
    AllButLast(backups);
    hide ByStamp, Sort;
    SameKept(start);
    NewestUnique(start, newest, stale);
    if Sound(start) {
      RestoreExact(start, newest, stale);
    }
    ok := fs.Rename(newest, Destination);
    OneFault(old(fs.faults), Move(newest, Destination));
  }

  lemma NewestUnique(d: Disk, n: Path, stale: nat -> bool)
    requires NewestStale(d, n, stale)
    ensures n in d && IsBackup(n) && stale(n.pid)
    ensures forall m | NewestStale(d, m, stale) :: m == n
  {
    forall m | NewestStale(d, m, stale) ensures m == n {
      assert m in d && n in d;
    }
  }

  /** No stale backup collected, nothing to put back. */
  lemma NothingStale(start: Disk, d: Disk, backups: seq<Path>, stale: nat -> bool)
    requires forall q :: q in backups <==> q in d && IsBackup(q) && stale(q.pid)
    ensures backups == [] ==> Recoverable(d, stale) && forall n :: !NewestStale(d, n, stale)
    ensures Destination in d ==> Recoverable(d, stale)
  {
    forall n | NewestStale(d, n, stale) ensures backups != [] {
      assert n in backups;
    }
  }

  /** Whoever touches no backup changes nothing about the newest ones. */
  lemma SameNewest(d: Disk, t: Disk, stale: nat -> bool)
    requires forall q | IsBackup(q) :: Untouched(d, t, q)
    ensures forall n :: NewestStale(d, n, stale) <==> NewestStale(t, n, stale)
    ensures forall n | NewestStale(d, n, stale) :: n in d && n in t && t[n] == d[n]
    ensures (Destination in d <==> Destination in t) ==> (Recoverable(d, stale) <==> Recoverable(t, stale))
  {
  }

  /** Removing a staging tree, or a backup once a destination is there, changes
      nothing else and keeps everything at every moment. */
  method RemoveSibling(fs: FileSystem, path: Path, ghost start: Disk) returns (ok: bool)
    requires fs.Valid() && Kept(start, fs.disk)
    requires path.Sibling? && (IsBackup(path) ==> Destination in fs.disk)
    modifies fs`disk, fs`trail, fs`faults
    ensures fs.Valid() && fs.Grown(old(fs.trail), start) && Kept(start, fs.disk)
    ensures ok ==> path !in fs.disk
    ensures fs.faults == if ok then old(fs.faults) else old(fs.faults) + [Remove(path)]
    ensures fs.disk.Keys <= old(fs.disk).Keys
    ensures forall q | q != path :: (q in fs.disk <==> q in old(fs.disk)) && (q in fs.disk ==> fs.disk[q] == old(fs.disk)[q])
  {
    ghost var before := fs.disk;
    ok := fs.RemovePath(path);
    forall t | t == before || Removing(before, path, t) ensures Kept(start, t) {
      RemovalKept(before, path, t);
      KeptTransitive(start, before, t);
    }
    RemovalKept(before, path, fs.disk);
  }

  /** The loop over the directory: stale staging trees go, stale backups are
      collected. */
  method CollectBackups(fs: FileSystem, stale: nat -> bool) returns (backups: seq<Path>)
    requires fs.Valid()
    modifies fs`disk, fs`trail, fs`faults, fs`found
    ensures fs.found == old(fs.found) + [old(fs.disk)]
    ensures fs.Valid() && fs.Grown(old(fs.trail), old(fs.disk)) && Kept(old(fs.disk), fs.disk)
    ensures Destination in old(fs.disk) <==> Destination in fs.disk
    ensures Destination in fs.disk ==> fs.disk[Destination] == old(fs.disk)[Destination]
    ensures forall q | IsBackup(q) :: Untouched(old(fs.disk), fs.disk, q)
    ensures SparesOwners(old(fs.disk), fs.disk, stale)
    ensures forall q :: q in backups <==> q in fs.disk && IsBackup(q) && stale(q.pid)
    ensures old(fs.faults) <= fs.faults && OnlyRemovals(Since(old(fs.faults), fs.faults))
    ensures fs.disk.Keys <= old(fs.disk).Keys
    ensures forall p <- fs.disk :: p.Sibling? && stale(p.pid) ==> p in backups || Remove(p) in Since(old(fs.faults), fs.faults)
  {
    hide Sound, Serviceable;
    backups := [];
    ghost var start := fs.disk;
    SameKept(start);
    var entries := fs.ReadDir();
    while entries != {}
      invariant fs.Valid() && fs.Grown(old(fs.trail), start) && Kept(start, fs.disk)
      invariant fs.found == old(fs.found) + [start]
      invariant Destination in start <==> Destination in fs.disk
      invariant Destination in fs.disk ==> fs.disk[Destination] == start[Destination]
      invariant forall q | IsBackup(q) :: Untouched(start, fs.disk, q)
      invariant SparesOwners(start, fs.disk, stale)
      invariant forall b <- backups :: b in fs.disk && IsBackup(b) && stale(b.pid)
      invariant forall q <- fs.disk :: IsBackup(q) && stale(q.pid) && q !in entries ==> q in backups
      invariant old(fs.faults) <= fs.faults && OnlyRemovals(Since(old(fs.faults), fs.faults))
      invariant fs.disk.Keys <= start.Keys
      invariant forall p <- fs.disk :: p.Sibling? && stale(p.pid) ==>
                  p in entries || p in backups || Remove(p) in Since(old(fs.faults), fs.faults)
      decreases |entries|
    {
      var path :| path in entries;
      entries := entries - {path};
      if path.Sibling? && stale(path.pid) {
        if path.tag == Backup {
          if path in fs.disk {
            backups := backups + [path];
          }
        } else {
          ghost var before := fs.faults;
          var ok := RemoveSibling(fs, path, start);
          SinceThrough(old(fs.faults), before, fs.faults);
        }
      }
    }
  }

  method RemoveAll(fs: FileSystem, backups: seq<Path>, ghost stale: nat -> bool)
    requires fs.Valid()
    requires forall b <- backups :: IsBackup(b) && stale(b.pid)
    requires backups != [] ==> Destination in fs.disk
    modifies fs`disk, fs`trail, fs`faults
    ensures fs.Valid() && fs.Grown(old(fs.trail), old(fs.disk)) && Kept(old(fs.disk), fs.disk)
    ensures Destination in old(fs.disk) <==> Destination in fs.disk
    ensures Destination in fs.disk ==> fs.disk[Destination] == old(fs.disk)[Destination]
    ensures fs.disk.Keys <= old(fs.disk).Keys && SparesOwners(old(fs.disk), fs.disk, stale)
    ensures old(fs.faults) <= fs.faults && OnlyRemovals(Since(old(fs.faults), fs.faults))
    ensures forall b <- backups :: b in fs.disk ==> Remove(b) in Since(old(fs.faults), fs.faults)
  {
    hide Sound, Serviceable;
    ghost var start := fs.disk;
    SameKept(start);
    for i := 0 to |backups|
      invariant fs.Valid() && Kept(start, fs.disk) && fs.Grown(old(fs.trail), start)
      invariant fs.disk.Keys <= start.Keys && SparesOwners(start, fs.disk, stale)
      invariant old(fs.faults) <= fs.faults && OnlyRemovals(Since(old(fs.faults), fs.faults))
      invariant forall b <- backups[..i] :: b in fs.disk ==> Remove(b) in Since(old(fs.faults), fs.faults)
      invariant Destination in start <==> Destination in fs.disk
      invariant Destination in fs.disk ==> fs.disk[Destination] == start[Destination]
    {
      assert backups[i] in backups && backups[..i + 1] == backups[..i] + [backups[i]];
      ghost var before := fs.faults;
      var ok := RemoveSibling(fs, backups[i], start);
      SinceThrough(old(fs.faults), before, fs.faults);
    }
    assert backups[..|backups|] == backups;
  }

  // ---- one installation ----

  class StagingGuard {
    const path: Path
    var finished: bool
    var cleanupSafe: bool

    constructor (path: Path)
      ensures this.path == path && !finished && cleanupSafe
    {
      this.path, finished, cleanupSafe := path, false, true;
    }

    method MarkPromoted()
      modifies this
      ensures finished && cleanupSafe == old(cleanupSafe)
    {
      finished := true;
    }

    /** A command still running owns the tree; leave it for recovery. */
    method DeferCleanup()
      modifies this
      ensures !cleanupSafe && finished == old(finished)
    {
      cleanupSafe := false;
    }

    method Cleanup(fs: FileSystem)
      requires fs.Valid() && path.Sibling? && !IsBackup(path)
      modifies this, fs`disk, fs`trail, fs`faults
      ensures fs.Valid() && fs.Grown(old(fs.trail), old(fs.disk)) && Kept(old(fs.disk), fs.disk)
      ensures old(finished) || !old(cleanupSafe) ==> fs.disk == old(fs.disk) && fs.trail == old(fs.trail)
      ensures finished && !old(finished) ==> path !in fs.disk
      ensures fs.faults == old(fs.faults) || fs.faults == old(fs.faults) + [Remove(path)]
      ensures !old(finished) && old(cleanupSafe) && fs.faults == old(fs.faults) ==> finished
    {
      SameKept(fs.disk);
      if finished || !cleanupSafe {
        return;
      }
      var ok := RemoveSibling(fs, path, fs.disk);
      if ok {
        finished := true;
      }
    }
  }

  /** Success activates exactly the new version. Success, failure and a crash at
      any moment leave a serviceable disk serviceable, and of all disks just the
      recoverable ones. */
  method DoInstall(fs: FileSystem, pid: nat, version: nat, stale: nat -> bool) returns (ok: bool)
    requires fs.Valid()
    modifies fs
    ensures fs.found == old(fs.found) + [old(fs.disk)]
    ensures fs.Valid() && old(fs.trail) <= fs.trail
    ensures (Sound(old(fs.disk)) ==> Recoverable(old(fs.disk), stale)) ==>
              fs.Grown(old(fs.trail), old(fs.disk)) && Kept(old(fs.disk), fs.disk)
    ensures ok && Sound(old(fs.disk)) && fs.Grown(old(fs.trail), old(fs.disk)) ==> Recoverable(old(fs.disk), stale)
    ensures ok ==> Destination in fs.disk && fs.disk[Destination] == Complete(version)
    ensures old(fs.faults) <= fs.faults && (ok <==> OnlyRemovals(Since(old(fs.faults), fs.faults)))
    ensures ok ==> forall p <- fs.disk :: p.Sibling? ==>
              (p in old(fs.disk) && !stale(p.pid)) || Remove(p) in Since(old(fs.faults), fs.faults)
  {
    hide Sound, Serviceable, Recoverable, NewestStale, Kept, OnlyRemovals, Since;
    ghost var faults := fs.faults;
    ghost var start, first := fs.disk, fs.trail;
    var recovered := RecoverStaleInstallSiblings(fs, stale);
    if !recovered {
      return false;
    }
    ghost var second, middle, recovery := fs.trail, fs.disk, fs.faults;
    var path, staging;
    ok, path, staging := Stage(fs, pid, version);
    Onwards(fs, first, start, second, middle);
    SinceThrough(faults, recovery, fs.faults);
    if !ok {
      return false;
    }
    NoneSince(recovery);
    ghost var third, staged := fs.trail, fs.disk;
    var promotion := PromoteInstallation(fs, pid, path);
    Onwards(fs, first, start, third, staged);
    SinceThrough(faults, recovery, fs.faults);
    ghost var fourth, promoted, promoting := fs.trail, fs.disk, fs.faults;
    if promotion.NotPromoted? {
      staging.Cleanup(fs);
      Onwards(fs, first, start, fourth, promoted);
      SinceThrough(faults, promoting, fs.faults);
      return false;
    }
    staging.MarkPromoted();
    if promotion.backup.Some? {
      RemoveAll(fs, [promotion.backup.value], _ => true);
      Onwards(fs, first, start, fourth, promoted);
      SinceThrough(faults, recovery, fs.faults);
      assert promotion.backup.value in [promotion.backup.value];
    }
  }

  lemma NoneSince(faults: seq<Operation>)
    ensures Since(faults, faults) == [] && OnlyRemovals([])
  {
  }

  /** A fresh staging directory, filled with a complete tree, or cleaned up. */
  method Stage(fs: FileSystem, pid: nat, version: nat) returns (ok: bool, path: Path, staging: StagingGuard)
    requires fs.Valid()
    modifies fs`disk, fs`trail, fs`faults, fs`clock
    ensures fs.Valid() && fs.Grown(old(fs.trail), old(fs.disk)) && Kept(old(fs.disk), fs.disk)
    ensures path.Sibling? && path.tag == Installing && staging.path == path && fresh(staging)
    ensures ok ==> path in fs.disk && fs.disk[path] == Complete(version)
    ensures ok ==> fs.faults == old(fs.faults) && path !in old(fs.disk) && fs.disk == old(fs.disk)[path := Complete(version)]
    ensures !ok ==> old(fs.faults) <= fs.faults && !OnlyRemovals(Since(old(fs.faults), fs.faults))
  {
    hide Sound, Serviceable;
    ghost var start := fs.disk;
    var stamp := fs.Now();
    path := Sibling(Installing, pid, stamp);
    staging := new StagingGuard(path);
    SameKept(start);
    StagingKept(start, path, Partial);
    assert path !in start by { assert Dated(start, stamp); }
    var created := fs.CreateDir(path);
    if !created {
      OneFault(old(fs.faults), Make(path));
      return false, path, staging;
    }
    ghost var made := fs.disk;
    StagingKept(made, path, Partial);
    StagingKept(made, path, Complete(version));
    ok := fs.Populate(path, version);
    KeptTransitive(start, made, fs.disk);
    if !ok {
      var stillRunning := *;
      if stillRunning {
        staging.DeferCleanup();
      }
      ghost var trail, middle := fs.trail, fs.disk;
      staging.Cleanup(fs);
      GrownOn(fs, old(fs.trail), start, trail, middle);
      OneFault(old(fs.faults), Fill(path, version));
      SinceThrough(old(fs.faults), old(fs.faults) + [Fill(path, version)], fs.faults);
    }
  }

  /** Two stretches of the trail, one after the other. */
  lemma GrownOn(fs: FileSystem, first: seq<Disk>, start: Disk, second: seq<Disk>, middle: Disk)
    requires first <= second && (forall i | |first| <= i < |second| :: Kept(start, second[i]))
    requires Kept(start, middle) && fs.Grown(second, middle) && Kept(middle, fs.disk)
    ensures fs.Grown(first, start) && Kept(start, fs.disk)
  {
    forall i | |first| <= i < |fs.trail| ensures Kept(start, fs.trail[i]) {
      if i < |second| {
        assert fs.trail[i] == second[i];
      } else {
        KeptTransitive(start, middle, fs.trail[i]);
      }
    }
    KeptTransitive(start, middle, fs.disk);
  }

  /** One stretch of the trail added to another: it keeps the disk if both do,
      and cannot mend a moment that was lost. */
  lemma Onwards(fs: FileSystem, first: seq<Disk>, start: Disk, second: seq<Disk>, middle: Disk)
    requires first <= second && fs.Grown(second, middle) && Kept(middle, fs.disk)
    ensures first <= fs.trail
    ensures (forall i | |first| <= i < |second| :: Kept(start, second[i])) && Kept(start, middle) ==>
              fs.Grown(first, start) && Kept(start, fs.disk)
    ensures fs.Grown(first, start) ==> forall i | |first| <= i < |second| :: Kept(start, second[i])
  {
    hide Kept;
    if (forall i | |first| <= i < |second| :: Kept(start, second[i])) && Kept(start, middle) {
      GrownOn(fs, first, start, second, middle);
    }
    if fs.Grown(first, start) {
      forall i | |first| <= i < |second| ensures Kept(start, second[i]) {
        assert fs.trail[i] == second[i];
      }
    }
  }

  /** One daemon: the version it installs, and which owners it finds gone. */
  datatype Process = Process(version: nat, stale: nat -> bool)

  /** Any number of daemons, one installing after another; each may be killed at
      any moment of its installation, or live on and own what it left behind. As
      long as each finds a recoverable disk, a complete tree once active is never
      lost; and a recovery that finds the owner of the newest backup gone makes
      the destination complete again. */
  method Lifetime(fs: FileSystem, processes: seq<Process>, last: Process) returns (recovered: bool)
    requires fs.Valid() && fs.found == []
    modifies fs
    ensures fs.Valid() && |fs.found| == |processes| + 1 && fs.found[0] == old(fs.disk)
    ensures AllRecoverable(fs.found, processes + [last]) ==> Kept(old(fs.disk), fs.disk)
    ensures AllRecoverable(fs.found, processes + [last]) && Sound(old(fs.disk)) && Serviceable(old(fs.disk))
            && recovered && (forall n | IsNewest(fs.found[|processes|], n) :: last.stale(n.pid)) ==>
              Destination in fs.disk && fs.disk[Destination].Complete?
  {
    hide Sound, Serviceable, Recoverable;
    ghost var start, all := fs.disk, processes + [last];
    SameKept(start);
    for pid := 0 to |processes|
      invariant fs.Valid() && |fs.found| == pid
      invariant (fs.found + [fs.disk])[0] == start
      invariant AllRecoverable(fs.found, all) ==> Kept(start, fs.disk)
    {
      ghost var before := fs.disk;
      FoundOne(fs.found + [before], all);
      var from := |fs.trail| - 1;
      var ok := DoInstall(fs, pid, processes[pid].version, processes[pid].stale);
      var killed := *;
      if killed {
        SameKept(before);
        fs.Crash(from);
      }
      KeptTransitive(start, before, fs.disk);
    }
    ghost var before := fs.disk;
    FoundOne(fs.found + [before], all);
    recovered := RecoverStaleInstallSiblings(fs, last.stale);
    KeptTransitive(start, before, fs.disk);
    if recovered && forall n | IsNewest(before, n) :: last.stale(n.pid) {
      MadeWhole(before, fs.disk, last.stale);
    }
  }

  ghost predicate AllRecoverable(found: seq<Disk>, processes: seq<Process>)
    requires |found| <= |processes|
  {
    forall i | 0 <= i < |found| :: Sound(found[i]) ==> Recoverable(found[i], processes[i].stale)
  }

  /** In particular a daemon that finds every earlier owner gone. */
  lemma AllGone(found: seq<Disk>, processes: seq<Process>)
    requires |found| <= |processes| && forall i, pid | 0 <= i < |processes| :: processes[i].stale(pid)
    ensures AllRecoverable(found, processes)
  {
    forall i | 0 <= i < |found| && Sound(found[i]) ensures Recoverable(found[i], processes[i].stale) {
      NewestOwnerGone(found[i], processes[i].stale);
    }
  }

  lemma FoundOne(found: seq<Disk>, processes: seq<Process>)
    requires 0 < |found| <= |processes|
    ensures AllRecoverable(found, processes) ==> AllRecoverable(found[..|found| - 1], processes)
    ensures AllRecoverable(found, processes) && Sound(found[|found| - 1]) ==>
              Recoverable(found[|found| - 1], processes[|found| - 1].stale)
  {
  }

  /** If a serviceable disk has no destination, its newest backup is stale and
      comes back. */
  lemma MadeWhole(d: Disk, t: Disk, stale: nat -> bool)
    requires forall n | IsNewest(d, n) :: stale(n.pid)
    requires Destination in d ==> Destination in t
    requires forall n | Destination !in d && NewestStale(d, n, stale) :: Destination in t
    ensures Serviceable(d) && Sound(t) ==> Destination in t && t[Destination].Complete?
  {
    if Serviceable(d) && Destination !in d {
      var n :| IsNewest(d, n) && d[n].Complete?;
      assert NewestStale(d, n, stale);
    }
  }
}
