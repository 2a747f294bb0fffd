/** The formatter's multi-file rewrite: stage, verify, commit by renames, roll back. Any
    system call may fail at any time; the disk remembers every state it went through. */
module Transaction {
  import opened Options

  type Path = string
  type Bytes = string
  type Files = map<Path, Bytes>

  predicate Holds(files: Files, path: Path, bytes: Bytes) {
    path in files && files[path] == bytes
  }

  /** The files after a call, and the path whose directory the call has synced, if it has. */
  datatype Moment = Moment(files: Files, synced: Option<Path>)

  /** System calls. Call number n fails if faults(n); a name that already exists cannot be
      reserved. History holds the moment after every call. */
  class Disk {
    var files: Files
    var clock: nat
    const faults: nat -> bool
    const names: nat -> Path
    ghost var history: seq<Moment>

    method Rename(a: Path, b: Path) returns (ok: bool)
      requires a != b
      modifies this
      ensures ok ==> a in old(files) && files == (old(files) - {a})[b := old(files)[a]]
      ensures !ok ==> files == old(files)
      ensures ok <==> a in old(files) && !faults(old(clock))
      ensures history == old(history) + [Moment(files, None)] && clock == old(clock) + 1
    {
      ok := a in files && !faults(clock);
      if ok { files := (files - {a})[b := files[a]]; }
      Tick(None);
    }

    method Unlink(a: Path) returns (ok: bool)
      modifies this
      ensures ok <==> a in old(files) && !faults(old(clock))
      ensures files == if ok then old(files) - {a} else old(files)
      ensures history == old(history) + [Moment(files, None)] && clock == old(clock) + 1
    {
      ok := a in files && !faults(clock);
      if ok { files := files - {a}; }
      Tick(None);
    }

    /** A new empty file under a name that was not in use. */
    method Reserve() returns (name: Option<Path>)
      modifies this
      ensures name.Some? ==> name.value !in old(files) && files == old(files)[name.value := ""]
      ensures name.Some? <==> names(old(clock)) !in old(files) && !faults(old(clock))
      ensures name.Some? ==> name.value == names(old(clock))
      ensures name.None? ==> files == old(files)
      ensures history == old(history) + [Moment(files, None)] && clock == old(clock) + 1
    {
      if names(clock) in files || faults(clock) {
        name := None;
      } else {
        name := Some(names(clock));
        files := files[names(clock) := ""];
      }
      Tick(None);
    }

    /** Writing, setting the mode, syncing and closing; a failure leaves a partial file. */
    method Fill(path: Path, bytes: Bytes, partial: nat) returns (ok: bool)
      requires path in files
      modifies this
      ensures path in files && SameOutside(old(files), files, {path}) && (ok ==> files[path] == bytes)
      ensures ok <==> !faults(old(clock))
      ensures history == old(history) + [Moment(files, None)] && clock == old(clock) + 1
    {
      ok := !faults(clock);
      files := files[path := if ok || partial > |bytes| then bytes else bytes[..partial]];
      Tick(None);
    }

    /** Reading or closing a file: no visible change. */
    method Settle() returns (ok: bool)
      modifies this
      ensures files == old(files) && (ok <==> !faults(old(clock)))
      ensures history == old(history) + [Moment(files, None)] && clock == old(clock) + 1
    {
      ok := !faults(clock);
      Tick(None);
    }

    /** Syncs the directory of a path: no visible change either, but the call is on record. */
    method SyncParent(path: Path) returns (ok: bool)
      modifies this
      ensures files == old(files) && (ok <==> !faults(old(clock)))
      ensures history == old(history) + [Moment(files, if ok then Some(path) else None)] && clock == old(clock) + 1
    {
      ok := !faults(clock);
      Tick(if ok then Some(path) else None);
    }

    method Tick(ghost synced: Option<Path>)
      modifies this`clock, this`history
      ensures history == old(history) + [Moment(files, synced)] && clock == old(clock) + 1
    {
      clock := clock + 1;
      history := history + [Moment(files, synced)];
    }
  }

  /** One file of the package: its loaded text and its formatted text. */
  datatype Job = Job(path: Path, source: Bytes, formatted: Bytes)

  datatype Write = Write(path: Path, source: Bytes, target: Bytes, temporary: Option<Path>, backup: Option<Path>, originalInBackup: bool)

  // ------------------------------------------------------------------- invariants

  function Spare(w: Write): set<Path> {
    (if w.temporary.Some? then {w.temporary.value} else {}) + (if w.backup.Some? then {w.backup.value} else {})
  }

  function Names(w: Write): set<Path> { {w.path} + Spare(w) }

  ghost predicate Separate(ws: seq<Write>) {
    forall i, j :: 0 <= i < j < |ws| ==> Names(ws[i]) !! Names(ws[j])
  }

  /** Where the original and the formatted bytes of one write are. */
  ghost predicate Slot(files: Files, orig: Files, w: Write, done: bool) {
    && w.path in orig
    && (forall q :: q in Spare(w) ==> q !in orig && q in files)
    && (w.temporary.Some? && w.backup.Some? ==> w.temporary != w.backup)
    && (w.originalInBackup ==> w.backup.Some? && Holds(files, w.backup.value, orig[w.path]))
    && (!w.originalInBackup && !done ==> Holds(files, w.path, orig[w.path]))
    && (done ==> w.temporary.None? && Holds(files, w.path, w.target))
  }

  ghost predicate Bystanders(files: Files, orig: Files, ws: seq<Write>) {
    forall q :: q in orig && (forall i :: 0 <= i < |ws| ==> ws[i].path != q) ==> Holds(files, q, orig[q])
  }

  ghost predicate Consistent(files: Files, orig: Files, ws: seq<Write>, done: bool) {
    && Separate(ws)
    && (forall i :: 0 <= i < |ws| ==> Slot(files, orig, ws[i], done))
    && Bystanders(files, orig, ws)
  }

  ghost predicate NoStrays(files: Files, orig: Files, ws: seq<Write>) {
    forall q :: q in files ==> q in orig || exists i :: 0 <= i < |ws| && q in Spare(ws[i])
  }

  ghost predicate SameOutside(x: Files, y: Files, names: set<Path>) {
    forall q :: q !in names ==> (q in x <==> q in y) && (q in x ==> x[q] == y[q])
  }

  /** A step that only touches the names of write k keeps everything else in place. */
  lemma {:induction false} StepKeeps(x: Files, y: Files, orig: Files, ws: seq<Write>, k: nat, w: Write, done: bool)
    requires Consistent(x, orig, ws, done) && k < |ws|
    requires w.path == ws[k].path && Spare(w) <= Spare(ws[k]) && SameOutside(x, y, Names(ws[k])) && Slot(y, orig, w, done)
    ensures Consistent(y, orig, ws[k := w], done)
  {
    hide Slot, Bystanders, SameOutside;
    var after := ws[k := w];
    forall i | 0 <= i < |ws| ensures Slot(y, orig, after[i], done) {
      if i != k {
        assert Names(ws[i]) !! Names(ws[k]);
        SlotElsewhere(x, y, orig, ws[i], Names(ws[k]), done);
      }
    }
    assert Names(w) <= Names(ws[k]);
    assert Slot(x, orig, ws[k], done);
    BystandersKept(x, y, orig, ws, k, after, done);
  }

  lemma {:induction false} BystandersKept(x: Files, y: Files, orig: Files, ws: seq<Write>, k: nat, after: seq<Write>, done: bool)
    requires Bystanders(x, orig, ws) && k < |ws| == |after| && SameOutside(x, y, Names(ws[k])) && Slot(x, orig, ws[k], done)
    requires forall i :: 0 <= i < |ws| ==> ws[i].path == after[i].path
    ensures Bystanders(y, orig, after)
  {
    forall q | q in orig && (forall i :: 0 <= i < |ws| ==> after[i].path != q) ensures Holds(y, q, orig[q]) {
      assert after[k].path != q && q !in Spare(ws[k]);
    }
  }

  lemma {:induction false} SlotElsewhere(x: Files, y: Files, orig: Files, w: Write, names: set<Path>, done: bool)
    requires Slot(x, orig, w, done) && SameOutside(x, y, names) && Names(w) !! names
    ensures Slot(y, orig, w, done)
  {
    assert w.path in Names(w);
    if w.backup.Some? { assert w.backup.value in Names(w); }
  }

  lemma {:induction false} StraysKept(x: Files, y: Files, orig: Files, ws: seq<Write>, k: nat, w: Write)
    requires NoStrays(x, orig, ws) && k < |ws| && SameOutside(x, y, Names(ws[k])) && ws[k].path in orig
    requires forall q :: q in y && q in Spare(ws[k]) ==> q in Spare(w)
    ensures NoStrays(y, orig, ws[k := w])
  {
    var after := ws[k := w];
    forall q | q in y && q !in orig ensures exists i :: 0 <= i < |after| && q in Spare(after[i]) {
      if q in Spare(ws[k]) {
        assert q in Spare(after[k]);
      } else {
        assert q in x;
        var i :| 0 <= i < |ws| && q in Spare(ws[i]);
        assert q in Spare(after[i]);
      }
    }
  }

  // ----------------------------------------------------------------------- safety

  ghost predicate Intact(files: Files, orig: Files) {
    forall q :: q in orig ==> Holds(files, q, orig[q])
  }

  /** The original bytes of q are at q, or at the backup name reserved for it. */
  ghost predicate Recoverable(files: Files, orig: Files, plan: seq<Write>, q: Path)
    requires q in orig
  {
    || Holds(files, q, orig[q])
    || exists i :: 0 <= i < |plan| && plan[i].path == q && plan[i].backup.Some? && Holds(files, plan[i].backup.value, orig[q])
  }

  /** Every planned path holds its formatted bytes, every other file its original ones. */
  ghost predicate Rewritten(files: Files, orig: Files, plan: seq<Write>) {
    && (forall i :: 0 <= i < |plan| ==> Holds(files, plan[i].path, plan[i].target))
    && Bystanders(files, orig, plan)
  }

  ghost predicate Recovers(files: Files, orig: Files, plan: seq<Write>) {
    forall q :: q in orig ==> Recoverable(files, orig, plan, q)
  }

  /** Before moment k, the directory of every planned path was synced while all was rewritten. */
  ghost predicate SyncedBefore(history: seq<Moment>, start: nat, orig: Files, plan: seq<Write>, k: nat) {
    forall i :: 0 <= i < |plan| ==> PathSynced(history, start, orig, plan, k, plan[i].path)
  }

  ghost predicate PathSynced(history: seq<Moment>, start: nat, orig: Files, plan: seq<Write>, k: nat, path: Path) {
    exists n :: start <= n < k && n < |history| && history[n].synced == Some(path) && Rewritten(history[n].files, orig, plan)
  }

  /** At some moment the original was at its path and its directory was synced. */
  ghost predicate BackInPlace(history: seq<Moment>, from: nat, orig: Files, path: Path) {
    path in orig && exists n :: from <= n < |history| && history[n].synced == Some(path) && Holds(history[n].files, path, orig[path])
  }

  lemma {:induction false} StaysInPlace(x: seq<Moment>, y: seq<Moment>, from: nat, earlier: nat, orig: Files, path: Path)
    requires BackInPlace(x, from, orig, path) && x <= y && earlier <= from
    ensures BackInPlace(y, earlier, orig, path)
  {
    var n :| from <= n < |x| && x[n].synced == Some(path) && Holds(x[n].files, path, orig[path]);
    assert y[n] == x[n];
  }

  /** Until all is rewritten and synced, every original can be recovered. */
  ghost predicate Safe(history: seq<Moment>, start: nat, orig: Files, plan: seq<Write>, done: bool, k: nat, files: Files) {
    Recovers(files, orig, plan) || (done && Rewritten(files, orig, plan) && SyncedBefore(history, start, orig, plan, k))
  }

  ghost predicate AllSafe(history: seq<Moment>, start: nat, orig: Files, plan: seq<Write>, done: bool) {
    forall k :: start <= k < |history| ==> Safe(history, start, orig, plan, done, k, history[k].files)
  }

  lemma {:induction false} PathSyncedLater(history: seq<Moment>, m: Moment, start: nat, orig: Files, plan: seq<Write>, k: nat, l: nat, path: Path)
    requires PathSynced(history, start, orig, plan, k, path) && k <= l
    ensures PathSynced(history + [m], start, orig, plan, l, path)
  {
    hide Rewritten;
    var n :| start <= n < k && n < |history| && history[n].synced == Some(path) && Rewritten(history[n].files, orig, plan);
    assert (history + [m])[n] == history[n];
  }

  lemma {:induction false} SyncedLater(history: seq<Moment>, m: Moment, start: nat, orig: Files, plan: seq<Write>, k: nat, l: nat)
    requires SyncedBefore(history, start, orig, plan, k) && k <= l
    ensures SyncedBefore(history + [m], start, orig, plan, l)
  {
    hide PathSynced;
    forall i | 0 <= i < |plan| ensures PathSynced(history + [m], start, orig, plan, l, plan[i].path) {
      PathSyncedLater(history, m, start, orig, plan, k, l, plan[i].path);
    }
  }

  /** The writes still carry out the plan: same files, and no other backup names. */
  ghost predicate Follows(ws: seq<Write>, plan: seq<Write>) {
    && |ws| == |plan|
    && forall i :: 0 <= i < |ws| ==>
         && ws[i].path == plan[i].path && ws[i].target == plan[i].target && ws[i].source == plan[i].source
         && (ws[i].backup.Some? ==> ws[i].backup == plan[i].backup)
  }

  lemma {:induction false} ConsistentIsSafe(files: Files, orig: Files, ws: seq<Write>, plan: seq<Write>, done: bool)
    requires Consistent(files, orig, ws, done) && Follows(ws, plan)
    ensures !done ==> Recovers(files, orig, plan)
    ensures done ==> Rewritten(files, orig, plan)
  {
    if done {
      forall i | 0 <= i < |plan| ensures Holds(files, plan[i].path, plan[i].target) { assert Slot(files, orig, ws[i], done); }
    } else {
      forall q | q in orig ensures Recoverable(files, orig, plan, q) {
        if i :| 0 <= i < |ws| && ws[i].path == q {
          assert Slot(files, orig, ws[i], done);
        }
      }
    }
  }

  lemma {:induction false} NextSafe(history: seq<Moment>, start: nat, orig: Files, plan: seq<Write>, done: bool, m: Moment)
    requires AllSafe(history, start, orig, plan, done) && (done ==> SyncedBefore(history, start, orig, plan, |history|))
    requires if done then Rewritten(m.files, orig, plan) else Recovers(m.files, orig, plan)
    ensures AllSafe(history + [m], start, orig, plan, done)
    ensures done ==> SyncedBefore(history + [m], start, orig, plan, |history| + 1)
  {
    hide Recovers, Rewritten, SyncedBefore;
    var after := history + [m];
    if done {
      SyncedLater(history, m, start, orig, plan, |history|, |history|);
      SyncedLater(history, m, start, orig, plan, |history|, |history| + 1);
    }
    forall k | start <= k < |after| ensures Safe(after, start, orig, plan, done, k, after[k].files) {
      if k < |history| {
        assert Safe(history, start, orig, plan, done, k, history[k].files);
        if SyncedBefore(history, start, orig, plan, k) { SyncedLater(history, m, start, orig, plan, k, k); }
      }
    }
  }

  // ----------------------------------------------------------------------- faults

  ghost predicate FaultIn(disk: Disk, low: nat, high: nat) {
    exists n :: low <= n < high && disk.faults(n)
  }

  ghost predicate TwoFaults(disk: Disk, low: nat, high: nat) {
    exists m, n :: low <= m < n < high && disk.faults(m) && disk.faults(n)
  }

  lemma {:induction false} FaultWithin(disk: Disk, low: nat, a: nat, b: nat, high: nat)
    requires low <= a && b <= high && FaultIn(disk, a, b)
    ensures FaultIn(disk, low, high)
  {
  }

  lemma {:induction false} TwoFaultsWithin(disk: Disk, low: nat, a: nat, high: nat)
    requires low <= a && TwoFaults(disk, a, high)
    ensures TwoFaults(disk, low, high)
  {
    var m, n :| a <= m < n < high && disk.faults(m) && disk.faults(n);
  }

  // ------------------------------------------------------------------- the writes

  /** No call fails, and names for new files never collide. */
  ghost predicate Faultless(disk: Disk) {
    && (forall n :: !disk.faults(n))
    && (forall m, n :: m < n ==> disk.names(m) != disk.names(n))
  }

  /** Staged: the formatted bytes are on disk, and a backup name is reserved. */
  ghost predicate Ready(files: Files, w: Write) {
    && !w.originalInBackup
    && w.temporary.Some? && Holds(files, w.temporary.value, w.target)
    && w.backup.Some? && w.backup.value in files
  }

  ghost predicate Committed(files: Files, w: Write) {
    w.originalInBackup && w.temporary.None? && w.backup.Some? && Holds(files, w.path, w.target)
  }

  lemma {:induction false} KnownSlot(files: Files, orig: Files, ws: seq<Write>, k: nat, done: bool)
    requires Consistent(files, orig, ws, done) && k < |ws|
    ensures Slot(files, orig, ws[k], done)
  {
  }

  lemma {:induction false} OthersKept(x: Files, y: Files, orig: Files, ws: seq<Write>, k: nat, i: nat)
    requires Consistent(x, orig, ws, false) && k < |ws| && i < |ws| && i != k && SameOutside(x, y, Names(ws[k]))
    ensures Ready(x, ws[i]) ==> Ready(y, ws[i])
    ensures Committed(x, ws[i]) ==> Committed(y, ws[i])
  {
    hide Slot, Bystanders;
    assert Names(ws[k]) !! Names(ws[i]);
    assert ws[i].path in Names(ws[i]);
    assert ws[i].temporary.Some? ==> ws[i].temporary.value in Names(ws[i]);
    assert ws[i].backup.Some? ==> ws[i].backup.value in Names(ws[i]);
  }

  /** A rewrite in progress, after staging: the records of all changed files. */
  class Rewrite {
    const disk: Disk
    var writes: seq<Write>
    ghost const orig: Files
    ghost const plan: seq<Write>
    ghost const start: nat

    ghost predicate Valid(done: bool)
      reads this, disk
    {
      && start <= |disk.history|
      && Consistent(disk.files, orig, writes, done)
      && Follows(writes, plan)
      && AllSafe(disk.history, start, orig, plan, done)
      && (done ==> SyncedBefore(disk.history, start, orig, plan, |disk.history|))
    }

    constructor (disk: Disk, writes: seq<Write>, ghost orig: Files, ghost start: nat)
      requires Consistent(disk.files, orig, writes, false) && start <= |disk.history|
      requires AllIntact(disk.history, start, orig)
      ensures this.disk == disk && this.writes == writes && this.plan == writes && this.orig == orig && this.start == start
      ensures Valid(false)
    {
      this.disk, this.writes, this.orig, this.plan, this.start := disk, writes, orig, writes, start;
    }

    /** One step of write k: the new state of the disk and the new record fit together. */
    lemma {:induction false} Stepped(before: Files, history: seq<Moment>, was: seq<Write>, k: nat, w: Write, done: bool)
      requires Consistent(before, orig, was, done) && Follows(was, plan) && AllSafe(history, start, orig, plan, done) && k < |was|
      requires done ==> SyncedBefore(history, start, orig, plan, |history|)
      requires w.path == was[k].path && w.target == was[k].target && w.source == was[k].source
      requires w.backup.Some? ==> w.backup == was[k].backup
      requires Spare(w) <= Spare(was[k]) && SameOutside(before, disk.files, Names(was[k])) && Slot(disk.files, orig, w, done)
      requires writes == was[k := w] && start <= |history| && disk.history == history + [Moment(disk.files, None)]
      ensures Valid(done)
    {
      hide Slot, Safe, AllSafe, SameOutside, Names, Spare, SyncedBefore, Recovers, Rewritten;
      StepKeeps(before, disk.files, orig, was, k, w, done);
      ConsistentIsSafe(disk.files, orig, writes, plan, done);
      NextSafe(history, start, orig, plan, done, Moment(disk.files, None));
    }

    /** A sync or a failed call changes nothing. */
    lemma {:induction false} Unmoved(history: seq<Moment>, synced: Option<Path>, done: bool)
      requires Consistent(disk.files, orig, writes, done) && Follows(writes, plan) && AllSafe(history, start, orig, plan, done)
      requires done ==> SyncedBefore(history, start, orig, plan, |history|)
      requires start <= |history| && disk.history == history + [Moment(disk.files, synced)]
      ensures Valid(done)
    {
      hide Consistent, Safe, AllSafe, Follows, SyncedBefore, Recovers, Rewritten;
      ConsistentIsSafe(disk.files, orig, writes, plan, done);
      NextSafe(history, start, orig, plan, done, Moment(disk.files, synced));
    }

    /** No path has changed since it was loaded, as far as can be told. */
    method Verify() returns (ok: bool)
      requires Valid(false)
      modifies disk
      ensures Valid(false) && disk.files == old(disk.files)
      ensures ok ==> forall i :: 0 <= i < |writes| ==> Holds(disk.files, writes[i].path, writes[i].source)
      ensures Faultless(disk) && (forall i :: 0 <= i < |writes| ==> Holds(disk.files, writes[i].path, writes[i].source)) ==> ok
      ensures disk.clock >= old(disk.clock)
    {
      hide Consistent, AllSafe, SyncedBefore, Follows;
      var i := 0;
      while i < |writes|
        invariant disk.clock >= old(disk.clock)
        invariant 0 <= i <= |writes| && Valid(false) && disk.files == old(disk.files)
        invariant forall j :: 0 <= j < i ==> Holds(disk.files, writes[j].path, writes[j].source)
      {
        ghost var history := disk.history;
        var readable := disk.Settle();
        Unmoved(history, None, false);
        if !readable || !Holds(disk.files, writes[i].path, writes[i].source) { return false; }
        i := i + 1;
      }
      ok := true;
    }

    /** Renames one original to its backup and the staged file to the path. */
    method CommitOne(k: nat) returns (ok: bool)
      requires Valid(false) && k < |writes| && Ready(disk.files, writes[k]) && NoStrays(disk.files, orig, writes)
      modifies this`writes, disk
      ensures Valid(false) && NoStrays(disk.files, orig, writes) && |writes| == |old(writes)|
      ensures writes == old(writes)[k := writes[k]] && SameOutside(old(disk.files), disk.files, Names(old(writes[k])))
      ensures ok ==> Committed(disk.files, writes[k])
      ensures Faultless(disk) ==> ok
      ensures disk.clock >= old(disk.clock) && (!ok ==> FaultIn(disk, old(disk.clock), disk.clock))
    {
      hide Consistent, AllSafe, SyncedBefore, Follows, NoStrays, Intact;
      var w := writes[k];
      ghost var before, history, was := disk.files, disk.history, writes;
      KnownSlot(before, orig, writes, k, false);
      ok := disk.Rename(w.path, w.backup.value);
      if !ok {
        Unmoved(history, None, false);
        assert writes == was[k := writes[k]];
        return;
      }
      var moved := w.(originalInBackup := true);
      writes := writes[k := moved];
      ghost var middle, history' := disk.files, disk.history;
      assert Slot(middle, orig, moved, false);
      Stepped(before, history, was, k, moved, false);
      StraysKept(before, middle, orig, was, k, moved);
      ok := disk.Rename(w.temporary.value, w.path);
      if ok {
        var final := moved.(temporary := None);
        writes := writes[k := final];
        assert Slot(disk.files, orig, final, false);
        Stepped(middle, history', was[k := moved], k, final, false);
        StraysKept(middle, disk.files, orig, was[k := moved], k, final);
      } else {
        Unmoved(history', None, false);
      }
    }

    method Commit() returns (committed: nat)
      requires Valid(false) && NoStrays(disk.files, orig, writes)
      requires forall i :: 0 <= i < |writes| ==> Ready(disk.files, writes[i])
      modifies this`writes, disk
      ensures Valid(false) && NoStrays(disk.files, orig, writes)
      ensures committed <= |writes| && forall i :: 0 <= i < committed ==> Committed(disk.files, writes[i])
      ensures forall i :: committed < i < |writes| ==> !writes[i].originalInBackup
      ensures Faultless(disk) ==> committed == |writes|
      ensures disk.clock >= old(disk.clock) && (committed < |writes| ==> FaultIn(disk, old(disk.clock), disk.clock))
    {
      hide Consistent, AllSafe, SyncedBefore, Follows, NoStrays, Ready, Committed;
      committed := 0;
      while committed < |writes|
        invariant disk.clock >= old(disk.clock)
        invariant 0 <= committed <= |writes| && Valid(false) && NoStrays(disk.files, orig, writes)
        invariant forall i :: 0 <= i < committed ==> Committed(disk.files, writes[i])
        invariant forall i :: committed <= i < |writes| ==> Ready(disk.files, writes[i])
      {
        ghost var before, was := disk.files, writes;
        var ok := CommitOne(committed);
        forall i | 0 <= i < |was| && i != committed
          ensures Ready(before, was[i]) ==> Ready(disk.files, was[i])
          ensures Committed(before, was[i]) ==> Committed(disk.files, was[i])
        {
          OthersKept(before, disk.files, orig, was, committed, i);
        }
        if !ok {
          assert forall i :: committed < i < |writes| ==> !writes[i].originalInBackup by { NotMoved(disk.files, writes, committed); }
          return;
        }
        committed := committed + 1;
      }
    }

    /** Puts back one original, if it was moved away, and syncs its directory. */
    method RestoreOne(k: nat) returns (ok: bool)
      requires Valid(false) && k < |writes| && NoStrays(disk.files, orig, writes)
      modifies this`writes, disk
      ensures Valid(false) && NoStrays(disk.files, orig, writes) && |writes| == |old(writes)|
      ensures writes == old(writes)[k := writes[k]]
      ensures ok ==> !writes[k].originalInBackup
      ensures old(disk.history) <= disk.history
      ensures ok && old(writes[k].originalInBackup) ==>
        BackInPlace(disk.history, |old(disk.history)|, orig, old(writes[k].path)) || FaultIn(disk, old(disk.clock), disk.clock)
      ensures disk.clock >= old(disk.clock) && (!ok ==> FaultIn(disk, old(disk.clock), disk.clock))
    {
      hide Consistent, AllSafe, SyncedBefore, Follows, NoStrays, Intact;
      var w := writes[k];
      ghost var before, history, was := disk.files, disk.history, writes;
      assert was == was[k := was[k]];
      if !w.originalInBackup { return true; }
      KnownSlot(before, orig, writes, k, false);
      ok := disk.Rename(w.backup.value, w.path);
      if !ok { Unmoved(history, None, false); return; }
      var restored := w.(originalInBackup := false, backup := None);
      writes := writes[k := restored];
      assert Slot(disk.files, orig, restored, false);
      Stepped(before, history, was, k, restored, false);
      StraysKept(before, disk.files, orig, was, k, restored);
      history := disk.history;
      var synced := disk.SyncParent(w.path);
      Unmoved(history, if synced then Some(w.path) else None, false);
      assert disk.history[|history|] == Moment(disk.files, if synced then Some(w.path) else None);
    }

    method Rollback(limit: nat) returns (restored: bool)
      requires Valid(false) && limit <= |writes| && NoStrays(disk.files, orig, writes)
      requires forall i :: limit <= i < |writes| ==> !writes[i].originalInBackup
      modifies this`writes, disk
      ensures Valid(false) && NoStrays(disk.files, orig, writes)
      ensures restored ==> forall i :: 0 <= i < |writes| ==> !writes[i].originalInBackup
      ensures restored && !FaultIn(disk, old(disk.clock), disk.clock) ==>
        forall i :: 0 <= i < |old(writes)| && old(writes)[i].originalInBackup ==> BackInPlace(disk.history, |old(disk.history)|, orig, old(writes)[i].path)
      ensures disk.clock >= old(disk.clock) && (!restored ==> FaultIn(disk, old(disk.clock), disk.clock))
    {
      hide Consistent, AllSafe, SyncedBefore, Follows, NoStrays, BackInPlace;
      restored := true;
      var count := limit;
      while count > 0
        invariant disk.clock >= old(disk.clock) && (!restored ==> FaultIn(disk, old(disk.clock), disk.clock))
        invariant 0 <= count <= |writes| && Valid(false) && NoStrays(disk.files, orig, writes)
        invariant restored ==> forall i :: count <= i < |writes| ==> !writes[i].originalInBackup
        invariant |writes| == |old(writes)| && old(disk.history) <= disk.history
        invariant forall i :: 0 <= i < count ==> writes[i] == old(writes)[i]
        invariant restored && !FaultIn(disk, old(disk.clock), disk.clock) ==>
          forall i :: count <= i < |writes| && old(writes)[i].originalInBackup ==> BackInPlace(disk.history, |old(disk.history)|, orig, old(writes)[i].path)
      {
        count := count - 1;
        ghost var history, was := disk.history, writes;
        var ok := RestoreOne(count);
        forall i | 0 <= i < |writes| && BackInPlace(history, |old(disk.history)|, orig, old(writes)[i].path)
          ensures BackInPlace(disk.history, |old(disk.history)|, orig, old(writes)[i].path)
        {
          StaysInPlace(history, disk.history, |old(disk.history)|, |old(disk.history)|, orig, old(writes)[i].path);
        }
        if BackInPlace(disk.history, |history|, orig, was[count].path) {
          StaysInPlace(disk.history, disk.history, |history|, |old(disk.history)|, orig, was[count].path);
        }
        restored := restored && ok;
      }
    }

    /** Syncs the directories of all paths. */
    method Sync(done: bool) returns (ok: bool)
      requires Valid(done)
      modifies disk
      ensures Valid(done) && disk.files == old(disk.files)
      ensures ok && !done && Rewritten(disk.files, orig, plan) ==> SyncedBefore(disk.history, start, orig, plan, |disk.history|)
      ensures Faultless(disk) ==> ok
      ensures disk.clock >= old(disk.clock) && (!ok ==> FaultIn(disk, old(disk.clock), disk.clock))
    {
      hide Consistent, AllSafe, Follows, Rewritten, PathSynced;
      var i := 0;
      while i < |writes|
        invariant disk.clock >= old(disk.clock)
        invariant 0 <= i <= |writes| && Valid(done) && disk.files == old(disk.files)
        invariant !done && Rewritten(disk.files, orig, plan) ==>
          forall j :: 0 <= j < i && j < |plan| ==> PathSynced(disk.history, start, orig, plan, |disk.history|, plan[j].path)
      {
        ghost var history := disk.history;
        var path := writes[i].path;
        ok := disk.SyncParent(path);
        Unmoved(history, if ok then Some(path) else None, done);
        if !ok && !done { return; }
        if !done && Rewritten(disk.files, orig, plan) {
          SamePath(writes, plan, i);
          SyncRecorded(history, disk.history[|history|], start, orig, plan, i);
        }
        i := i + 1;
      }
      SameCount(writes, plan);
      ok := true;
    }

    /** Nothing needs the backups any more. */
    lemma {:induction false} BecomesDone()
      requires Valid(false) && forall i :: 0 <= i < |writes| ==> Committed(disk.files, writes[i])
      requires SyncedBefore(disk.history, start, orig, plan, |disk.history|)
      ensures Valid(true)
    {
      hide Follows, Bystanders, Separate, Recovers, Rewritten, SyncedBefore;
      forall i | 0 <= i < |writes| ensures Slot(disk.files, orig, writes[i], true) {
        assert Slot(disk.files, orig, writes[i], false);
      }
    }

    method DiscardOne(k: nat)
      requires Valid(true) && k < |writes| && writes[k].originalInBackup && NoStrays(disk.files, orig, writes)
      modifies this`writes, disk
      ensures Valid(true) && NoStrays(disk.files, orig, writes) && |writes| == |old(writes)|
      ensures writes == old(writes)[k := writes[k]]
      ensures Faultless(disk) ==> Spare(writes[k]) == {} && !writes[k].originalInBackup
      ensures disk.clock >= old(disk.clock)
    {
      hide Consistent, AllSafe, SyncedBefore, Follows, NoStrays, Intact;
      var w := writes[k];
      ghost var before, history, was := disk.files, disk.history, writes;
      assert was == was[k := was[k]];
      KnownSlot(before, orig, writes, k, true);
      var ok := disk.Unlink(w.backup.value);
      if !ok { Unmoved(history, None, true); return; }
      var discarded := w.(originalInBackup := false, backup := None);
      writes := writes[k := discarded];
      assert Slot(disk.files, orig, discarded, true);
      Stepped(before, history, was, k, discarded, true);
      StraysKept(before, disk.files, orig, was, k, discarded);
    }

    method Discard()
      requires Valid(true) && NoStrays(disk.files, orig, writes)
      requires forall i :: 0 <= i < |writes| ==> writes[i].originalInBackup
      modifies this`writes, disk
      ensures Valid(true) && NoStrays(disk.files, orig, writes)
      ensures Faultless(disk) ==> forall i :: 0 <= i < |writes| ==> Spare(writes[i]) == {} && !writes[i].originalInBackup
      ensures disk.clock >= old(disk.clock)
    {
      hide Consistent, AllSafe, SyncedBefore, Follows, NoStrays;
      var i := 0;
      while i < |writes|
        invariant disk.clock >= old(disk.clock)
        invariant 0 <= i <= |writes| && Valid(true) && NoStrays(disk.files, orig, writes)
        invariant forall j :: i <= j < |writes| ==> writes[j].originalInBackup
        invariant Faultless(disk) ==> forall j :: 0 <= j < i ==> Spare(writes[j]) == {} && !writes[j].originalInBackup
      {
        DiscardOne(i);
        i := i + 1;
      }
    }

    /** Removes the staging file and the unused backup reservation of one write. */
    method CleanOne(k: nat, done: bool) returns (tidy: bool)
      requires Valid(done) && k < |writes|
      modifies this`writes, disk
      ensures Valid(done) && |writes| == |old(writes)| && writes == old(writes)[k := writes[k]]
      ensures writes[k].originalInBackup == old(writes[k].originalInBackup) && (!writes[k].originalInBackup ==> Spare(writes[k]) == {})
      ensures tidy && old(NoStrays(disk.files, orig, writes)) ==> NoStrays(disk.files, orig, writes)
      ensures Spare(old(writes[k])) == {} ==> tidy
      ensures disk.clock >= old(disk.clock) && (!tidy ==> FaultIn(disk, old(disk.clock), disk.clock))
    {
      hide Consistent, AllSafe, SyncedBefore, Follows, NoStrays, Intact;
      tidy := true;
      if writes[k].temporary.Some? { tidy := DropTemporary(k, done); }
      if writes[k].backup.Some? && !writes[k].originalInBackup {
        var w := writes[k];
        ghost var before, history, was := disk.files, disk.history, writes;
        KnownSlot(before, orig, writes, k, done);
        var ok := disk.Unlink(w.backup.value);
        var cleaned := w.(backup := None);
        writes := writes[k := cleaned];
        assert Slot(disk.files, orig, cleaned, done);
        Stepped(before, history, was, k, cleaned, done);
        if ok && NoStrays(before, orig, was) { StraysKept(before, disk.files, orig, was, k, cleaned); }
        tidy := tidy && ok;
      }
    }

    method DropTemporary(k: nat, done: bool) returns (ok: bool)
      requires Valid(done) && k < |writes| && writes[k].temporary.Some?
      modifies this`writes, disk
      ensures Valid(done) && |writes| == |old(writes)|
      ensures writes == old(writes)[k := old(writes[k]).(temporary := None)]
      ensures ok && old(NoStrays(disk.files, orig, writes)) ==> NoStrays(disk.files, orig, writes)
      ensures disk.clock >= old(disk.clock) && (!ok ==> FaultIn(disk, old(disk.clock), disk.clock))
    {
      hide Consistent, AllSafe, SyncedBefore, Follows, NoStrays, Intact;
      var w := writes[k];
      ghost var before, history, was := disk.files, disk.history, writes;
      KnownSlot(before, orig, writes, k, done);
      ok := disk.Unlink(w.temporary.value);
      var cleaned := w.(temporary := None);
      writes := writes[k := cleaned];
      assert Slot(disk.files, orig, cleaned, done);
      Stepped(before, history, was, k, cleaned, done);
      if ok && NoStrays(before, orig, was) { StraysKept(before, disk.files, orig, was, k, cleaned); }
    }

    /** Removes what is left of staging; originals that could not be put back stay. */
    method Cleanup(done: bool) returns (tidy: bool)
      requires Valid(done) && NoStrays(disk.files, orig, writes)
      modifies this`writes, disk
      ensures Valid(done) && |writes| == |old(writes)|
      ensures forall i :: 0 <= i < |writes| ==> writes[i].originalInBackup == old(writes[i].originalInBackup)
      ensures tidy && (forall i :: 0 <= i < |writes| ==> !writes[i].originalInBackup) ==> disk.files.Keys <= orig.Keys
      ensures (forall i :: 0 <= i < |writes| ==> Spare(old(writes[i])) == {}) ==> tidy
      ensures disk.clock >= old(disk.clock) && (!tidy ==> FaultIn(disk, old(disk.clock), disk.clock))
    {
      hide Consistent, AllSafe, SyncedBefore, Follows, NoStrays, Spare;
      tidy := true;
      var i := 0;
      while i < |writes|
        invariant disk.clock >= old(disk.clock) && (!tidy ==> FaultIn(disk, old(disk.clock), disk.clock))
        invariant 0 <= i <= |writes| == |old(writes)| && Valid(done)
        invariant tidy ==> NoStrays(disk.files, orig, writes)
        invariant forall j :: 0 <= j < |writes| ==> writes[j].originalInBackup == old(writes[j].originalInBackup)
        invariant forall j :: i <= j < |writes| ==> writes[j] == old(writes[j])
        invariant forall j :: 0 <= j < i && !writes[j].originalInBackup ==> Spare(writes[j]) == {}
        invariant (forall j :: 0 <= j < |writes| ==> Spare(old(writes[j])) == {}) ==> tidy
      {
        var ok := CleanOne(i, done);
        tidy := tidy && ok;
        i := i + 1;
      }
      if tidy && forall j :: 0 <= j < |writes| ==> !writes[j].originalInBackup { NothingLeft(disk.files, orig, writes); }
    }

    /** Gives up: what could be put back is back, and if all was, so is the whole disk. */
    method Abort() returns (tidy: bool)
      requires Valid(false) && NoStrays(disk.files, orig, writes)
      modifies this`writes, disk
      ensures Valid(false)
      ensures (forall i :: 0 <= i < |old(writes)| ==> !old(writes)[i].originalInBackup) ==>
        Intact(disk.files, orig) && (tidy ==> disk.files == orig)
      ensures disk.clock >= old(disk.clock) && (!tidy ==> FaultIn(disk, old(disk.clock), disk.clock))
    {
      hide Consistent, AllSafe, SyncedBefore, Follows, NoStrays, Intact;
      tidy := Cleanup(false);
      if forall i :: 0 <= i < |writes| ==> !writes[i].originalInBackup {
        RestoredIsIntact(disk.files, orig, writes);
        if tidy { IntactAndTidy(disk.files, orig); }
      }
    }

    method GiveBack(limit: nat) returns (restored: bool, tidy: bool)
      requires Valid(false) && limit <= |writes| && NoStrays(disk.files, orig, writes)
      requires forall i :: limit <= i < |writes| ==> !writes[i].originalInBackup
      modifies this`writes, disk
      ensures Valid(false)
      ensures restored ==> Intact(disk.files, orig) && (tidy ==> disk.files == orig)
      ensures disk.clock >= old(disk.clock) && (!restored || !tidy ==> FaultIn(disk, old(disk.clock), disk.clock))
    {
      hide Consistent, AllSafe, SyncedBefore, Follows, NoStrays, Intact;
      restored := Rollback(limit);
      tidy := Abort();
    }

    /** Drops the backups of a committed and synced rewrite. */
    method Finish()
      requires Valid(false) && NoStrays(disk.files, orig, writes)
      requires forall i :: 0 <= i < |writes| ==> Committed(disk.files, writes[i])
      requires SyncedBefore(disk.history, start, orig, plan, |disk.history|)
      modifies this`writes, disk
      ensures Valid(true)
      ensures Faultless(disk) ==> disk.files.Keys <= orig.Keys
      ensures disk.clock >= old(disk.clock)
    {
      BecomesDone();
      hide Consistent, AllSafe, SyncedBefore, Follows, NoStrays, Faultless;
      Discard();
      var synced := Sync(true);
      var tidy := Cleanup(true);
    }

    /** Commit, sync and clean up, once the sources have been verified. */
    method Replace() returns (ok: bool, ghost restored: bool, ghost tidy: bool)
      requires Valid(false) && NoStrays(disk.files, orig, writes) && AllReady(disk.files, writes)
      requires forall i :: 0 <= i < |writes| ==> !writes[i].originalInBackup
      modifies this`writes, disk
      ensures Valid(ok)
      ensures !ok && restored ==> Intact(disk.files, orig) && (tidy ==> disk.files == orig)
      ensures Faultless(disk) ==> ok && disk.files.Keys <= orig.Keys
      ensures disk.clock >= old(disk.clock) && (!ok && !restored ==> TwoFaults(disk, old(disk.clock), disk.clock)) && (!ok && !tidy ==> FaultIn(disk, old(disk.clock), disk.clock))
    {
      hide Consistent, AllSafe, SyncedBefore, Follows, NoStrays, Intact, Faultless, Committed, Ready;
      restored, tidy := false, false;
      var committed := Commit();
      if committed != |writes| {
        var back, clean := GiveBack(committed + 1);
        return false, back, clean;
      }
      CommittedIsRewritten(disk.files, orig, writes, plan);
      var synced := Sync(false);
      if !synced {
        var back, clean := GiveBack(committed);
        return false, back, clean;
      }
      Finish();
      ok := true;
    }

    /** Everything after staging. */
    method Run() returns (ok: bool, ghost restored: bool, ghost tidy: bool)
      requires Valid(false) && NoStrays(disk.files, orig, writes) && Intact(disk.files, orig)
      requires AllReady(disk.files, writes) && writes == plan
      modifies this`writes, disk
      ensures Valid(ok)
      ensures !ok && restored ==> Intact(disk.files, orig) && (tidy ==> disk.files == orig)
      ensures ok ==> SourcesIn(orig, plan)
      ensures Faultless(disk) && SourcesIn(orig, plan) ==> ok && disk.files.Keys <= orig.Keys
      ensures disk.clock >= old(disk.clock) && (!ok && !restored ==> TwoFaults(disk, old(disk.clock), disk.clock)) && (!ok && !tidy ==> FaultIn(disk, old(disk.clock), disk.clock))
    {
      hide Consistent, AllSafe, SyncedBefore, Follows, NoStrays, Intact, Faultless, Committed, Ready, Holds, SourcesIn, FaultIn, TwoFaults;
      SourcesHeldInOrig(disk.files, orig, writes, plan);
      NotMoved(disk.files, writes, -1);
      ghost var before := disk.clock;
      var verified := Verify();
      ghost var middle := disk.clock;
      if verified {
        ok, restored, tidy := Replace();
      } else {
        var clean := Abort();
        ok, restored, tidy := false, true, clean;
      }
      if !ok && !tidy { FaultWithin(disk, before, middle, disk.clock, disk.clock); }
      if !ok && !restored { TwoFaultsWithin(disk, before, middle, disk.clock); }
    }
  }

  lemma {:induction false} CommittedIsRewritten(files: Files, orig: Files, ws: seq<Write>, plan: seq<Write>)
    requires Consistent(files, orig, ws, false) && Follows(ws, plan) && forall i :: 0 <= i < |ws| ==> Committed(files, ws[i])
    ensures Rewritten(files, orig, plan)
  {
    forall i | 0 <= i < |plan| ensures Holds(files, plan[i].path, plan[i].target) { assert Committed(files, ws[i]); }
  }

  lemma {:induction false} SamePath(ws: seq<Write>, plan: seq<Write>, i: nat)
    requires Follows(ws, plan) && i < |ws|
    ensures i < |plan| && plan[i].path == ws[i].path
  {
  }

  lemma {:induction false} SameCount(ws: seq<Write>, plan: seq<Write>)
    requires Follows(ws, plan)
    ensures |ws| == |plan|
  {
  }

  /** A successful sync is on record, and so are those before it. */
  lemma {:induction false} SyncRecorded(history: seq<Moment>, m: Moment, start: nat, orig: Files, plan: seq<Write>, i: nat)
    requires start <= |history| && i < |plan| && m.synced == Some(plan[i].path) && Rewritten(m.files, orig, plan)
    requires forall j :: 0 <= j < i ==> PathSynced(history, start, orig, plan, |history|, plan[j].path)
    ensures forall j :: 0 <= j < i + 1 ==> PathSynced(history + [m], start, orig, plan, |history| + 1, plan[j].path)
  {
    hide Rewritten;
    forall j | 0 <= j < i + 1 ensures PathSynced(history + [m], start, orig, plan, |history| + 1, plan[j].path) {
      if j < i {
        PathSyncedLater(history, m, start, orig, plan, |history|, |history| + 1, plan[j].path);
      } else {
        assert (history + [m])[|history|] == m;
      }
    }
  }

  lemma {:induction false} NotMoved(files: Files, ws: seq<Write>, k: int)
    requires -1 <= k && forall i :: k < i < |ws| ==> Ready(files, ws[i])
    ensures forall i :: k < i < |ws| ==> !ws[i].originalInBackup
  {
  }

  ghost predicate SourcesIn(orig: Files, plan: seq<Write>) {
    forall i :: 0 <= i < |plan| ==> Holds(orig, plan[i].path, plan[i].source)
  }

  lemma {:induction false} SourcesHeldInOrig(files: Files, orig: Files, ws: seq<Write>, plan: seq<Write>)
    requires Consistent(files, orig, ws, false) && Intact(files, orig) && ws == plan
    ensures SourcesIn(orig, plan) <==> forall i :: 0 <= i < |ws| ==> Holds(files, ws[i].path, ws[i].source)
  {
    forall i | 0 <= i < |ws| ensures Holds(orig, ws[i].path, ws[i].source) <==> Holds(files, ws[i].path, ws[i].source) {
      assert Slot(files, orig, ws[i], false);
      IntactAt(files, orig, ws[i].path);
    }
  }

  lemma {:induction false} NothingLeft(files: Files, orig: Files, ws: seq<Write>)
    requires NoStrays(files, orig, ws) && forall i :: 0 <= i < |ws| ==> Spare(ws[i]) == {}
    ensures files.Keys <= orig.Keys
  {
  }

  // ---------------------------------------------------------------------- staging

  ghost predicate AllIntact(history: seq<Moment>, start: nat, orig: Files) {
    forall k :: start <= k < |history| ==> Intact(history[k].files, orig)
  }

  /** Staging only adds files under names that were free. */
  ghost predicate Added(x: Files, y: Files, names: set<Path>) {
    SameOutside(x, y, names) && (forall q :: q in names ==> q !in x && q in y)
  }

  lemma {:induction false} AddedKeepsIntact(x: Files, y: Files, orig: Files, names: set<Path>)
    requires Intact(x, orig) && Added(x, y, names)
    ensures Intact(y, orig)
  {
    forall q | q in orig ensures Holds(y, q, orig[q]) { assert Holds(x, q, orig[q]); }
  }

  function Only(name: Option<Path>): set<Path> {
    if name.Some? then {name.value} else {}
  }

  lemma {:induction false} NextIntact(x: Files, y: Files, orig: Files, names: set<Path>, history: seq<Moment>, start: nat)
    requires Intact(x, orig) && Added(x, y, names) && AllIntact(history, start, orig)
    ensures Intact(y, orig) && AllIntact(history + [Moment(y, None)], start, orig)
    ensures forall q :: q in names ==> q !in orig
  {
    AddedKeepsIntact(x, y, orig, names);
    forall q | q in names ensures q !in orig {
      assert q in orig ==> Holds(x, q, orig[q]);
    }
  }

  /** The staging file, with the formatted bytes. */
  method StageTemporary(disk: Disk, bytes: Bytes, partial: nat, ghost orig: Files, ghost start: nat) returns (temporary: Option<Path>, ok: bool)
    requires Intact(disk.files, orig) && AllIntact(disk.history, start, orig)
    modifies disk
    ensures Added(old(disk.files), disk.files, Only(temporary)) && Intact(disk.files, orig) && AllIntact(disk.history, start, orig)
    ensures forall q :: q in Only(temporary) ==> q !in orig
    ensures ok ==> temporary.Some? && Holds(disk.files, temporary.value, bytes)
    ensures temporary.Some? ==> temporary.value == disk.names(old(disk.clock)) && disk.clock == old(disk.clock) + 2
    ensures disk.clock > old(disk.clock) && |disk.history| >= |old(disk.history)|
    ensures Faultless(disk) && disk.names(old(disk.clock)) !in old(disk.files) ==> ok
  {
    hide AllIntact, Intact;
    ghost var before, history := disk.files, disk.history;
    temporary := disk.Reserve();
    NextIntact(before, disk.files, orig, Only(temporary), history, start);
    if temporary.None? { return temporary, false; }
    history := disk.history;
    ok := disk.Fill(temporary.value, bytes, partial);
    NextIntact(before, disk.files, orig, Only(temporary), history, start);
  }

  /** A free name for the backup. */
  method StageBackup(disk: Disk, ghost orig: Files, ghost start: nat) returns (backup: Option<Path>, ok: bool)
    requires Intact(disk.files, orig) && AllIntact(disk.history, start, orig)
    modifies disk
    ensures Added(old(disk.files), disk.files, Only(backup)) && Intact(disk.files, orig) && AllIntact(disk.history, start, orig)
    ensures forall q :: q in Only(backup) ==> q !in orig
    ensures ok ==> backup.Some?
    ensures backup.Some? ==> backup.value == disk.names(old(disk.clock))
    ensures disk.clock > old(disk.clock) && |disk.history| >= |old(disk.history)|
    ensures Faultless(disk) && disk.names(old(disk.clock)) !in old(disk.files) ==> ok
  {
    hide AllIntact, Intact;
    ghost var before, history := disk.files, disk.history;
    backup := disk.Reserve();
    NextIntact(before, disk.files, orig, Only(backup), history, start);
    if backup.None? { return backup, false; }
    history := disk.history;
    ok := disk.Settle();
    NextIntact(before, disk.files, orig, Only(backup), history, start);
  }

  /** The write of one changed file: staging file with the formatted bytes, backup name. */
  method StageOne(disk: Disk, job: Job, partial: nat, ghost orig: Files, ghost start: nat) returns (w: Write, ok: bool)
    requires job.path in orig && Intact(disk.files, orig) && AllIntact(disk.history, start, orig)
    modifies disk
    ensures Added(old(disk.files), disk.files, Spare(w)) && Intact(disk.files, orig) && AllIntact(disk.history, start, orig)
    ensures w.path == job.path && w.source == job.source && w.target == job.formatted && !w.originalInBackup
    ensures Slot(disk.files, orig, w, false)
    ensures ok ==> Ready(disk.files, w)
    ensures disk.clock >= old(disk.clock) && |disk.history| >= |old(disk.history)|
    ensures forall q :: q in Spare(w) ==> UsedName(disk, q, old(disk.clock), disk.clock)
    ensures Faultless(disk) && FreeNames(disk, old(disk.files), old(disk.clock)) ==> ok
  {
    hide AllIntact, Intact, Faultless;
    ghost var before, first := disk.files, disk.clock;
    w := Write(job.path, job.source, job.formatted, None, None, false);
    var temporary, backup;
    temporary, ok := StageTemporary(disk, job.formatted, partial, orig, start);
    IntactAt(disk.files, orig, job.path);
    w := w.(temporary := temporary);
    assert temporary.Some? ==> UsedName(disk, disk.names(first), first, disk.clock);
    if !ok { return; }
    ghost var middle, second := disk.files, disk.clock;
    if Faultless(disk) && FreeNames(disk, before, first) { NextFree(disk, before, middle, first); }
    backup, ok := StageBackup(disk, orig, start);
    IntactAt(disk.files, orig, job.path);
    w := w.(backup := backup);
    assert backup.Some? ==> UsedName(disk, disk.names(second), first, disk.clock);
    assert UsedName(disk, disk.names(first), first, disk.clock);
    assert Holds(disk.files, temporary.value, job.formatted);
  }

  ghost predicate UsedName(disk: Disk, q: Path, low: nat, high: nat) {
    exists m :: low <= m < high && q == disk.names(m)
  }

  ghost predicate FreeNames(disk: Disk, files: Files, low: nat) {
    forall m :: low <= m ==> disk.names(m) !in files
  }

  lemma {:induction false} NextFree(disk: Disk, x: Files, y: Files, low: nat)
    requires Faultless(disk) && FreeNames(disk, x, low) && SameOutside(x, y, {disk.names(low)})
    ensures FreeNames(disk, y, low + 1)
  {
  }

  lemma {:induction false} IntactAt(files: Files, orig: Files, q: Path)
    requires Intact(files, orig) && q in orig
    ensures Holds(files, q, orig[q])
  {
  }

  lemma {:induction false} FreeAfter(disk: Disk, x: Files, y: Files, names: set<Path>, low: nat, high: nat)
    requires Faultless(disk) && FreeNames(disk, x, low) && low <= high && Added(x, y, names)
    requires forall q :: q in names ==> UsedName(disk, q, low, high)
    ensures FreeNames(disk, y, high)
  {
    forall m | high <= m ensures disk.names(m) !in y {
      assert forall k :: low <= k < high ==> disk.names(k) != disk.names(m);
    }
  }

  ghost predicate Fresh(ws: seq<Write>, w: Write) {
    forall i :: 0 <= i < |ws| ==> ws[i].path != w.path
  }

  /** A further write whose made-up names were free fits in with the others. */
  lemma {:induction false} AppendKeeps(x: Files, y: Files, orig: Files, ws: seq<Write>, w: Write)
    requires Consistent(x, orig, ws, false) && Intact(x, orig) && Fresh(ws, w)
    requires Added(x, y, Spare(w)) && Slot(y, orig, w, false)
    ensures Consistent(y, orig, ws + [w], false)
  {
    hide Intact, Slot, Bystanders, Added;
    var after := ws + [w];
    forall i | 0 <= i < |ws| ensures Names(ws[i]) !! Names(w) && Slot(y, orig, ws[i], false) {
      AppendElsewhere(x, y, orig, ws, w, i);
    }
    assert forall i, j :: 0 <= i < j < |after| ==> Names(after[i]) !! Names(after[j]);
    assert Bystanders(y, orig, after) by { AppendRest(x, y, orig, ws, w); }
  }

  lemma {:induction false} AppendElsewhere(x: Files, y: Files, orig: Files, ws: seq<Write>, w: Write, i: nat)
    requires i < |ws| && Slot(x, orig, ws[i], false) && Intact(x, orig) && Fresh(ws, w)
    requires Added(x, y, Spare(w)) && Slot(y, orig, w, false)
    ensures Names(ws[i]) !! Names(w) && Slot(y, orig, ws[i], false)
  {
    IntactAt(x, orig, ws[i].path);
    assert forall q :: q in Names(ws[i]) ==> q in x;
    SlotElsewhere(x, y, orig, ws[i], Spare(w), false);
  }

  lemma {:induction false} AppendRest(x: Files, y: Files, orig: Files, ws: seq<Write>, w: Write)
    requires Intact(x, orig) && Added(x, y, Spare(w))
    ensures Bystanders(y, orig, ws + [w])
  {
    forall q | q in orig ensures Holds(y, q, orig[q]) { IntactAt(x, orig, q); }
  }

  lemma {:induction false} AppendNoStrays(x: Files, y: Files, orig: Files, ws: seq<Write>, w: Write)
    requires NoStrays(x, orig, ws) && SameOutside(x, y, Spare(w))
    ensures NoStrays(y, orig, ws + [w])
  {
    var after := ws + [w];
    forall q | q in y && q !in orig ensures exists i :: 0 <= i < |after| && q in Spare(after[i]) {
      if q in Spare(w) {
        assert after[|ws|] == w;
      } else {
        var i :| 0 <= i < |ws| && q in Spare(ws[i]);
        assert after[i] == ws[i];
      }
    }
  }

  lemma {:induction false} AppendReady(x: Files, y: Files, ws: seq<Write>, w: Write)
    requires AllReady(x, ws) && Added(x, y, Spare(w)) && Ready(y, w)
    ensures AllReady(y, ws + [w])
  {
    forall i | 0 <= i < |ws| ensures Ready(y, ws[i]) { assert Ready(x, ws[i]); }
  }

  ghost predicate AllReady(files: Files, ws: seq<Write>) {
    forall i :: 0 <= i < |ws| ==> Ready(files, ws[i])
  }

  // -------------------------------------------------------------- the transaction

  /** The files whose formatted text differs from the loaded one, in package order. */
  function Changed(jobs: seq<Job>): seq<Job> {
    if jobs == [] then []
    else Changed(jobs[..|jobs| - 1]) + (if jobs[|jobs| - 1].source != jobs[|jobs| - 1].formatted then [jobs[|jobs| - 1]] else [])
  }

  lemma {:induction false} ChangedMembers(jobs: seq<Job>, j: Job)
    ensures j in Changed(jobs) <==> j in jobs && j.source != j.formatted
  {
    if jobs != [] {
      ChangedMembers(jobs[..|jobs| - 1], j);
      assert jobs == jobs[..|jobs| - 1] + [jobs[|jobs| - 1]];
    }
  }

  ghost predicate Planned(ws: seq<Write>, changed: seq<Job>) {
    && |ws| == |changed|
    && forall i :: 0 <= i < |ws| ==> ws[i].path == changed[i].path && ws[i].source == changed[i].source && ws[i].target == changed[i].formatted
  }

  ghost predicate DistinctPaths(jobs: seq<Job>) {
    forall i, j :: 0 <= i < j < |jobs| ==> jobs[i].path != jobs[j].path
  }

  lemma {:induction false} NextIsFresh(jobs: seq<Job>, i: nat, ws: seq<Write>, w: Write)
    requires DistinctPaths(jobs) && i < |jobs| && w.path == jobs[i].path && Planned(ws, Changed(jobs[..i]))
    ensures Fresh(ws, w)
  {
    forall k | 0 <= k < |ws| ensures ws[k].path != w.path {
      ChangedMembers(jobs[..i], Changed(jobs[..i])[k]);
    }
  }

  lemma {:induction false} ChangedNext(jobs: seq<Job>, i: nat)
    requires i < |jobs|
    ensures Changed(jobs[..i + 1]) == Changed(jobs[..i]) + (if jobs[i].source != jobs[i].formatted then [jobs[i]] else [])
  {
    assert jobs[..i + 1][..i] == jobs[..i];
  }

  method Stage(disk: Disk, jobs: seq<Job>, partial: nat) returns (ws: seq<Write>, ok: bool)
    requires DistinctPaths(jobs) && forall i :: 0 <= i < |jobs| ==> jobs[i].path in disk.files
    modifies disk
    ensures |old(disk.history)| <= |disk.history|
    ensures Consistent(disk.files, old(disk.files), ws, false) && NoStrays(disk.files, old(disk.files), ws)
    ensures AllIntact(disk.history, |old(disk.history)|, old(disk.files)) && Intact(disk.files, old(disk.files))
    ensures forall i :: 0 <= i < |ws| ==> !ws[i].originalInBackup
    ensures ok ==> Planned(ws, Changed(jobs)) && AllReady(disk.files, ws)
    ensures Faultless(disk) && FreeNames(disk, old(disk.files), old(disk.clock)) ==> ok
    ensures disk.clock >= old(disk.clock)
  {
    hide Consistent, NoStrays, AllIntact, Intact, Faultless, FreeNames, DistinctPaths, Added, Slot, Ready, Fresh;
    ghost var orig, start := disk.files, |disk.history|;
    ws, ok := [], true;
    NothingStaged(orig, disk.history);
    var i := 0;
    while i < |jobs|
      invariant disk.clock >= old(disk.clock)
      invariant 0 <= i <= |jobs| && ok && start <= |disk.history|
      invariant Consistent(disk.files, orig, ws, false) && NoStrays(disk.files, orig, ws)
      invariant AllIntact(disk.history, start, orig) && Intact(disk.files, orig)
      invariant Planned(ws, Changed(jobs[..i])) && AllReady(disk.files, ws)
      invariant forall k :: 0 <= k < |ws| ==> !ws[k].originalInBackup
      invariant Faultless(disk) && FreeNames(disk, orig, old(disk.clock)) ==> FreeNames(disk, disk.files, disk.clock)
    {
      ChangedNext(jobs, i);
      if jobs[i].source != jobs[i].formatted {
        ghost var before, low := disk.files, disk.clock;
        var w;
        w, ok := StageOne(disk, jobs[i], partial, orig, start);
        NextIsFresh(jobs, i, ws, w);
        AppendKeeps(before, disk.files, orig, ws, w);
        AppendNoStrays(before, disk.files, orig, ws, w) by { assert SameOutside(before, disk.files, Spare(w)) by { AddedOutside(before, disk.files, Spare(w)); } }
        if ok { AppendReady(before, disk.files, ws, w); }
        if Faultless(disk) && FreeNames(disk, before, low) { FreeAfter(disk, before, disk.files, Spare(w), low, disk.clock); }
        ws := ws + [w];
        if !ok { return; }
      }
      i := i + 1;
    }
    assert jobs[..i] == jobs;
  }

  lemma {:induction false} AddedOutside(x: Files, y: Files, names: set<Path>)
    requires Added(x, y, names)
    ensures SameOutside(x, y, names)
  {
  }

  lemma {:induction false} NothingStaged(orig: Files, history: seq<Moment>)
    ensures Consistent(orig, orig, [], false) && NoStrays(orig, orig, []) && Intact(orig, orig)
    ensures AllIntact(history, |history|, orig) && AllReady(orig, []) && Changed([]) == []
  {
  }

  /** Every changed file holds its formatted text, and every other file what it held. */
  ghost predicate AllFormatted(files: Files, orig: Files, jobs: seq<Job>) {
    && (forall i :: 0 <= i < |jobs| && jobs[i].source != jobs[i].formatted ==> Holds(files, jobs[i].path, jobs[i].formatted))
    && (forall q :: q in orig && (forall i :: 0 <= i < |jobs| && jobs[i].source != jobs[i].formatted ==> jobs[i].path != q) ==>
          Holds(files, q, orig[q]))
  }

  /** Before moment k, the directory of every changed file was synced while all changed files
      held their formatted text. */
  ghost predicate Durable(history: seq<Moment>, start: nat, orig: Files, jobs: seq<Job>, k: nat) {
    forall i :: 0 <= i < |jobs| && jobs[i].source != jobs[i].formatted ==>
      exists n :: start <= n < k && n < |history| && history[n].synced == Some(jobs[i].path) && AllFormatted(history[n].files, orig, jobs)
  }

  /** At any moment: every original is at its path or its backup, or all is rewritten, and was
      synced before. */
  ghost predicate NothingLost(history: seq<Moment>, start: nat, orig: Files, plan: seq<Write>, jobs: seq<Job>) {
    forall k :: start <= k < |history| ==>
      || Recovers(history[k].files, orig, plan)
      || (AllFormatted(history[k].files, orig, jobs) && Durable(history, start, orig, jobs, k))
  }

  lemma {:induction false} SyncedIsDurable(history: seq<Moment>, start: nat, orig: Files, plan: seq<Write>, jobs: seq<Job>, k: nat)
    requires SyncedBefore(history, start, orig, plan, k) && Planned(plan, Changed(jobs))
    ensures Durable(history, start, orig, jobs, k)
  {
    hide Rewritten, AllFormatted;
    forall i | 0 <= i < |jobs| && jobs[i].source != jobs[i].formatted 
      ensures exists n :: start <= n < k && n < |history| && history[n].synced == Some(jobs[i].path) && AllFormatted(history[n].files, orig, jobs)
    {
      ChangedMembers(jobs, jobs[i]);
      var j :| 0 <= j < |plan| && Changed(jobs)[j] == jobs[i];
      assert PathSynced(history, start, orig, plan, k, plan[j].path);
      var n :| start <= n < k && n < |history| && history[n].synced == Some(plan[j].path) && Rewritten(history[n].files, orig, plan);
      RewrittenIsFormatted(history[n].files, orig, plan, jobs);
    }
  }

  lemma {:induction false} RewrittenIsFormatted(files: Files, orig: Files, plan: seq<Write>, jobs: seq<Job>)
    requires Rewritten(files, orig, plan) && Planned(plan, Changed(jobs))
    ensures AllFormatted(files, orig, jobs)
  {
    forall i | 0 <= i < |jobs| && jobs[i].source != jobs[i].formatted ensures Holds(files, jobs[i].path, jobs[i].formatted) {
      ChangedMembers(jobs, jobs[i]);
      var k :| 0 <= k < |plan| && Changed(jobs)[k] == jobs[i];
    }
    forall q | q in orig && (forall i :: 0 <= i < |jobs| && jobs[i].source != jobs[i].formatted ==> jobs[i].path != q)
      ensures Holds(files, q, orig[q])
    {
      forall k | 0 <= k < |plan| ensures plan[k].path != q { ChangedMembers(jobs, Changed(jobs)[k]); }
    }
  }

  lemma {:induction false} SafeHistory(history: seq<Moment>, start: nat, orig: Files, plan: seq<Write>, jobs: seq<Job>, done: bool)
    requires AllSafe(history, start, orig, plan, done)
    requires done ==> Planned(plan, Changed(jobs))
    ensures NothingLost(history, start, orig, plan, jobs)
  {
    hide Recovers, Rewritten, AllFormatted, Changed, Planned, SyncedBefore, Durable;
    forall k | start <= k < |history|
      ensures Recovers(history[k].files, orig, plan) || (AllFormatted(history[k].files, orig, jobs) && Durable(history, start, orig, jobs, k))
    {
      assert Safe(history, start, orig, plan, done, k, history[k].files);
      if !Recovers(history[k].files, orig, plan) {
        RewrittenIsFormatted(history[k].files, orig, plan, jobs);
        SyncedIsDurable(history, start, orig, plan, jobs, k);
      }
    }
  }

  lemma {:induction false} RestoredIsIntact(files: Files, orig: Files, ws: seq<Write>)
    requires Consistent(files, orig, ws, false) && forall i :: 0 <= i < |ws| ==> !ws[i].originalInBackup
    ensures Intact(files, orig)
  {
    forall q | q in orig ensures Holds(files, q, orig[q]) {
      if i :| 0 <= i < |ws| && ws[i].path == q { assert Slot(files, orig, ws[i], false); }
    }
  }

  lemma {:induction false} IntactAndTidy(files: Files, orig: Files)
    requires Intact(files, orig) && files.Keys <= orig.Keys
    ensures files == orig
  {
    assert forall q :: q in orig ==> Holds(files, q, orig[q]);
  }

  ghost predicate Unchanged(files: Files, jobs: seq<Job>) {
    forall i :: 0 <= i < |jobs| && jobs[i].source != jobs[i].formatted ==> Holds(files, jobs[i].path, jobs[i].source)
  }

  lemma {:induction false} SourcesHeld(orig: Files, plan: seq<Write>, jobs: seq<Job>)
    requires Planned(plan, Changed(jobs))
    ensures Unchanged(orig, jobs) <==> SourcesIn(orig, plan)
  {
    if Unchanged(orig, jobs) {
      forall i | 0 <= i < |plan| ensures Holds(orig, plan[i].path, plan[i].source) { ChangedMembers(jobs, Changed(jobs)[i]); }
    }
    if SourcesIn(orig, plan) {
      forall i | 0 <= i < |jobs| && jobs[i].source != jobs[i].formatted ensures Holds(orig, jobs[i].path, jobs[i].source) {
        ChangedMembers(jobs, jobs[i]);
        var k :| 0 <= k < |plan| && Changed(jobs)[k] == jobs[i];
      }
    }
  }

  lemma {:induction false} FormattedKeys(files: Files, orig: Files, jobs: seq<Job>)
    requires AllFormatted(files, orig, jobs) && files.Keys <= orig.Keys
    ensures files.Keys == orig.Keys
  {
    forall q | q in orig ensures q in files {
      if i :| 0 <= i < |jobs| && jobs[i].source != jobs[i].formatted && jobs[i].path == q { } else { assert Holds(files, q, orig[q]); }
    }
  }

  lemma {:induction false} Verdict(rewrite: Rewrite, jobs: seq<Job>, ok: bool)
    requires rewrite.Valid(ok) && (ok ==> Planned(rewrite.plan, Changed(jobs)))
    ensures NothingLost(rewrite.disk.history, rewrite.start, rewrite.orig, rewrite.plan, jobs)
    ensures ok ==> AllFormatted(rewrite.disk.files, rewrite.orig, jobs)
    ensures ok ==> Durable(rewrite.disk.history, rewrite.start, rewrite.orig, jobs, |rewrite.disk.history|)
    ensures ok ==> (Unchanged(rewrite.orig, jobs) <==> SourcesIn(rewrite.orig, rewrite.plan))
  {
    hide Consistent, AllSafe, SyncedBefore, Follows, Planned, Changed, SyncedBefore, Durable;
    SafeHistory(rewrite.disk.history, rewrite.start, rewrite.orig, rewrite.plan, jobs, ok);
    if ok {
      ConsistentIsSafe(rewrite.disk.files, rewrite.orig, rewrite.writes, rewrite.plan, true);
      RewrittenIsFormatted(rewrite.disk.files, rewrite.orig, rewrite.plan, jobs);
      SourcesHeld(rewrite.orig, rewrite.plan, jobs);
      SyncedIsDurable(rewrite.disk.history, rewrite.start, rewrite.orig, rewrite.plan, jobs, |rewrite.disk.history|);
    }
  }

  lemma {:induction false} IntactSeparately(files: Files, orig: Files, ws: seq<Write>)
    requires Consistent(files, orig, ws, false)
    ensures Separate(ws)
  {
  }

  /** The whole rewrite. Whatever fails, and whenever the run is cut short, no original is
      lost: it stays at its path or at the backup name planned for it until everything is
      rewritten and the directory of every changed file has been synced. Success means that
      all changed files hold their formatted text, durably, and had held the loaded text before. Failure means that every file holds what it held, unless
      an original could not be put back. Without faults the rewrite succeeds, and leaves no
      other file behind. */
  method WriteFormatted(disk: Disk, jobs: seq<Job>, partial: nat)
    returns (ok: bool, ghost plan: seq<Write>, ghost restored: bool, ghost tidy: bool)
    requires DistinctPaths(jobs) && forall i :: 0 <= i < |jobs| ==> jobs[i].path in disk.files
    modifies disk
    ensures NothingLost(disk.history, |old(disk.history)|, old(disk.files), plan, jobs) && Separate(plan)
    ensures ok ==> AllFormatted(disk.files, old(disk.files), jobs) && Unchanged(old(disk.files), jobs)
    ensures ok ==> Durable(disk.history, |old(disk.history)|, old(disk.files), jobs, |disk.history|)
    ensures !ok && restored ==> Intact(disk.files, old(disk.files)) && (tidy ==> disk.files == old(disk.files))
    ensures !ok && !restored ==> TwoFaults(disk, old(disk.clock), disk.clock)
    ensures !ok && !tidy ==> FaultIn(disk, old(disk.clock), disk.clock)
    ensures Faultless(disk) && FreeNames(disk, old(disk.files), old(disk.clock)) && Unchanged(old(disk.files), jobs) ==>
      ok && disk.files.Keys == old(disk.files).Keys
  {
    hide *;
    ghost var orig, start := disk.files, |disk.history|;
    var ws, staged := Stage(disk, jobs, partial);
    IntactSeparately(disk.files, orig, ws);
    var rewrite := new Rewrite(disk, ws, orig, start);
    plan, ok := ws, false;
    ghost var stagedAt := disk.clock;
    if staged {
      SourcesHeld(orig, plan, jobs);
      ok, restored, tidy := rewrite.Run();
    } else {
      var clean := rewrite.Abort();
      restored, tidy := true, clean;
    }
    Verdict(rewrite, jobs, ok);
    if !ok && !restored { TwoFaultsWithin(disk, old(disk.clock), stagedAt, disk.clock); }
    if !ok && !tidy { FaultWithin(disk, old(disk.clock), stagedAt, disk.clock, disk.clock); }
    if ok && disk.files.Keys <= orig.Keys { FormattedKeys(disk.files, orig, jobs); }
  }
}
