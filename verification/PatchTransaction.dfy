/** applyPatchProposal: stage every result, move every original aside, install, then clean up or roll back. */
module PatchTransaction {
  import opened Filesystem
  import opened Utf8
  import opened Wrappers

  datatype Operation = Create | Update | Delete

  datatype FilePatch = FilePatch(operation: Operation, path: Path, before: Snapshot, after: Bytes)

  datatype Entry = Entry(
    file: FilePatch,
    staged: Option<Path>,
    backup: Option<Path>,
    originalMoved: bool,
    installed: bool)

  /** `Conflict` wraps errEditConflict and `RollbackFailed` wraps errPatchRollback. */
  datatype Outcome = Applied | CleanupFailed | Conflict | Failed | RollbackFailed

  type Files = map<Path, Node>

  /** contentSHA256, taken as injective: the digest determines the content. */
  datatype Digest = Sha256(preimage: Bytes)

  predicate WellFormed(file: FilePatch) {
    file.operation == Create <==> file.before.Absent?
  }

  /** The file an installed create or update leaves behind: the process umask applies to both. */
  function Result(file: FilePatch, umask: Permissions): Node {
    RegularFile(file.after, (if file.before.Present? then file.before.mode else CREATED_FILE_MODE) - umask)
  }

  /** The files are as they were when the patch was proposed. */
  predicate BaseMatches(files: Files, file: FilePatch) {
    if file.operation == Create then
      file.path !in files
    else
      && file.before.Present?
      && file.path in files
      && Readable(files[file.path])
      && files[file.path] == RegularFile(file.before.content, file.before.mode)
  }

  predicate AllBasesMatch(files: Files, patch: seq<FilePatch>) {
    forall i :: 0 <= i < |patch| ==> BaseMatches(files, patch[i])
  }

  predicate DistinctPaths(patch: seq<FilePatch>) {
    forall i, j :: 0 <= i < j < |patch| ==> patch[i].path != patch[j].path
  }

  predicate Proposed(patch: seq<FilePatch>, serial: nat) {
    forall i :: 0 <= i < |patch| ==> WellFormed(patch[i]) && Known(patch[i].path, serial)
  }

  predicate Targets(patch: seq<FilePatch>, p: Path) {
    exists i :: 0 <= i < |patch| && patch[i].path == p
  }

  /** Every requested create, update and delete took place. */
  ghost predicate PatchInstalled(files: Files, patch: seq<FilePatch>, umask: Permissions) {
    forall i :: 0 <= i < |patch| ==>
      if patch[i].operation == Delete then
        patch[i].path !in files
      else
        patch[i].path in files && files[patch[i].path] == Result(patch[i], umask)
  }

  /** The mode a create or update leaves: an update keeps that of its original exactly when the umask spares it. */
  ghost predicate ModeCarried(before: Files, after: Files, file: FilePatch, umask: Permissions)
    requires file.operation != Delete
  {
    && file.path in after && after[file.path].RegularFile?
    && if file.operation == Create then
         after[file.path].mode == CREATED_FILE_MODE - umask
       else
         && file.path in before && before[file.path].RegularFile?
         && after[file.path].mode == before[file.path].mode - umask
         && (after[file.path].mode == before[file.path].mode <==> before[file.path].mode !! umask)
  }

  ghost predicate ModesCarried(before: Files, after: Files, patch: seq<FilePatch>, umask: Permissions) {
    forall i :: 0 <= i < |patch| && patch[i].operation != Delete ==> ModeCarried(before, after, patch[i], umask)
  }

  /** An update is meant to keep its original's mode, and does exactly when the umask takes none of its bits. */
  lemma ModeIsKeptExactly(file: FilePatch, umask: Permissions)
    requires file.before.Present?
    ensures Result(file, umask).mode == file.before.mode <==> file.before.mode !! umask
  {
    if Result(file, umask).mode == file.before.mode {
      forall bit | bit in umask
        ensures bit !in file.before.mode
      {
        assert bit !in Result(file, umask).mode;
      }
    }
  }

  lemma InstalledCarriesModes(before: Files, after: Files, patch: seq<FilePatch>, umask: Permissions)
    requires AllBasesMatch(before, patch) && PatchInstalled(after, patch, umask)
    requires forall i :: 0 <= i < |patch| ==> WellFormed(patch[i])
    ensures ModesCarried(before, after, patch, umask)
  {
    forall i | 0 <= i < |patch| && patch[i].operation != Delete
      ensures ModeCarried(before, after, patch[i], umask)
    {
      assert BaseMatches(before, patch[i]);
      if patch[i].operation == Update {
        ModeIsKeptExactly(patch[i], umask);
      }
    }
  }

  /** Under umask 022 an update of a file that its group may write takes that permission away. */
  lemma UpdateNarrowsMode(before: Files, after: Files, patch: seq<FilePatch>, edited: Bytes)
    requires var mode := CREATED_FILE_MODE + {GroupWrite};
      && patch == [FilePatch(Update, Named("a"), Present([], mode), edited)]
      && before == map[Named("a") := RegularFile([], mode)]
    requires PatchInstalled(after, patch, {GroupWrite, OtherWrite})
    ensures AllBasesMatch(before, patch)
    ensures before[Named("a")].mode == CREATED_FILE_MODE + {GroupWrite}
    ensures Named("a") in after && after[Named("a")] == RegularFile(edited, CREATED_FILE_MODE)
  {
    assert patch[0].path in after && after[patch[0].path] == Result(patch[0], {GroupWrite, OtherWrite});
  }

  /** Nothing but the patched paths differs. */
  ghost predicate OthersUnchanged(before: Files, after: Files, patch: seq<FilePatch>) {
    forall p :: !Targets(patch, p) ==> SameAt(after, before, p)
  }

  /** The same, up to temporaries drawn since UUID number `serial`. */
  ghost predicate OthersUnchangedUpToTemporaries(before: Files, after: Files, patch: seq<FilePatch>, serial: nat) {
    forall p :: !Targets(patch, p) && Known(p, serial) ==> SameAt(after, before, p)
  }

  /** Every file is as before and the only new names are staged results. */
  ghost predicate Restored(before: Files, after: Files, serial: nat) {
    && (forall p :: Known(p, serial) ==> SameAt(after, before, p))
    && (forall p :: p in after && !Known(p, serial) ==> p.extension == "tmp")
  }

  /** The temporaries that have come to stay. */
  ghost function Leftovers(files: Files, serial: nat): set<Path> {
    set p | p in files && !Known(p, serial)
  }

  /** The targets that are not as before. */
  ghost function Unrestored(before: Files, after: Files, patch: seq<FilePatch>): set<Path> {
    set i | 0 <= i < |patch| && !SameAt(after, before, patch[i].path) :: patch[i].path
  }

  /** A patch not installed leaves at most so many temporaries, and so many targets that are not as before. */
  ghost predicate UndoneBut(before: Files, after: Files, patch: seq<FilePatch>, serial: nat, failures: int) {
    |Leftovers(after, serial)| <= failures && |Unrestored(before, after, patch)| <= failures
  }

  lemma FewerThan<T>(a: set<T>, b: set<T>)
    requires a <= b
    ensures |a| <= |b|
  {
    assert b == a + (b - a);
    assert |b| == |a| + |b - a|;
  }

  lemma {:induction false} ImageIsSmall<T>(indices: set<nat>, f: nat -> T)
    ensures |set i | i in indices :: f(i)| <= |indices|
    decreases |indices|
  {
    if indices != {} {
      var i :| i in indices;
      var rest := indices - {i};
      ImageIsSmall(rest, f);
      assert (set j | j in indices :: f(j)) == (set j | j in rest :: f(j)) + {f(i)};
    }
  }

  /** The original of a file to be replaced is at its own path or at a backup next to it. */
  ghost predicate OriginalKept(before: Files, after: Files, p: Path, serial: nat) {
    p in before ==>
      || (p in after && after[p] == before[p])
      || exists n: nat :: n >= serial && BackupHolds(after, p, n, before[p])
  }

  ghost predicate BackupHolds(files: Files, p: Path, n: nat, original: Node) {
    var backup := Temporary(p, n, "bak");
    backup in files && files[backup] == original
  }

  ghost predicate NoDataLost(before: Files, after: Files, patch: seq<FilePatch>, serial: nat) {
    forall i :: 0 <= i < |patch| && patch[i].operation != Create ==>
      OriginalKept(before, after, patch[i].path, serial)
  }

  // ---------------------------------------------------------------- entries

  ghost predicate Active(e: Entry) {
    e.originalMoved || e.installed
  }

  ghost predicate ConsumedStage(e: Entry) {
    e.installed && e.file.operation == Update
  }

  ghost predicate FreshTemporary(p: Path, sibling: Path, extension: string, first: nat, next: nat) {
    p.Temporary? && p.sibling == sibling && p.extension == extension && first <= p.serial < next
  }

  ghost predicate BookkeepingEntry(e: Entry, first: nat, next: nat) {
    && WellFormed(e.file)
    && Known(e.file.path, first)
    && (e.staged.Some? ==> FreshTemporary(e.staged.value, e.file.path, "tmp", first, next))
    && (e.backup.Some? ==> FreshTemporary(e.backup.value, e.file.path, "bak", first, next))
    && (e.originalMoved ==> e.backup.Some? && e.file.operation != Create)
    && (e.installed ==> e.staged.Some? && e.file.operation != Delete)
    && (e.installed && e.file.operation == Update ==> e.originalMoved)
  }

  /** What the transaction knows of its entries whatever the files are. */
  ghost predicate Bookkeeping(es: seq<Entry>, first: nat, next: nat) {
    && first <= next
    && (forall i :: 0 <= i < |es| ==> BookkeepingEntry(es[i], first, next))
    && (forall i, j :: 0 <= i < |es| && 0 <= j < |es| && i != j && es[i].staged.Some? ==> es[i].staged != es[j].staged)
    && (forall i, j :: 0 <= i < |es| && 0 <= j < |es| && i != j && es[i].backup.Some? ==> es[i].backup != es[j].backup)
    && (forall i, j :: 0 <= i < |es| && 0 <= j < |es| && i != j && Active(es[i]) && Active(es[j]) ==>
      es[i].file.path != es[j].file.path)
  }

  ghost predicate IsStage(es: seq<Entry>, p: Path) {
    exists i :: 0 <= i < |es| && es[i].staged == Some(p)
  }

  ghost predicate IsBackup(es: seq<Entry>, p: Path) {
    exists i :: 0 <= i < |es| && es[i].originalMoved && es[i].backup == Some(p)
  }

  ghost predicate Idle(es: seq<Entry>, p: Path) {
    forall i :: 0 <= i < |es| && Active(es[i]) ==> es[i].file.path != p
  }

  /** The files are exactly what the flags of the entries say was done to `before`. */
  ghost predicate Ledger(before: Files, files: Files, es: seq<Entry>, first: nat, umask: Permissions) {
    && (forall i :: 0 <= i < |es| ==> LedgerEntry(before, files, es[i], umask))
    && (forall p :: Known(p, first) && Idle(es, p) ==> SameAt(files, before, p))
    && (forall p :: p in files && !Known(p, first) ==> IsStage(es, p) || IsBackup(es, p))
  }

  ghost predicate LedgerEntry(before: Files, files: Files, e: Entry, umask: Permissions) {
    && (e.originalMoved ==>
      && e.backup.Some?
      && e.file.path in before
      && e.backup.value in files
      && files[e.backup.value] == before[e.file.path])
    && (e.installed && e.file.operation == Create ==> e.file.path !in before)
    && (e.installed ==> e.file.path in files && files[e.file.path] == Result(e.file, umask))
    && (e.originalMoved && !e.installed ==> e.file.path !in files)
  }

  /** Every staged result not yet renamed into place is where it was written. */
  ghost predicate StagesReady(files: Files, es: seq<Entry>, umask: Permissions) {
    forall i :: 0 <= i < |es| && es[i].staged.Some? && !ConsumedStage(es[i]) ==>
      es[i].staged.value in files && files[es[i].staged.value] == Result(es[i].file, umask)
  }

  ghost predicate EntriesOf(es: seq<Entry>, patch: seq<FilePatch>) {
    |es| == |patch| && forall i :: 0 <= i < |es| ==> es[i].file == patch[i]
  }

  /** An entry may be replaced when its names stay its own and it claims no target another entry holds. */
  lemma ReplaceEntry(es: seq<Entry>, k: nat, e: Entry, first: nat, next: nat, next': nat)
    requires Bookkeeping(es, first, next) && next <= next' && k < |es|
    requires BookkeepingEntry(e, first, next') && e.file == es[k].file
    requires e.staged == es[k].staged || (e.staged.Some? && e.staged.value.serial == next)
    requires e.backup == es[k].backup || (e.backup.Some? && e.backup.value.serial == next)
    requires Active(e) ==> Active(es[k]) || Idle(es, e.file.path)
    ensures Bookkeeping(es[k := e], first, next')
  {
  }

  // ---------------------------------------------------------------- single steps on the map

  lemma MoveAside(before: Files, files: Files, es: seq<Entry>, k: nat, backup: Path, first: nat, next: nat, umask: Permissions)
    requires Bookkeeping(es, first, next) && Ledger(before, files, es, first, umask) && StagesReady(files, es, umask)
    requires k < |es| && !Active(es[k]) && es[k].file.operation != Create && es[k].file.path in files
    requires forall i :: 0 <= i < |es| ==> !es[i].installed
    requires backup == Temporary(es[k].file.path, next, "bak") && backup !in files
    ensures es[k].file.path in before && before[es[k].file.path] == files[es[k].file.path]
    ensures var es' := es[k := es[k].(backup := Some(backup), originalMoved := true)];
      && Bookkeeping(es', first, next + 1)
      && Ledger(before, (files - {es[k].file.path})[backup := files[es[k].file.path]], es', first, umask)
      && StagesReady((files - {es[k].file.path})[backup := files[es[k].file.path]], es', umask)
  {
    var p := es[k].file.path;
    var es' := es[k := es[k].(backup := Some(backup), originalMoved := true)];
    var files' := (files - {p})[backup := files[p]];
    assert Idle(es, p);
    assert SameAt(files, before, p);
    ReplaceEntry(es, k, es'[k], first, next, next + 1);
    assert Active(es'[k]);
    IdleStaysSame(before, files, files', es, es', k, first);
    forall i | 0 <= i < |es|
      ensures LedgerEntry(before, files', es'[i], umask)
    {
      assert LedgerEntry(before, files, es[i], umask) && BookkeepingEntry(es[i], first, next);
      assert i != k && Active(es[i]) ==> es[i].file.path != p;
    }
    forall i | 0 <= i < |es'| && es'[i].staged.Some?
      ensures es'[i].staged.value in files' && files'[es'[i].staged.value] == Result(es'[i].file, umask)
    {
      assert BookkeepingEntry(es[i], first, next);
    }
    KeysStayAccounted(es, es', k, files.Keys, files'.Keys, first);
  }

  /** Only entry `k` became active and only its target and temporaries changed. */
  lemma IdleStaysSame(before: Files, files: Files, files': Files, es: seq<Entry>, es': seq<Entry>, k: nat, first: nat)
    requires k < |es| == |es'| && forall i :: 0 <= i < |es| && i != k ==> es'[i] == es[i]
    requires es'[k].file == es[k].file && Active(es'[k])
    requires forall p :: Known(p, first) && Idle(es, p) ==> SameAt(files, before, p)
    requires forall p :: Known(p, first) && p != es[k].file.path ==> SameAt(files', files, p)
    ensures forall p :: Known(p, first) && Idle(es', p) ==> SameAt(files', before, p)
  {
  }

  /** Only the flags of entry `k` changed: every other temporary is still some entry's. */
  lemma KeysStayAccounted(es: seq<Entry>, es': seq<Entry>, k: nat, keys: set<Path>, keys': set<Path>, first: nat)
    requires k < |es| == |es'| && forall i :: 0 <= i < |es| && i != k ==> es'[i] == es[i]
    requires forall p :: p in keys && !Known(p, first) ==> IsStage(es, p) || IsBackup(es, p)
    requires es[k].staged == es'[k].staged
    requires es[k].originalMoved && !es'[k].originalMoved ==> es[k].backup.Some? && es[k].backup.value !in keys'
    requires es[k].originalMoved && es'[k].originalMoved ==> es[k].backup == es'[k].backup
    requires forall p :: p in keys' && !Known(p, first) ==>
      p in keys || (es'[k].originalMoved && es'[k].backup == Some(p))
    ensures forall p :: p in keys' && !Known(p, first) ==> IsStage(es', p) || IsBackup(es', p)
  {
  }

  lemma InstallCreate(before: Files, files: Files, es: seq<Entry>, k: nat, first: nat, next: nat, umask: Permissions)
    requires Bookkeeping(es, first, next) && Ledger(before, files, es, first, umask) && StagesReady(files, es, umask)
    requires k < |es| && !es[k].installed && es[k].file.operation == Create && es[k].staged.Some?
    requires es[k].file.path !in files && es[k].file.path !in before
    ensures es[k].staged.value in files
    ensures var es' := es[k := es[k].(installed := true)];
      && Bookkeeping(es', first, next)
      && Ledger(before, files[es[k].file.path := files[es[k].staged.value]], es', first, umask)
      && StagesReady(files[es[k].file.path := files[es[k].staged.value]], es', umask)
  {
    var p := es[k].file.path;
    var es' := es[k := es[k].(installed := true)];
    assert LedgerEntry(before, files, es[k], umask);
    var files' := files[p := files[es[k].staged.value]];
    assert Idle(es, p) by {
      forall i | 0 <= i < |es| && Active(es[i])
        ensures es[i].file.path != p
      {
        assert LedgerEntry(before, files, es[i], umask);
      }
    }
    assert Active(es'[k]);
    IdleStaysSame(before, files, files', es, es', k, first);
    ReplaceEntry(es, k, es'[k], first, next, next);
    forall i | 0 <= i < |es|
      ensures LedgerEntry(before, files', es'[i], umask)
    {
      assert LedgerEntry(before, files, es[i], umask);
      assert i != k && Active(es[i]) ==> es[i].file.path != p;
    }
    KeysStayAccounted(es, es', k, files.Keys, files'.Keys, first);
  }

  lemma InstallUpdate(before: Files, files: Files, es: seq<Entry>, k: nat, first: nat, next: nat, umask: Permissions)
    requires Bookkeeping(es, first, next) && Ledger(before, files, es, first, umask) && StagesReady(files, es, umask)
    requires k < |es| && !es[k].installed && es[k].file.operation == Update && es[k].originalMoved && es[k].staged.Some?
    ensures es[k].staged.value in files
    ensures var es' := es[k := es[k].(installed := true)];
      && Bookkeeping(es', first, next)
      && Ledger(before, (files - {es[k].staged.value})[es[k].file.path := files[es[k].staged.value]], es', first, umask)
      && StagesReady((files - {es[k].staged.value})[es[k].file.path := files[es[k].staged.value]], es', umask)
  {
    var p := es[k].file.path;
    var es' := es[k := es[k].(installed := true)];
    assert LedgerEntry(before, files, es[k], umask);
    ReplaceEntry(es, k, es'[k], first, next, next);
    var files' := (files - {es[k].staged.value})[p := files[es[k].staged.value]];
    assert Active(es'[k]);
    IdleStaysSame(before, files, files', es, es', k, first);
    forall i | 0 <= i < |es|
      ensures LedgerEntry(before, files', es'[i], umask)
    {
      assert LedgerEntry(before, files, es[i], umask);
    }
    KeysStayAccounted(es, es', k, files.Keys, files'.Keys, first);
  }

  /** What rolling an entry back makes of the files, given which of its two operations go through. */
  function Undone(files: Files, e: Entry, removes: bool, restores: bool): Files
    requires e.originalMoved ==> e.backup.Some? && e.backup.value in files
  {
    var removed := if e.installed && removes then files - {e.file.path} else files;
    if e.originalMoved && restores && e.backup.value in removed then
      (removed - {e.backup.value})[e.file.path := removed[e.backup.value]]
    else
      removed
  }

  // ---------------------------------------------------------------- rollback

  ghost predicate HeldAt(files: Files, p: Path, node: Node) {
    p in files && files[p] == node
  }

  /** Entries from `k` on have been rolled back, perhaps in vain; no original is lost. */
  ghost predicate Recoverable(before: Files, files: Files, es: seq<Entry>, k: nat, first: nat) {
    && (forall i :: 0 <= i < |es| && es[i].originalMoved ==>
      && es[i].file.path in before
      && es[i].backup.Some?
      && (HeldAt(files, es[i].backup.value, before[es[i].file.path])
          || (k <= i && HeldAt(files, es[i].file.path, before[es[i].file.path]))))
    && (forall i :: 0 <= i < |es| && es[i].installed && !es[i].originalMoved ==> es[i].file.path !in before)
    && (forall p :: Known(p, first) && Idle(es, p) ==> SameAt(files, before, p))
  }

  lemma RecoverableStep(
    before: Files, files: Files, es: seq<Entry>, k: nat, first: nat, next: nat, removes: bool, restores: bool)
    requires Bookkeeping(es, first, next) && k < |es| && Recoverable(before, files, es, k + 1, first)
    ensures es[k].originalMoved ==> es[k].backup.Some? && es[k].backup.value in files
    ensures Recoverable(before, Undone(files, es[k], removes, restores), es, k, first)
  {
    assert es[k].originalMoved ==> HeldAt(files, es[k].backup.value, before[es[k].file.path]);
    var files' := Undone(files, es[k], removes, restores);
    forall i | 0 <= i < |es| && es[i].originalMoved
      ensures HeldAt(files', es[i].backup.value, before[es[i].file.path])
        || (k <= i && HeldAt(files', es[i].file.path, before[es[i].file.path]))
    {
      assert i != k && Active(es[k]) ==> Active(es[i]) && es[i].file.path != es[k].file.path;
    }
    forall p | Known(p, first) && Idle(es, p)
      ensures SameAt(files', before, p)
    {
      assert Active(es[k]) ==> p != es[k].file.path;
      assert SameAt(files, before, p);
    }
  }

  /** An active entry that is still to be rolled back, or was in vain. */
  ghost predicate Outstanding(es: seq<Entry>, k: nat, stuck: set<nat>, i: int) {
    0 <= i < |es| && Active(es[i]) && (i < k || i in stuck)
  }

  /** Entries from `k` on have been rolled back, in vain only for those in `stuck`; everything else is as before. */
  ghost predicate RolledBackBut(before: Files, files: Files, es: seq<Entry>, k: nat, stuck: set<nat>, first: nat) {
    && (forall p :: Known(p, first) && (forall i :: Outstanding(es, k, stuck, i) ==> es[i].file.path != p) ==>
          SameAt(files, before, p))
    && (forall p :: p in files && !Known(p, first) ==>
          IsStage(es, p) || exists i :: Outstanding(es, k, stuck, i) && es[i].originalMoved && es[i].backup == Some(p))
  }

  lemma StartsRolledBack(before: Files, files: Files, es: seq<Entry>, first: nat, umask: Permissions)
    requires Ledger(before, files, es, first, umask)
    ensures RolledBackBut(before, files, es, |es|, {}, first)
  {
    forall p | Known(p, first) && (forall i :: Outstanding(es, |es|, {}, i) ==> es[i].file.path != p)
      ensures SameAt(files, before, p)
    {
      assert Idle(es, p) by {
        forall i | 0 <= i < |es| && Active(es[i])
          ensures es[i].file.path != p
        {
          assert Outstanding(es, |es|, {}, i);
        }
      }
    }
    forall p | p in files && !Known(p, first) && !IsStage(es, p)
      ensures exists i :: Outstanding(es, |es|, {}, i) && es[i].originalMoved && es[i].backup == Some(p)
    {
      var i :| 0 <= i < |es| && es[i].originalMoved && es[i].backup == Some(p);
      assert Outstanding(es, |es|, {}, i);
    }
  }

  /** An entry rolled back with both operations has its target as before and its backup gone. */
  lemma UndoneTarget(before: Files, files: Files, es: seq<Entry>, k: nat, first: nat, next: nat)
    requires Bookkeeping(es, first, next) && k < |es| && Recoverable(before, files, es, k + 1, first) && Active(es[k])
    ensures es[k].originalMoved ==> es[k].backup.Some? && es[k].backup.value in files
    ensures var files' := Undone(files, es[k], true, true);
      && SameAt(files', before, es[k].file.path)
      && (es[k].backup.Some? && es[k].originalMoved ==> es[k].backup.value !in files')
  {
    assert BookkeepingEntry(es[k], first, next);
  }

  lemma UndoneElsewhere(files: Files, e: Entry, removes: bool, restores: bool, p: Path)
    requires e.originalMoved ==> e.backup.Some? && e.backup.value in files
    requires p != e.file.path && (e.originalMoved ==> e.backup != Some(p))
    ensures SameAt(Undone(files, e, removes, restores), files, p)
  {
  }

  lemma UndoneAddsTarget(files: Files, e: Entry, removes: bool, restores: bool, p: Path)
    requires e.originalMoved ==> e.backup.Some? && e.backup.value in files
    requires p in Undone(files, e, removes, restores) && p != e.file.path
    ensures p in files
  {
  }

  /** Without the entry, or with it among the stuck ones, the outstanding entries are the same but for itself. */
  lemma OutstandingStep(es: seq<Entry>, k: nat, stuck: set<nat>, stuck': set<nat>, i: int)
    requires k < |es| && k !in stuck && (stuck' == stuck || stuck' == stuck + {k})
    ensures Outstanding(es, k, stuck', i) ==> Outstanding(es, k + 1, stuck, i)
    ensures Outstanding(es, k + 1, stuck, i) ==> Outstanding(es, k, stuck', i) || (i == k && stuck' == stuck)
  {
  }

  lemma RollbackStep(before: Files, files: Files, es: seq<Entry>, k: nat, stuck: set<nat>, first: nat, next: nat,
    removes: bool, restores: bool)
    requires Bookkeeping(es, first, next) && k < |es| && k !in stuck
    requires Recoverable(before, files, es, k + 1, first) && RolledBackBut(before, files, es, k + 1, stuck, first)
    ensures es[k].originalMoved ==> es[k].backup.Some? && es[k].backup.value in files
    ensures RolledBackBut(before, Undone(files, es[k], removes, restores), es, k,
      if removes && restores then stuck else stuck + {k}, first)
  {
    assert es[k].originalMoved ==> HeldAt(files, es[k].backup.value, before[es[k].file.path]);
    assert BookkeepingEntry(es[k], first, next);
    var files' := Undone(files, es[k], removes, restores);
    var stuck' := if removes && restores then stuck else stuck + {k};
    forall p | Known(p, first) && (forall i :: Outstanding(es, k, stuck', i) ==> es[i].file.path != p)
      ensures SameAt(files', before, p)
    {
      RestoredPath(before, files, es, k, stuck, first, next, removes, restores, p);
    }
    forall p | p in files' && !Known(p, first) && !IsStage(es, p)
      ensures exists i :: Outstanding(es, k, stuck', i) && es[i].originalMoved && es[i].backup == Some(p)
    {
      AccountedName(before, files, es, k, stuck, first, next, removes, restores, p);
    }
  }

  lemma RestoredPath(before: Files, files: Files, es: seq<Entry>, k: nat, stuck: set<nat>, first: nat, next: nat,
    removes: bool, restores: bool, p: Path)
    requires Bookkeeping(es, first, next) && k < |es| && k !in stuck
    requires Recoverable(before, files, es, k + 1, first) && RolledBackBut(before, files, es, k + 1, stuck, first)
    requires Known(p, first)
    requires var stuck' := if removes && restores then stuck else stuck + {k};
      forall i :: Outstanding(es, k, stuck', i) ==> es[i].file.path != p
    ensures es[k].originalMoved ==> es[k].backup.Some? && es[k].backup.value in files
    ensures SameAt(Undone(files, es[k], removes, restores), before, p)
  {
    var stuck' := if removes && restores then stuck else stuck + {k};
    assert es[k].originalMoved ==> HeldAt(files, es[k].backup.value, before[es[k].file.path]);
    assert BookkeepingEntry(es[k], first, next);
    if Active(es[k]) && p == es[k].file.path {
      assert !Outstanding(es, k, stuck', k);
      UndoneTarget(before, files, es, k, first, next);
    } else {
      forall i | Outstanding(es, k + 1, stuck, i)
        ensures es[i].file.path != p
      {
        OutstandingStep(es, k, stuck, stuck', i);
      }
      if Active(es[k]) {
        UndoneElsewhere(files, es[k], removes, restores, p);
      }
    }
  }

  lemma AccountedName(before: Files, files: Files, es: seq<Entry>, k: nat, stuck: set<nat>, first: nat, next: nat,
    removes: bool, restores: bool, p: Path)
    requires Bookkeeping(es, first, next) && k < |es| && k !in stuck
    requires Recoverable(before, files, es, k + 1, first) && RolledBackBut(before, files, es, k + 1, stuck, first)
    requires es[k].originalMoved ==> es[k].backup.Some? && es[k].backup.value in files
    requires p in Undone(files, es[k], removes, restores) && !Known(p, first) && !IsStage(es, p)
    ensures var stuck' := if removes && restores then stuck else stuck + {k};
      exists i :: Outstanding(es, k, stuck', i) && es[i].originalMoved && es[i].backup == Some(p)
  {
    var stuck' := if removes && restores then stuck else stuck + {k};
    assert BookkeepingEntry(es[k], first, next);
    UndoneAddsTarget(files, es[k], removes, restores, p);
    var i :| Outstanding(es, k + 1, stuck, i) && es[i].originalMoved && es[i].backup == Some(p);
    OutstandingStep(es, k, stuck, stuck', i);
    assert BookkeepingEntry(es[i], first, next);
    if i == k && stuck' == stuck {
      UndoneTarget(before, files, es, k, first, next);
      assert false;
    }
  }

  /** The two operations that undo an entry. */
  method UndoOne(fs: FileStore, entry: Entry) returns (removes: bool, restores: bool)
    requires fs.Valid() && Known(entry.file.path, fs.nextSerial)
    requires entry.originalMoved ==> entry.backup.Some? && entry.backup.value in fs.files
    requires entry.originalMoved ==> entry.backup.value != entry.file.path
    modifies fs`files, fs`faults
    ensures fs.Valid() && fs.faults >= old(fs.faults)
    ensures fs.files == Undone(old(fs.files), entry, removes, restores)
    ensures !(removes && restores) ==> fs.faults > old(fs.faults)
  {
    removes, restores := true, true;
    if entry.installed {
      removes := fs.RemoveIfExists(entry.file.path);
    }
    if entry.originalMoved {
      restores := fs.Rename(entry.backup.value, entry.file.path);
    }
  }

  lemma NothingActive(before: Files, files: Files, es: seq<Entry>, first: nat, next: nat, umask: Permissions)
    requires Bookkeeping(es, first, next) && Ledger(before, files, es, first, umask)
    requires forall i :: 0 <= i < |es| ==> !Active(es[i])
    ensures forall p :: Known(p, first) ==> SameAt(files, before, p)
    ensures forall p :: p in files && !Known(p, first) ==> IsStage(es, p)
  {
  }

  /** The rollback loop itself, last entry first; it goes on after a failure, and `stuck` has the entries that failed. */
  method UndoAll(fs: FileStore, es: seq<Entry>, ghost before: Files, ghost first: nat)
    returns (failed: bool, ghost stuck: set<nat>)
    requires fs.Valid() && Bookkeeping(es, first, fs.nextSerial) && Ledger(before, fs.files, es, first, fs.umask)
    modifies fs`files, fs`faults
    ensures fs.Valid() && fs.faults >= old(fs.faults)
    ensures failed <==> stuck != {}
    ensures |stuck| <= fs.faults - old(fs.faults)
    ensures forall i :: i in stuck ==> i < |es|
    ensures RolledBackBut(before, fs.files, es, 0, stuck, first)
    ensures Recoverable(before, fs.files, es, 0, first)
  {
    failed, stuck := false, {};
    var index := |es|;
    StartsRecoverable(before, fs.files, es, first, fs.nextSerial, fs.umask);
    StartsRolledBack(before, fs.files, es, first, fs.umask);
    while index > 0
      invariant 0 <= index <= |es| && fs.Valid() && fs.faults >= old(fs.faults)
      invariant failed <==> stuck != {}
      invariant |stuck| <= fs.faults - old(fs.faults)
      invariant forall i :: i in stuck ==> index <= i < |es|
      invariant RolledBackBut(before, fs.files, es, index, stuck, first)
      invariant Recoverable(before, fs.files, es, index, first)
    {
      index := index - 1;
      var ok;
      ok, stuck := UndoNext(fs, es, index, stuck, before, first);
      failed := failed || !ok;
    }
  }

  /** One turn of that loop. */
  method UndoNext(fs: FileStore, es: seq<Entry>, index: nat, ghost stuck: set<nat>, ghost before: Files, ghost first: nat)
    returns (ok: bool, ghost stuck': set<nat>)
    requires fs.Valid() && Bookkeeping(es, first, fs.nextSerial) && index < |es| && index !in stuck
    requires Recoverable(before, fs.files, es, index + 1, first)
    requires RolledBackBut(before, fs.files, es, index + 1, stuck, first)
    modifies fs`files, fs`faults
    ensures fs.Valid() && fs.faults >= old(fs.faults) + if ok then 0 else 1
    ensures stuck' == if ok then stuck else stuck + {index}
    ensures Recoverable(before, fs.files, es, index, first)
    ensures RolledBackBut(before, fs.files, es, index, stuck', first)
  {
    ghost var files := fs.files;
    RecoverableStep(before, files, es, index, first, fs.nextSerial, true, true);
    assert BookkeepingEntry(es[index], first, fs.nextSerial);
    var removes, restores := UndoOne(fs, es[index]);
    ok := removes && restores;
    RecoverableStep(before, files, es, index, first, fs.nextSerial, removes, restores);
    RollbackStep(before, files, es, index, stuck, first, fs.nextSerial, removes, restores);
    stuck' := if ok then stuck else stuck + {index};
  }

  /** What is not as before once only stages are left beside the stuck entries. */
  lemma StuckIsAll(before: Files, files: Files, es: seq<Entry>, patch: seq<FilePatch>, stuck: set<nat>, first: nat,
    next: nat)
    requires Bookkeeping(es, first, next) && EntriesOf(es, patch)
    requires RolledBackBut(before, files, es, 0, stuck, first) && forall i :: i in stuck ==> i < |es|
    ensures |Unrestored(before, files, patch)| <= |stuck|
    ensures |Leftovers(files, first)| <= |stuck| + |StagesLeft(files, es)|
  {
    var target := (i: nat) => if i < |es| then es[i].file.path else Named("");
    var targets := set i | i in stuck :: target(i);
    ImageIsSmall(stuck, target);
    forall p | p in Unrestored(before, files, patch)
      ensures p in targets
    {
      var i :| 0 <= i < |patch| && !SameAt(files, before, patch[i].path) && p == patch[i].path;
      assert BookkeepingEntry(es[i], first, next) && es[i].file.path == p;
      var j :| Outstanding(es, 0, stuck, j) && es[j].file.path == p;
      assert target(j) == p;
    }
    FewerThan(Unrestored(before, files, patch), targets);
    var backup := (i: nat) => if i < |es| && es[i].backup.Some? then es[i].backup.value else Named("");
    var backups := set i | i in stuck :: backup(i);
    ImageIsSmall(stuck, backup);
    forall p | p in Leftovers(files, first)
      ensures p in backups + StagesLeft(files, es)
    {
      if !IsStage(es, p) {
        var i :| Outstanding(es, 0, stuck, i) && es[i].originalMoved && es[i].backup == Some(p);
        assert backup(i) == p;
      }
    }
    FewerThan(Leftovers(files, first), backups + StagesLeft(files, es));
    UnionIsSmall(backups, StagesLeft(files, es));
  }

  lemma UnionIsSmall<T>(a: set<T>, b: set<T>)
    ensures |a + b| <= |a| + |b|
  {
    assert a + b == a + (b - a);
    FewerThan(b - a, b);
  }

  lemma StartsRecoverable(before: Files, files: Files, es: seq<Entry>, first: nat, next: nat, umask: Permissions)
    requires Bookkeeping(es, first, next) && Ledger(before, files, es, first, umask)
    ensures Recoverable(before, files, es, |es|, first)
  {
  }

  /** rollbackPatch: undo, then drop the staged results that were never installed. */
  method RollbackPatch(fs: FileStore, es: seq<Entry>, cause: Outcome, ghost patch: seq<FilePatch>, ghost before: Files,
    ghost first: nat)
    returns (outcome: Outcome)
    requires fs.Valid() && Bookkeeping(es, first, fs.nextSerial) && Ledger(before, fs.files, es, first, fs.umask)
    requires EntriesOf(es, patch)
    requires forall p :: p in before ==> Known(p, first)
    requires cause == Conflict || cause == Failed
    modifies fs`files, fs`faults
    ensures fs.Valid() && fs.faults >= old(fs.faults)
    ensures outcome == cause || outcome == RollbackFailed
    ensures outcome == cause ==> Restored(before, fs.files, first)
    ensures fs.faults == old(fs.faults) ==> outcome == cause && fs.files == before
    ensures UndoneBut(before, fs.files, patch, first, fs.faults - old(fs.faults))
    ensures Recoverable(before, fs.files, es, 0, first)
  {
    var failed;
    ghost var stuck;
    failed, stuck := UndoAll(fs, es, before, first);
    ghost var files := fs.files;
    ghost var next := fs.nextSerial;
    RemoveStages(fs, es, first);
    KeepsRecoverable(before, files, fs.files, es, first, next);
    KeepsRolledBack(before, files, fs.files, es, stuck, first, next);
    StuckIsAll(before, fs.files, es, patch, stuck, first, next);
    outcome := if failed then RollbackFailed else cause;
    if !failed {
      AfterRollback(before, files, fs.files, es, first, next, fs.faults == old(fs.faults));
    }
  }

  lemma KeepsRolledBack(before: Files, files: Files, files': Files, es: seq<Entry>, stuck: set<nat>, first: nat, next: nat)
    requires Bookkeeping(es, first, next) && RolledBackBut(before, files, es, 0, stuck, first)
    requires forall p :: !IsStage(es, p) ==> SameAt(files', files, p)
    requires forall p :: p in files' ==> p in files
    ensures RolledBackBut(before, files', es, 0, stuck, first)
  {
    StagesAreFresh(es, first, next);
    forall p | Known(p, first) && (forall i :: Outstanding(es, 0, stuck, i) ==> es[i].file.path != p)
      ensures SameAt(files', before, p)
    {
      assert !IsStage(es, p);
      assert SameAt(files', files, p) && SameAt(files, before, p);
    }
  }

  ghost function StagesLeft(files: Files, es: seq<Entry>): set<Path> {
    set p | p in files && IsStage(es, p)
  }

  lemma AfterRollback(
    before: Files, files: Files, files': Files, es: seq<Entry>, first: nat, next: nat, complete: bool)
    requires Bookkeeping(es, first, next)
    requires forall p :: Known(p, first) ==> SameAt(files, before, p)
    requires forall p :: p in files && !Known(p, first) ==> IsStage(es, p)
    requires forall p :: !IsStage(es, p) ==> SameAt(files', files, p)
    requires forall p :: p in files' ==> p in files
    requires complete ==> forall p :: IsStage(es, p) ==> p !in files'
    requires forall p :: p in before ==> Known(p, first)
    ensures Restored(before, files', first)
    ensures complete ==> files' == before
  {
    StagesAreFresh(es, first, next);
    forall p | Known(p, first)
      ensures SameAt(files', before, p)
    {
      assert !IsStage(es, p);
      assert SameAt(files', files, p) && SameAt(files, before, p);
    }
    if complete {
      assert forall p :: p in files' ==> Known(p, first);
      assert files'.Keys == before.Keys;
    }
  }

  lemma KeepsRecoverable(before: Files, files: Files, files': Files, es: seq<Entry>, first: nat, next: nat)
    requires Bookkeeping(es, first, next) && Recoverable(before, files, es, 0, first)
    requires forall p :: !IsStage(es, p) ==> SameAt(files', files, p)
    ensures Recoverable(before, files', es, 0, first)
  {
    StagesAreFresh(es, first, next);
    forall i | 0 <= i < |es| && es[i].originalMoved
      ensures HeldAt(files', es[i].backup.value, before[es[i].file.path])
        || HeldAt(files', es[i].file.path, before[es[i].file.path])
    {
      assert !IsStage(es, es[i].backup.value);
      assert !IsStage(es, es[i].file.path);
      assert SameAt(files', files, es[i].backup.value) && SameAt(files', files, es[i].file.path);
    }
    forall p | Known(p, first) && Idle(es, p)
      ensures SameAt(files', before, p)
    {
      assert !IsStage(es, p);
      assert SameAt(files', files, p);
    }
  }

  lemma StagesAreFresh(es: seq<Entry>, first: nat, next: nat)
    requires Bookkeeping(es, first, next)
    ensures forall p :: IsStage(es, p) ==> !Known(p, first) && p.extension == "tmp"
    ensures forall i, p :: 0 <= i < |es| && es[i].originalMoved && IsStage(es, p) ==> es[i].backup != Some(p)
  {
  }

  method RemoveStages(fs: FileStore, es: seq<Entry>, ghost first: nat)
    requires fs.Valid() && Bookkeeping(es, first, fs.nextSerial)
    modifies fs`files, fs`faults
    ensures fs.Valid() && fs.faults >= old(fs.faults)
    ensures forall p :: !IsStage(es, p) ==> SameAt(fs.files, old(fs.files), p)
    ensures forall p :: p in fs.files ==> p in old(fs.files)
    ensures |StagesLeft(fs.files, es)| <= fs.faults - old(fs.faults)
    ensures fs.faults == old(fs.faults) ==> forall p :: IsStage(es, p) ==> p !in fs.files
  {
    ghost var left := {};
    for i := 0 to |es|
      invariant fs.Valid() && fs.faults >= old(fs.faults)
      invariant forall p :: !IsStage(es, p) ==> SameAt(fs.files, old(fs.files), p)
      invariant forall p :: p in fs.files ==> p in old(fs.files)
      invariant |left| <= fs.faults - old(fs.faults)
      invariant forall j :: 0 <= j < i && es[j].staged.Some? && es[j].staged.value in fs.files ==> es[j].staged.value in left
    {
      if es[i].staged.Some? {
        assert IsStage(es, es[i].staged.value);
        var removed := fs.RemoveIfExists(es[i].staged.value);
        if !removed {
          left := left + {es[i].staged.value};
        }
      }
    }
    FewerThan(StagesLeft(fs.files, es), left);
    assert fs.faults == old(fs.faults) ==> left == {};
  }

  // ---------------------------------------------------------------- staging and validation

  /** stagePatchFile: the result goes to a new sibling of the target; a failed one may stay behind. */
  method StagePatchFile(fs: FileStore, file: FilePatch) returns (staged: Option<Path>)
    requires fs.Valid()
    modifies fs
    ensures fs.Valid() && fs.nextSerial == old(fs.nextSerial) + 1 && fs.faults >= old(fs.faults)
    ensures var temporary := Temporary(file.path, old(fs.nextSerial), "tmp");
      && temporary !in old(fs.files)
      && (staged == None || staged == Some(temporary))
      && (staged.Some? ==> fs.files == old(fs.files)[temporary := Result(file, fs.umask)] && fs.faults == old(fs.faults))
      && (forall p :: p != temporary ==> SameAt(fs.files, old(fs.files), p))
    ensures staged == None ==> fs.faults > old(fs.faults)
    ensures staged == None && Temporary(file.path, old(fs.nextSerial), "tmp") in fs.files ==>
      fs.faults > old(fs.faults) + 1
  {
    var temporary := fs.TemporarySibling(file.path, "tmp");
    var mode := CREATED_FILE_MODE;
    if file.before.Present? {
      mode := file.before.mode;
    }
    var created := fs.CreateExclusive(temporary, mode);
    if !created {
      return None;
    }
    var written := fs.WriteAll(temporary, file.after);
    if !written {
      var _ := fs.RemoveIfExists(temporary);
      return None;
    }
    staged := Some(temporary);
  }

  /** validateFileState; every mismatch and every failure to read is a conflict. */
  method ValidateFileState(fs: FileStore, file: FilePatch) returns (ok: bool)
    requires WellFormed(file)
    modifies fs`faults
    ensures fs.faults >= old(fs.faults)
    ensures ok ==> BaseMatches(fs.files, file)
    ensures !ok && fs.faults == old(fs.faults) ==> !BaseMatches(fs.files, file)
  {
    var current := fs.ReadSnapshot(file.path);
    match current
    case Err(_) =>
      return false;
    case Ok(Absent) =>
      return file.operation == Create;
    case Ok(Present(content, mode)) =>
      return file.operation != Create
        && Sha256(content) == Sha256(file.before.content) && mode == file.before.mode;
  }

  method ValidatePatchState(fs: FileStore, patch: seq<FilePatch>) returns (ok: bool)
    requires forall i :: 0 <= i < |patch| ==> WellFormed(patch[i])
    modifies fs`faults
    ensures fs.faults >= old(fs.faults)
    ensures ok ==> AllBasesMatch(fs.files, patch)
    ensures !ok && fs.faults == old(fs.faults) ==> !AllBasesMatch(fs.files, patch)
  {
    for i := 0 to |patch|
      invariant fs.faults >= old(fs.faults)
      invariant forall j :: 0 <= j < i ==> BaseMatches(fs.files, patch[j])
    {
      var matches := ValidateFileState(fs, patch[i]);
      if !matches {
        return false;
      }
    }
    ok := true;
  }

  ghost predicate Staged(es: seq<Entry>, patch: seq<FilePatch>, k: nat) {
    && EntriesOf(es, patch)
    && (forall i :: 0 <= i < |es| ==> !Active(es[i]) && es[i].backup == None)
    && (forall i :: 0 <= i < |es| ==> es[i].staged.Some? == (i < k && es[i].file.operation != Delete))
  }

  lemma StageOne(before: Files, files: Files, es: seq<Entry>, patch: seq<FilePatch>, k: nat, first: nat, next: nat,
    umask: Permissions)
    requires Bookkeeping(es, first, next) && Ledger(before, files, es, first, umask) && StagesReady(files, es, umask)
    requires Staged(es, patch, k) && k < |es| && es[k].file.operation != Delete
    requires forall p :: p in files ==> Known(p, next)
    ensures var temporary := Temporary(es[k].file.path, next, "tmp");
      var es' := es[k := es[k].(staged := Some(temporary))];
      var files' := files[temporary := Result(es[k].file, umask)];
      && Bookkeeping(es', first, next + 1)
      && Ledger(before, files', es', first, umask)
      && StagesReady(files', es', umask)
      && Staged(es', patch, k + 1)
  {
    var temporary := Temporary(es[k].file.path, next, "tmp");
    var es' := es[k := es[k].(staged := Some(temporary))];
    var files' := files[temporary := Result(es[k].file, umask)];
    ReplaceEntry(es, k, es'[k], first, next, next + 1);
    forall p | Known(p, first)
      ensures SameAt(files', before, p)
    {
      assert Idle(es, p);
      assert SameAt(files, before, p);
    }
    forall p | p in files' && !Known(p, first)
      ensures IsStage(es', p)
    {
      if p == temporary {
        assert es'[k].staged == Some(p);
      } else {
        assert IsStage(es, p);
        var i :| 0 <= i < |es| && es[i].staged == Some(p);
        assert es'[i].staged == Some(p);
      }
    }
    forall i | 0 <= i < |es|
      ensures LedgerEntry(before, files', es'[i], umask)
    {
      assert LedgerEntry(before, files, es[i], umask);
    }
  }

  lemma StagingGivenUp(before: Files, files: Files, left: Files, es: seq<Entry>, first: nat, next: nat, temporary: Path,
    umask: Permissions)
    requires Bookkeeping(es, first, next) && Ledger(before, files, es, first, umask)
    requires forall i :: 0 <= i < |es| ==> !Active(es[i])
    requires !Known(temporary, first) && temporary.extension == "tmp"
    requires forall p :: p != temporary ==> SameAt(left, files, p)
    ensures Restored(before, left, first)
    ensures forall p :: p in left && !Known(p, first) ==> IsStage(es, p) || p == temporary
  {
    NothingActive(before, files, es, first, next, umask);
    StagesAreFresh(es, first, next);
    forall p | Known(p, first)
      ensures SameAt(left, before, p)
    {
      assert SameAt(left, files, p) && SameAt(files, before, p);
    }
    forall p | p in left && !Known(p, first)
      ensures p.extension == "tmp" && (IsStage(es, p) || p == temporary)
    {
      assert p != temporary ==> SameAt(left, files, p);
    }
  }

  lemma RemovalsKeepRestored(before: Files, files: Files, files': Files, es: seq<Entry>, first: nat, next: nat)
    requires Bookkeeping(es, first, next) && Restored(before, files, first)
    requires forall p :: !IsArtifact(es, p) ==> SameAt(files', files, p)
    requires forall p :: p in files' ==> p in files
    ensures Restored(before, files', first)
  {
    ArtifactsAreFresh(es, first, next);
    forall p | Known(p, first)
      ensures SameAt(files', before, p)
    {
      assert !IsArtifact(es, p);
      assert SameAt(files', files, p) && SameAt(files, before, p);
    }
  }

  /** cleanupPatchArtifacts before anything was moved; its failures are ignored. */
  method DiscardStaged(fs: FileStore, es: seq<Entry>, ghost temporary: Path, ghost before: Files, ghost first: nat)
    requires fs.Valid() && Bookkeeping(es, first, fs.nextSerial) && Restored(before, fs.files, first)
    requires forall p :: p in fs.files && !Known(p, first) ==> IsStage(es, p) || p == temporary
    modifies fs`files, fs`faults
    ensures fs.Valid() && fs.faults >= old(fs.faults)
    ensures Restored(before, fs.files, first)
    ensures |Leftovers(fs.files, first)| <=
      fs.faults - old(fs.faults) + if temporary in old(fs.files) then 1 else 0
  {
    ghost var left := fs.files;
    var _ := RemoveArtifacts(fs, es, first);
    RemovalsKeepRestored(before, left, fs.files, es, first, fs.nextSerial);
    ghost var other := if temporary in left then {temporary} else {};
    ArtifactsAreFresh(es, first, fs.nextSerial);
    FewerThan(Leftovers(fs.files, first), ArtifactsLeft(fs.files, es) + other);
    UnionIsSmall(ArtifactsLeft(fs.files, es), other);
  }

  method StageNext(fs: FileStore, es: seq<Entry>, patch: seq<FilePatch>, k: nat, ghost before: Files, ghost first: nat)
    returns (es': seq<Entry>, ok: bool)
    requires fs.Valid() && Bookkeeping(es, first, fs.nextSerial) && k < |patch| && Staged(es, patch, k)
    requires Ledger(before, fs.files, es, first, fs.umask) && StagesReady(fs.files, es, fs.umask)
    requires Proposed(patch, first) && patch[k].operation != Delete
    requires forall p :: p in before ==> Known(p, first)
    modifies fs
    ensures fs.Valid() && fs.faults >= old(fs.faults) && fs.nextSerial >= old(fs.nextSerial)
    ensures ok ==> fs.faults == old(fs.faults) && Bookkeeping(es', first, fs.nextSerial) && Staged(es', patch, k + 1)
    ensures ok ==> Ledger(before, fs.files, es', first, fs.umask) && StagesReady(fs.files, es', fs.umask)
    ensures !ok ==> Restored(before, fs.files, first) && |Leftovers(fs.files, first)| < fs.faults - old(fs.faults)
  {
    ghost var files, next := fs.files, fs.nextSerial;
    var staged := StagePatchFile(fs, patch[k]);
    if staged == None {
      ghost var temporary := Temporary(patch[k].path, next, "tmp");
      StagingGivenUp(before, files, fs.files, es, first, next, temporary, fs.umask);
      DiscardStaged(fs, es, temporary, before, first);
      return es, false;
    }
    StageOne(before, files, es, patch, k, first, next, fs.umask);
    return es[k := es[k].(staged := staged)], true;
  }

  /** The staging loop; when it gives up, only staged results can have been added. */
  method StageAll(fs: FileStore, patch: seq<FilePatch>, ghost first: nat) returns (es: seq<Entry>, ok: bool)
    requires fs.Valid() && Proposed(patch, fs.nextSerial) && first == fs.nextSerial
    modifies fs
    ensures fs.Valid() && fs.faults >= old(fs.faults)
    ensures fs.nextSerial >= first && (ok ==> Bookkeeping(es, first, fs.nextSerial))
    ensures ok ==> Staged(es, patch, |patch|)
    ensures ok ==> Ledger(old(fs.files), fs.files, es, first, fs.umask) && StagesReady(fs.files, es, fs.umask)
    ensures !ok ==> Restored(old(fs.files), fs.files, first) && |Leftovers(fs.files, first)| < fs.faults - old(fs.faults)
  {
    es := seq(|patch|, i requires 0 <= i < |patch| => Entry(patch[i], None, None, false, false));
    for k := 0 to |patch|
      invariant fs.Valid() && fs.faults == old(fs.faults)
      invariant Bookkeeping(es, first, fs.nextSerial)
      invariant Staged(es, patch, k)
      invariant Ledger(old(fs.files), fs.files, es, first, fs.umask) && StagesReady(fs.files, es, fs.umask)
    {
      if patch[k].operation == Delete {
        continue;
      }
      es, ok := StageNext(fs, es, patch, k, old(fs.files), first);
      if !ok {
        return;
      }
    }
    ok := true;
  }

  // ---------------------------------------------------------------- cleanup

  ghost predicate IsArtifact(es: seq<Entry>, p: Path) {
    exists i :: 0 <= i < |es| && (es[i].staged == Some(p) || es[i].backup == Some(p))
  }

  ghost function ArtifactsLeft(files: Files, es: seq<Entry>): set<Path> {
    set p | p in files && IsArtifact(es, p)
  }

  lemma ArtifactsAreFresh(es: seq<Entry>, first: nat, next: nat)
    requires Bookkeeping(es, first, next)
    ensures forall p :: IsArtifact(es, p) ==> !Known(p, first)
    ensures forall p :: IsStage(es, p) || IsBackup(es, p) ==> IsArtifact(es, p)
  {
  }

  /** The loop of cleanupPatchArtifacts and of the final cleanup; it goes on after a failure. */
  method RemoveArtifacts(fs: FileStore, es: seq<Entry>, ghost first: nat) returns (ok: bool)
    requires fs.Valid() && Bookkeeping(es, first, fs.nextSerial)
    modifies fs`files, fs`faults
    ensures fs.Valid() && fs.faults >= old(fs.faults)
    ensures forall p :: !IsArtifact(es, p) ==> SameAt(fs.files, old(fs.files), p)
    ensures forall p :: p in fs.files ==> p in old(fs.files)
    ensures |ArtifactsLeft(fs.files, es)| <= fs.faults - old(fs.faults)
    ensures ok ==> forall p :: IsArtifact(es, p) ==> p !in fs.files
    ensures !ok ==> fs.faults > old(fs.faults)
  {
    ok := true;
    ghost var left := {};
    for i := 0 to |es|
      invariant fs.Valid() && fs.faults >= old(fs.faults)
      invariant forall p :: !IsArtifact(es, p) ==> SameAt(fs.files, old(fs.files), p)
      invariant forall p :: p in fs.files ==> p in old(fs.files)
      invariant |left| <= fs.faults - old(fs.faults) && (ok <==> left == {})
      invariant forall j :: 0 <= j < i && es[j].staged.Some? && es[j].staged.value in fs.files ==> es[j].staged.value in left
      invariant forall j :: 0 <= j < i && es[j].backup.Some? && es[j].backup.value in fs.files ==> es[j].backup.value in left
    {
      if es[i].staged.Some? {
        assert IsArtifact(es, es[i].staged.value);
        var removed := fs.RemoveIfExists(es[i].staged.value);
        ok := ok && removed;
        if !removed {
          left := left + {es[i].staged.value};
        }
      }
      if es[i].backup.Some? {
        assert IsArtifact(es, es[i].backup.value);
        var removed := fs.RemoveIfExists(es[i].backup.value);
        ok := ok && removed;
        if !removed {
          left := left + {es[i].backup.value};
        }
      }
    }
    FewerThan(ArtifactsLeft(fs.files, es), left);
  }

  // ---------------------------------------------------------------- moving aside and installing

  ghost predicate MovedTo(es: seq<Entry>, patch: seq<FilePatch>, k: nat) {
    && EntriesOf(es, patch)
    && (forall i :: 0 <= i < |es| ==> !es[i].installed)
    && (forall i :: 0 <= i < |es| ==> es[i].originalMoved == (i < k && es[i].file.operation != Create))
    && (forall i :: 0 <= i < |es| ==> es[i].staged.Some? == (es[i].file.operation != Delete))
  }

  ghost predicate InstalledTo(es: seq<Entry>, patch: seq<FilePatch>, k: nat) {
    && EntriesOf(es, patch)
    && (forall i :: 0 <= i < |es| ==> es[i].installed == (i < k && es[i].file.operation != Delete))
    && (forall i :: 0 <= i < |es| ==> es[i].originalMoved == (es[i].file.operation != Create))
    && (forall i :: 0 <= i < |es| ==> es[i].staged.Some? == (es[i].file.operation != Delete))
  }

  /** While a target's entry is untouched and targets are distinct, the target is as it was. */
  lemma UntouchedTarget(before: Files, files: Files, es: seq<Entry>, patch: seq<FilePatch>, k: nat, first: nat, next: nat,
    umask: Permissions)
    requires Bookkeeping(es, first, next) && Ledger(before, files, es, first, umask) && EntriesOf(es, patch)
    requires k < |es| && !Active(es[k]) && DistinctPaths(patch)
    ensures SameAt(files, before, es[k].file.path)
    ensures BaseMatches(before, es[k].file) <==> BaseMatches(files, es[k].file)
  {
  }

  lemma RecordBackup(before: Files, files: Files, es: seq<Entry>, k: nat, backup: Path, first: nat, next: nat,
    umask: Permissions)
    requires Bookkeeping(es, first, next) && Ledger(before, files, es, first, umask) && StagesReady(files, es, umask)
    requires k < |es| && !Active(es[k]) && backup == Temporary(es[k].file.path, next, "bak")
    ensures var es' := es[k := es[k].(backup := Some(backup))];
      && Bookkeeping(es', first, next + 1)
      && Ledger(before, files, es', first, umask)
      && StagesReady(files, es', umask)
  {
    var es' := es[k := es[k].(backup := Some(backup))];
    ReplaceEntry(es, k, es'[k], first, next, next + 1);
    forall p | Known(p, first) && Idle(es', p)
      ensures SameAt(files, before, p)
    {
      assert forall i :: 0 <= i < |es| && Active(es[i]) ==> es'[i] == es[i];
      assert Idle(es, p);
    }
    forall i | 0 <= i < |es|
      ensures LedgerEntry(before, files, es'[i], umask)
    {
      assert LedgerEntry(before, files, es[i], umask);
    }
    KeysStayAccounted(es, es', k, files.Keys, files.Keys, first);
  }

  method MoveOriginal(fs: FileStore, es: seq<Entry>, patch: seq<FilePatch>, k: nat, ghost before: Files, ghost first: nat)
    returns (es': seq<Entry>, moved: bool)
    requires fs.Valid() && Bookkeeping(es, first, fs.nextSerial) && k < |patch| && MovedTo(es, patch, k)
    requires Ledger(before, fs.files, es, first, fs.umask) && StagesReady(fs.files, es, fs.umask)
    requires patch[k].operation != Create && patch[k].path in fs.files
    modifies fs
    ensures fs.Valid() && fs.faults >= old(fs.faults)
    ensures Bookkeeping(es', first, fs.nextSerial)
    ensures Ledger(before, fs.files, es', first, fs.umask) && StagesReady(fs.files, es', fs.umask)
    ensures moved ==> MovedTo(es', patch, k + 1)
    ensures EntriesOf(es', patch)
    ensures !moved ==> fs.faults > old(fs.faults)
  {
    ghost var files, next := fs.files, fs.nextSerial;
    var backup := fs.TemporarySibling(patch[k].path, "bak");
    es' := es[k := es[k].(backup := Some(backup))];
    moved := fs.Rename(patch[k].path, backup);
    if moved {
      es' := es'[k := es'[k].(originalMoved := true)];
      assert es' == es[k := es[k].(backup := Some(backup), originalMoved := true)];
      MoveAside(before, files, es, k, backup, first, next, fs.umask);
    } else {
      RecordBackup(before, files, es, k, backup, first, next, fs.umask);
    }
  }

  /** The loop that moves originals to their backups; `cause` is Applied when it completes. */
  method MoveOriginals(fs: FileStore, staged: seq<Entry>, patch: seq<FilePatch>, ghost before: Files, ghost first: nat)
    returns (es: seq<Entry>, cause: Outcome)
    requires fs.Valid() && Bookkeeping(staged, first, fs.nextSerial) && Staged(staged, patch, |patch|)
    requires Ledger(before, fs.files, staged, first, fs.umask) && StagesReady(fs.files, staged, fs.umask)
    modifies fs
    ensures fs.Valid() && fs.faults >= old(fs.faults)
    ensures cause in {Applied, Conflict, Failed}
    ensures Bookkeeping(es, first, fs.nextSerial) && EntriesOf(es, patch)
    ensures Ledger(before, fs.files, es, first, fs.umask) && StagesReady(fs.files, es, fs.umask)
    ensures cause == Applied ==> MovedTo(es, patch, |patch|)
    ensures cause == Failed ==> fs.faults > old(fs.faults)
    ensures fs.faults == old(fs.faults) && cause == Conflict ==> !(AllBasesMatch(before, patch) && DistinctPaths(patch))
  {
    es := staged;
    for k := 0 to |patch|
      invariant fs.Valid() && fs.faults >= old(fs.faults)
      invariant Bookkeeping(es, first, fs.nextSerial) && MovedTo(es, patch, k)
      invariant Ledger(before, fs.files, es, first, fs.umask) && StagesReady(fs.files, es, fs.umask)
    {
      if patch[k].before.Absent? {
        continue;
      }
      var matches := ValidateFileState(fs, patch[k]);
      if !matches {
        if DistinctPaths(patch) {
          UntouchedTarget(before, fs.files, es, patch, k, first, fs.nextSerial, fs.umask);
        }
        return es, Conflict;
      }
      var moved;
      es, moved := MoveOriginal(fs, es, patch, k, before, first);
      if !moved {
        return es, Failed;
      }
    }
    cause := Applied;
  }

  method LinkCreate(fs: FileStore, es: seq<Entry>, patch: seq<FilePatch>, k: nat, ghost before: Files, ghost first: nat)
    returns (es': seq<Entry>, cause: Outcome)
    requires fs.Valid() && Bookkeeping(es, first, fs.nextSerial) && k < |patch| && InstalledTo(es, patch, k)
    requires Ledger(before, fs.files, es, first, fs.umask) && StagesReady(fs.files, es, fs.umask)
    requires BaseMatches(before, patch[k]) && patch[k].operation == Create
    modifies fs`files, fs`faults
    ensures fs.Valid() && fs.faults >= old(fs.faults)
    ensures cause in {Applied, Conflict, Failed}
    ensures Bookkeeping(es', first, fs.nextSerial) && EntriesOf(es', patch)
    ensures Ledger(before, fs.files, es', first, fs.umask)
    ensures cause == Applied ==> InstalledTo(es', patch, k + 1) && StagesReady(fs.files, es', fs.umask)
    ensures cause == Failed ==> fs.faults > old(fs.faults)
    ensures fs.faults == old(fs.faults) && cause == Conflict ==> !DistinctPaths(patch)
  {
    var outcome := fs.Link(es[k].staged.value, patch[k].path);
    if outcome == Linked {
      InstallCreate(before, old(fs.files), es, k, first, fs.nextSerial, fs.umask);
      return es[k := es[k].(installed := true)], Applied;
    }
    if DistinctPaths(patch) {
      UntouchedTarget(before, fs.files, es, patch, k, first, fs.nextSerial, fs.umask);
    }
    return es, if outcome == TargetExists then Conflict else Failed;
  }

  method RenameUpdate(fs: FileStore, es: seq<Entry>, patch: seq<FilePatch>, k: nat, ghost before: Files, ghost first: nat)
    returns (es': seq<Entry>, cause: Outcome)
    requires fs.Valid() && Bookkeeping(es, first, fs.nextSerial) && k < |patch| && InstalledTo(es, patch, k)
    requires Ledger(before, fs.files, es, first, fs.umask) && StagesReady(fs.files, es, fs.umask)
    requires patch[k].operation == Update
    modifies fs`files, fs`faults
    ensures fs.Valid() && fs.faults >= old(fs.faults)
    ensures cause == Applied || cause == Failed
    ensures Bookkeeping(es', first, fs.nextSerial) && EntriesOf(es', patch)
    ensures Ledger(before, fs.files, es', first, fs.umask)
    ensures cause == Applied ==> InstalledTo(es', patch, k + 1) && StagesReady(fs.files, es', fs.umask)
    ensures cause == Failed ==> fs.faults > old(fs.faults)
  {
    InstallUpdate(before, fs.files, es, k, first, fs.nextSerial, fs.umask);
    var renamed := fs.Rename(es[k].staged.value, patch[k].path);
    if !renamed {
      return es, Failed;
    }
    return es[k := es[k].(installed := true)], Applied;
  }

  /** The loop that links creates and renames updates into place. */
  method InstallAll(fs: FileStore, moved: seq<Entry>, patch: seq<FilePatch>, ghost before: Files, ghost first: nat)
    returns (es: seq<Entry>, cause: Outcome)
    requires fs.Valid() && Bookkeeping(moved, first, fs.nextSerial) && MovedTo(moved, patch, |patch|)
    requires Ledger(before, fs.files, moved, first, fs.umask) && StagesReady(fs.files, moved, fs.umask)
    requires AllBasesMatch(before, patch)
    modifies fs`files, fs`faults
    ensures fs.Valid() && fs.faults >= old(fs.faults)
    ensures cause in {Applied, Conflict, Failed}
    ensures Bookkeeping(es, first, fs.nextSerial) && EntriesOf(es, patch)
    ensures Ledger(before, fs.files, es, first, fs.umask)
    ensures cause == Applied ==> InstalledTo(es, patch, |patch|)
    ensures cause == Failed ==> fs.faults > old(fs.faults)
    ensures fs.faults == old(fs.faults) && cause == Conflict ==> !DistinctPaths(patch)
  {
    es := moved;
    for k := 0 to |patch|
      invariant fs.Valid() && fs.faults >= old(fs.faults)
      invariant Bookkeeping(es, first, fs.nextSerial) && InstalledTo(es, patch, k)
      invariant Ledger(before, fs.files, es, first, fs.umask) && StagesReady(fs.files, es, fs.umask)
    {
      match patch[k].operation {
        case Create =>
          es, cause := LinkCreate(fs, es, patch, k, before, first);
        case Update =>
          es, cause := RenameUpdate(fs, es, patch, k, before, first);
        case Delete =>
          // Nothing is left to do: its file went to the backup in the first loop.
          cause := Applied;
      }
      if cause != Applied {
        return;
      }
    }
    cause := Applied;
  }

  // ---------------------------------------------------------------- the whole transaction

  /** With every entry active, the ledger reads as the finished patch. */
  lemma LedgerOfFinishedPatch(before: Files, files: Files, es: seq<Entry>, patch: seq<FilePatch>, first: nat, next: nat,
    umask: Permissions)
    requires Bookkeeping(es, first, next) && Ledger(before, files, es, first, umask)
    requires InstalledTo(es, patch, |patch|)
    ensures PatchInstalled(files, patch, umask)
    ensures OthersUnchangedUpToTemporaries(before, files, patch, first)
    ensures DistinctPaths(patch)
  {
  }

  /** Cleanup touches temporaries only, and a complete one leaves none. */
  lemma AfterCleanup(before: Files, files: Files, files': Files, es: seq<Entry>, patch: seq<FilePatch>, first: nat, next: nat,
    umask: Permissions, complete: bool)
    requires Bookkeeping(es, first, next) && Ledger(before, files, es, first, umask) && EntriesOf(es, patch)
    requires PatchInstalled(files, patch, umask) && OthersUnchangedUpToTemporaries(before, files, patch, first)
    requires forall p :: p in before ==> Known(p, first)
    requires forall p :: !IsArtifact(es, p) ==> SameAt(files', files, p)
    requires forall p :: p in files' ==> p in files
    requires complete ==> forall p :: IsArtifact(es, p) ==> p !in files'
    ensures PatchInstalled(files', patch, umask)
    ensures OthersUnchangedUpToTemporaries(before, files', patch, first)
    ensures complete ==> OthersUnchanged(before, files', patch)
  {
    ArtifactsAreFresh(es, first, next);
    forall i | 0 <= i < |patch|
      ensures SameAt(files', files, patch[i].path)
    {
      assert es[i].file == patch[i];
      assert !IsArtifact(es, patch[i].path);
    }
    forall p | !Targets(patch, p) && Known(p, first)
      ensures SameAt(files', before, p)
    {
      assert !IsArtifact(es, p);
      assert SameAt(files', files, p) && SameAt(files, before, p);
    }
    if complete {
      forall p | !Targets(patch, p)
        ensures SameAt(files', before, p)
      {
        assert p in files && !Known(p, first) ==> IsStage(es, p) || IsBackup(es, p);
      }
    }
  }

  lemma RecoverableLosesNothing(before: Files, files: Files, es: seq<Entry>, patch: seq<FilePatch>, first: nat, next: nat)
    requires Bookkeeping(es, first, next) && Recoverable(before, files, es, 0, first) && EntriesOf(es, patch)
    ensures NoDataLost(before, files, patch, first)
    ensures OthersUnchangedUpToTemporaries(before, files, patch, first)
  {
    forall i | 0 <= i < |patch| && patch[i].operation != Create
      ensures OriginalKept(before, files, patch[i].path, first)
    {
      OriginalOfActiveOrIdle(before, files, es, patch[i].path, first, next);
    }
    forall p | !Targets(patch, p) && Known(p, first)
      ensures SameAt(files, before, p)
    {
      assert Idle(es, p) by {
        forall i | 0 <= i < |es| && Active(es[i])
          ensures es[i].file.path != p
        {
          assert patch[i].path == es[i].file.path;
        }
      }
    }
  }

  lemma OriginalOfActiveOrIdle(before: Files, files: Files, es: seq<Entry>, p: Path, first: nat, next: nat)
    requires Bookkeeping(es, first, next) && Recoverable(before, files, es, 0, first)
    requires Known(p, first)
    ensures OriginalKept(before, files, p, first)
  {
    if p !in before {
    } else if Idle(es, p) {
      assert SameAt(files, before, p);
    } else {
      var i :| 0 <= i < |es| && Active(es[i]) && es[i].file.path == p;
      assert es[i].originalMoved;
      if HeldAt(files, es[i].backup.value, before[p]) {
        assert BackupHolds(files, p, es[i].backup.value.serial, before[p]);
      } else {
        assert HeldAt(files, p, before[p]);
      }
    }
  }

  lemma RestoredLosesNothing(before: Files, files: Files, patch: seq<FilePatch>, first: nat)
    requires Restored(before, files, first) && forall p :: p in before ==> Known(p, first)
    ensures NoDataLost(before, files, patch, first)
  {
  }

  lemma RestoredIsUndone(before: Files, files: Files, patch: seq<FilePatch>, first: nat)
    requires Restored(before, files, first) && Proposed(patch, first)
    requires forall p :: p in before ==> Known(p, first)
    ensures Unrestored(before, files, patch) == {}
    ensures Leftovers(files, first) == {} ==> files == before
  {
    if Leftovers(files, first) == {} {
      forall p
        ensures SameAt(files, before, p) && (p in files.Keys <==> p in before.Keys)
      {
        assert p in files && !Known(p, first) ==> p in Leftovers(files, first);
      }
      assert files.Keys == before.Keys;
    }
  }

  lemma FinishedLeavesArtifacts(before: Files, files: Files, files': Files, es: seq<Entry>, first: nat, umask: Permissions)
    requires Ledger(before, files, es, first, umask) && forall p :: p in files' ==> p in files
    ensures |Leftovers(files', first)| <= |ArtifactsLeft(files', es)|
  {
    forall p | p in Leftovers(files', first)
      ensures IsArtifact(es, p)
    {
      assert IsStage(es, p) || IsBackup(es, p);
    }
    FewerThan(Leftovers(files', first), ArtifactsLeft(files', es));
  }

  /** The cleanup of a patch that is installed. */
  method CleanUp(fs: FileStore, es: seq<Entry>, patch: seq<FilePatch>, ghost before: Files, ghost first: nat)
    returns (outcome: Outcome)
    requires fs.Valid() && Bookkeeping(es, first, fs.nextSerial) && InstalledTo(es, patch, |patch|)
    requires Ledger(before, fs.files, es, first, fs.umask) && AllBasesMatch(before, patch)
    requires forall p :: p in before ==> Known(p, first)
    modifies fs`files, fs`faults
    ensures fs.Valid() && fs.faults >= old(fs.faults)
    ensures outcome == Applied || (outcome == CleanupFailed && fs.faults > old(fs.faults))
    ensures PatchInstalled(fs.files, patch, fs.umask) && ModesCarried(before, fs.files, patch, fs.umask)
    ensures DistinctPaths(patch)
    ensures OthersUnchangedUpToTemporaries(before, fs.files, patch, first)
    ensures outcome == Applied ==> OthersUnchanged(before, fs.files, patch)
    ensures |Leftovers(fs.files, first)| <= fs.faults - old(fs.faults)
  {
    LedgerOfFinishedPatch(before, fs.files, es, patch, first, fs.nextSerial, fs.umask);
    ghost var files := fs.files;
    var removed := RemoveArtifacts(fs, es, first);
    AfterCleanup(before, files, fs.files, es, patch, first, fs.nextSerial, fs.umask, removed);
    FinishedLeavesArtifacts(before, files, fs.files, es, first, fs.umask);
    InstalledCarriesModes(before, fs.files, patch, fs.umask);
    outcome := if removed then Applied else CleanupFailed;
  }

  /**
   applyPatchProposal. Whatever fails, the outcome names what became of the files; with no fault at all
   the patch applies exactly when every base still matches and no two changes share a target. Each failure costs at
   most one temporary that stays behind and, in a rollback, one target that is not restored; the failure that makes
   a patch on matching files fail costs nothing, so a single one leaves everything as it was.
   */
  method ApplyPatch(fs: FileStore, patch: seq<FilePatch>) returns (outcome: Outcome)
    requires fs.Valid() && Proposed(patch, fs.nextSerial)
    modifies fs
    ensures fs.Valid() && fs.faults >= old(fs.faults) && fs.nextSerial >= old(fs.nextSerial)
    ensures outcome == Applied || outcome == CleanupFailed ==>
      && PatchInstalled(fs.files, patch, fs.umask)
      && ModesCarried(old(fs.files), fs.files, patch, fs.umask)
      && AllBasesMatch(old(fs.files), patch) && DistinctPaths(patch)
    ensures outcome == Applied ==> OthersUnchanged(old(fs.files), fs.files, patch)
    ensures outcome == CleanupFailed || outcome == RollbackFailed ==>
      OthersUnchangedUpToTemporaries(old(fs.files), fs.files, patch, old(fs.nextSerial))
    ensures outcome == Conflict || outcome == Failed ==> Restored(old(fs.files), fs.files, old(fs.nextSerial))
    ensures outcome != Applied && outcome != CleanupFailed ==>
      NoDataLost(old(fs.files), fs.files, patch, old(fs.nextSerial))
    ensures fs.faults == old(fs.faults) ==>
      outcome == if AllBasesMatch(old(fs.files), patch) && DistinctPaths(patch) then Applied else Conflict
    ensures fs.faults == old(fs.faults) && outcome == Conflict ==> fs.files == old(fs.files)
    ensures |Leftovers(fs.files, old(fs.nextSerial))| <= fs.faults - old(fs.faults)
    ensures outcome != Applied && outcome != CleanupFailed ==>
      UndoneBut(old(fs.files), fs.files, patch, old(fs.nextSerial), fs.faults - old(fs.faults))
    ensures outcome != Applied && outcome != CleanupFailed && AllBasesMatch(old(fs.files), patch) && DistinctPaths(patch) ==>
      UndoneBut(old(fs.files), fs.files, patch, old(fs.nextSerial), fs.faults - old(fs.faults) - 1)
      && (fs.faults == old(fs.faults) + 1 ==> outcome != RollbackFailed && fs.files == old(fs.files))
  {
    ghost var before, first := fs.files, fs.nextSerial;
    var es, staged := StageAll(fs, patch, first);
    if !staged {
      RestoredLosesNothing(before, fs.files, patch, first);
      RestoredIsUndone(before, fs.files, patch, first);
      return Failed;
    }
    var matches := ValidatePatchState(fs, patch);
    if !matches {
      outcome := AbandonStaged(fs, es, patch, before, first);
      RestoredIsUndone(before, fs.files, patch, first);
      return;
    }
    BasesMatchedBefore(before, fs.files, es, patch, first, fs.nextSerial, fs.umask);
    var cause;
    es, cause := MoveOriginals(fs, es, patch, before, first);
    if cause == Applied {
      es, cause := InstallAll(fs, es, patch, before, first);
    }
    if cause != Applied {
      outcome := RollbackPatch(fs, es, cause, patch, before, first);
      RecoverableLosesNothing(before, fs.files, es, patch, first, fs.nextSerial);
      if outcome == cause {
        RestoredIsUndone(before, fs.files, patch, first);
      }
      return;
    }
    outcome := CleanUp(fs, es, patch, before, first);
  }

  /** Staging changes no base, so what validates after it validated before it. */
  lemma BasesMatchedBefore(before: Files, files: Files, es: seq<Entry>, patch: seq<FilePatch>, first: nat, next: nat,
    umask: Permissions)
    requires Bookkeeping(es, first, next) && Ledger(before, files, es, first, umask)
    requires Staged(es, patch, |patch|)
    ensures AllBasesMatch(files, patch) <==> AllBasesMatch(before, patch)
  {
    forall i | 0 <= i < |patch|
      ensures BaseMatches(files, patch[i]) <==> BaseMatches(before, patch[i])
    {
      assert Idle(es, es[i].file.path);
      assert SameAt(files, before, patch[i].path);
    }
  }

  method AbandonStaged(fs: FileStore, es: seq<Entry>, patch: seq<FilePatch>, ghost before: Files, ghost first: nat)
    returns (outcome: Outcome)
    requires fs.Valid() && Bookkeeping(es, first, fs.nextSerial) && Staged(es, patch, |patch|)
    requires Ledger(before, fs.files, es, first, fs.umask)
    requires forall p :: p in before ==> Known(p, first)
    modifies fs`files, fs`faults
    ensures fs.Valid() && fs.faults >= old(fs.faults)
    ensures outcome == Conflict
    ensures Restored(before, fs.files, first) && NoDataLost(before, fs.files, patch, first)
    ensures |Leftovers(fs.files, first)| <= fs.faults - old(fs.faults)
    ensures fs.faults == old(fs.faults) ==> fs.files == before
  {
    NothingActive(before, fs.files, es, first, fs.nextSerial, fs.umask);
    ghost var files := fs.files;
    var removed := RemoveArtifacts(fs, es, first);
    StagedArtifactsAreStages(es);
    FewerThan(Leftovers(fs.files, first), ArtifactsLeft(fs.files, es));
    AfterRollback(before, files, fs.files, es, first, fs.nextSerial, removed);
    RestoredLosesNothing(before, fs.files, patch, first);
    outcome := Conflict;
  }

  lemma StagedArtifactsAreStages(es: seq<Entry>)
    requires forall i :: 0 <= i < |es| ==> es[i].backup == None
    ensures forall p :: IsArtifact(es, p) <==> IsStage(es, p)
  {
  }
}
