/** editFileWithPolicy: build a proposal, have it approved, check it against the approval, apply it. */
module EditFile {
  import opened Filesystem
  import opened PatchTransaction
  import opened TextReplacement
  import opened Utf8
  import opened Wrappers

  const MAX_PATCH_FILES: nat := 32
  const MAX_FILE_EDITS: nat := 32
  const MAX_PATCH_PAYLOAD_BYTES: nat := 1024 * 1024

  datatype FileChange = FileChange(operation: Operation, path: string, content: Bytes, edits: seq<Replacement>)

  datatype ResolveError = OutsideScope | Unresolvable

  datatype Resolved = Resolved(root: string, path: Path, display: string)

  /** filesystemAccess.Resolve. */
  type Resolver = string -> Wrappers.Result<Resolved, ResolveError>

  /** fileUnifiedDiff, kept abstract. */
  type DiffRenderer = (Operation, string, Bytes, Bytes) -> string

  datatype ProposedFile = ProposedFile(patch: FilePatch, display: string, diff: string)

  datatype ApprovedFile = ApprovedFile(
    operation: Operation,
    display: string,
    diff: string,
    baseHash: Option<Digest>,
    baseMode: Permissions,
    resultHash: Option<Digest>)

  datatype Payload = Payload(kind: string, diff: string, files: seq<ApprovedFile>)

  /** The state of the call's confirmation; `Confirmed(None)` has no decodable payload. */
  datatype Confirmation = Unasked | Refused | Confirmed(payload: Option<Payload>)

  datatype ConfirmationMode = AllowMode | AskMode

  datatype EditResult = EditFailed | DeniedResult | ApprovalRequired(payload: Payload) | AppliedResult | ConflictResult

  datatype BuildError = PathOutsideScope | InvalidChange

  // ---------------------------------------------------------------- normalizeFileChanges

  function PayloadBytes(changes: seq<FileChange>): nat {
    if changes == [] then 0
    else PayloadBytes(changes[..|changes| - 1]) + ChangeBytes(changes[|changes| - 1])
  }

  function ChangeBytes(change: FileChange): nat {
    |change.path| + |change.content| + ReplacementBytes(change.edits)
  }

  function ReplacementBytes(edits: seq<Replacement>): nat {
    if edits == [] then 0 else |edits[0].oldText| + |edits[0].newText| + ReplacementBytes(edits[1..])
  }

  predicate UsableText(edit: Replacement) {
    edit.oldText != [] && ValidEditText(edit.oldText) && ValidEditText(edit.newText)
  }

  predicate AcceptableChange(change: FileChange) {
    && change.path != "" && change.path != "."
    && match change.operation
       case Create => change.edits == [] && ValidEditText(change.content) && |change.content| <= MAX_EDIT_FILE_BYTES
       case Update =>
         && change.content == []
         && 1 <= |change.edits| <= MAX_FILE_EDITS
         && forall i :: 0 <= i < |change.edits| ==> UsableText(change.edits[i])
       case Delete => change.content == [] && change.edits == []
  }

  /** What normalizeFileChanges accepts of paths already cleaned: it compares path text, not files. */
  predicate AcceptableChanges(changes: seq<FileChange>) {
    && 1 <= |changes| <= MAX_PATCH_FILES
    && (forall i :: 0 <= i < |changes| ==> AcceptableChange(changes[i]))
    && (forall i, j :: 0 <= i < j < |changes| ==> changes[i].path != changes[j].path)
    && PayloadBytes(changes) <= MAX_PATCH_PAYLOAD_BYTES
  }

  /** The bytes of a change by the rules of its operation, or None for a change that breaks them. */
  method CheckChange(change: FileChange) returns (bytes: Option<nat>)
    ensures bytes == if AcceptableChange(change) then Some(ChangeBytes(change)) else None
  {
    if change.path == "" || change.path == "." {
      return None;
    }
    var count := |change.path|;
    match change.operation {
      case Create =>
        if |change.edits| > 0 || !ValidEditText(change.content) || |change.content| > MAX_EDIT_FILE_BYTES {
          return None;
        }
        count := count + |change.content|;
      case Update =>
        if |change.content| > 0 || |change.edits| == 0 || |change.edits| > MAX_FILE_EDITS {
          return None;
        }
        for i := 0 to |change.edits|
          invariant count + ReplacementBytes(change.edits[i..]) == ChangeBytes(change)
          invariant forall k :: 0 <= k < i ==> UsableText(change.edits[k])
        {
          var edit := change.edits[i];
          if !UsableText(edit) {
            return None;
          }
          assert change.edits[i..][1..] == change.edits[i + 1..];
          count := count + |edit.oldText| + |edit.newText|;
        }
      case Delete =>
        if |change.content| > 0 || |change.edits| > 0 {
          return None;
        }
    }
    return Some(count);
  }

  /** normalizeFileChanges: the loop counts as it goes and gives up at the first change that is not acceptable. */
  method NormalizeFileChanges(changes: seq<FileChange>) returns (ok: bool)
    ensures ok <==> AcceptableChanges(changes)
  {
    if |changes| == 0 || |changes| > MAX_PATCH_FILES {
      return false;
    }
    var seenPaths: set<string> := {};
    var payloadBytes := 0;
    for i := 0 to |changes|
      invariant seenPaths == set k | 0 <= k < i :: changes[k].path
      invariant forall k :: 0 <= k < i ==> AcceptableChange(changes[k])
      invariant forall j, k :: 0 <= j < k < i ==> changes[j].path != changes[k].path
      invariant payloadBytes == PayloadBytes(changes[..i]) <= MAX_PATCH_PAYLOAD_BYTES
    {
      if changes[i].path in seenPaths {
        return false;
      }
      var bytes := CheckChange(changes[i]);
      if bytes.None? {
        return false;
      }
      PayloadGrows(changes, i);
      assert AcceptableChange(changes[i]) && bytes.value == ChangeBytes(changes[i]);
      seenPaths := seenPaths + {changes[i].path};
      payloadBytes := payloadBytes + bytes.value;
      if payloadBytes > MAX_PATCH_PAYLOAD_BYTES {
        return false;
      }
    }
    assert changes[..|changes|] == changes;
    return true;
  }

  lemma {:induction false} PayloadGrows(changes: seq<FileChange>, i: nat)
    requires i < |changes|
    ensures PayloadBytes(changes[..i + 1]) == PayloadBytes(changes[..i]) + ChangeBytes(changes[i])
    ensures PayloadBytes(changes[..i + 1]) <= PayloadBytes(changes)
    decreases |changes|
  {
    assert changes[..i + 1][..i] == changes[..i];
    if i + 1 < |changes| {
      var init := changes[..|changes| - 1];
      assert init[..i + 1] == changes[..i + 1];
      PayloadGrows(init, i);
    } else {
      assert changes[..i + 1] == changes;
    }
  }

  // ---------------------------------------------------------------- proposals

  function SnapshotHash(snapshot: Snapshot): Option<Digest> {
    if snapshot.Present? then Some(Sha256(snapshot.content)) else None
  }

  function SnapshotMode(snapshot: Snapshot): Permissions {
    if snapshot.Present? then snapshot.mode else {}
  }

  function SnapshotContent(snapshot: Snapshot): Bytes {
    if snapshot.Present? then snapshot.content else []
  }

  function ApprovalOf(file: ProposedFile): ApprovedFile {
    ApprovedFile(
      file.patch.operation,
      file.display,
      file.diff,
      SnapshotHash(file.patch.before),
      SnapshotMode(file.patch.before),
      if file.patch.operation == Delete then None else Some(Sha256(file.patch.after)))
  }

  function CombinedDiff(files: seq<ProposedFile>): string {
    if files == [] then ""
    else
      var last := files[|files| - 1].diff;
      CombinedDiff(files[..|files| - 1]) + (if |files| > 1 then "\n" else "")
        + last + if last == "" || last[|last| - 1] != '\n' then "\n" else ""
  }

  /** confirmationPayload. */
  function PayloadOf(files: seq<ProposedFile>): Payload {
    Payload("file_patch", CombinedDiff(files), seq(|files|, i requires 0 <= i < |files| => ApprovalOf(files[i])))
  }

  function PatchesOf(files: seq<ProposedFile>): (patch: seq<FilePatch>)
    ensures |patch| == |files| && forall i :: 0 <= i < |files| ==> patch[i] == files[i].patch
  {
    seq(|files|, i requires 0 <= i < |files| => files[i].patch)
  }

  /** matchesPayload compares field by field and stops at the first difference. */
  method MatchesPayload(files: seq<ProposedFile>, payload: Payload) returns (matches: bool)
    ensures matches <==> payload == PayloadOf(files)
  {
    if payload.kind != "file_patch" || payload.diff != CombinedDiff(files) || |payload.files| != |files| {
      return false;
    }
    for i := 0 to |files|
      invariant forall j :: 0 <= j < i ==> payload.files[j] == ApprovalOf(files[j])
    {
      var expected := payload.files[i];
      var file := files[i].patch;
      if expected.operation != file.operation
        || expected.display != files[i].display
        || expected.diff != files[i].diff
        || expected.baseHash != SnapshotHash(file.before)
        || expected.baseMode != SnapshotMode(file.before)
        || expected.resultHash != (if file.operation == Delete then None else Some(Sha256(file.after))) {
        return false;
      }
    }
    assert payload.files == PayloadOf(files).files;
    matches := true;
  }

  /** The proposed file is the change carried out on what the files hold. */
  predicate Proposes(files: Files, change: FileChange, resolve: Resolver, render: DiffRenderer, file: ProposedFile) {
    && AcceptableChange(change)
    && resolve(change.path).Ok?
    && file.patch.path == resolve(change.path).value.path
    && file.display == resolve(change.path).value.display
    && file.patch.operation == change.operation
    && file.diff == render(change.operation, file.display, SnapshotContent(file.patch.before), file.patch.after)
    && BaseMatches(files, file.patch)
    && match change.operation
       case Create => file.patch.before == Absent && file.patch.after == change.content
       case Update => Edited(SnapshotContent(file.patch.before), change.edits) == Ok(file.patch.after)
       case Delete => file.patch.after == []
  }

  predicate ProposesAll(files: Files, changes: seq<FileChange>, resolve: Resolver, render: DiffRenderer,
    proposal: seq<ProposedFile>) {
    |proposal| == |changes|
    && forall i :: 0 <= i < |changes| ==> Proposes(files, changes[i], resolve, render, proposal[i])
  }

  ghost predicate KnownTargets(resolve: Resolver, serial: nat) {
    forall text: string :: resolve(text).Ok? ==> Known(resolve(text).value.path, serial)
  }

  /** The parts of a file's state any proposal for `change` rests on. */
  predicate Feasible(files: Files, change: FileChange, target: Path)
    requires AcceptableChange(change)
  {
    if change.operation == Create then
      target !in files
    else
      && target in files && Readable(files[target])
      && (change.operation == Update ==> Edited(files[target].content, change.edits).Ok?)
  }

  lemma ProposalIsFeasible(files: Files, change: FileChange, resolve: Resolver, render: DiffRenderer, file: ProposedFile)
    requires Proposes(files, change, resolve, render, file)
    ensures Feasible(files, change, resolve(change.path).value.path)
  {
  }

  method BuildFile(fs: FileStore, change: FileChange, resolved: Resolved, resolve: Resolver, render: DiffRenderer)
    returns (built: Wrappers.Result<ProposedFile, BuildError>)
    requires AcceptableChange(change) && resolve(change.path) == Ok(resolved)
    modifies fs`faults
    ensures fs.faults >= old(fs.faults)
    ensures built.Ok? ==> Proposes(fs.files, change, resolve, render, built.value)
    ensures built.Err? ==> built.error == InvalidChange
    ensures built.Ok? ==> fs.faults == old(fs.faults)
    ensures built.Err? && fs.faults == old(fs.faults) ==> !Feasible(fs.files, change, resolved.path)
  {
    var snapshot := fs.ReadSnapshot(resolved.path);
    if snapshot.Err? {
      return Err(InvalidChange);
    }
    var before := snapshot.value;
    var after := [];
    match change.operation {
      case Create =>
        if before.Present? {
          return Err(InvalidChange);
        }
        var failed := fs.Fault();
        if failed {
          // The parent directory could not be inspected or is not a directory.
          return Err(InvalidChange);
        }
        after := change.content;
      case Update =>
        if before.Absent? {
          return Err(InvalidChange);
        }
        var edited := ApplyTextReplacements(before.content, change.edits);
        if edited.Err? {
          return Err(InvalidChange);
        }
        after := edited.value;
      case Delete =>
        if before.Absent? {
          return Err(InvalidChange);
        }
    }
    var diff := render(change.operation, resolved.display, SnapshotContent(before), after);
    built := Ok(ProposedFile(FilePatch(change.operation, resolved.path, before, after), resolved.display, diff));
  }

  predicate ResolvesTogether(changes: seq<FileChange>, resolve: Resolver) {
    && (forall i :: 0 <= i < |changes| ==> resolve(changes[i].path).Ok?)
    && (forall i :: 0 <= i < |changes| ==>
      resolve(changes[i].path).value.root == resolve(changes[0].path).value.root)
  }

  /** buildPatchProposalWithAccess. */
  method BuildProposal(fs: FileStore, changes: seq<FileChange>, resolve: Resolver, render: DiffRenderer)
    returns (built: Wrappers.Result<seq<ProposedFile>, BuildError>)
    requires AcceptableChanges(changes)
    modifies fs`faults
    ensures fs.faults >= old(fs.faults)
    ensures built.Ok? ==> ProposesAll(fs.files, changes, resolve, render, built.value) && ResolvesTogether(changes, resolve)
    ensures built.Err? && fs.faults == old(fs.faults) && ResolvesTogether(changes, resolve) ==>
      forall proposal :: !ProposesAll(fs.files, changes, resolve, render, proposal)
    ensures built == Err(PathOutsideScope) ==>
      exists i :: 0 <= i < |changes| && resolve(changes[i].path) == Err(OutsideScope)
  {
    var root := "";
    for i := 0 to |changes|
      invariant forall j :: 0 <= j < i ==> resolve(changes[j].path).Ok? && resolve(changes[j].path).value.root == root
    {
      match resolve(changes[i].path)
      case Err(e) =>
        return Err(if e == OutsideScope then PathOutsideScope else InvalidChange);
      case Ok(resolved) =>
        if i == 0 {
          root := resolved.root;
        } else if root != resolved.root {
          return Err(InvalidChange);
        }
    }
    var failed := fs.Fault();
    if failed {
      return Err(InvalidChange);
    }
    var proposal := [];
    for i := 0 to |changes|
      invariant fs.faults == old(fs.faults)
      invariant |proposal| == i
      invariant forall j :: 0 <= j < i ==> Proposes(fs.files, changes[j], resolve, render, proposal[j])
    {
      var file := BuildFile(fs, changes[i], resolve(changes[i].path).value, resolve, render);
      if file.Err? {
        forall other | ResolvesTogether(changes, resolve) && ProposesAll(fs.files, changes, resolve, render, other)
          ensures Feasible(fs.files, changes[i], resolve(changes[i].path).value.path)
        {
          ProposalIsFeasible(fs.files, changes[i], resolve, render, other[i]);
        }
        return Err(file.error);
      }
      proposal := proposal + [file.value];
    }
    built := Ok(proposal);
  }

  // ---------------------------------------------------------------- the edit_file call

  function TargetOf(change: FileChange, resolve: Resolver): Path
    requires resolve(change.path).Ok?
  {
    resolve(change.path).value.path
  }

  /** The approved hashes and mode describe what was there before and what is there now. */
  ghost predicate AsApproved(before: Files, after: Files, target: Path, approved: ApprovedFile) {
    && (approved.baseHash == None ==> target !in before)
    && (approved.baseHash.Some? ==>
      && target in before && before[target].RegularFile?
      && approved.baseHash == Some(Sha256(before[target].content))
      && approved.baseMode == before[target].mode)
    && (approved.resultHash == None ==> target !in after)
    && (approved.resultHash.Some? ==>
      && target in after && after[target].RegularFile?
      && approved.resultHash == Some(Sha256(after[target].content)))
  }

  /**
   The change took place on the content the target had. An update leaves the mode it found exactly when the umask
   takes none of its bits.
   */
  ghost predicate ChangeMade(before: Files, after: Files, target: Path, change: FileChange, umask: Permissions) {
    match change.operation
    case Create =>
      target !in before && target in after && after[target] == RegularFile(change.content, CREATED_FILE_MODE - umask)
    case Update =>
      && target in before && before[target].RegularFile? && target in after && after[target].RegularFile?
      && Usable(change.edits)
      && Edited(before[target].content, change.edits) == Ok(after[target].content)
      && after[target].mode == before[target].mode - umask
      && (after[target].mode == before[target].mode <==> before[target].mode !! umask)
    case Delete => target in before && target !in after
  }

  ghost predicate AllChangesMade(before: Files, after: Files, changes: seq<FileChange>, resolve: Resolver,
    umask: Permissions) {
    forall i :: 0 <= i < |changes| ==>
      resolve(changes[i].path).Ok? && ChangeMade(before, after, TargetOf(changes[i], resolve), changes[i], umask)
  }

  ghost predicate OnlyTargetsChanged(before: Files, after: Files, changes: seq<FileChange>, resolve: Resolver) {
    forall p ::
      (forall i :: 0 <= i < |changes| ==> resolve(changes[i].path).Ok? && TargetOf(changes[i], resolve) != p) ==>
        SameAt(after, before, p)
  }

  lemma InstalledProposalMakesChanges(before: Files, after: Files, changes: seq<FileChange>, resolve: Resolver,
    render: DiffRenderer, proposal: seq<ProposedFile>, umask: Permissions)
    requires ProposesAll(before, changes, resolve, render, proposal)
    requires PatchInstalled(after, PatchesOf(proposal), umask)
    requires ModesCarried(before, after, PatchesOf(proposal), umask)
    ensures AllChangesMade(before, after, changes, resolve, umask)
    ensures forall i :: 0 <= i < |changes| ==>
      AsApproved(before, after, TargetOf(changes[i], resolve), PayloadOf(proposal).files[i])
    ensures OthersUnchanged(before, after, PatchesOf(proposal)) ==> OnlyTargetsChanged(before, after, changes, resolve)
  {
    forall i | 0 <= i < |changes|
      ensures resolve(changes[i].path).Ok?
      ensures ChangeMade(before, after, TargetOf(changes[i], resolve), changes[i], umask)
      ensures AsApproved(before, after, TargetOf(changes[i], resolve), PayloadOf(proposal).files[i])
    {
      assert Proposes(before, changes[i], resolve, render, proposal[i]);
      assert PatchesOf(proposal)[i] == proposal[i].patch;
    }
    if OthersUnchanged(before, after, PatchesOf(proposal)) {
      forall p | forall i :: 0 <= i < |changes| ==> resolve(changes[i].path).Ok? && TargetOf(changes[i], resolve) != p
        ensures SameAt(after, before, p)
      {
        assert !Targets(PatchesOf(proposal), p) by {
          forall i | 0 <= i < |proposal|
            ensures PatchesOf(proposal)[i].path != p
          {
            assert Proposes(before, changes[i], resolve, render, proposal[i]);
          }
        }
      }
    }
  }

  lemma ProposalIsWellFormed(files: Files, changes: seq<FileChange>, resolve: Resolver, render: DiffRenderer,
    proposal: seq<ProposedFile>, serial: nat)
    requires ProposesAll(files, changes, resolve, render, proposal) && KnownTargets(resolve, serial)
    ensures Proposed(PatchesOf(proposal), serial)
    ensures AllBasesMatch(files, PatchesOf(proposal))
  {
  }

  /** No content of a target is lost: it is still there, backed up, or was changed as asked. */
  ghost predicate TargetsSafe(before: Files, after: Files, changes: seq<FileChange>, resolve: Resolver, serial: nat,
    umask: Permissions) {
    || AllChangesMade(before, after, changes, resolve, umask)
    || forall i :: 0 <= i < |changes| && resolve(changes[i].path).Ok? && changes[i].operation != Create ==>
         OriginalKept(before, after, TargetOf(changes[i], resolve), serial)
  }

  lemma UntouchedTargetsAreSafe(files: Files, changes: seq<FileChange>, resolve: Resolver, serial: nat, umask: Permissions)
    ensures TargetsSafe(files, files, changes, resolve, serial, umask)
  {
  }

  /** Building is determined by the files, so an approved proposal is rebuilt as long as they stay. */
  lemma ProposalIsUnique(files: Files, changes: seq<FileChange>, resolve: Resolver, render: DiffRenderer,
    proposal: seq<ProposedFile>)
    requires ProposesAll(files, changes, resolve, render, proposal)
    ensures forall other :: ProposesAll(files, changes, resolve, render, other) ==> other == proposal
  {
  }

  lemma KnownTargetsLater(resolve: Resolver, serial: nat, later: nat)
    requires KnownTargets(resolve, serial) && serial <= later
    ensures KnownTargets(resolve, later)
  {
  }

  /** Every change was made, and nothing but the targets is different. */
  ghost predicate CarriedOut(before: Files, after: Files, changes: seq<FileChange>, resolve: Resolver,
    umask: Permissions)
  {
    AllChangesMade(before, after, changes, resolve, umask) && OnlyTargetsChanged(before, after, changes, resolve)
  }

  /** The payload says of every target what was there before and what is there now. */
  ghost predicate PayloadHolds(before: Files, after: Files, changes: seq<FileChange>, resolve: Resolver,
    payload: Payload)
  {
    && |payload.files| == |changes|
    && forall i :: 0 <= i < |changes| ==>
         resolve(changes[i].path).Ok? && AsApproved(before, after, TargetOf(changes[i], resolve), payload.files[i])
  }

  /** The files allow a proposal for the changes. */
  ghost predicate Proposable(files: Files, changes: seq<FileChange>, resolve: Resolver, render: DiffRenderer) {
    && AcceptableChanges(changes) && ResolvesTogether(changes, resolve)
    && exists proposal :: ProposesAll(files, changes, resolve, render, proposal)
  }

  /** The payload is that of a proposal carrying out the changes on these files. */
  ghost predicate Describes(files: Files, changes: seq<FileChange>, resolve: Resolver, render: DiffRenderer,
    proposal: seq<ProposedFile>, payload: Payload)
  {
    ProposesAll(files, changes, resolve, render, proposal) && payload == PayloadOf(proposal)
  }

  /** The proposal the files allow is the one approved, and no two of its changes share a file. */
  ghost predicate Applicable(files: Files, changes: seq<FileChange>, resolve: Resolver, render: DiffRenderer,
    payload: Payload)
  {
    && AcceptableChanges(changes) && ResolvesTogether(changes, resolve)
    && exists proposal ::
         Describes(files, changes, resolve, render, proposal, payload) && DistinctPaths(PatchesOf(proposal))
  }

  ghost predicate Contains(text: string, part: string) {
    exists head, tail :: text == head + part + tail
  }

  /** Each file's diff stands in the combined one right behind those before it, at most a line end between. */
  lemma {:induction false} DiffsInOrder(files: seq<ProposedFile>, k: nat)
    requires k < |files|
    ensures CombinedDiff(files[..k]) + files[k].diff <= CombinedDiff(files)
      || CombinedDiff(files[..k]) + "\n" + files[k].diff <= CombinedDiff(files)
  {
    var n := |files| - 1;
    if k < n {
      DiffsInOrder(files[..n], k);
      assert files[..n][..k] == files[..k];
      assert CombinedDiff(files[..n]) <= CombinedDiff(files);
    }
  }

  lemma DiffIsShown(files: seq<ProposedFile>, k: nat)
    requires k < |files|
    ensures Contains(CombinedDiff(files), files[k].diff)
  {
    DiffsInOrder(files, k);
    if CombinedDiff(files[..k]) + files[k].diff <= CombinedDiff(files) {
      PrefixContains(CombinedDiff(files), CombinedDiff(files[..k]), files[k].diff);
    } else {
      PrefixContains(CombinedDiff(files), CombinedDiff(files[..k]) + "\n", files[k].diff);
    }
  }

  lemma PrefixContains(text: string, head: string, part: string)
    requires head + part <= text
    ensures Contains(text, part)
  {
    assert text == head + part + text[|head + part|..];
  }

  function ContentAt(files: Files, target: Path): Bytes {
    if target in files && files[target].RegularFile? then files[target].content else []
  }

  /** What the change makes of a content. */
  predicate Becomes(change: FileChange, before: Bytes, after: Bytes) {
    match change.operation
    case Create => after == change.content
    case Update => Usable(change.edits) && Edited(before, change.edits) == Ok(after)
    case Delete => after == []
  }

  /** What is shown for approval is this change to this file as it is. */
  ghost predicate Shown(files: Files, change: FileChange, resolve: Resolver, render: DiffRenderer,
    approved: ApprovedFile)
  {
    && resolve(change.path).Ok?
    && var resolved := resolve(change.path).value;
       var before := ContentAt(files, resolved.path);
       && approved.operation == change.operation && approved.display == resolved.display
       && approved.baseHash == (if change.operation == Create then None else Some(Sha256(before)))
       && (change.operation != Create ==>
             resolved.path in files && files[resolved.path] == RegularFile(before, approved.baseMode))
       && exists after ::
            && Becomes(change, before, after)
            && approved.diff == render(change.operation, resolved.display, before, after)
            && approved.resultHash == if change.operation == Delete then None else Some(Sha256(after))
  }

  /** A payload shows every change, one by one and in the combined diff. */
  ghost predicate Shows(files: Files, changes: seq<FileChange>, resolve: Resolver, render: DiffRenderer,
    payload: Payload)
  {
    && payload.kind == "file_patch" && |payload.files| == |changes|
    && forall i :: 0 <= i < |changes| ==>
         && Shown(files, changes[i], resolve, render, payload.files[i])
         && Contains(payload.diff, payload.files[i].diff)
  }

  lemma ProposalShows(files: Files, changes: seq<FileChange>, resolve: Resolver, render: DiffRenderer,
    proposal: seq<ProposedFile>)
    requires ProposesAll(files, changes, resolve, render, proposal)
    ensures Shows(files, changes, resolve, render, PayloadOf(proposal))
  {
    forall i | 0 <= i < |changes|
      ensures Shown(files, changes[i], resolve, render, PayloadOf(proposal).files[i])
      ensures Contains(PayloadOf(proposal).diff, PayloadOf(proposal).files[i].diff)
    {
      assert Proposes(files, changes[i], resolve, render, proposal[i]);
      FileIsShown(files, changes[i], resolve, render, proposal[i]);
      DiffIsShown(proposal, i);
    }
  }

  lemma FileIsShown(files: Files, change: FileChange, resolve: Resolver, render: DiffRenderer, file: ProposedFile)
    requires Proposes(files, change, resolve, render, file)
    ensures Shown(files, change, resolve, render, ApprovalOf(file))
  {
    assert Becomes(change, ContentAt(files, file.patch.path), file.patch.after);
  }

  predicate DistinctTargets(changes: seq<FileChange>, resolve: Resolver) {
    forall i, j :: 0 <= i < j < |changes| && resolve(changes[i].path).Ok? && resolve(changes[j].path).Ok? ==>
      TargetOf(changes[i], resolve) != TargetOf(changes[j], resolve)
  }

  lemma TargetsArePaths(files: Files, changes: seq<FileChange>, resolve: Resolver, render: DiffRenderer,
    proposal: seq<ProposedFile>)
    requires ProposesAll(files, changes, resolve, render, proposal)
    ensures DistinctTargets(changes, resolve) <==> DistinctPaths(PatchesOf(proposal))
  {
    forall i | 0 <= i < |changes|
      ensures resolve(changes[i].path).Ok? && PatchesOf(proposal)[i].path == TargetOf(changes[i], resolve)
    {
      assert Proposes(files, changes[i], resolve, render, proposal[i]);
    }
  }

  /** Either every change was made or nothing is different. */
  ghost predicate AllOrNothing(before: Files, after: Files, changes: seq<FileChange>, resolve: Resolver,
    umask: Permissions)
  {
    AllChangesMade(before, after, changes, resolve, umask) || after == before
  }

  method ApplyProposal(fs: FileStore, changes: seq<FileChange>, resolve: Resolver, render: DiffRenderer,
    proposal: seq<ProposedFile>) returns (outcome: Outcome)
    requires fs.Valid() && KnownTargets(resolve, fs.nextSerial)
    requires ProposesAll(fs.files, changes, resolve, render, proposal)
    modifies fs
    ensures fs.Valid() && fs.faults >= old(fs.faults) && fs.nextSerial >= old(fs.nextSerial)
    ensures outcome == Applied ==>
      && CarriedOut(old(fs.files), fs.files, changes, resolve, fs.umask)
      && PayloadHolds(old(fs.files), fs.files, changes, resolve, PayloadOf(proposal))
    ensures outcome == Conflict ==> Restored(old(fs.files), fs.files, old(fs.nextSerial))
    ensures TargetsSafe(old(fs.files), fs.files, changes, resolve, old(fs.nextSerial), fs.umask)
    ensures fs.faults == old(fs.faults) ==>
      outcome == if DistinctPaths(PatchesOf(proposal)) then Applied else Conflict
    ensures fs.faults <= old(fs.faults) + 1 && DistinctTargets(changes, resolve) ==>
      AllOrNothing(old(fs.files), fs.files, changes, resolve, fs.umask)
    ensures |Leftovers(fs.files, old(fs.nextSerial))| <= fs.faults - old(fs.faults)
  {
    TargetsArePaths(fs.files, changes, resolve, render, proposal);
    ProposalIsWellFormed(fs.files, changes, resolve, render, proposal, fs.nextSerial);
    outcome := ApplyPatch(fs, PatchesOf(proposal));
    if outcome == Applied || outcome == CleanupFailed {
      InstalledProposalMakesChanges(old(fs.files), fs.files, changes, resolve, render, proposal, fs.umask);
    } else {
      forall i | 0 <= i < |changes| && resolve(changes[i].path).Ok? && changes[i].operation != Create
        ensures OriginalKept(old(fs.files), fs.files, TargetOf(changes[i], resolve), old(fs.nextSerial))
      {
        assert Proposes(old(fs.files), changes[i], resolve, render, proposal[i]);
        assert PatchesOf(proposal)[i].path == TargetOf(changes[i], resolve);
      }
    }
  }

  lemma NothingLeftOver(files: Files, serial: nat)
    requires forall p :: p in files ==> Known(p, serial)
    ensures Leftovers(files, serial) == {}
  {
  }

  /** The end of a call that has not been confirmed: it asks, or applies at once. */
  method AskOrApply(fs: FileStore, changes: seq<FileChange>, resolve: Resolver, render: DiffRenderer,
    proposal: seq<ProposedFile>, mode: ConfirmationMode) returns (result: EditResult)
    requires fs.Valid() && KnownTargets(resolve, fs.nextSerial)
    requires ProposesAll(fs.files, changes, resolve, render, proposal)
    modifies fs
    ensures fs.Valid() && fs.faults >= old(fs.faults) && fs.nextSerial >= old(fs.nextSerial)
    ensures result == AppliedResult ==>
      CarriedOut(old(fs.files), fs.files, changes, resolve, fs.umask) && mode == AllowMode
    ensures result in {AppliedResult, EditFailed, ApprovalRequired(PayloadOf(proposal))}
    ensures result.ApprovalRequired? <==> mode == AskMode
    ensures result.ApprovalRequired? ==> fs.files == old(fs.files)
    ensures result.ApprovalRequired? ==> Shows(old(fs.files), changes, resolve, render, result.payload)
    ensures TargetsSafe(old(fs.files), fs.files, changes, resolve, old(fs.nextSerial), fs.umask)
    ensures fs.faults == old(fs.faults) && mode == AllowMode ==>
      (result == AppliedResult <==> DistinctPaths(PatchesOf(proposal)))
    ensures fs.faults <= old(fs.faults) + 1 && DistinctTargets(changes, resolve) ==>
      AllOrNothing(old(fs.files), fs.files, changes, resolve, fs.umask)
    ensures |Leftovers(fs.files, old(fs.nextSerial))| <= fs.faults - old(fs.faults)
  {
    NothingLeftOver(fs.files, fs.nextSerial);
    if mode == AskMode {
      UntouchedTargetsAreSafe(fs.files, changes, resolve, fs.nextSerial, fs.umask);
      ProposalShows(fs.files, changes, resolve, render, proposal);
      return ApprovalRequired(PayloadOf(proposal));
    }
    var outcome := ApplyProposal(fs, changes, resolve, render, proposal);
    result := if outcome == Applied then AppliedResult else EditFailed;
  }

  /** The end of a confirmed call: the proposal just built must be the one approved. */
  method ApplyConfirmed(fs: FileStore, changes: seq<FileChange>, resolve: Resolver, render: DiffRenderer,
    proposal: seq<ProposedFile>, payload: Option<Payload>) returns (result: EditResult)
    requires fs.Valid() && KnownTargets(resolve, fs.nextSerial)
    requires ProposesAll(fs.files, changes, resolve, render, proposal)
    requires AcceptableChanges(changes) && ResolvesTogether(changes, resolve)
    modifies fs
    ensures fs.Valid() && fs.faults >= old(fs.faults) && fs.nextSerial >= old(fs.nextSerial)
    ensures result in {AppliedResult, ConflictResult, EditFailed}
    ensures result == AppliedResult ==>
      && payload.Some?
      && CarriedOut(old(fs.files), fs.files, changes, resolve, fs.umask)
      && PayloadHolds(old(fs.files), fs.files, changes, resolve, payload.value)
    ensures result == ConflictResult ==> Restored(old(fs.files), fs.files, old(fs.nextSerial))
    ensures TargetsSafe(old(fs.files), fs.files, changes, resolve, old(fs.nextSerial), fs.umask)
    ensures fs.faults == old(fs.faults) && payload.Some? ==>
      (result == AppliedResult <==> Applicable(old(fs.files), changes, resolve, render, payload.value))
    ensures fs.faults <= old(fs.faults) + 1 && DistinctTargets(changes, resolve) ==>
      AllOrNothing(old(fs.files), fs.files, changes, resolve, fs.umask)
    ensures |Leftovers(fs.files, old(fs.nextSerial))| <= fs.faults - old(fs.faults)
  {
    NothingLeftOver(fs.files, fs.nextSerial);
    UntouchedTargetsAreSafe(fs.files, changes, resolve, fs.nextSerial, fs.umask);
    if payload == None {
      return EditFailed;
    }
    ProposalIsUnique(fs.files, changes, resolve, render, proposal);
    var matches := MatchesPayload(proposal, payload.value);
    if !matches {
      return ConflictResult;
    }
    assert Describes(fs.files, changes, resolve, render, proposal, payload.value);
    var outcome := ApplyProposal(fs, changes, resolve, render, proposal);
    result := if outcome == Applied then AppliedResult else if outcome == Conflict then ConflictResult else EditFailed;
  }

  /**
   editFileWithPolicy. An applied call did exactly what was asked and, when it was confirmed, what the
   approved payload described; approval is asked for with the payload of what would be done; a conflict and a
   refusal leave every file alone; and one failing operation never leaves some changes made and others not.
   */
  method EditFileWithPolicy(
    fs: FileStore, changes: seq<FileChange>, resolve: Resolver, render: DiffRenderer,
    confirmation: Confirmation, mode: ConfirmationMode)
    returns (result: EditResult)
    requires fs.Valid() && KnownTargets(resolve, fs.nextSerial)
    modifies fs
    ensures fs.Valid() && fs.faults >= old(fs.faults) && fs.nextSerial >= old(fs.nextSerial)
    ensures result == AppliedResult ==> CarriedOut(old(fs.files), fs.files, changes, resolve, fs.umask)
    ensures result == AppliedResult && confirmation.Confirmed? ==>
      confirmation.payload.Some? && PayloadHolds(old(fs.files), fs.files, changes, resolve, confirmation.payload.value)
    ensures result == AppliedResult && confirmation == Unasked ==> mode == AllowMode
    ensures result == ConflictResult ==> Restored(old(fs.files), fs.files, old(fs.nextSerial))
    ensures result.DeniedResult? || result.ApprovalRequired? || confirmation == Refused ==> fs.files == old(fs.files)
    ensures confirmation == Refused ==> result == DeniedResult || result == EditFailed
    ensures result.ApprovalRequired? ==>
      && confirmation == Unasked && mode == AskMode
      && AcceptableChanges(changes) && ResolvesTogether(changes, resolve)
      && Shows(old(fs.files), changes, resolve, render, result.payload)
      && exists proposal :: Describes(old(fs.files), changes, resolve, render, proposal, result.payload)
    ensures TargetsSafe(old(fs.files), fs.files, changes, resolve, old(fs.nextSerial), fs.umask)
    ensures fs.faults == old(fs.faults) && confirmation == Unasked && mode == AskMode ==>
      (result.ApprovalRequired? <==> Proposable(old(fs.files), changes, resolve, render))
    ensures fs.faults == old(fs.faults) && confirmation.Confirmed? && confirmation.payload.Some? ==>
      (result == AppliedResult <==> Applicable(old(fs.files), changes, resolve, render, confirmation.payload.value))
    ensures fs.faults <= old(fs.faults) + 1 && DistinctTargets(changes, resolve) ==>
      AllOrNothing(old(fs.files), fs.files, changes, resolve, fs.umask)
    ensures |Leftovers(fs.files, old(fs.nextSerial))| <= fs.faults - old(fs.faults)
  {
    NothingLeftOver(fs.files, fs.nextSerial);
    UntouchedTargetsAreSafe(fs.files, changes, resolve, fs.nextSerial, fs.umask);
    var acceptable := NormalizeFileChanges(changes);
    if !acceptable {
      return EditFailed;
    }
    if confirmation == Refused {
      return if forall i :: 0 <= i < |changes| ==> resolve(changes[i].path).Ok? then DeniedResult else EditFailed;
    }
    var built := BuildProposal(fs, changes, resolve, render);
    if built.Err? {
      if confirmation.Confirmed? && built.error != PathOutsideScope
        && forall i :: 0 <= i < |changes| ==> resolve(changes[i].path).Ok? {
        return ConflictResult;
      }
      return EditFailed;
    }
    if confirmation == Unasked {
      result := AskOrApply(fs, changes, resolve, render, built.value, mode);
      assert Describes(old(fs.files), changes, resolve, render, built.value, PayloadOf(built.value));
    } else {
      result := ApplyConfirmed(fs, changes, resolve, render, built.value, confirmation.payload);
    }
  }

  /**
   The two calls of a confirmed edit, with nobody touching the files between them: the first asks, and the second
   comes with the payload approved. Without faults the edit is applied exactly when it can be carried out at all
   and no two of its changes share a file.
   */
  method ConfirmedEdit(fs: FileStore, changes: seq<FileChange>, resolve: Resolver, render: DiffRenderer)
    returns (asked: EditResult, result: EditResult)
    requires fs.Valid() && KnownTargets(resolve, fs.nextSerial)
    modifies fs
    ensures fs.Valid() && fs.faults >= old(fs.faults)
    ensures result == AppliedResult ==>
      && asked.ApprovalRequired?
      && CarriedOut(old(fs.files), fs.files, changes, resolve, fs.umask)
      && PayloadHolds(old(fs.files), fs.files, changes, resolve, asked.payload)
    ensures fs.faults == old(fs.faults) ==>
      (result == AppliedResult <==>
        && AcceptableChanges(changes) && ResolvesTogether(changes, resolve)
        && exists proposal ::
          ProposesAll(old(fs.files), changes, resolve, render, proposal) && DistinctPaths(PatchesOf(proposal)))
  {
    asked := EditFileWithPolicy(fs, changes, resolve, render, Unasked, AskMode);
    result := asked;
    if asked.ApprovalRequired? {
      ghost var proposal :| Describes(fs.files, changes, resolve, render, proposal, asked.payload);
      ProposalIsUnique(fs.files, changes, resolve, render, proposal);
      KnownTargetsLater(resolve, old(fs.nextSerial), fs.nextSerial);
      result := EditFileWithPolicy(fs, changes, resolve, render, Confirmed(Some(asked.payload)), AskMode);
    }
  }
}
