/**
 The part of an os.Root the patch transaction uses: a mutable map from path to file, in which every
 operation may fail. A failure the state of the map does not explain counts as a fault.
 */
module Filesystem {
  import opened Utf8
  import opened Wrappers

  datatype PermissionBit =
    | OwnerRead | OwnerWrite | OwnerExecute
    | GroupRead | GroupWrite | GroupExecute
    | OtherRead | OtherWrite | OtherExecute

  type Permissions = set<PermissionBit>

  const CREATED_FILE_MODE: Permissions := {OwnerRead, OwnerWrite, GroupRead, OtherRead}

  const MAX_EDIT_FILE_BYTES: nat := 256 * 1024

  /** `Irregular` stands for symbolic links, directories and devices. */
  datatype Node = RegularFile(content: Bytes, mode: Permissions) | Irregular

  /** A directory entry. `Temporary` names carry the UUID the transaction drew for them. */
  datatype Path =
    | Named(text: string)
    | Temporary(sibling: Path, serial: nat, extension: string)

  datatype Snapshot = Absent | Present(content: Bytes, mode: Permissions)

  datatype LinkOutcome = Linked | TargetExists | LinkFailed

  /** Whether `p` could have been named before UUID number `serial` was drawn. */
  predicate Known(p: Path, serial: nat) {
    p.Named? || p.serial < serial
  }

  predicate ValidEditText(content: Bytes) {
    Valid(content) && 0 !in content
  }

  predicate Readable(node: Node) {
    node.RegularFile? && |node.content| <= MAX_EDIT_FILE_BYTES && ValidEditText(node.content)
  }

  ghost predicate SameAt(files: map<Path, Node>, others: map<Path, Node>, p: Path) {
    (p in files <==> p in others) && (p in files ==> files[p] == others[p])
  }

  class FileStore {
    var files: map<Path, Node>
    var nextSerial: nat
    var faults: nat
    const umask: Permissions

    ghost predicate Valid()
      reads this
    {
      forall p :: p in files ==> Known(p, nextSerial)
    }

    constructor (files: map<Path, Node>, nextSerial: nat, umask: Permissions)
      requires forall p :: p in files ==> Known(p, nextSerial)
      ensures Valid()
      ensures this.files == files && this.nextSerial == nextSerial && this.umask == umask && faults == 0
    {
      this.files, this.nextSerial, this.umask, this.faults := files, nextSerial, umask, 0;
    }

    /** temporarySiblingPath: a fresh UUID makes the name new. */
    method TemporarySibling(p: Path, extension: string) returns (temporary: Path)
      requires Valid()
      modifies this`nextSerial
      ensures Valid() && nextSerial == old(nextSerial) + 1
      ensures temporary == Temporary(p, old(nextSerial), extension)
      ensures temporary !in files
    {
      temporary := Temporary(p, nextSerial, extension);
      nextSerial := nextSerial + 1;
    }

    method Fault() returns (failed: bool)
      modifies this`faults
      ensures faults == old(faults) + if failed then 1 else 0
    {
      if * {
        failed := true;
        faults := faults + 1;
      } else {
        failed := false;
      }
    }

    method CreateExclusive(p: Path, mode: Permissions) returns (ok: bool)
      requires Valid() && Known(p, nextSerial)
      modifies this`files, this`faults
      ensures Valid()
      ensures ok ==> p !in old(files) && files == old(files)[p := RegularFile([], mode - umask)] && faults == old(faults)
      ensures !ok ==> files == old(files)
      ensures !ok && p !in old(files) ==> faults > old(faults)
      ensures faults >= old(faults)
    {
      if p in files {
        return false;
      }
      var failed := Fault();
      ok := !failed;
      if ok {
        files := files[p := RegularFile([], mode - umask)];
      }
    }

    /** Write, Sync and Close of a file just created; a failure can leave any part of the content. */
    method WriteAll(p: Path, content: Bytes) returns (ok: bool)
      requires Valid() && p in files && files[p].RegularFile?
      modifies this`files, this`faults
      ensures Valid()
      ensures ok ==> files == old(files)[p := RegularFile(content, old(files)[p].mode)] && faults == old(faults)
      ensures !ok ==> faults > old(faults)
      ensures !ok ==> p in files && files == old(files)[p := files[p]]
    {
      var failed := Fault();
      ok := !failed;
      if ok {
        files := files[p := RegularFile(content, files[p].mode)];
      } else {
        var written :| 0 <= written <= |content|;
        files := files[p := RegularFile(content[..written], files[p].mode)];
      }
    }

    method Rename(source: Path, target: Path) returns (ok: bool)
      requires Valid() && Known(target, nextSerial)
      modifies this`files, this`faults
      ensures Valid()
      ensures ok ==> source in old(files) && faults == old(faults)
      ensures ok ==> files == (old(files) - {source})[target := old(files)[source]]
      ensures !ok ==> files == old(files)
      ensures !ok && source in old(files) ==> faults > old(faults)
      ensures faults >= old(faults)
    {
      if source !in files {
        return false;
      }
      var failed := Fault();
      ok := !failed;
      if ok {
        files := (files - {source})[target := files[source]];
      }
    }

    /** Link gives the file a second name and refuses to replace an existing one. */
    method Link(source: Path, target: Path) returns (outcome: LinkOutcome)
      requires Valid() && Known(target, nextSerial) && source in files
      modifies this`files, this`faults
      ensures Valid()
      ensures outcome == Linked ==>
        target !in old(files) && files == old(files)[target := old(files)[source]] && faults == old(faults)
      ensures outcome == TargetExists ==> target in old(files) && faults == old(faults)
      ensures outcome == LinkFailed ==> faults > old(faults)
      ensures outcome != Linked ==> files == old(files)
    {
      var failed := Fault();
      if failed {
        return LinkFailed;
      }
      if target in files {
        return TargetExists;
      }
      files := files[target := files[source]];
      outcome := Linked;
    }

    /** removeIfExists. */
    method RemoveIfExists(p: Path) returns (ok: bool)
      requires Valid()
      modifies this`files, this`faults
      ensures Valid()
      ensures ok ==> files == old(files) - {p} && faults == old(faults)
      ensures !ok ==> files == old(files) && faults > old(faults)
    {
      var failed := Fault();
      ok := !failed;
      if ok {
        files := files - {p};
      }
    }

    /** readOptionalEditSnapshot: an absent path is no error, anything but a small text file is. */
    method ReadSnapshot(p: Path) returns (snapshot: Result<Snapshot, string>)
      modifies this`faults
      ensures faults >= old(faults)
      ensures snapshot.Ok? ==> faults == old(faults)
      ensures snapshot == Ok(Absent) ==> p !in files
      ensures snapshot.Ok? && snapshot.value.Present? ==>
        p in files && Readable(files[p]) && files[p] == RegularFile(snapshot.value.content, snapshot.value.mode)
      ensures snapshot.Err? && faults == old(faults) ==> p in files && !Readable(files[p])
    {
      var failed := Fault();
      if failed {
        return Err("inspect");
      }
      if p !in files {
        return Ok(Absent);
      }
      match files[p]
      case Irregular =>
        return Err("not a regular file");
      case RegularFile(content, mode) =>
        if |content| > MAX_EDIT_FILE_BYTES {
          return Err("too large");
        }
        if !ValidEditText(content) {
          return Err("not a text file");
        }
        return Ok(Present(content, mode));
    }
  }
}
