/**
 The state file: a record written to a temporary file, synced, renamed over the old one, directory
 synced. The disk keeps every version of the file that a power loss could bring back.
 */
module Storage {
  import opened Wrappers

  // ----- The disk -----

  /** Contents of a file; what has not been synced may be torn by a power loss. */
  datatype FileImage = FileImage(data: string, synced: bool)

  /**
   The temporary file, and the versions of the state file from the oldest that the directory may still
   name after a power loss to the one it names now; None is no file.
   */
  datatype Disk = Disk(tmp: Option<FileImage>, versions: seq<Option<FileImage>>)

  datatype Content = NotFound | Unreadable | Text(text: string)

  /** The state file that a power loss may leave behind. */
  ghost predicate Survives(versions: seq<Option<FileImage>>, image: Option<FileImage>) {
    exists i :: 0 <= i < |versions| && Remnant(versions[i], image)
  }

  ghost predicate Remnant(version: Option<FileImage>, image: Option<FileImage>) {
    if version.None? || version.value.synced then image == version else image.Some?
  }

  /** What has gone wrong so far; only the operations of the file system count it. */
  datatype Trouble = Trouble(
    failed: nat,       // operations that a persist depends on
    lapsed: nat,       // best-effort operations
    interrupted: nat)  // persists dropped by the shutdown timeout or the end of the process

  class FileSystem {
    var disk: Disk
    ghost var history: seq<Disk> // every disk so far, the current one last
    ghost var trouble: Trouble

    constructor ()
      ensures Valid() && disk == Disk(None, [None]) && fresh(this)
    {
      disk := Disk(None, [None]);
      history := [Disk(None, [None])];
      trouble := Trouble(0, 0, 0);
    }

    ghost predicate Valid()
      reads this
    {
      disk.versions != [] && history != [] && history[|history| - 1] == disk
    }

    method Change(next: Disk)
      requires next.versions != []
      modifies this`disk, this`history
      ensures Valid() && disk == next && history == old(history) + [next]
    {
      disk := next;
      history := history + [next];
    }

    ghost function TroubleAfter(ok: bool): Trouble
      reads this
    {
      if ok then trouble else trouble.(failed := trouble.failed + 1)
    }

    ghost function TroubleAfterTry(ok: bool): Trouble
      reads this
    {
      if ok then trouble else trouble.(lapsed := trouble.lapsed + 1)
    }

    /** Creates the directory if it is missing. */
    method CreateDirectory() returns (ok: bool)
      modifies this`trouble
      ensures trouble == old(TroubleAfter(ok))
    {
      ok := *;
      trouble := TroubleAfter(ok);
    }

    /** Whether a persist is dropped where it waits. */
    method MayInterrupt() returns (interrupted: bool)
      modifies this`trouble
      ensures trouble == if interrupted then old(trouble).(interrupted := old(trouble).interrupted + 1)
          else old(trouble)
    {
      interrupted := *;
      trouble := if interrupted then trouble.(interrupted := trouble.interrupted + 1) else trouble;
    }

    /** Truncates or creates the temporary file. */
    method CreateTmp() returns (ok: bool)
      requires Valid()
      modifies this
      ensures Valid() && history == old(history) + [disk]
      ensures disk == if ok then old(disk).(tmp := Some(FileImage("", false))) else old(disk)
      ensures trouble == old(TroubleAfter(ok))
    {
      ok := *;
      trouble := TroubleAfter(ok);
      Change(if ok then disk.(tmp := Some(FileImage("", false))) else disk);
    }

    /** A failed write leaves a prefix of the data. */
    method WriteTmp(data: string) returns (ok: bool)
      requires Valid()
      modifies this
      ensures Valid() && history == old(history) + [disk] && disk.versions == old(disk.versions)
      ensures disk.tmp.Some? && !disk.tmp.value.synced && disk.tmp.value.data <= data
      ensures ok ==> disk.tmp.value.data == data
      ensures trouble == old(TroubleAfter(ok))
    {
      var n :| 0 <= n <= |data|;
      var written := data[..n];
      ok := written == data;
      trouble := TroubleAfter(ok);
      Change(disk.(tmp := Some(FileImage(written, false))));
    }

    method SyncTmp() returns (ok: bool)
      requires Valid() && disk.tmp.Some?
      modifies this
      ensures Valid() && history == old(history) + [disk]
      ensures disk == if ok then old(disk).(tmp := Some(old(disk).tmp.value.(synced := true))) else old(disk)
      ensures trouble == old(TroubleAfter(ok))
    {
      ok := *;
      trouble := TroubleAfter(ok);
      Change(if ok then disk.(tmp := Some(disk.tmp.value.(synced := true))) else disk);
    }

    /** Replaces the state file; the directory change is durable only after `SyncDirectory`. */
    method RenameTmp() returns (ok: bool)
      requires Valid() && disk.tmp.Some?
      modifies this
      ensures Valid() && history == old(history) + [disk]
      ensures disk == if ok then Disk(None, old(disk).versions + [old(disk).tmp]) else old(disk)
      ensures trouble == old(TroubleAfter(ok))
    {
      ok := *;
      trouble := TroubleAfter(ok);
      Change(if ok then Disk(None, disk.versions + [disk.tmp]) else disk);
    }

    /** Best effort. */
    method RemoveTmp()
      requires Valid()
      modifies this
      ensures Valid() && history == old(history) + [disk] && disk.versions == old(disk.versions)
      ensures trouble in {old(trouble), old(TroubleAfterTry(false))}
    {
      var ok: bool := *;
      trouble := TroubleAfterTry(ok);
      Change(if ok then disk.(tmp := None) else disk);
    }

    /** Opens and syncs the directory; failures are ignored by the caller. */
    method SyncDirectory()
      requires Valid()
      modifies this
      ensures Valid() && history == old(history) + [disk]
      ensures
        || (disk == old(disk).(versions := [old(disk).versions[|old(disk).versions| - 1]]) && trouble == old(trouble))
        || (disk == old(disk) && trouble == old(TroubleAfterTry(false)))
    {
      var ok: bool := *;
      trouble := TroubleAfterTry(ok);
      Change(if ok then disk.(versions := [disk.versions[|disk.versions| - 1]]) else disk);
    }

    /** Reads the state file; whether reading works is up to the environment. */
    method Read(readable: bool) returns (content: Content)
      requires Valid()
      ensures content == ContentOf(disk.versions[|disk.versions| - 1], readable)
    {
      content := ContentOf(disk.versions[|disk.versions| - 1], readable);
    }

    /** The state file is one that survives; `survivor` is the version it stems from. */
    method LosePower() returns (ghost survivor: nat)
      requires Valid()
      modifies this
      ensures Valid() && survivor < |old(disk).versions| && |disk.versions| == 1
      ensures Remnant(old(disk).versions[survivor], disk.versions[0])
    {
      var i: nat :| i < |disk.versions|;
      survivor := i;
      var torn: string := *;
      var version := disk.versions[i];
      Change(Disk(None, [if version.None? || version.value.synced then version else Some(FileImage(torn, true))]));
    }
  }

  function ContentOf(image: Option<FileImage>, readable: bool): Content {
    if !readable then Unreadable else match image case None => NotFound case Some(file) => Text(file.data)
  }

  // ----- Records -----

  datatype PersistedState = PersistedState(lastBlock: u64, chainId: nat, updatedAt: u64)

  datatype StateError = ChainIdMismatch(expected: nat, actual: nat) | WriteFailed

  /** JSON serialization of the record; what is used of it is that decoding undoes encoding. */
  datatype Codec = Codec(encode: PersistedState -> string, decode: string -> Option<PersistedState>)

  ghost predicate RoundTrips(codec: Codec) {
    forall record :: codec.decode(codec.encode(record)) == Some(record)
  }

  /** The record that a state file holds, if it is there, can be read and decodes. */
  ghost function RecordOf(codec: Codec, image: Option<FileImage>, readable: bool): Option<PersistedState> {
    if readable && image.Some? then codec.decode(image.value.data) else None
  }

  /** A file that is absent, or whole, durable and of this chain. */
  ghost predicate Whole(codec: Codec, chainId: nat, image: Option<FileImage>) {
    image.Some? ==>
      && image.value.synced
      && codec.decode(image.value.data).Some? && codec.decode(image.value.data).value.chainId == chainId
  }

  ghost predicate AllWhole(codec: Codec, chainId: nat, versions: seq<Option<FileImage>>) {
    versions != [] && forall i :: 0 <= i < |versions| ==> Whole(codec, chainId, versions[i])
  }

  /** The versions while a new image replaces the old ones: before the rename, after it, after the directory sync. */
  ghost predicate Replacing(before: seq<Option<FileImage>>, image: Option<FileImage>,
      versions: seq<Option<FileImage>>) {
    versions == before || versions == before + [image] || versions == [image]
  }

  // ----- The state store -----

  /** How a persist ended: it ran to its end, or was dropped by the shutdown timeout or the end of the process. */
  datatype Persisted = Finished(result: Result<(), StateError>) | Abandoned

  /**
   What a persist of `image` does to the versions of the state file, by what has gone wrong in it: nothing, and
   the image is the only version; only the directory sync, and the older ones may still come back; an operation
   it depends on, and the file is as before.
   */
  ghost predicate Persists(before: seq<Option<FileImage>>, t: Trouble, image: Option<FileImage>,
      after: seq<Option<FileImage>>, u: Trouble, r: Persisted)
  {
    match r
    case Finished(Ok(_)) =>
      (u == t && after == [image]) || (u == t.(lapsed := t.lapsed + 1) && after == before + [image])
    case Finished(Err(_)) =>
      after == before && u.failed == t.failed + 1 && u.interrupted == t.interrupted
    case Abandoned =>
      Replacing(before, image, after) && u.interrupted == t.interrupted + 1
  }

  class StateStore {
    const fs: FileSystem
    const codec: Codec
    const chainId: nat
    const fromFile: bool
    var lastSynced: u64

    constructor (fs: FileSystem, codec: Codec, chainId: nat, lastSynced: u64, fromFile: bool)
      ensures this.fs == fs && this.codec == codec && this.chainId == chainId
      ensures this.lastSynced == lastSynced && this.fromFile == fromFile && fresh(this)
    {
      this.fs := fs;
      this.codec := codec;
      this.chainId := chainId;
      this.fromFile := fromFile;
      this.lastSynced := lastSynced;
    }

    ghost predicate Valid()
      reads this, fs
    {
      fs.Valid() && RoundTrips(codec) && AllWhole(codec, chainId, fs.disk.versions)
    }

    /**
     Fails exactly on a record of another chain, naming both chains; a record of this chain gives its cursor,
     and anything that cannot be read as a record is a fresh start.
     */
    static method Load(fs: FileSystem, codec: Codec, chainId: nat, initialBlock: u64, readable: bool)
        returns (r: Result<StateStore, StateError>)
      requires fs.Valid()
      ensures var record := RecordOf(codec, fs.disk.versions[|fs.disk.versions| - 1], readable);
              match r
              case Err(e) =>
                record.Some? && record.value.chainId != chainId && e == ChainIdMismatch(chainId, record.value.chainId)
              case Ok(store) =>
                if record.Some?
                then record.value.chainId == chainId && store.fromFile && store.lastSynced == record.value.lastBlock
                else !store.fromFile && store.lastSynced == initialBlock
      ensures r.Ok? ==> fresh(r.value) && r.value.fs == fs && r.value.codec == codec && r.value.chainId == chainId
    {
      var content := fs.Read(readable);
      match content {
        case Text(text) =>
          var record := codec.decode(text);
          if record.Some? {
            if record.value.chainId != chainId {
              return Err(ChainIdMismatch(chainId, record.value.chainId));
            }
            var store := new StateStore(fs, codec, chainId, record.value.lastBlock, true);
            return Ok(store);
          }
        case NotFound =>
        case Unreadable =>
      }
      var store := new StateStore(fs, codec, chainId, initialBlock, false);
      return Ok(store);
    }

    /** `fetch_max` */
    method Update(block: u64)
      modifies this
      ensures lastSynced == Max(old(lastSynced), block)
    {
      lastSynced := Max(lastSynced, block);
    }

    /** The image that a persist of the current cursor is to make durable. */
    function Image(updatedAt: u64): Option<FileImage>
      reads this
    {
      Some(FileImage(codec.encode(PersistedState(lastSynced, chainId, updatedAt)), true))
    }

    /** Since history had `from` entries, the state file has been that of a replacement of `before` by `image`. */
    ghost predicate OnlyReplaced(from: nat, before: seq<Option<FileImage>>, image: Option<FileImage>)
      reads fs
    {
      from <= |fs.history| && forall i :: from <= i < |fs.history| ==> Replacing(before, image, fs.history[i].versions)
    }

    /** Directory, create, write, sync: None if dropped on the way. The state file is not touched. */
    method WriteTemporary(json: string) returns (r: Option<bool>)
      requires fs.Valid()
      modifies fs
      ensures fs.Valid() && fs.disk.versions == old(fs.disk.versions)
      ensures old(fs.history) <= fs.history
      ensures forall i :: |old(fs.history)| <= i < |fs.history| ==> fs.history[i].versions == old(fs.disk.versions)
      ensures r == Some(true) ==> fs.disk.tmp == Some(FileImage(json, true))
      ensures match r
        case Some(ok) => fs.trouble == if ok then old(fs.trouble) else old(fs.TroubleAfter(false))
        case None => fs.trouble.interrupted == old(fs.trouble).interrupted + 1
    {
      var ok := fs.CreateDirectory();
      if !ok {
        return Some(false);
      }
      ok := fs.CreateTmp();
      if !ok {
        return Some(false);
      }
      ok := fs.WriteTmp(json);
      var dropped := fs.MayInterrupt();
      if dropped {
        return None;
      }
      if !ok {
        return Some(false);
      }
      ok := fs.SyncTmp();
      dropped := fs.MayInterrupt();
      if dropped {
        return None;
      }
      return Some(ok);
    }

    /**
     Replaces the state file atomically: at every moment its versions are the old ones, the old ones and
     the new one, or the new one alone, and the new one is whole and synced. It succeeds, is an error, or
     dropped, as its operations are.
     */
    method Persist(updatedAt: u64) returns (r: Persisted)
      requires Valid()
      modifies fs
      ensures Valid() && old(fs.history) <= fs.history
      ensures OnlyReplaced(|old(fs.history)|, old(fs.disk.versions), Image(updatedAt))
      ensures Persists(old(fs.disk.versions), old(fs.trouble), Image(updatedAt), fs.disk.versions, fs.trouble, r)
    {
      var json := codec.encode(PersistedState(lastSynced, chainId, updatedAt));
      var written := WriteTemporary(json);
      if written == None {
        return Abandoned;
      }
      var renamed, dropped := false, false;
      if written == Some(true) {
        renamed := fs.RenameTmp();
        dropped := fs.MayInterrupt();
        if dropped {
          return Abandoned;
        }
      }
      if !renamed {
        fs.RemoveTmp();
        return Finished(Err(WriteFailed));
      }
      fs.SyncDirectory();
      dropped := fs.MayInterrupt();
      if dropped {
        return Abandoned;
      }
      return Finished(Ok(()));
    }
  }

  // ----- Atomicity -----

  /**
   Whenever during a persist the process is killed or the power fails, what is then loaded is the cursor
   being persisted, or what one of the versions before would have given.
   */
  lemma CrashLoadsOldOrNew(
    codec: Codec, chainId: nat, record: PersistedState,
    before: seq<Option<FileImage>>, during: seq<Option<FileImage>>, image: Option<FileImage>)
    requires RoundTrips(codec) && record.chainId == chainId && AllWhole(codec, chainId, before)
    requires Replacing(before, Some(FileImage(codec.encode(record), true)), during) && Survives(during, image)
    ensures AllWhole(codec, chainId, [image])
    ensures RecordOf(codec, image, true) == Some(record) || image in before
  {
    var i :| 0 <= i < |during| && Remnant(during[i], image);
    if during != before && i == |during| - 1 {
      assert image == Some(FileImage(codec.encode(record), true));
    } else {
      assert during[i] == before[i] && Whole(codec, chainId, before[i]);
    }
  }

  /** A remark on the disk: a file renamed without a sync may come back torn, as a record nobody persisted. */
  lemma UnsyncedRenameIsNotAtomic(codec: Codec, before: seq<Option<FileImage>>, image: FileImage,
      intruder: PersistedState)
    requires RoundTrips(codec) && !image.synced
    ensures var survivor := Some(FileImage(codec.encode(intruder), true));
            && Survives(before + [Some(image)], survivor)
            && RecordOf(codec, survivor, true) == Some(intruder)
  {
    var versions := before + [Some(image)];
    assert Remnant(versions[|before|], Some(FileImage(codec.encode(intruder), true)));
  }

  // ----- The versions as the protocol sees them -----

  ghost function CursorOf(codec: Codec, image: Option<FileImage>): Option<nat> {
    match image
    case None => None
    case Some(file) => (match codec.decode(file.data) case None => None case Some(record) => Some(record.lastBlock))
  }

  ghost function Cursors(codec: Codec, versions: seq<Option<FileImage>>): (r: seq<Option<nat>>)
    ensures |r| == |versions| && forall i :: 0 <= i < |r| ==> r[i] == CursorOf(codec, versions[i])
  {
    seq(|versions|, i requires 0 <= i < |versions| => CursorOf(codec, versions[i]))
  }
}
