/** The file store: opening with recovery, the revision check, and the save protocol, with
    every file operation free to throw or to be the last one before a crash. */
module FileStorage {
  import opened Wrappers
  import opened StorageContents
  import opened FileSystems

  datatype LoadError = CorruptFile | KeyProblem

  datatype StorageError = Conflict | IoError | Unreadable | Closed

  /** Returned, threw, or did not return at all. */
  datatype End = Returned | Failed(error: StorageError) | Crash

  // What the files say.

  /** A plain file is read whatever the key is. */
  predicate Readable(s: Snapshot, key: Option<nat>) {
    s.key == None || s.key == key
  }

  /** loadPersistedState */
  function Load(f: File, key: Option<nat>): Result<Snapshot, LoadError> {
    match f
    case Partial => Failure(CorruptFile)
    case Whole(s) => if Readable(s, key) then Success(s) else Failure(KeyProblem)
  }

  /** The snapshot that the files hold, in the main file or else in the backup. */
  function Survivor(d: Disk): Option<Snapshot> {
    if d.main.Some? && d.main.value.Whole? then Some(d.main.value.s)
    else if d.bak.Some? && d.bak.value.Whole? then Some(d.bak.value.s)
    else None
  }

  datatype Reading = Loads(s: Snapshot) | Refuses | Nothing

  /** What `create` finds. */
  function Reads(d: Disk, backup: bool, key: Option<nat>): Reading {
    match d.main
    case Some(f) =>
      (match Load(f, key)
       case Success(s) => Loads(s)
       case Failure(e) =>
         if e.KeyProblem? || !backup || d.bak.None? then Refuses
         else if Load(d.bak.value, key).Success? then Loads(Load(d.bak.value, key).value) else Refuses)
    case None =>
      if !backup || d.bak.None? then Nothing
      else if Load(d.bak.value, key).Success? then Loads(Load(d.bak.value, key).value) else Refuses
  }

  /** assertRevisionCurrent */
  predicate IsCurrent(d: Disk, revision: nat, key: Option<nat>) {
    match d.main
    case None => revision == 0
    case Some(f) => Load(f, key).Success? && Load(f, key).value.revision == revision
  }

  // The same in terms of the files.

  predicate OpensWith(s: Snapshot, key: Option<nat>) {
    s.key.None? || key == s.key
  }

  /** What `create` goes by: a main file that is whole is loaded, or refused if the key does not fit, whatever
      the backup holds; only in place of one that is missing or corrupt is the backup loaded, when backups are on
      and the key fits it. */
  lemma ReadsExactlyWhen(d: Disk, backup: bool, key: Option<nat>)
    ensures var r := Reads(d, backup, key);
            match d.main
            case Some(Whole(s)) => r == if OpensWith(s, key) then Loads(s) else Refuses
            case _ =>
              if backup && d.bak.Some? then
                match d.bak.value
                case Whole(s) => r == if OpensWith(s, key) then Loads(s) else Refuses
                case Partial => r == Refuses
              else r == if d.main.Some? then Refuses else Nothing
  {
  }

  /** The revision check: no file and nothing saved yet, or a whole file that opens and is of this revision. */
  lemma CurrentWhen(d: Disk, revision: nat, key: Option<nat>)
    ensures IsCurrent(d, revision, key) <==>
              match d.main
              case None => revision == 0
              case Some(Whole(s)) => OpensWith(s, key) && s.revision == revision
              case Some(Partial) => false
  {
  }

  // What a save can leave behind.

  ghost predicate Committed(d: Disk, s: Snapshot, backup: bool, after: Disk) {
    after == Disk(Some(Whole(s)), if backup && d.main.Some? then d.main else d.bak)
  }

  /** The files still hold what they held. Only with backups may it have moved. */
  ghost predicate Kept(d: Disk, backup: bool, after: Disk) {
    && Survivor(after) == Survivor(d)
    && (!backup ==> after.main == d.main)
    && after.main in {d.main, d.bak, None} && after.bak in {d.bak, d.main, None}
  }

  /** A save that returns has committed, one that throws has not, and a crash at any point leaves
      one or the other. */
  ghost predicate SaveLeaves(d: Disk, s: Snapshot, backup: bool, end: End, after: Disk) {
    match end
    case Returned => Committed(d, s, backup, after)
    case Failed(_) => Kept(d, backup, after)
    case Crash => Committed(d, s, backup, after) || Kept(d, backup, after)
  }

  datatype Instance = Instance(revision: nat, data: Contents, key: Option<nat>, backup: bool)

  /** Recovery only ever copies the backup over a main file that is missing or corrupt. */
  ghost predicate Restored(d: Disk, after: Disk) {
    && Survivor(after) == Survivor(d) && after.bak == d.bak
    && (after == d || ((d.main == None || d.main == Some(Partial)) && after.main in {None, Some(Partial), d.bak}))
  }

  /** What `create` makes of the files. A legacy file is saved again at once. */
  ghost predicate OpenLeaves(d: Disk, backup: bool, key: Option<nat>, initial: Contents, end: End,
                             instance: Option<Instance>, after: Disk) {
    && (instance.Some? <==> end.Returned?)
    && match Reads(d, backup, key)
       case Refuses => end == Failed(Unreadable) && after == d
       case Nothing =>
         && SaveLeaves(d, Snapshot(1, false, initial, key), backup, end, after)
         && (instance.Some? ==> instance.value == Instance(1, initial, key, backup))
       case Loads(s) =>
         if s.legacy then
           && ((!end.Returned? && Restored(d, after))
               || SaveLeaves(Disk(Some(Whole(s)), d.bak), Snapshot(s.revision + 1, false, s.data, key), backup, end,
                             after))
           && (instance.Some? ==> instance.value == Instance(s.revision + 1, s.data, key, backup))
         else
           && Restored(d, after)
           && (instance.Some? ==>
                 instance.value == Instance(s.revision, s.data, key, backup) && after.main == Some(Whole(s)))
  }

  /** After a save under a key, whoever has another key opens nothing, not even the backup, and is told of a
      conflict when saving; whoever has the key opens what was saved. */
  lemma RotatedExcludes(d: Disk, s: Snapshot, backup: bool, after: Disk, other: Option<nat>, b: bool, revision: nat)
    requires SaveLeaves(d, s, backup, Returned, after) && s.key.Some?
    ensures Reads(after, b, s.key) == Loads(s) && IsCurrent(after, s.revision, s.key)
    ensures other != s.key ==> Reads(after, b, other) == Refuses && !IsCurrent(after, revision, other)
  {
  }

  /** The backup takes the place of the main file. */
  method Restore(fs: FileSystem) returns (end: End)
    requires fs.bak.Some? && fs.bak.value.Whole? && (fs.main == None || fs.main == Some(Partial))
    modifies fs`fates, fs`main
    ensures Restored(old(fs.View()), fs.View())
    ensures end.Returned? ==> fs.main == fs.bak
    ensures end in {Returned, Failed(Unreadable), Crash}
    ensures Quiet(old(fs.fates)) ==> end.Returned? && Quiet(fs.fates)
  {
    var o := Done;
    if fs.main.Some? {
      o := fs.RenameMainToCorrupt();
    }
    if o.Done? {
      o := fs.CopyBackupToMain();
    }
    if o.Done? {
      o := fs.Sync();
    }
    end := match o case Done => Returned case Threw => Failed(Unreadable) case Crashed => Crash;
  }

  /** The part of `create` that finds a state to load, restoring it if need be. */
  method FindState(fs: FileSystem, backup: bool, key: Option<nat>) returns (end: End, loaded: Option<Snapshot>)
    modifies fs`fates, fs`main
    ensures match Reads(old(fs.View()), backup, key)
            case Refuses => end == Failed(Unreadable) && fs.View() == old(fs.View())
            case Nothing => end == Returned && loaded == None && fs.View() == old(fs.View())
            case Loads(s) =>
              && Restored(old(fs.View()), fs.View()) && end in {Returned, Failed(Unreadable), Crash}
              && (end == Returned ==> loaded == Some(s) && fs.main == Some(Whole(s)))
              && (Quiet(old(fs.fates)) ==> end == Returned)
    ensures Quiet(old(fs.fates)) ==> Quiet(fs.fates)
  {
    end, loaded := Returned, None;
    if fs.main.Some? {
      var main := Load(fs.main.value, key);
      if main.Success? {
        return Returned, Some(main.value);
      }
      if main.error.KeyProblem? || !backup || fs.bak.None? {
        return Failed(Unreadable), None;
      }
    } else if !backup || fs.bak.None? {
      return Returned, None;
    }
    var bak := Load(fs.bak.value, key);
    if bak.Failure? {
      return Failed(Unreadable), None;
    }
    end := Restore(fs);
    loaded := Some(bak.value);
  }

  class FileSignalStorage {
    const fs: FileSystem
    const backup: bool
    var revision: nat
    var data: Contents
    var key: Option<nat>
    var dirty: bool
    var closed: bool

    constructor (fs: FileSystem, revision: nat, data: Contents, key: Option<nat>, backup: bool)
      ensures this.fs == fs && this.revision == revision && this.data == data && this.key == key
      ensures this.backup == backup
      ensures !dirty && !closed
    {
      this.fs, this.backup, this.revision, this.data, this.key := fs, backup, revision, data, key;
      dirty, closed := false, false;
    }

    method AssertRevisionCurrent(currentKey: Option<nat>) returns (ok: bool)
      ensures ok == IsCurrent(fs.View(), revision, currentKey)
    {
      if fs.main.None? {
        return revision == 0;
      }
      var current := Load(fs.main.value, currentKey);
      ok := current.Success? && current.value.revision == revision;
    }

    /** The catch block of saveUnlocked: an old snapshot that was moved aside is put back. */
    method PutBack() returns (end: End)
      modifies fs
      ensures end in {Failed(IoError), Crash}
      ensures Quiet(old(fs.fates)) ==>
                && end.Failed?
                && fs.View() == if backup && old(fs.main).None? then
                     if old(fs.bak).Some? then Disk(old(fs.bak), None) else old(fs.View())
                   else old(fs.View())
      ensures fs.View() == old(fs.View())
              || (old(fs.main) == None && backup && old(fs.bak).Some? && fs.View() == Disk(old(fs.bak), None))
    {
      var o := fs.RemoveTmp();
      if o.Crashed? {
        return Crash;
      }
      if backup && fs.main.None? && fs.bak.Some? {
        o := fs.RenameBackupToMain();
        if o.Crashed? {
          return Crash;
        }
      }
      end := Failed(IoError);
    }

    /** The part of saveUnlocked that moves the old snapshot aside. */
    method MoveAside() returns (o: Outcome)
      requires fs.main != Some(Partial)
      modifies fs`fates, fs`main, fs`bak
      ensures Survivor(fs.View()) == Survivor(old(fs.View())) && fs.main in {old(fs.main), None}
      ensures !backup ==> fs.main == old(fs.main)
      ensures o.Done? ==> fs.bak == if backup && old(fs.main).Some? then old(fs.main) else old(fs.bak)
      ensures fs.tmp == old(fs.tmp) && fs.bak in {old(fs.bak), old(fs.main), None}
      ensures old(fs.main) == None ==> fs.View() == old(fs.View())
      ensures fs.main == old(fs.main) || (fs.main == None && fs.bak == old(fs.main) && backup)
      ensures Takes(old(fs.fates), o, fs.fates)
    {
      o := Done;
      if backup && fs.main.Some? {
        o := fs.RemoveBackup();
        if !o.Done? {
          return;
        }
        o := fs.RenameMainToBackup();
      }
    }

    /** saveUnlocked */
    method SaveUnlocked() returns (end: End)
      requires fs.main != Some(Partial)
      modifies this`revision, this`dirty, fs
      ensures SaveLeaves(old(fs.View()), Snapshot(old(revision) + 1, false, data, key), backup, end, fs.View())
      ensures if end.Returned? then revision == old(revision) + 1 && !dirty
              else revision == old(revision) && dirty == old(dirty)
      ensures Quiet(old(fs.fates)) ==> end.Returned?
      ensures ThrowsOnce(old(fs.fates)) ==>
                !end.Crash? && (end.Failed? && old(fs.main).Some? ==> fs.main == old(fs.main))
    {
      var s := Snapshot(revision + 1, false, data, key);
      var o := fs.WriteTmp(s);
      if o.Done? {
        o := fs.Sync();
      }
      if o.Done? {
        o := MoveAside();
      }
      if o.Done? {
        o := fs.RenameTmpToMain();
        if o.Done? {
          o := fs.Sync();
          if o.Crashed? {
            return Crash;
          }
          revision, dirty := revision + 1, false;
          return Returned;
        }
      }
      if o.Crashed? {
        return Crash;
      }
      end := PutBack();
    }

    function View(): Instance
      reads this
    {
      Instance(revision, data, key, backup)
    }

    /** FileSignalStorage.create. `initial` is the state with a newly generated identity. */
    static method Create(fs: FileSystem, backup: bool, key: Option<nat>, initial: Contents)
      returns (end: End, storage: FileSignalStorage?)
      modifies fs
      ensures OpenLeaves(old(fs.View()), backup, key, initial, end,
                         if storage == null then None else Some(storage.View()), fs.View())
      ensures storage != null ==> fresh(storage) && storage.fs == fs && !storage.dirty && !storage.closed
      ensures Quiet(old(fs.fates)) && !Reads(old(fs.View()), backup, key).Refuses? ==> end.Returned?
    {
      ghost var d := fs.View();
      var loaded;
      end, loaded := FindState(fs, backup, key);
      storage := null;
      if !end.Returned? {
        return;
      }
      var isNew := loaded.None?;
      storage := new FileSignalStorage(fs, if isNew then 0 else loaded.value.revision,
                                       if isNew then initial else loaded.value.data, key, backup);
      if isNew || loaded.value.legacy {
        storage.dirty := true;
        end := storage.SaveUnlocked();
        if !end.Returned? {
          storage := null;
        }
      }
    }

    /** save */
    method Save(force: bool, currentKey: Option<nat>) returns (end: End)
      modifies this`revision, this`dirty, fs
      ensures if closed then end == Failed(Closed) && fs.View() == old(fs.View())
              else if !old(dirty) && !force then end == Returned && fs.View() == old(fs.View())
              else if !IsCurrent(old(fs.View()), old(revision), currentKey)
                then end == Failed(Conflict) && fs.View() == old(fs.View())
              else
                && SaveLeaves(old(fs.View()), Snapshot(old(revision) + 1, false, data, key), backup, end, fs.View())
                && (Quiet(old(fs.fates)) ==> end.Returned?)
      ensures end != Returned ==> revision == old(revision) && dirty == old(dirty)
      ensures end == Returned && (old(dirty) || force) ==> revision == old(revision) + 1 && !dirty
    {
      if closed {
        return Failed(Closed);
      }
      if !dirty && !force {
        return Returned;
      }
      var current := AssertRevisionCurrent(currentKey);
      if !current {
        return Failed(Conflict);
      }
      end := SaveUnlocked();
    }

    /** rotateEncryptionKey: the old key comes back when the save throws. */
    method RotateEncryptionKey(newKey: Option<nat>) returns (end: End)
      modifies this, fs
      ensures if closed then end == Failed(Closed) && fs.View() == old(fs.View())
              else if !IsCurrent(old(fs.View()), old(revision), old(key))
                then end == Failed(Conflict) && fs.View() == old(fs.View())
              else
                && SaveLeaves(old(fs.View()), Snapshot(old(revision) + 1, false, data, newKey), backup, end, fs.View())
                && (Quiet(old(fs.fates)) ==> end.Returned?)
      ensures data == old(data) && closed == old(closed)
      ensures end.Failed? ==> key == old(key) && revision == old(revision)
      ensures end.Returned? ==> key == newKey && revision == old(revision) + 1
    {
      if closed {
        return Failed(Closed);
      }
      var previous := key;
      key := newKey;
      dirty := true;
      end := Save(true, previous);
      if end.Failed? {
        key := previous;
      }
    }

    /** reservePreKey: the reservation is taken back when the save throws. */
    method ReservePreKey(id: int) returns (end: End, reserved: bool)
      requires !closed
      modifies this, fs
      ensures closed == old(closed) && key == old(key)
      ensures var (next, ok) := Apply(old(data), StorageContents.ReservePreKey(id));
              if !ok then end == Returned && !reserved && data == old(data) && fs.View() == old(fs.View())
              else if !IsCurrent(old(fs.View()), old(revision), key)
                then end == Failed(Conflict) && data == old(data) && fs.View() == old(fs.View())
              else
                && SaveLeaves(old(fs.View()), Snapshot(old(revision) + 1, false, next, key), backup, end, fs.View())
                && (Quiet(old(fs.fates)) ==> end.Returned?)
                && (end.Returned? ==> reserved && data == next && revision == old(revision) + 1)
                && (end.Failed? ==> data == old(data) && revision == old(revision))
    {
      var applied := Apply(data, StorageContents.ReservePreKey(id));
      if !applied.1 {
        return Returned, false;
      }
      data, dirty := applied.0, true;
      end := Save(false, key);
      reserved := end.Returned?;
      if end.Failed? {
        data := data.(published := data.published - {id});
      }
    }

    /** releasePreKey: likewise. */
    method ReleasePreKey(id: int) returns (end: End, released: bool)
      requires !closed
      modifies this, fs
      ensures closed == old(closed) && key == old(key)
      ensures var (next, ok) := Apply(old(data), StorageContents.ReleasePreKey(id));
              if !ok then end == Returned && !released && data == old(data) && fs.View() == old(fs.View())
              else if !IsCurrent(old(fs.View()), old(revision), key)
                then end == Failed(Conflict) && data == old(data) && fs.View() == old(fs.View())
              else
                && SaveLeaves(old(fs.View()), Snapshot(old(revision) + 1, false, next, key), backup, end, fs.View())
                && (Quiet(old(fs.fates)) ==> end.Returned?)
                && (end.Returned? ==> released && data == next && revision == old(revision) + 1)
                && (end.Failed? ==> data == old(data) && revision == old(revision))
    {
      var applied := Apply(data, StorageContents.ReleasePreKey(id));
      if !applied.1 {
        return Returned, false;
      }
      data, dirty := applied.0, true;
      end := Save(false, key);
      released := end.Returned?;
      if end.Failed? {
        data := data.(published := data.published + {id});
      }
    }

    /** The other operations: those that call save at once, and those that leave it to a timer. A
        failing save leaves the change in memory, to be saved by the next. */
    method Perform(op: Op, now: bool) returns (end: End)
      requires !op.ReservePreKey? && !op.ReleasePreKey?
      modifies this, fs
      ensures closed == old(closed) && key == old(key) && data == Apply(old(data), op).0
      ensures if !now then end == Returned && dirty && fs.View() == old(fs.View()) && revision == old(revision)
              else if closed then end == Failed(Closed) && fs.View() == old(fs.View())
              else if !IsCurrent(old(fs.View()), old(revision), key)
                then end == Failed(Conflict) && dirty && fs.View() == old(fs.View())
              else
                && SaveLeaves(old(fs.View()), Snapshot(old(revision) + 1, false, data, key), backup, end, fs.View())
                && (Quiet(old(fs.fates)) ==> end.Returned?)
      ensures now && end.Failed? ==> dirty && revision == old(revision)
      ensures now && end.Returned? ==> !dirty && revision == old(revision) + 1
    {
      data, dirty := Apply(data, op).0, true;
      end := Returned;
      if now {
        end := Save(false, key);
      }
    }
  }
}
