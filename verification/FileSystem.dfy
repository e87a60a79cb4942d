/** The files of one storage, and the operations on them that the storage calls. Each may
    succeed, throw, or be the last thing the process does. A rename is atomic; a write or a
    copy that does not succeed may leave part of the content. */
module FileSystems {
  import opened Wrappers
  import opened StorageContents

  /** A saved state. `key` names the encryption key it was written under. */
  datatype Snapshot = Snapshot(revision: nat, legacy: bool, data: Contents, key: Option<nat>)

  /** A part of a JSON text is never a JSON text. */
  datatype File = Whole(s: Snapshot) | Partial

  datatype Disk = Disk(main: Option<File>, bak: Option<File>)

  datatype Fate = Succeeds | Throws | Crashes

  datatype Outcome = Done | Threw | Crashed

  /** Everything that is going to happen succeeds. */
  predicate Quiet(fates: seq<Fate>) {
    forall i :: 0 <= i < |fates| ==> fates[i].Succeeds?
  }

  /** At most one operation throws, and none is the last. */
  ghost predicate ThrowsOnce(fates: seq<Fate>) {
    fates != [] ==> (fates[0].Succeeds? && ThrowsOnce(fates[1..])) || (fates[0].Throws? && Quiet(fates[1..]))
  }

  lemma {:induction false} QuietThrowsOnce(fates: seq<Fate>)
    ensures Quiet(fates) ==> ThrowsOnce(fates)
  {
    if fates != [] {
      QuietThrowsOnce(fates[1..]);
    }
  }

  /** What an operation that ends like this leaves of the fates. */
  ghost predicate Takes(before: seq<Fate>, o: Outcome, after: seq<Fate>) {
    && (Quiet(before) ==> o.Done? && Quiet(after))
    && (ThrowsOnce(before) ==> !o.Crashed? && ThrowsOnce(after) && (o.Threw? ==> Quiet(after)))
  }

  class FileSystem {
    var main: Option<File>
    var bak: Option<File>
    var tmp: Option<File>
    /** What is going to happen to the next operations. */
    var fates: seq<Fate>

    function View(): Disk
      reads this
    {
      Disk(main, bak)
    }

    method NextOutcome() returns (o: Outcome)
      modifies this`fates
      ensures Takes(old(fates), o, fates)
    {
      if fates == [] {
        return Done;
      }
      QuietThrowsOnce(fates[1..]);
      o := match fates[0] case Succeeds => Done case Throws => Threw case Crashes => Crashed;
      fates := fates[1..];
    }

    method WriteTmp(s: Snapshot) returns (o: Outcome)
      modifies this`fates, this`tmp
      ensures o.Done? ==> tmp == Some(Whole(s))
      ensures Takes(old(fates), o, fates)
    {
      o := NextOutcome();
      tmp := Some(if o.Done? then Whole(s) else Partial);
    }

    /** syncFile, syncDirectory and chmodFile do not throw. */
    method Sync() returns (o: Outcome)
      modifies this`fates
      ensures !o.Threw?
      ensures (Quiet(old(fates)) ==> o.Done? && Quiet(fates))
      ensures (ThrowsOnce(old(fates)) ==> o.Done? && ThrowsOnce(fates))
    {
      o := NextOutcome();
      if o.Threw? {
        o := Done;
      }
    }

    method RemoveTmp() returns (o: Outcome)
      modifies this`fates, this`tmp
      ensures Takes(old(fates), o, fates)
    {
      o := NextOutcome();
      if o.Done? {
        tmp := None;
      }
    }

    method RenameTmpToMain() returns (o: Outcome)
      modifies this`fates, this`tmp, this`main
      ensures main == if o.Done? && old(tmp).Some? then old(tmp) else old(main)
      ensures Takes(old(fates), o, fates)
    {
      o := NextOutcome();
      if o.Done? && tmp.Some? {
        main, tmp := tmp, None;
      }
    }

    method RemoveBackup() returns (o: Outcome)
      modifies this`fates, this`bak
      ensures bak == if o.Done? then None else old(bak)
      ensures Takes(old(fates), o, fates)
    {
      o := NextOutcome();
      if o.Done? {
        bak := None;
      }
    }

    method RenameMainToBackup() returns (o: Outcome)
      modifies this`fates, this`main, this`bak
      ensures if o.Done? && old(main).Some? then main == None && bak == old(main)
              else main == old(main) && bak == old(bak)
      ensures Takes(old(fates), o, fates)
    {
      o := NextOutcome();
      if o.Done? && main.Some? {
        bak, main := main, None;
      }
    }

    method RenameBackupToMain() returns (o: Outcome)
      modifies this`fates, this`main, this`bak
      ensures if o.Done? && old(bak).Some? then main == old(bak) && bak == None
              else main == old(main) && bak == old(bak)
      ensures Takes(old(fates), o, fates)
    {
      o := NextOutcome();
      if o.Done? && bak.Some? {
        main, bak := bak, None;
      }
    }

    /** Moves the corrupt file out of the way. */
    method RenameMainToCorrupt() returns (o: Outcome)
      modifies this`fates, this`main
      ensures main == if o.Done? then None else old(main)
      ensures Takes(old(fates), o, fates)
    {
      o := NextOutcome();
      if o.Done? {
        main := None;
      }
    }

    /** copyFileSync is not atomic. */
    method CopyBackupToMain() returns (o: Outcome)
      modifies this`fates, this`main
      ensures main == if o.Done? then bak else Some(Partial)
      ensures Takes(old(fates), o, fates)
    {
      o := NextOutcome();
      main := if o.Done? then bak else Some(Partial);
    }
  }
}
