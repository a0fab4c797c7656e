/**
 Replacing the local sing-box binary (internal/core/manager.go). Each file operation
 or command may fail without effect, take effect and still report failure, leave a
 partly written file where it was writing, or be cut off by the death of the process.
 Renames are atomic; equal digests mean equal bytes.
 */
module CoreReplace {
  import opened Wrappers
  import opened Text

  type Bytes = seq<nat>

  datatype Signal = Ok | Err | Dead

  datatype Outcome = Rejected | Replaced(tag: string) | Failed | Died

  /** normalizeVersionTag, for a given notion of a valid semantic version. */
  function NormalizeTag(tag: string, semver: string -> bool): Option<string> {
    var trimmed := Trim(tag);
    var full := if trimmed != "" && trimmed[0] == 'v' then trimmed else "v" + trimmed;
    if semver(full) then Some(full) else None
  }

  /** White space around a tag and a missing v in front make no difference; what is left has to be a valid version. */
  lemma TagForms(version: string, semver: string -> bool)
    requires (version == "" || version[0] != 'v') && Trim(version) == version
    ensures NormalizeTag("v" + version, semver) == NormalizeTag(version, semver)
    ensures NormalizeTag(version, semver) == if semver("v" + version) then Some("v" + version) else None
    ensures forall tag :: Trim(tag) == Trim(version) ==> NormalizeTag(tag, semver) == NormalizeTag(version, semver)
    ensures forall tag :: Trim(tag) == "v" + version ==> NormalizeTag(tag, semver) == NormalizeTag(version, semver)
  {
    var tag := "v" + version;
    if version != "" { TrimEnds(version); }
    hide Trim;
    assert !IsSpace(tag[0]) && !IsSpace(tag[|tag| - 1]);
    TrimFixed(tag);
    hide IsSpace;
    assert tag[0] == 'v' && Trim(tag) == tag;
  }

  class Manager {
    /** What the binary at each path would be, if there is one: the managed path and three files of the update directory. */
    var installed: Option<Bytes>
    var backup: Option<Bytes>
    var candidate: Option<Bytes>
    var restore: Option<Bytes>

    // replaceTransaction
    var mutationStarted: bool
    var committed: bool
    var keepUpdateDir: bool

    /** What running a binary with the argument version reports. */
    const reports: Bytes -> Option<string>
    const semver: string -> bool

    constructor (installed: Option<Bytes>, backup: Option<Bytes>, reports: Bytes -> Option<string>, semver: string -> bool)
      ensures this.installed == installed && this.backup == backup && this.candidate == None && this.restore == None
      ensures this.reports == reports && this.semver == semver
    {
      this.installed, this.backup, this.candidate, this.restore := installed, backup, None, None;
      this.reports, this.semver := reports, semver;
      mutationStarted, committed, keepUpdateDir := false, false, false;
    }

    // ---------------------------------------------------------- single operations

    /**
     A probe, download or systemctl call: it touches none of the files. calm says that
     nothing fails by itself; otherwise anything may, at any point.
     */
    method Outside(calm: bool) returns (o: Signal)
      ensures calm ==> o == Ok
    {
      o := *;
      if calm { o := Ok; }
    }

    /** os.RemoveAll of the update directory, with a given outcome; a failure may have removed some of it. */
    method RemoveUpdateDir(outcome: Signal)
      modifies this`backup, this`candidate, this`restore
      ensures outcome == Ok ==> backup == None && candidate == None && restore == None
      ensures backup == old(backup) || backup == None
      ensures candidate == old(candidate) || candidate == None
    {
      var first: bool, second: bool, third: bool := *, *, *;
      if outcome == Ok || first { backup := None; }
      if outcome == Ok || second { candidate := None; }
      if outcome == Ok || third { restore := None; }
    }

    /**
     ExtractSingBox and verifyCandidate: success leaves the whole binary of the archive,
     anything else may leave a part of it; only the candidate is written.
     */
    method Extract(archived: Bytes, calm: bool) returns (o: Signal)
      modifies this`candidate
      ensures o == Ok ==> candidate == Some(archived) && archived != []
      ensures calm ==> o == if archived != [] then Ok else Err
    {
      o := Outside(calm);
      if o == Ok && archived == [] { o := Err; }
      if o == Ok { candidate := Some(archived); } else { candidate := *; }
    }

    method Probe(calm: bool) returns (o: Signal, version: string)
      ensures o == Ok ==> candidate.Some? && reports(candidate.value) == Some(version)
      ensures calm ==> o == if candidate.Some? && reports(candidate.value).Some? then Ok else Err
    {
      o := Outside(calm);
      version := "";
      if o == Ok {
        if candidate.None? || reports(candidate.value).None? { return Err, ""; }
        version := reports(candidate.value).value;
      }
    }

    /** copyRegularFile from the managed path: never over an existing file, but possibly partly. */
    method BackUp(calm: bool) returns (o: Signal)
      modifies this`backup
      ensures old(backup).Some? ==> o != Ok && backup == old(backup)
      ensures o == Ok ==> installed.Some? && backup == installed
      ensures calm ==> o == if installed.Some? && old(backup).None? then Ok else Err
    {
      o := Outside(calm);
      if installed.None? || backup.Some? { return if o == Ok then Err else o; }
      if o == Ok { backup := installed; } else { backup := *; }
    }

    /** copyRegularFile from the backup. */
    method StageRestore(calm: bool) returns (o: Signal)
      modifies this`restore
      ensures o == Ok ==> backup.Some? && restore == backup
      ensures calm ==> o == if backup.Some? && old(restore).None? then Ok else Err
    {
      o := Outside(calm);
      if backup.None? || restore.Some? { return if o == Ok then Err else o; }
      if o == Ok { restore := backup; } else { restore := *; }
    }

    method SameDigest(calm: bool) returns (o: Signal, same: bool)
      ensures o == Ok ==> (same <==> installed.Some? && installed == backup)
      ensures calm ==> o == Ok
    {
      o := Outside(calm);
      same := installed.Some? && installed == backup;
    }

    method RenameCandidate(calm: bool) returns (o: Signal)
      modifies this`installed, this`candidate
      ensures installed == old(installed) || (old(candidate).Some? && installed == old(candidate))
      ensures o == Ok ==> old(candidate).Some? && installed == old(candidate)
      ensures calm ==> o == if old(candidate).Some? then Ok else Err
    {
      o := Outside(calm);
      var effect: bool := *;
      if candidate.None? { return if o == Ok then Err else o; }
      if o == Ok || effect { installed, candidate := candidate, None; }
    }

    method RenameRestore(calm: bool) returns (o: Signal)
      modifies this`installed, this`restore
      ensures installed == old(installed) || (old(restore).Some? && installed == old(restore))
      ensures o == Ok ==> old(restore).Some? && installed == old(restore)
      ensures calm ==> o == if old(restore).Some? then Ok else Err
    {
      o := Outside(calm);
      var effect: bool := *;
      if restore.None? { return if o == Ok then Err else o; }
      if o == Ok || effect { installed, restore := restore, None; }
    }

    method RemoveRestore(calm: bool) returns (o: Signal)
      modifies this`restore
      ensures o == Ok ==> restore == None
      ensures calm ==> o == Ok
    {
      o := Outside(calm);
      var effect: bool := *;
      if o == Ok || effect { restore := None; }
    }

    // ---------------------------------------------------------- the steps

    /** The Download step. found says it saw a recovery backup; statFails that it could not tell. */
    method Download(statFails: bool, calm: bool) returns (o: Signal, found: bool)
      requires !keepUpdateDir
      modifies this`backup, this`candidate, this`restore, this`keepUpdateDir
      ensures found == keepUpdateDir
      ensures found ==> old(backup).Some? && backup == old(backup) && o == Err
      ensures !found && o != Dead && old(backup).Some? ==> statFails
      ensures statFails ==> o == Err && !found
      ensures !found && old(backup).Some? ==> backup == old(backup)
      ensures o == Ok ==> backup == None
      ensures old(backup).None? ==> backup.None?
      ensures calm ==> o == if old(backup).None? && !statFails then Ok else Err
    {
      found := false;
      if statFails { return Err, false; }
      var stat := Outside(calm);
      if stat == Dead { return Dead, false; }
      if backup.Some? {
        keepUpdateDir := true;
        return Err, true;
      }
      o := Outside(calm);
      RemoveUpdateDir(o);
      if o != Ok { return; }
      o := Outside(calm);
    }

    /** The Version step: the candidate reports exactly the requested tag. */
    method CheckVersion(target: string, calm: bool) returns (o: Signal)
      ensures o == Ok ==> candidate.Some? && reports(candidate.value) == Some(target)
      ensures calm ==> o == if candidate.Some? && reports(candidate.value) == Some(target) then Ok else Err
    {
      var version;
      o, version := Probe(calm);
      if o == Ok && version != target { o := Err; }
    }

    /** Verify, Version and Validate: nothing but the candidate is written. */
    method Prepare(target: string, archived: Bytes, cancelAt: nat, calm: bool) returns (o: Signal)
      modifies this`candidate
      ensures o == Ok ==> cancelAt > 4 && candidate == Some(archived) && Genuine(archived, target)
      ensures calm ==> o == if cancelAt > 4 && Genuine(archived, target) then Ok else Err
    {
      if cancelAt <= 2 { return Err; }
      o := Outside(calm);
      if o != Ok { return; }
      o := Extract(archived, calm);
      if o != Ok { return; }
      if cancelAt <= 3 { return Err; }
      o := CheckVersion(target, calm);
      if o != Ok { return; }
      if cancelAt <= 4 { return Err; }
      o := Outside(calm);
    }

    predicate Genuine(archived: Bytes, target: string) {
      archived != [] && reports(archived) == Some(target)
    }

    /** The Backup step: only a copy with the same digest lets the mutation begin. */
    method Secure(calm: bool) returns (o: Signal)
      modifies this`backup
      ensures o == Ok ==> installed.Some? && backup == installed
      ensures calm ==> o == if installed.Some? && old(backup).None? then Ok else Err
    {
      o := BackUp(calm);
      if o != Ok { return; }
      var same;
      o, same := SameDigest(calm);
      if o == Ok && !same { o := Err; }
    }

    /** A rollback is possible, or the change is final and the managed binary is the next one. */
    ghost predicate Recoverable(before: Option<Bytes>, next: Bytes, target: string)
      reads this
    {
      && (!mutationStarted ==> installed == before && !committed)
      && (mutationStarted ==> before.Some? && Genuine(next, target) && (installed == before || installed == Some(next)))
      && (mutationStarted && !committed ==> backup == before)
      && (committed ==> mutationStarted && installed == Some(next))
    }

    /** Stop, Replace, Restart and Cleanup. */
    method Mutate(target: string, ghost next: Bytes, cancelAt: nat, calm: bool) returns (o: Signal)
      requires !mutationStarted && !committed && !keepUpdateDir
      requires installed.Some? && backup == installed
      requires candidate == Some(next) && Genuine(next, target)
      modifies this
      ensures Recoverable(old(installed), next, target)
      ensures keepUpdateDir == (mutationStarted && !committed)
      ensures o == Ok ==> committed && backup.None?
      ensures calm ==> o == (if cancelAt > 9 then Ok else Err) && (committed <==> cancelAt > 8)
    {
      if cancelAt <= 6 { return Err; }
      mutationStarted, keepUpdateDir := true, true;
      o := Outside(calm);
      if o != Ok { return; }
      if cancelAt <= 7 { return Err; }
      o := Outside(calm);
      if o != Ok { return; }
      o := RenameCandidate(calm);
      if o != Ok { return; }
      if cancelAt <= 8 { return Err; }
      o := Outside(calm);
      if o != Ok { return; }
      committed, keepUpdateDir := true, false;
      if cancelAt <= 9 { return Err; }
      o := Outside(calm);
      RemoveUpdateDir(o);
    }

    /** The ten steps in order. The context is found cancelled just before step cancelAt, counting from zero. */
    method RunSteps(target: string, archived: Bytes, cancelAt: nat, statFails: bool, calm: bool) returns (o: Signal, found: bool)
      requires !mutationStarted && !committed && !keepUpdateDir
      modifies this
      ensures Recoverable(old(installed), archived, target)
      ensures keepUpdateDir == (found || (mutationStarted && !committed))
      ensures o == Ok ==> committed && backup.None?
      ensures old(backup).Some? ==> o != Ok && !mutationStarted && backup == old(backup)
      ensures old(backup).Some? && o == Err ==> (found <==> cancelAt > 1 && !statFails)
      ensures old(backup).None? ==> !found
      ensures cancelAt <= 1 || statFails ==> o == Err
      ensures var fine := !statFails && old(backup).None? && old(installed).Some? && Genuine(archived, target);
        calm ==> o == (if fine && cancelAt > 9 then Ok else Err) && (committed <==> fine && cancelAt > 8)
    {
      found := false;
      if cancelAt <= 1 { return Err, false; }
      o, found := Download(statFails, calm);
      if o != Ok { return; }
      o := Prepare(target, archived, cancelAt, calm);
      if o != Ok { return; }
      if cancelAt <= 5 { return Err, found; }
      o := Secure(calm);
      if o != Ok { return; }
      o := Mutate(target, archived, cancelAt, calm);
    }

    /** rollbackReplacement: the backup is only given up once the old binary is back and the service runs. */
    method Rollback(calm: bool) returns (o: Signal)
      modifies this`installed, this`restore, this`keepUpdateDir
      ensures installed == old(installed) || (backup.Some? && installed == backup)
      ensures o == Ok ==> backup.Some? && installed == backup && !keepUpdateDir
      ensures o == Err ==> keepUpdateDir
      ensures o == Dead ==> keepUpdateDir == old(keepUpdateDir)
      ensures calm ==> o == if backup.Some? then Ok else Err
    {
      o := RemoveRestore(calm);
      if o == Ok { o := StageRestore(calm); }
      if o == Ok { o := RenameRestore(calm); }
      if o == Ok { o := Outside(calm); }
      if o == Dead { return; }
      keepUpdateDir := o != Ok;
    }

    /**
     What follows a failed step: a rollback if one is due, then the cleanup unless files
     must be kept; removal is the outcome of the cleanup.
     */
    method Abandon(ghost before: Option<Bytes>, ghost next: Bytes, ghost target: string, calm: bool, removal: Signal)
      returns (died: bool)
      requires Recoverable(before, next, target) && (mutationStarted && !committed ==> keepUpdateDir)
      modifies this`installed, this`backup, this`candidate, this`restore, this`keepUpdateDir
      ensures installed == old(installed) || installed == before
      ensures committed || installed == before || backup == before
      ensures old(!mutationStarted && keepUpdateDir) ==> !died && backup == old(backup)
      ensures backup == old(backup) || backup.None?
      ensures !old(keepUpdateDir) ==> (died <==> removal == Dead) && (removal == Ok ==> backup.None?)
      ensures !mutationStarted || committed ==> installed == old(installed)
      ensures calm && !committed ==> installed == before
    {
      if mutationStarted && !committed {
        var back := Rollback(calm);
        if back == Dead { return true; }
      }
      if !keepUpdateDir {
        RemoveUpdateDir(removal);
        return removal == Dead;
      }
      died := false;
    }

    /** The steps and, after a failed one, what follows it; deploy.RunSteps looks at the context before each. */
    method Transact(target: string, archived: Bytes, cancelAt: nat, statFails: bool, calm: bool, removal: Signal)
      returns (r: Outcome)
      requires !mutationStarted && !committed && !keepUpdateDir
      modifies this
      ensures old(backup).None? ==> Safe(r, old(installed), archived, target)
      ensures old(backup).Some? ==> KeepsEarlier(r, old(installed), old(backup), cancelAt > 1 && !statFails, removal)
      ensures var fine := !statFails && old(backup).None? && old(installed).Some? && Genuine(archived, target);
        calm ==> (r.Replaced? <==> fine && cancelAt > 9)
      ensures var fine := !statFails && old(backup).None? && old(installed).Some? && Genuine(archived, target);
        calm ==> installed == if fine && cancelAt > 8 then Some(archived) else old(installed)
    {
      if cancelAt > 0 {
        var o, found := RunSteps(target, archived, cancelAt, statFails, calm);
        if o == Dead { return Died; }
        if o == Ok { return Replaced(target); }
      }
      var died := Abandon(old(installed), archived, target, calm, removal);
      r := if died then Died else Failed;
    }

    /**
     replaceWithTag; archived is the binary the checked archive holds. Without an earlier
     recovery backup: whichever step fails and wherever the process dies, the managed path
     holds the old or that binary, each whole, and unless the Restart step had succeeded
     the old bytes are installed or still backed up. An earlier recovery backup is only
     safe once the Download step has seen it: after a cancellation before that step, or a
     failing Stat, the cleanup deletes it, and it is gone whenever that cleanup works.
     When nothing fails by itself, the archive's binary is in place exactly if it is
     genuine, there was one to replace and no backup, and no cancellation came before the
     service had been restarted.
     */
    method ReplaceWithTag(tag: string, archived: Bytes, cancelAt: nat, statFails: bool, calm: bool, removal: Signal)
      returns (r: Outcome)
      modifies this
      ensures NormalizeTag(tag, semver).None? ==> r.Rejected? && installed == old(installed) && backup == old(backup)
      ensures NormalizeTag(tag, semver).Some? ==>
        (if old(backup).None? then Safe(r, old(installed), archived, NormalizeTag(tag, semver).value)
         else KeepsEarlier(r, old(installed), old(backup), cancelAt > 1 && !statFails, removal))
      ensures calm ==>
        (r.Replaced? <==> Replaceable(tag, archived, old(installed), old(backup)) && !statFails && cancelAt > 9)
      ensures calm ==>
        installed ==
          if Replaceable(tag, archived, old(installed), old(backup)) && !statFails && cancelAt > 8 then Some(archived)
          else old(installed)
    {
      var normal := NormalizeTag(tag, semver);
      if normal.None? { return Rejected; }
      mutationStarted, committed, keepUpdateDir := false, false, false;
      r := Transact(normal.value, archived, cancelAt, statFails, calm, removal);
    }

    /** A replacement may go through: a valid tag, a binary that reports it, one to replace, and no earlier backup. */
    ghost predicate Replaceable(tag: string, archived: Bytes, before: Option<Bytes>, earlier: Option<Bytes>) {
      && NormalizeTag(tag, semver).Some? && archived != [] && reports(archived) == NormalizeTag(tag, semver)
      && before.Some? && earlier.None?
    }

    /** The outcome of a replacement that found no earlier backup. */
    ghost predicate Safe(r: Outcome, before: Option<Bytes>, next: Bytes, target: string)
      reads this
    {
      && !r.Rejected?
      && (installed == before || (installed == Some(next) && reports(next) == Some(target)))
      && (r.Replaced? ==> r.tag == target && installed == Some(next) && reports(next) == Some(target) && backup.None?)
      && (!r.Replaced? ==> installed == before || (backup == before && before.Some?) || (committed && installed == Some(next)))
    }

    /** The outcome when an earlier recovery backup was there; seen says the Download step gets to see it. */
    ghost predicate KeepsEarlier(r: Outcome, before: Option<Bytes>, earlier: Option<Bytes>, seen: bool, removal: Signal)
      reads this
    {
      && (r.Failed? || r.Died?)
      && installed == before
      && (seen ==> backup == earlier)
      && (!seen ==> (r.Died? <==> removal == Dead) && (backup == earlier || backup.None?))
      && (!seen && removal == Ok ==> backup.None?)
    }
  }
}
