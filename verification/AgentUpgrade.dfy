/**
 The agent's self-upgrade (cmd/singbox-deploy-agent/handler.go), as the body of a gated
 mutation. Staging and copying may fail at any point and leave partial temporary files;
 a rename may take effect and still be reported as failed, and so may a copy whose
 directory could not be synced. Equal digests mean equal bytes.
 */
module AgentUpgrade {
  import opened Wrappers
  import opened Text

  type Bytes = seq<nat>

  const MAX_AGENT_BINARY_SIZE := 64 * 0x10_0000

  datatype Request = Request(version: string, binary: Bytes, sha256: string)

  datatype Signal = Ok | Err | Dead

  datatype Result = Refused | Scheduled | Failed | Died

  predicate ValidVersion(version: string) {
    && version != "" && |version| <= 128 && Trim(version) == version
    && forall i :: 0 <= i < |version| ==> '\U{0021}' <= version[i] <= '\U{007E}'
  }

  /** The versions let through: one to 128 visible ASCII characters; the check for surrounding white space adds nothing. */
  lemma ValidVersionMeans(version: string)
    ensures ValidVersion(version) <==> 1 <= |version| <= 128 && forall c :: c in version ==> 33 <= c as int <= 126
  {
    Visible(version);
    if version != "" && forall c :: c in version ==> 33 <= c as int <= 126 {
      TrimFixed(version);
    }
    hide Trim;
  }

  lemma Visible(version: string)
    ensures (forall i :: 0 <= i < |version| ==> '\U{0021}' <= version[i] <= '\U{007E}') <==> forall c :: c in version ==> 33 <= c as int <= 126
    ensures (forall c :: c in version ==> 33 <= c as int <= 126) ==> forall i :: 0 <= i < |version| ==> !IsSpace(version[i])
  {
    if forall c :: c in version ==> 33 <= c as int <= 126 {
      assert forall i :: 0 <= i < |version| ==> version[i] in version;
    }
  }

  class Agent {
    /** The files: the executable, its backup, and whatever a copy or an upgrade has staged. */
    var executable: Bytes
    var backup: Option<Bytes>
    var restartPending: bool
    var pendingRestore: bool
    /** The binary this process was started from. */
    ghost const running: Bytes

    const digest: Bytes -> string
    const elf: Bytes -> bool
    /** What running a binary with --version prints, trimmed. */
    const reports: Bytes -> Option<string>

    /** A fresh process: whatever backup an earlier one left, nothing is pending. */
    constructor (executable: Bytes, backup: Option<Bytes>, digest: Bytes -> string, elf: Bytes -> bool,
                 reports: Bytes -> Option<string>)
      requires executable != [] && (backup.Some? ==> backup.value != [])
      ensures Valid() && running == executable && !restartPending && this.backup == backup
      ensures this.digest == digest && this.elf == elf && this.reports == reports
    {
      this.executable, this.backup, this.running := executable, backup, executable;
      this.digest, this.elf, this.reports := digest, elf, reports;
      restartPending, pendingRestore := false, false;
    }

    /** The running binary is in place, or its backup is and the next upgrade restores it before anything else. */
    ghost predicate Recoverable()
      reads this
    {
      executable == running || (pendingRestore && backup == Some(running))
    }

    /** The binary the next upgrade starts from: the one it has to restore first, or the one in place. */
    ghost function Base(): Bytes
      reads this
    {
      if pendingRestore && backup.Some? then backup.value else executable
    }

    ghost predicate Coherent()
      reads this
    {
      && running != [] && executable != [] && (backup.Some? ==> backup.value != [])
      && (pendingRestore ==> !restartPending)
    }

    /** An upgrade that may begin starts from the running binary. */
    ghost predicate Valid()
      reads this
    {
      Coherent() && (!restartPending ==> Base() == running)
    }

    predicate Acceptable(req: Request) {
      && ValidVersion(req.version)
      && 0 < |req.binary| <= MAX_AGENT_BINARY_SIZE
      && digest(req.binary) == req.sha256
      && elf(req.binary)
    }

    /** A request is refused as it stands exactly for one of these: a bad version, an empty or oversized binary, another digest, no executable. */
    lemma AcceptableMeans(req: Request)
      ensures Acceptable(req) <==>
        && 1 <= |req.version| <= 128 && (forall c :: c in req.version ==> 33 <= c as int <= 126)
        && 1 <= |req.binary| <= 67108864 && digest(req.binary) == req.sha256 && elf(req.binary)
    {
      ValidVersionMeans(req.version);
      hide ValidVersion;
    }

    /** calm says that nothing is cancelled or fails by itself; otherwise anything may, at any point. */
    static method Outside(calm: bool) returns (o: Signal)
      ensures calm ==> o == Ok
    {
      o := *;
      if calm { o := Ok; }
    }

    /**
     The staging half of copyAgentFileAtomic: what was read is a prefix of the source,
     what reached the temporary file may be anything, and only a full read whose digest
     the temporary file repeats is let through.
     */
    static method StageCopy(source: Bytes, calm: bool) returns (o: Signal, staged: Bytes)
      ensures o == Ok ==> staged == source && source != []
      ensures calm ==> o == if source != [] then Ok else Err
    {
      staged := *;
      if |source| == 0 { return Err, staged; }
      o := Outside(calm);
      if o != Ok { return; }
      var length: int := *;
      var read := if !calm && 0 <= length < |source| then source[..length] else source;
      if |read| != |source| { return Err, staged; }
      if calm { staged := read; }
      if staged != read { return Err, staged; }
      o := Outside(calm);
    }

    /** copyAgentFileAtomic from the executable to the backup: the rename puts a whole copy there, or nothing. */
    method BackUp(calm: bool) returns (o: Signal)
      modifies this`backup
      ensures backup == old(backup) || backup == Some(executable)
      ensures o == Ok ==> backup == Some(executable)
      ensures calm && executable != [] ==> o == Ok
    {
      var staged;
      o, staged := StageCopy(executable, calm);
      if o != Ok { return; }
      var renamed: bool := *;
      o := Outside(calm);
      if o == Ok || renamed { backup := Some(staged); }
      if o == Ok { o := Outside(calm); }
    }

    /** copyAgentFileAtomic from the backup to the executable. */
    method CopyBack(calm: bool) returns (o: Signal)
      modifies this`executable
      ensures executable == old(executable) || backup == Some(executable)
      ensures o == Ok ==> backup == Some(executable)
      ensures calm ==> o == if backup.Some? && backup.value != [] then Ok else Err
    {
      if backup.None? {
        o := Outside(calm);
        return if o == Ok then Err else o;
      }
      var staged;
      o, staged := StageCopy(backup.value, calm);
      if o != Ok { return; }
      var renamed: bool := *;
      o := Outside(calm);
      if o == Ok || renamed { executable := staged; }
      if o == Ok { o := Outside(calm); }
    }

    method RemoveBackup(calm: bool) returns (o: Signal)
      modifies this`backup
      ensures o == Ok ==> backup == None
      ensures backup == old(backup) || backup == None
      ensures calm ==> o == Ok
    {
      var effect: bool := *;
      o := Outside(calm);
      if o == Ok || effect { backup := None; }
    }

    /** restoreAgentReplacement: copied, not moved, so every failure keeps the backup until the executable is good. */
    method Restore(calm: bool) returns (o: Signal)
      modifies this`executable, this`backup
      ensures old(backup).Some? ==> executable == old(executable) || executable == old(backup).value
      ensures old(backup).None? ==> executable == old(executable) && backup == None && o != Ok
      ensures o == Ok ==> old(backup) == Some(executable) && backup == None
      ensures backup == old(backup) || (backup == None && old(backup) == Some(executable))
      ensures calm ==> o == if old(backup).Some? && old(backup).value != [] then Ok else Err
    {
      o := CopyBack(calm);
      if o != Ok { return; }
      o := RemoveBackup(calm);
    }

    /**
     replaceAgentAtomically: nothing is renamed over the executable before its synced
     backup is in place. lies says that this rename, if it is reached, takes effect and
     reports failure, and lied that it did; the backup is then removed as unused.
     */
    method Replace(req: Request, calm: bool, lies: bool) returns (o: Signal, lied: bool)
      requires executable != []
      modifies this`executable, this`backup
      ensures o == Ok ==> executable == req.binary && backup == Some(old(executable))
      ensures executable != old(executable) ==> reports(req.binary) == Some(req.version)
      ensures o == Ok ==> reports(req.binary) == Some(req.version)
      ensures o == Err && !lied ==> executable == old(executable)
      ensures lied ==> lies && o != Ok && executable == req.binary && reports(req.binary) == Some(req.version)
      ensures backup == old(backup) || backup == None || backup == Some(old(executable))
      ensures o != Err ==> executable == old(executable) || (executable == req.binary && backup == Some(old(executable))) || lied
      ensures calm ==> o == (if reports(req.binary) != Some(req.version) || lies then Err else Ok)
      ensures calm && lies && reports(req.binary) == Some(req.version) ==> lied && backup == None
    {
      lied := false;
      o := Outside(calm);
      if o != Ok { return; }
      if reports(req.binary) != Some(req.version) { return Err, lied; }
      o := Outside(calm);
      if o != Ok { return; }
      o := BackUp(calm);
      if o != Ok { return; }
      o := Outside(calm);
      if o == Dead {
        var renamed: bool := *;
        if renamed { executable := req.binary; }
        return;
      }
      if o == Err || lies {
        if lies {
          executable := req.binary;
          lied := true;
        }
        var removed := RemoveBackup(calm);
        return if removed == Dead then Dead else Err, lied;
      }
      executable := req.binary;
    }

    /** The part of Upgrade after its checks: replace, schedule the restart, undo if that fails. */
    method Commit(req: Request, calm: bool, lies: bool) returns (r: Result, lied: bool)
      requires Coherent() && req.binary != [] && !restartPending && !pendingRestore
      modifies this
      ensures !r.Died? ==> Coherent()
      ensures r.Scheduled? || r.Failed? || r.Died?
      ensures restartPending <==> r.Scheduled?
      ensures r.Scheduled? ==> !lied && reports(executable) == Some(req.version)
      ensures r.Scheduled? ==> executable == req.binary && backup == Some(old(executable)) && !pendingRestore
      ensures r.Failed? ==> if lied then executable == req.binary && !pendingRestore else Base() == old(executable)
      ensures r.Died? ==> executable == old(executable) || (executable == req.binary && (lied || backup == Some(old(executable))))
      ensures lied ==> lies && reports(req.binary) == Some(req.version)
      ensures calm ==> r == (if reports(req.binary) != Some(req.version) || lies then Failed else Scheduled)
      ensures calm && lies && reports(req.binary) == Some(req.version) ==> lied && backup == None
    {
      var replaced;
      replaced, lied := Replace(req, calm, lies);
      if replaced == Dead { return Died, lied; }
      if replaced == Err { return Failed, lied; }
      var scheduled := Outside(calm);
      if scheduled == Dead { return Died, lied; }
      if scheduled == Err {
        var restored := Restore(calm);
        if restored == Dead { return Died, lied; }
        if restored == Err { pendingRestore := true; }
        return Failed, lied;
      }
      restartPending := true;
      return Scheduled, lied;
    }

    /** No restart is on its way, and a restore that is due has a backup to restore. */
    ghost predicate Startable()
      reads this
    {
      !restartPending && (pendingRestore ==> backup.Some?)
    }

    /** A restore left over from an earlier attempt comes before anything else. */
    method RestoreFirst(calm: bool) returns (o: Signal)
      requires Coherent() && !restartPending
      modifies this`executable, this`backup, this`pendingRestore
      ensures o != Dead ==> Coherent() && Base() == old(Base())
      ensures o == Ok ==> !pendingRestore && executable == old(Base()) && old(Startable())
      ensures executable == old(executable) || executable == old(Base())
      ensures executable == old(Base()) || backup == Some(old(Base()))
      ensures o != Ok ==> pendingRestore && (backup == old(backup) || executable == old(Base()))
      ensures o == Ok && old(pendingRestore) ==> backup == None
      ensures !old(pendingRestore) ==> o == Ok && backup == old(backup)
      ensures calm ==> o == if old(Startable()) then Ok else Err
    {
      if !pendingRestore { return Ok; }
      o := Restore(calm);
      if o == Ok { pendingRestore := false; }
    }

    /** What the checks and the inspection of the staged binary ask for. */
    ghost predicate Genuine(req: Request) {
      Acceptable(req) && reports(req.binary) == Some(req.version)
    }

    /**
     Upgrade, once it has the token. Begun from the running binary, a failed call leaves
     it in place, or its backup and the duty to restore it first, unless the rename of
     another binary takes effect and reports failure. A scheduled restart leaves the
     requested, inspected binary in place and the former one in the backup. Even if the
     process dies, the executable is one of these, whole. When nothing else fails, a
     genuine request is scheduled exactly if the rename tells the truth; if it lies, the
     new binary is in place with neither a backup nor a restore to come.
     */
    method Upgrade(req: Request, calm: bool, lies: bool) returns (r: Result, lied: bool)
      requires Coherent()
      modifies this
      ensures !r.Died? ==> Coherent()
      ensures old(restartPending) ==>
        r.Refused? && executable == old(executable) && backup == old(backup) && restartPending
      ensures !old(restartPending) ==> (restartPending <==> r.Scheduled?)
      ensures r.Refused? ==> !lied && executable == old(executable) && backup == old(backup) && Base() == old(Base())
      ensures r.Scheduled? ==> !lied && Genuine(req) && old(Startable())
      ensures r.Scheduled? ==> executable == req.binary && backup == Some(old(Base())) && !pendingRestore
      ensures r.Failed? ==> Base() == if lied then req.binary else old(Base())
      ensures r.Failed? && lied ==> executable == req.binary && Genuine(req)
      ensures r.Failed? && old(Valid()) && !lies ==> Recoverable() && Valid()
      ensures r.Failed? && old(Valid()) ==> (Recoverable() <==> !lied || req.binary == running)
      ensures r.Failed? && old(Valid()) ==> (Valid() <==> Recoverable())
      ensures r.Died? ==> executable == old(executable) || executable == old(Base()) || executable == req.binary
      ensures r.Died? && !lied ==> executable == old(Base()) || backup == Some(old(Base()))
      ensures lied ==> lies
      ensures calm ==> (r.Scheduled? <==> old(Startable()) && Genuine(req) && !lies) && (r.Refused? <==> old(restartPending)) && !r.Died?
      ensures calm && lies && old(Startable()) && Genuine(req) ==> r.Failed? && lied && backup == None && !pendingRestore
    {
      lied := false;
      var cancelled: bool := *;
      if (cancelled && !calm) || restartPending { return Refused, lied; }
      hide Acceptable;
      var restored := RestoreFirst(calm);
      if restored == Dead { return Died, lied; }
      if restored == Err { return Failed, lied; }
      if !Acceptable(req) { return Failed, lied; }
      var located := Outside(calm);
      if located == Dead { return Died, lied; }
      if located == Err { return Failed, lied; }
      AcceptableIsSome(req);
      r, lied := Commit(req, calm, lies);
    }

    lemma AcceptableIsSome(req: Request)
      requires Acceptable(req)
      ensures req.binary != []
    {
    }

    /**
     After a failed attempt, the next one that gets anywhere first puts the running
     binary back, and so backs that one up, unless the first one's rename of another
     binary took effect and reported failure. That happens: two genuine requests, of
     which nothing but the first one's rename misbehaves, end with the running binary
     neither in place nor backed up.
     */
    method Retry(first: Request, second: Request, calm: bool, lies: bool, liesAgain: bool)
      returns (a: Result, b: Option<Result>, lied: bool, liedAgain: bool)
      requires Valid() && !restartPending
      modifies this
      ensures b.None? <==> a.Died?
      ensures a.Failed? && b == Some(Scheduled) ==>
        executable == second.binary && (backup == Some(running) <==> !lied || first.binary == running)
      ensures a.Failed? && b == Some(Failed) ==>
        Base() == if liedAgain then second.binary else if lied then first.binary else running
      ensures a.Scheduled? ==> b == Some(Refused) && executable == first.binary && backup == Some(running)
      ensures (lied ==> lies) && (liedAgain ==> liesAgain)
      ensures calm && lies && !liesAgain && old(Startable()) && Genuine(first) && Genuine(second) ==>
        a.Failed? && b == Some(Scheduled) && executable == second.binary && backup == Some(first.binary)
    {
      liedAgain := false;
      a, lied := Upgrade(first, calm, lies);
      if a.Died? { return a, None, lied, liedAgain; }
      var again;
      again, liedAgain := Upgrade(second, calm, liesAgain);
      b := Some(again);
    }
  }
}
