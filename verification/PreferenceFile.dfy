/** A settings file that must survive a crash at any point of its replacement. Two services use
    the same write protocol and differ in how they load: the microphone preference restores an
    interrupted write from the backup, the AI fallback preference falls back to asking. */
module PreferenceFile {
  import opened Common

  /** A file as the loaders see it; an unreadable one gives its own error. */
  datatype File<+V> = Absent | Readable(value: V) | Unreadable(code: string)

  datatype Files<+V> = Files(target: File<V>, backup: File<V>, temporary: File<V>)

  /** What one file operation does: it happens, it fails, or the process dies before it. */
  datatype Fate = Happens | Fails | Dies

  /** The fate of every operation of one write. `torn` is what an unfinished write leaves. */
  datatype Fates<+V> = Fates(
    prepare: Fate,
    removeTemporary: Fate,
    encode: Fate,
    create: Fate,
    write: Fate,
    removeBackup: Fate,
    backUp: Fate,
    commit: Fate,
    restore: Fate,
    dropBackup: Fate,
    torn: File<V>)

  datatype Outcome = Written | Refused | Died

  function Failure(fate: Fate): Outcome { if fate.Fails? then Refused else Died }

  /** Writing the temporary file: the target and the backup are not touched. */
  function WriteTemporary<V>(files: Files<V>, stored: V, fates: Fates<V>): (Files<V>, Outcome) {
    if !fates.prepare.Happens? then (files, Failure(fates.prepare))
    else if !files.temporary.Absent? && !fates.removeTemporary.Happens? then (files, Failure(fates.removeTemporary))
    else
      var cleared := files.(temporary := Absent);
      if !fates.encode.Happens? then (cleared, Failure(fates.encode))
      else if !fates.create.Happens? then (cleared, Failure(fates.create))
      else if !fates.write.Happens? then (cleared.(temporary := fates.torn), Failure(fates.write))
      else (cleared.(temporary := Readable(stored)), Written)
  }

  /** Swapping the temporary file in: drop a stale backup, back the target up, commit, and undo
      the backup when the commit fails. */
  function SwapIn<V>(files: Files<V>, fates: Fates<V>): (Files<V>, Outcome) {
    if !files.backup.Absent? && !fates.removeBackup.Happens? then (files, Failure(fates.removeBackup))
    else
      var hadTarget := !files.target.Absent?;
      if hadTarget && !fates.backUp.Happens? then (files.(backup := Absent), Failure(fates.backUp))
      else
        var backedUp := files.(target := Absent, backup := files.target);
        if fates.commit.Dies? then (backedUp, Died)
        else if fates.commit.Fails? then
          if !hadTarget then (backedUp, Refused)
          else if fates.restore.Happens? then (files.(backup := Absent), Refused)
          else (backedUp, Failure(fates.restore))
        else
          var committed := Files(files.temporary, files.target, Absent);
          if committed.backup.Absent? then (committed, Written)
          else if fates.dropBackup.Happens? then (committed.(backup := Absent), Written)
          else (committed, if fates.dropBackup.Fails? then Written else Died)
  }

  function WriteFiles<V>(files: Files<V>, stored: V, fates: Fates<V>): (Files<V>, Outcome) {
    var (prepared, outcome) := WriteTemporary(files, stored, fates);
    if outcome.Written? then SwapIn(prepared, fates) else (prepared, outcome)
  }

  /** Everything a write can leave behind, whatever fails and wherever it dies. */
  predicate Leaves<V(==)>(before: Files<V>, stored: V, after: Files<V>, outcome: Outcome) {
    match outcome
    case Written => after.target == Readable(stored) && (after.backup == before.target || after.backup.Absent?)
    case Refused => Kept(before, after) || BackedUp(before, after)
    case Died =>
      || Kept(before, after)
      || BackedUp(before, after)
      || (after.target == Readable(stored) && after.backup == before.target)
  }

  predicate Kept<V(==)>(before: Files<V>, after: Files<V>) {
    after.target == before.target && (after.backup == before.backup || after.backup.Absent?)
  }

  predicate BackedUp<V(==)>(before: Files<V>, after: Files<V>) {
    after.target.Absent? && after.backup == before.target
  }

  lemma WriteLeaves<V>(before: Files<V>, stored: V, fates: Fates<V>)
    ensures Leaves(before, stored, WriteFiles(before, stored, fates).0, WriteFiles(before, stored, fates).1)
  {}

  /** Success, exactly: every operation the files call for happens, and only dropping the new
      backup may fail. */
  lemma WrittenExactly<V>(before: Files<V>, stored: V, fates: Fates<V>)
    ensures WriteFiles(before, stored, fates).1.Written? <==>
              && fates.prepare.Happens? && (!before.temporary.Absent? ==> fates.removeTemporary.Happens?)
              && fates.encode.Happens? && fates.create.Happens? && fates.write.Happens?
              && (!before.backup.Absent? ==> fates.removeBackup.Happens?)
              && (!before.target.Absent? ==> fates.backUp.Happens? && !fates.dropBackup.Dies?)
              && fates.commit.Happens?
    ensures WriteFiles(before, stored, fates).1.Written? ==> WriteFiles(before, stored, fates).0.temporary.Absent?
  {}

  /** The temporary file is written out. */
  predicate Prepared<V>(before: Files<V>, fates: Fates<V>) {
    && fates.prepare.Happens? && (!before.temporary.Absent? ==> fates.removeTemporary.Happens?)
    && fates.encode.Happens? && fates.create.Happens? && fates.write.Happens?
  }

  /** And the old target and the old backup are out of the way. */
  predicate Cleared<V>(before: Files<V>, fates: Fates<V>) {
    && Prepared(before, fates) && (!before.backup.Absent? ==> fates.removeBackup.Happens?)
    && (!before.target.Absent? ==> fates.backUp.Happens?)
  }

  /** A cleared target that neither the commit nor the undoing of its failure fills again. */
  predicate LeftEmpty<V>(before: Files<V>, fates: Fates<V>) {
    && Cleared(before, fates) && !before.target.Absent?
    && !fates.commit.Happens? && !(fates.commit.Fails? && fates.restore.Happens?)
  }

  /** What a write leaves in each file, told by how far it got. */
  lemma LeftExactly<V>(before: Files<V>, stored: V, fates: Fates<V>)
    ensures var after := WriteFiles(before, stored, fates).0;
            var committed := Cleared(before, fates) && fates.commit.Happens?;
            && after.target == (if committed then Readable(stored) else if LeftEmpty(before, fates) then Absent else before.target)
            && (committed ==> after.backup == if fates.dropBackup.Happens? then Absent else before.target)
            && (LeftEmpty(before, fates) ==> after.backup == before.target)
            && (!committed && !LeftEmpty(before, fates) ==>
                  after.backup == if Prepared(before, fates) && fates.removeBackup.Happens? then Absent else before.backup)
  {}

  /** The temporary file holds the new value from its writing to the commit, and before that
      whatever the interrupted write left. */
  lemma TemporaryExactly<V>(before: Files<V>, stored: V, fates: Fates<V>)
    ensures var after := WriteFiles(before, stored, fates).0;
            var removed := fates.prepare.Happens? && (!before.temporary.Absent? ==> fates.removeTemporary.Happens?);
            && (Cleared(before, fates) && fates.commit.Happens? ==> after.temporary.Absent?)
            && (Prepared(before, fates) && !(Cleared(before, fates) && fates.commit.Happens?) ==> after.temporary == Readable(stored))
            && (!removed ==> after.temporary == before.temporary)
            && (removed && !(fates.encode.Happens? && fates.create.Happens?) ==> after.temporary.Absent?)
            && (removed && fates.encode.Happens? && fates.create.Happens? && !fates.write.Happens? ==> after.temporary == fates.torn)
  {}

  /** The operations a write needs, in their order. */
  function Needed<V>(before: Files<V>, fates: Fates<V>): seq<Fate> {
    [fates.prepare] + (if before.temporary.Absent? then [] else [fates.removeTemporary])
    + [fates.encode, fates.create, fates.write]
    + (if before.backup.Absent? then [] else [fates.removeBackup])
    + (if before.target.Absent? then [] else [fates.backUp])
    + [fates.commit]
  }

  predicate FirstToStop(needed: seq<Fate>, n: nat) {
    n < |needed| && !needed[n].Happens? && forall i | 0 <= i < n :: needed[i].Happens?
  }

  /** How a write ends is how its first operation that does not happen ends it: a process that dies
      there has died, a failure is reported, unless undoing a failed commit dies in turn. */
  lemma EndsExactly<V>(before: Files<V>, stored: V, fates: Fates<V>, n: nat)
    requires FirstToStop(Needed(before, fates), n)
    ensures var outcome, needed := WriteFiles(before, stored, fates).1, Needed(before, fates);
            && !outcome.Written?
            && (outcome.Died? <==>
                  needed[n].Dies? || (n == |needed| - 1 && !before.target.Absent? && fates.restore.Dies?))
  {
    var needed := Needed(before, fates);
    assert needed[0] == fates.prepare && needed[|needed| - 1] == fates.commit;
    FirstStopIs(before, fates, n);
  }

  /** Which operation that is. */
  lemma FirstStopIs<V>(before: Files<V>, fates: Fates<V>, n: nat)
    requires FirstToStop(Needed(before, fates), n)
    ensures Needed(before, fates)[n] ==
            if !fates.prepare.Happens? then fates.prepare
            else if !before.temporary.Absent? && !fates.removeTemporary.Happens? then fates.removeTemporary
            else if !fates.encode.Happens? then fates.encode
            else if !fates.create.Happens? then fates.create
            else if !fates.write.Happens? then fates.write
            else if !before.backup.Absent? && !fates.removeBackup.Happens? then fates.removeBackup
            else if !before.target.Absent? && !fates.backUp.Happens? then fates.backUp
            else fates.commit
    ensures n == |Needed(before, fates)| - 1 <==> Cleared(before, fates)
  {
    var needed := Needed(before, fates);
    var t := if before.temporary.Absent? then 0 else 1;
    var b := if before.backup.Absent? then 0 else 1;
    assert needed[0] == fates.prepare && needed[1 + t..4 + t] == [fates.encode, fates.create, fates.write];
    assert needed[1 + t] == fates.encode && needed[2 + t] == fates.create && needed[3 + t] == fates.write;
    assert t == 1 ==> needed[1] == fates.removeTemporary;
    assert b == 1 ==> needed[4 + t] == fates.removeBackup;
    assert !before.target.Absent? ==> needed[4 + t + b] == fates.backUp;
  }

  /** A backup stays behind a successful write exactly when dropping it failed. */
  lemma BackupDropped<V>(before: Files<V>, stored: V, fates: Fates<V>)
    requires WriteFiles(before, stored, fates).1.Written?
    ensures WriteFiles(before, stored, fates).0.backup ==
              if fates.dropBackup.Fails? then before.target else Absent
  {}

  /** Dying right before the given operation, everything else going well. */
  datatype DeathAt = BeforeBackUp | BeforeCommit

  function Death<V>(at: DeathAt): Fates<V> {
    var smooth := Fates(Happens, Happens, Happens, Happens, Happens, Happens, Happens, Happens, Happens, Happens, Absent);
    match at
    case BeforeBackUp => smooth.(backUp := Dies)
    case BeforeCommit => smooth.(commit := Dies)
  }

  // ---- Microphone preference ----

  /** load_microphone_preference, and what it does to the files. */
  function LoadMicrophone<V>(files: Files<V>, default: V, renames: bool): (Result<V, string>, Files<V>) {
    match files.target
    case Absent =>
      (match files.backup
       case Absent => (Ok(default), files)
       case Unreadable(code) => (Err(code), files)
       case Readable(stored) =>
         if renames then (Ok(stored), files.(target := files.backup, backup := Absent))
         else (Err("CAPTURE_PREFERENCES_BACKUP_FAILED"), files))
    case Readable(stored) => (Ok(stored), files)
    case Unreadable(code) => (if files.backup.Readable? then Ok(files.backup.value) else Err(code), files)
  }

  /** The preference in effect: what a load that can rename returns. */
  function InEffect<V>(files: Files<V>, default: V): Result<V, string> { LoadMicrophone(files, default, true).0 }

  /** Which value that is: the target's, or the backup's where the target is gone or cannot be
      read, or the default where there is neither. */
  lemma InEffectExactly<V>(files: Files<V>, default: V, value: V)
    ensures InEffect(files, default) == Ok(value) <==>
              || files.target == Readable(value)
              || (!files.target.Readable? && files.backup == Readable(value))
              || (files.target.Absent? && files.backup.Absent? && value == default)
  {}

  /** A load changes the files only to put a readable backup in the place of an absent target. */
  lemma LoadRestoresExactly<V>(files: Files<V>, default: V, renames: bool)
    ensures var (value, after) := LoadMicrophone(files, default, renames);
            var restores := files.target.Absent? && files.backup.Readable?;
            && after == (if restores && renames then Files(files.backup, Absent, files.temporary) else files)
            && value == (if restores && !renames then Err("CAPTURE_PREFERENCES_BACKUP_FAILED") else InEffect(files, default))
  {}

  /** Every crash and failure leaves the old or the new value in effect, and a write that only
      failed leaves the old one. */
  ghost predicate CrashConsistent<V(!new)>(before: Files<V>, default: V, stored: V) {
    forall fates: Fates<V> ::
      var (after, outcome) := WriteFiles(before, stored, fates);
      InEffect(after, default) == InEffect(before, default) || InEffect(after, default) == Ok(stored)
  }

  /** What a caller can check beforehand: no backup is the only holder of the current value. */
  predicate SafeToReplace<V(==)>(before: Files<V>, default: V, stored: V) {
    && (before.target.Absent? ==> before.backup.Absent? || before.backup == Readable(default) || stored == default)
    && (before.target.Unreadable? ==> !before.backup.Readable?)
  }

  /** Exactly when replacing the microphone preference is crash-consistent. A readable target,
      or no file at all, is always safe; a backup left alone by an interrupted write is not. */
  lemma CrashConsistentIffSafe<V(!new)>(before: Files<V>, default: V, stored: V)
    ensures CrashConsistent(before, default, stored) <==> SafeToReplace(before, default, stored)
  {
    if SafeToReplace(before, default, stored) {
      forall fates: Fates<V>
        ensures var after := WriteFiles(before, stored, fates).0;
                InEffect(after, default) == InEffect(before, default) || InEffect(after, default) == Ok(stored)
      {
        WriteLeaves(before, stored, fates);
      }
    } else {
      var fates := Death<V>(if before.target.Absent? then BeforeCommit else BeforeBackUp);
      var (after, outcome) := WriteFiles(before, stored, fates);
      assert InEffect(after, default) != InEffect(before, default) && InEffect(after, default) != Ok(stored);
    }
  }

  /** Restoring is what makes the next write safe: after a load that succeeded on an absent
      target, replacing is crash-consistent for every new value. */
  lemma LoadMakesSafe<V(!new)>(files: Files<V>, default: V, renames: bool, stored: V)
    requires files.target.Absent? && LoadMicrophone(files, default, renames).0.Ok?
    ensures var (value, after) := LoadMicrophone(files, default, renames);
            && InEffect(after, default) == value == InEffect(files, default)
            && (files.backup.Readable? ==> after.target == files.backup)
            && CrashConsistent(after, default, stored)
  {
    var (value, after) := LoadMicrophone(files, default, renames);
    CrashConsistentIffSafe(after, default, stored);
  }

  // ---- Runs ----

  datatype Event<+V> = Load(renames: bool) | Write(stored: V, fates: Fates<V>)

  /** `loaded`: a load has succeeded since the last write. */
  datatype Disk<+V> = Disk(files: Files<V>, loaded: bool)

  function DiskStep<V>(d: Disk<V>, default: V, e: Event<V>): Disk<V> {
    match e
    case Load(renames) =>
      var (value, after) := LoadMicrophone(d.files, default, renames);
      Disk(after, d.loaded || value.Ok?)
    case Write(stored, fates) => Disk(WriteFiles(d.files, stored, fates).0, false)
  }

  /** Runs in which a load succeeds before each write. */
  ghost predicate Run<V>(disks: seq<Disk<V>>, default: V, events: seq<Event<V>>) {
    && |disks| == |events| + 1
    && (disks[0].files.target.Readable? || (disks[0].files.target.Absent? && disks[0].files.backup.Absent?))
    && forall k :: 0 <= k < |events| ==>
         (events[k].Write? ==> disks[k].loaded) && disks[k + 1] == DiskStep(disks[k], default, events[k])
  }

  predicate Recoverable<V>(d: Disk<V>) {
    match d.files.target
    case Readable(_) => true
    case Absent => d.files.backup.Absent? || (d.files.backup.Readable? && !d.loaded)
    case Unreadable(_) => false
  }

  lemma {:induction false} RunStaysRecoverable<V>(disks: seq<Disk<V>>, default: V, events: seq<Event<V>>, k: nat)
    requires Run(disks, default, events) && k < |disks|
    ensures Recoverable(disks[k])
  {
    if k > 0 {
      RunStaysRecoverable(disks, default, events, k - 1);
      if events[k - 1].Write? { WriteLeaves(disks[k - 1].files, events[k - 1].stored, events[k - 1].fates); }
    }
  }

  /** Over any such run, however many writes fail or die: a preference is always in effect, a
      load never changes it, a write leaves the old or the new one, a write that reports success
      leaves the new one, and a write that reports failure leaves the old one. */
  lemma RunKeepsOldOrNew<V>(disks: seq<Disk<V>>, default: V, events: seq<Event<V>>, k: nat)
    requires Run(disks, default, events) && k < |events|
    ensures InEffect(disks[k].files, default).Ok? && InEffect(disks[k + 1].files, default).Ok?
    ensures var was, now := InEffect(disks[k].files, default), InEffect(disks[k + 1].files, default);
            match events[k]
            case Load(_) => now == was
            case Write(stored, fates) =>
              (match WriteFiles(disks[k].files, stored, fates).1
               case Written => now == Ok(stored)
               case Refused => now == was
               case Died => now == was || now == Ok(stored))
  {
    RunStaysRecoverable(disks, default, events, k);
    RunStaysRecoverable(disks, default, events, k + 1);
    if events[k].Write? { WriteLeaves(disks[k].files, events[k].stored, events[k].fates); }
  }

  // ---- AI fallback preference ----

  datatype Preference = AskFirst | Automatic | Never

  /** load_unlocked: an absent target means the default, even beside a backup. */
  function LoadFallback(files: Files<Preference>): Result<Preference, string> {
    match files.target
    case Absent => Ok(AskFirst)
    case Readable(stored) => Ok(stored)
    case Unreadable(code) => if files.backup.Readable? then Ok(files.backup.value) else Err(code)
  }

  function PreferenceOrSafeDefault(files: Files<Preference>): Preference {
    var loaded := LoadFallback(files);
    if loaded.Ok? then loaded.value else AskFirst
  }

  /** A permission or a prohibition is in effect exactly where a file says so: the target, or the
      backup where the target is there but cannot be read; in all other cases Candor asks. */
  lemma FallbackInEffectExactly(files: Files<Preference>, preference: Preference)
    requires !preference.AskFirst?
    ensures PreferenceOrSafeDefault(files) == preference <==>
              files.target == Readable(preference) || (files.target.Unreadable? && files.backup == Readable(preference))
    ensures LoadFallback(files).Err? <==> files.target.Unreadable? && !files.backup.Readable?
    ensures LoadFallback(files).Err? ==> LoadFallback(files).error == files.target.code
  {}

  /** From any files and through any crash, the effective preference is the prior one, the new
      one, or the one that asks; success means the new one. */
  lemma FallbackStaysSafe(before: Files<Preference>, stored: Preference, fates: Fates<Preference>)
    ensures var (after, outcome) := WriteFiles(before, stored, fates);
            && PreferenceOrSafeDefault(after) in {PreferenceOrSafeDefault(before), stored, AskFirst}
            && (outcome.Written? ==> PreferenceOrSafeDefault(after) == stored)
            && (outcome.Refused? ==> PreferenceOrSafeDefault(after) in {PreferenceOrSafeDefault(before), AskFirst})
  {
    WriteLeaves(before, stored, fates);
  }

  /** Exactly when asking is never an accident: the crash between the two renames forgets any
      other preference, since this loader does not look at the backup. */
  lemma FallbackKeepsOldOrNewIff(before: Files<Preference>, stored: Preference)
    ensures (forall fates: Fates<Preference> ::
               PreferenceOrSafeDefault(WriteFiles(before, stored, fates).0) in {PreferenceOrSafeDefault(before), stored})
            <==> PreferenceOrSafeDefault(before) == AskFirst || stored == AskFirst
  {
    if PreferenceOrSafeDefault(before) == AskFirst || stored == AskFirst {
      forall fates: Fates<Preference>
        ensures PreferenceOrSafeDefault(WriteFiles(before, stored, fates).0) in {PreferenceOrSafeDefault(before), stored}
      {
        FallbackStaysSafe(before, stored, fates);
      }
    } else {
      assert PreferenceOrSafeDefault(WriteFiles(before, stored, Death(BeforeCommit)).0) == AskFirst;
    }
  }

  // ---- The file system object ----

  /** The three paths. Each method performs the source's operations in their order. */
  class PreferenceFiles<V> {
    var target: File<V>
    var backup: File<V>
    var temporary: File<V>

    ghost function View(): Files<V>
      reads this
    {
      Files(target, backup, temporary)
    }

    constructor (files: Files<V>)
      ensures View() == files
    {
      target, backup, temporary := files.target, files.backup, files.temporary;
    }

    /** write_microphone_preference and write_unlocked. */
    method Write(stored: V, fates: Fates<V>) returns (outcome: Outcome)
      modifies this
      ensures (View(), outcome) == WriteFiles(old(View()), stored, fates)
      ensures outcome.Written? ==> target == Readable(stored)
    {
      WriteLeaves(View(), stored, fates);
      if !fates.prepare.Happens? { return Failure(fates.prepare); }
      if !temporary.Absent? {
        if !fates.removeTemporary.Happens? { return Failure(fates.removeTemporary); }
        temporary := Absent;
      }
      if !fates.encode.Happens? { return Failure(fates.encode); }
      if !fates.create.Happens? { return Failure(fates.create); }
      if !fates.write.Happens? {
        temporary := fates.torn;
        return Failure(fates.write);
      }
      temporary := Readable(stored);
      if !backup.Absent? {
        if !fates.removeBackup.Happens? { return Failure(fates.removeBackup); }
        backup := Absent;
      }
      var hadTarget := !target.Absent?;
      if hadTarget {
        if !fates.backUp.Happens? { return Failure(fates.backUp); }
        backup := target;
        target := Absent;
      }
      if fates.commit.Dies? { return Died; }
      if fates.commit.Fails? {
        if hadTarget && !backup.Absent? {
          if fates.restore.Dies? { return Died; }
          if fates.restore.Happens? {
            target := backup;
            backup := Absent;
          }
        }
        return Refused;
      }
      target := temporary;
      temporary := Absent;
      if !backup.Absent? {
        if fates.dropBackup.Dies? { return Died; }
        if fates.dropBackup.Happens? { backup := Absent; }
      }
      outcome := Written;
    }

    /** load_microphone_preference. */
    method Load(default: V, renames: bool) returns (loaded: Result<V, string>)
      modifies this
      ensures (loaded, View()) == LoadMicrophone(old(View()), default, renames)
      ensures loaded.Ok? ==> InEffect(View(), default) == loaded == InEffect(old(View()), default)
    {
      if target.Absent? {
        if backup.Absent? { return Ok(default); }
        if backup.Unreadable? { return Err(backup.code); }
        if !renames { return Err("CAPTURE_PREFERENCES_BACKUP_FAILED"); }
        loaded := Ok(backup.value);
        target := backup;
        backup := Absent;
        return;
      }
      if target.Readable? { return Ok(target.value); }
      if backup.Readable? { return Ok(backup.value); }
      loaded := Err(target.code);
    }
  }
}
