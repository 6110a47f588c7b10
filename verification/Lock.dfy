/**
 * The advisory file lock (src/lock.ts): acquire by link, steal by rename and confirm, release by read
 * and unlink. First one call on its own, then any number of attempts with their filesystem calls
 * interleaved in any order, crashing at any point.
 */
module Lock {
  import opened Prelude

  /** Of a lock record, what every comparison looks at. */
  datatype Info = Info(pid: nat, acquiredAt: int)

  /** Line 127. `alive` is the answer of the liveness probe for the holder's pid. */
  predicate Stale(holder: Option<Info>, now: int, staleMs: int, pid: nat, alive: bool) {
    holder.None? || now - holder.value.acquiredAt > staleMs || (holder.value.pid != pid && !alive)
  }

  // -----------------------------------------------------------------------
  // One call, undisturbed
  // -----------------------------------------------------------------------

  class LockFile {
    var record: Option<Info>

    constructor (record: Option<Info>)
      ensures this.record == record
    {
      this.record := record;
    }

    /** `acquireLock`, lines 114 to 131; None is the thrown LockHeldError. */
    method Acquire(info: Info, staleMs: int, later: int, alive: bool) returns (handle: Option<Handle>)
      modifies this
      ensures old(record).None? ==> handle.Some?
      ensures old(record).Some? && later - old(record).value.acquiredAt > staleMs ==> handle.Some?
      ensures old(record).Some? && later - old(record).value.acquiredAt <= staleMs ==>
                (handle.Some? <==> old(record).value.pid != info.pid && !alive)
      ensures record == if handle.Some? then Some(info) else old(record)
      ensures handle.Some? ==>
                fresh(handle.value) && handle.value.lock == this && handle.value.info == info && !handle.value.released
    {
      var linked := Link(info);
      if !linked {
        var holder := record;
        if !Stale(holder, later, staleMs, info.pid, alive) {
          return None;
        }
        var won := StealViaRename(info);
        if !won {
          return None;
        }
      }
      var h := new Handle(this, info);
      handle := Some(h);
    }

    /** `linkSync`: false is EEXIST. */
    method Link(info: Info) returns (linked: bool)
      modifies this
      ensures linked <==> old(record).None?
      ensures record == if linked then Some(info) else old(record)
    {
      linked := record.None?;
      if linked {
        record := Some(info);
      }
    }

    /** Rename the own record over the lock, then read back whose record is there: lines 97 to 112. */
    method StealViaRename(info: Info) returns (won: bool)
      modifies this
      ensures won && record == Some(info)
    {
      record := Some(info);
      var after := record;
      won := after == Some(info);
    }
  }

  class Handle {
    const lock: LockFile
    const info: Info
    var released: bool

    constructor (lock: LockFile, info: Info)
      ensures this.lock == lock && this.info == info && !released
    {
      this.lock, this.info, released := lock, info, false;
    }

    /** Lines 135 to 148: only its own record goes, and only once. */
    method Release()
      modifies this, lock
      ensures released
      ensures lock.record == if !old(released) && old(lock.record) == Some(info) then None else old(lock.record)
    {
      if released {
        return;
      }
      released := true;
      if lock.record == Some(info) {
        lock.record := None;
      }
    }
  }

  // -----------------------------------------------------------------------
  // Any number of attempts, step by step
  // -----------------------------------------------------------------------

  /**
   * Where an attempt stands. `steals` is what its judgement is going to be: a run is labelled with it in
   * advance, so that the window from the read to the confirmation is visible while it is open.
   */
  datatype Pc =
    | Start | Blocked | Judging(seen: Option<Info>, steals: bool) | Stealing | Confirming
    | Holding | Releasing | Finished | Refused | Crashed

  datatype State = State(file: Option<Info>, pcs: seq<Pc>)

  /** `ok` is false when a read fails or finds no record it can parse. */
  datatype Step =
    | Link(i: nat) | Read(i: nat, steals: bool, ok: bool) | Judge(i: nat, now: int, alive: bool)
    | Rename(i: nat) | Confirm(i: nat, ok: bool) | ReleaseRead(i: nat, ok: bool) | Unlink(i: nat)
    | Fail(i: nat) | Crash(i: nat)

  datatype World = World(infos: seq<Info>, staleMs: int) {
    /** No two attempts share a pid and a time. */
    predicate Distinct() {
      forall i, k :: 0 <= i < k < |infos| ==> infos[i] != infos[k]
    }
  }

  /** Any times do, as long as the pids differ. */
  lemma DifferentPidsAreDistinct(w: World)
    requires forall i, k :: 0 <= i < k < |w.infos| ==> w.infos[i].pid != w.infos[k].pid
    ensures w.Distinct() && World([Info(1, 0), Info(2, 0), Info(3, 0)], w.staleMs).Distinct()
  {}

  lemma InfosIdentify(w: World, i: nat, k: nat)
    requires w.Distinct() && i < |w.infos| && k < |w.infos|
    ensures w.infos[i] == w.infos[k] <==> i == k
  {
    assert i < k ==> w.infos[i] != w.infos[k];
    assert k < i ==> w.infos[k] != w.infos[i];
  }

  predicate Enabled(w: World, s: State, step: Step) {
    && |s.pcs| == |w.infos| && step.i < |s.pcs|
    && match step
       case Link(i) => s.pcs[i].Start?
       case Read(i, _, _) => s.pcs[i].Blocked?
       case Judge(i, now, alive) =>
         s.pcs[i].Judging? && s.pcs[i].steals == Stale(s.pcs[i].seen, now, w.staleMs, w.infos[i].pid, alive)
       case Rename(i) => s.pcs[i].Stealing?
       case Confirm(i, _) => s.pcs[i].Confirming?
       case ReleaseRead(i, _) => s.pcs[i].Holding?
       case Unlink(i) => s.pcs[i].Releasing?
       case Fail(i) => s.pcs[i].Start? || s.pcs[i].Stealing?
       case Crash(i) => !s.pcs[i].Finished? && !s.pcs[i].Refused? && !s.pcs[i].Crashed?
  }

  function Next(w: World, s: State, step: Step): State
    requires Enabled(w, s, step)
  {
    var mine := Some(w.infos[step.i]);
    match step
    case Link(i) => if s.file.None? then State(mine, s.pcs[i := Holding]) else State(s.file, s.pcs[i := Blocked])
    case Read(i, steals, ok) => State(s.file, s.pcs[i := Judging(if ok then s.file else None, steals)])
    case Judge(i, _, _) => State(s.file, s.pcs[i := if s.pcs[i].steals then Stealing else Refused])
    case Rename(i) => State(mine, s.pcs[i := Confirming])
    case Confirm(i, ok) => State(s.file, s.pcs[i := if ok && s.file == mine then Holding else Refused])
    case ReleaseRead(i, ok) => State(s.file, s.pcs[i := if ok && s.file == mine then Releasing else Finished])
    case Unlink(i) => State(None, s.pcs[i := Finished])
    case Fail(i) => State(s.file, s.pcs[i := Refused])
    case Crash(i) => State(s.file, s.pcs[i := Crashed])
  }

  predicate Runs(w: World, s: State, steps: seq<Step>)
    decreases |steps|
  {
    steps == [] || (Enabled(w, s, steps[0]) && Runs(w, Next(w, s, steps[0]), steps[1..]))
  }

  function After(w: World, s: State, steps: seq<Step>): (t: State)
    requires Runs(w, s, steps)
    ensures |t.pcs| == |s.pcs|
    decreases |steps|
  {
    if steps == [] then s else After(w, Next(w, s, steps[0]), steps[1..])
  }

  /** The lock file is absent, or was left by an attempt that crashed; nobody else has begun. */
  ghost predicate Initial(w: World, s: State) {
    && |s.pcs| == |w.infos|
    && (forall i :: 0 <= i < |s.pcs| ==> s.pcs[i].Start? || s.pcs[i].Crashed?)
    && (s.file.Some? ==> LeftBehind(w, s, s.file))
  }

  /** The record of an attempt that has crashed. */
  ghost predicate LeftBehind(w: World, s: State, record: Option<Info>)
    requires |s.pcs| == |w.infos|
  {
    exists j :: 0 <= j < |w.infos| && s.pcs[j].Crashed? && record == Some(w.infos[j])
  }

  /** Between the read that will lead to a steal, and its confirmation. */
  predicate InWindow(pc: Pc) {
    (pc.Judging? && pc.steals) || pc.Stealing? || pc.Confirming?
  }

  predicate OpensWindow(step: Step) {
    step.Read? && step.steals
  }

  /** A read that opens a steal window sees the record of a crashed attempt. */
  ghost predicate TargetsCrashed(w: World, s: State, step: Step)
    requires Enabled(w, s, step)
  {
    OpensWindow(step) ==> LeftBehind(w, s, if step.ok then s.file else None)
  }

  /** A steal window opens only while no other is open. */
  predicate OpensAlone(w: World, s: State, step: Step)
    requires Enabled(w, s, step)
  {
    OpensWindow(step) ==> forall k :: 0 <= k < |s.pcs| ==> !InWindow(s.pcs[k])
  }

  ghost predicate StealsOnlyFromCrashed(w: World, s: State, steps: seq<Step>)
    requires Runs(w, s, steps)
    decreases |steps|
  {
    steps == [] || (TargetsCrashed(w, s, steps[0]) && StealsOnlyFromCrashed(w, Next(w, s, steps[0]), steps[1..]))
  }

  ghost predicate WindowsApart(w: World, s: State, steps: seq<Step>)
    requires Runs(w, s, steps)
    decreases |steps|
  {
    steps == [] || (OpensAlone(w, s, steps[0]) && WindowsApart(w, Next(w, s, steps[0]), steps[1..]))
  }

  predicate Holds(pc: Pc) {
    pc.Holding? || pc.Releasing?
  }

  /** The file carries the record of whoever holds, or is about to be confirmed; windows exclude each other. */
  ghost predicate Orderly(w: World, s: State) {
    && |s.pcs| == |w.infos|
    && (forall i :: 0 <= i < |s.pcs| && (Holds(s.pcs[i]) || s.pcs[i].Confirming?) ==> s.file == Some(w.infos[i]))
    && (forall i :: 0 <= i < |s.pcs| && InWindow(s.pcs[i]) && !s.pcs[i].Confirming? ==> LeftBehind(w, s, s.file))
    && (forall i, k :: 0 <= i < |s.pcs| && 0 <= k < |s.pcs| && InWindow(s.pcs[i]) && InWindow(s.pcs[k]) ==> i == k)
  }

  /** A step that unlinks removes the record of the one who releases. */
  predicate RemovesOnlyItsOwn(w: World, s: State, step: Step)
    requires Enabled(w, s, step)
  {
    step.Unlink? ==> s.file == Some(w.infos[step.i])
  }

  lemma LeftBehindStays(w: World, s: State, t: State)
    requires |s.pcs| == |t.pcs| == |w.infos| && s.file == t.file && LeftBehind(w, s, s.file)
    requires forall j :: 0 <= j < |s.pcs| && s.pcs[j].Crashed? ==> t.pcs[j].Crashed?
    ensures LeftBehind(w, t, t.file)
  {
    var j :| 0 <= j < |w.infos| && s.pcs[j].Crashed? && s.file == Some(w.infos[j]);
    assert t.pcs[j].Crashed?;
  }

  /** A step that leaves the file alone and lets nobody new hold, be confirmed or open a window. */
  lemma QuietStepStaysOrderly(w: World, s: State, i: nat, pc: Pc)
    requires Orderly(w, s) && i < |s.pcs| && !s.pcs[i].Crashed?
    requires Holds(pc) || pc.Confirming? ==> s.file == Some(w.infos[i])
    requires InWindow(pc) ==> !pc.Confirming?
    requires InWindow(pc) ==> InWindow(s.pcs[i]) && !s.pcs[i].Confirming?
    ensures Orderly(w, State(s.file, s.pcs[i := pc]))
  {
    var t := State(s.file, s.pcs[i := pc]);
    if LeftBehind(w, s, s.file) {
      LeftBehindStays(w, s, t);
    }
  }

  lemma OpeningStaysOrderly(w: World, s: State, i: nat, pc: Pc)
    requires Orderly(w, s) && i < |s.pcs| && !s.pcs[i].Crashed? && InWindow(pc) && !pc.Confirming?
    requires LeftBehind(w, s, s.file) && forall k :: 0 <= k < |s.pcs| ==> !InWindow(s.pcs[k])
    ensures Orderly(w, State(s.file, s.pcs[i := pc]))
  {
    LeftBehindStays(w, s, State(s.file, s.pcs[i := pc]));
  }

  /** Nobody holds or is about to be confirmed while the file is empty or left behind. */
  lemma NobodyHolds(w: World, s: State, k: nat)
    requires w.Distinct() && Orderly(w, s) && k < |s.pcs|
    requires s.file.None? || LeftBehind(w, s, s.file)
    ensures !Holds(s.pcs[k]) && !s.pcs[k].Confirming?
  {
    if s.file.Some? {
      var j :| 0 <= j < |w.infos| && s.pcs[j].Crashed? && s.file == Some(w.infos[j]);
      InfosIdentify(w, j, k);
    }
  }

  lemma TakingStaysOrderly(w: World, s: State, i: nat, pc: Pc)
    requires w.Distinct() && Orderly(w, s) && i < |s.pcs| && (pc.Holding? || (pc.Confirming? && s.pcs[i].Stealing?))
    requires s.file.None? || LeftBehind(w, s, s.file)
    requires forall k :: 0 <= k < |s.pcs| && InWindow(s.pcs[k]) ==> k == i && pc.Confirming?
    ensures Orderly(w, State(Some(w.infos[i]), s.pcs[i := pc]))
  {
    forall k | 0 <= k < |s.pcs|
      ensures !Holds(s.pcs[k]) && !s.pcs[k].Confirming?
    {
      NobodyHolds(w, s, k);
    }
  }

  lemma UnlinkingStaysOrderly(w: World, s: State, i: nat)
    requires w.Distinct() && Orderly(w, s) && i < |s.pcs| && s.pcs[i].Releasing?
    ensures s.file == Some(w.infos[i]) && Orderly(w, State(None, s.pcs[i := Finished]))
  {
    if LeftBehind(w, s, s.file) {
      NobodyHolds(w, s, i);
    }
    forall k | 0 <= k < |s.pcs| && k != i
      ensures !Holds(s.pcs[k]) && !InWindow(s.pcs[k])
    {
      InfosIdentify(w, i, k);
    }
  }

  lemma StepStaysOrderly(w: World, s: State, step: Step)
    requires w.Distinct() && Orderly(w, s) && Enabled(w, s, step) && TargetsCrashed(w, s, step)
             && OpensAlone(w, s, step)
    ensures Orderly(w, Next(w, s, step)) && RemovesOnlyItsOwn(w, s, step)
  {
    var i, t := step.i, Next(w, s, step);
    match step {
      case Link(_) =>
        if s.file.None? {
          LinkFindsNoWindow(w, s);
          TakingStaysOrderly(w, s, i, Holding);
        } else {
          QuietStepStaysOrderly(w, s, i, Blocked);
        }
      case Read(_, steals, ok) =>
        if steals {
          SeenLeftBehind(w, s, ok);
          OpeningStaysOrderly(w, s, i, t.pcs[i]);
        } else {
          QuietStepStaysOrderly(w, s, i, t.pcs[i]);
        }
      case Rename(_) => TakingStaysOrderly(w, s, i, Confirming);
      case Unlink(_) => UnlinkingStaysOrderly(w, s, i);
      case _ => QuietStepStaysOrderly(w, s, i, t.pcs[i]);
    }
  }

  lemma LinkFindsNoWindow(w: World, s: State)
    requires Orderly(w, s) && s.file.None?
    ensures forall k :: 0 <= k < |s.pcs| ==> !InWindow(s.pcs[k])
  {}

  lemma SeenLeftBehind(w: World, s: State, ok: bool)
    requires |s.pcs| == |w.infos| && LeftBehind(w, s, if ok then s.file else None)
    ensures LeftBehind(w, s, s.file)
  {}

  // -----------------------------------------------------------------------
  // Exactly when the lock is kept
  // -----------------------------------------------------------------------

  /** Whoever holds has its own record in the file. */
  ghost predicate RecordsKept(w: World, s: State)
    requires |s.pcs| == |w.infos|
  {
    forall i :: 0 <= i < |s.pcs| && Holds(s.pcs[i]) ==> s.file == Some(w.infos[i])
  }

  ghost predicate SomebodyHolds(s: State) {
    exists k :: 0 <= k < |s.pcs| && Holds(s.pcs[k])
  }

  /** The rename of line 101 lands on a held lock. */
  ghost predicate RenamesHeld(s: State, step: Step) {
    step.Rename? && SomebodyHolds(s)
  }

  ghost predicate AlwaysKept(w: World, s: State, steps: seq<Step>)
    requires Runs(w, s, steps) && |s.pcs| == |w.infos|
    decreases |steps|
  {
    RecordsKept(w, s) && (steps == [] || AlwaysKept(w, Next(w, s, steps[0]), steps[1..]))
  }

  ghost predicate NeverRenamesHeld(w: World, s: State, steps: seq<Step>)
    requires Runs(w, s, steps)
    decreases |steps|
  {
    steps == [] || (!RenamesHeld(s, steps[0]) && NeverRenamesHeld(w, Next(w, s, steps[0]), steps[1..]))
  }

  lemma KeptMeansOneHolder(w: World, s: State, i: nat, k: nat)
    requires w.Distinct() && |s.pcs| == |w.infos| && RecordsKept(w, s) && i < |s.pcs| && k < |s.pcs|
    requires Holds(s.pcs[i]) && Holds(s.pcs[k])
    ensures i == k
  {
    InfosIdentify(w, i, k);
  }

  /** One step loses a holder's record exactly when it is a rename onto a held lock. */
  lemma StepKeepsRecords(w: World, s: State, step: Step)
    requires w.Distinct() && Enabled(w, s, step) && RecordsKept(w, s)
    ensures RecordsKept(w, Next(w, s, step)) <==> !RenamesHeld(s, step)
    ensures RemovesOnlyItsOwn(w, s, step)
  {
    var i, t := step.i, Next(w, s, step);
    if RenamesHeld(s, step) {
      var k :| 0 <= k < |s.pcs| && Holds(s.pcs[k]);
      assert Holds(t.pcs[k]) && t.file == Some(w.infos[i]);
      InfosIdentify(w, i, k);
    } else {
      forall k | 0 <= k < |t.pcs| && Holds(t.pcs[k])
        ensures t.file == Some(w.infos[k])
      {
        if k != i {
          assert Holds(s.pcs[k]);
          if step.Unlink? {
            KeptMeansOneHolder(w, s, i, k);
          }
        }
      }
    }
  }

  /** For every run of every attempt: no holder ever loses its record if and only if no rename lands on a held lock. */
  lemma {:induction false} KeptIffNoHeldRenamed(w: World, s: State, steps: seq<Step>)
    requires w.Distinct() && |s.pcs| == |w.infos| && RecordsKept(w, s) && Runs(w, s, steps)
    ensures AlwaysKept(w, s, steps) <==> NeverRenamesHeld(w, s, steps)
    decreases |steps|
  {
    if steps != [] {
      var t := Next(w, s, steps[0]);
      StepKeepsRecords(w, s, steps[0]);
      if RecordsKept(w, t) {
        KeptIffNoHeldRenamed(w, t, steps[1..]);
      }
    }
  }

  lemma {:induction false} KeptAtEnd(w: World, s: State, steps: seq<Step>)
    requires |s.pcs| == |w.infos| && Runs(w, s, steps) && AlwaysKept(w, s, steps)
    ensures RecordsKept(w, After(w, s, steps))
    decreases |steps|
  {
    if steps != [] {
      KeptAtEnd(w, Next(w, s, steps[0]), steps[1..]);
    }
  }

  /** At most one attempt holds. */
  ghost predicate Exclusive(s: State) {
    forall i, k :: 0 <= i < |s.pcs| && 0 <= k < |s.pcs| && Holds(s.pcs[i]) && Holds(s.pcs[k]) ==> i == k
  }

  /** The confirmation of lines 110 to 111 succeeds while somebody holds. */
  ghost predicate ConfirmsOverHeld(w: World, s: State, step: Step)
    requires Enabled(w, s, step)
  {
    step.Confirm? && step.ok && s.file == Some(w.infos[step.i]) && SomebodyHolds(s)
  }

  ghost predicate AlwaysExclusive(w: World, s: State, steps: seq<Step>)
    requires Runs(w, s, steps)
    decreases |steps|
  {
    Exclusive(s) && (steps == [] || AlwaysExclusive(w, Next(w, s, steps[0]), steps[1..]))
  }

  ghost predicate NeverConfirmsOverHeld(w: World, s: State, steps: seq<Step>)
    requires Runs(w, s, steps)
    decreases |steps|
  {
    steps == [] || (!ConfirmsOverHeld(w, s, steps[0]) && NeverConfirmsOverHeld(w, Next(w, s, steps[0]), steps[1..]))
  }

  lemma StepStaysExclusive(w: World, s: State, step: Step)
    requires Enabled(w, s, step) && Exclusive(s) && (s.file.None? ==> !SomebodyHolds(s))
    ensures var t := Next(w, s, step);
            && (Exclusive(t) <==> !ConfirmsOverHeld(w, s, step))
            && (Exclusive(t) && t.file.None? ==> !SomebodyHolds(t))
  {
    var i, t := step.i, Next(w, s, step);
    if ConfirmsOverHeld(w, s, step) {
      var k :| 0 <= k < |s.pcs| && Holds(s.pcs[k]);
      assert Holds(t.pcs[i]) && Holds(t.pcs[k]) && i != k;
    } else {
      forall k | 0 <= k < |t.pcs| && k != i && Holds(t.pcs[k])
        ensures Holds(s.pcs[k]) && !Holds(t.pcs[i]) && !step.Unlink?
      {
        assert Holds(s.pcs[k]);
      }
    }
  }

  /** For every run: two attempts never hold at once if and only if no confirmation succeeds while somebody holds. */
  lemma {:induction false} ExclusiveIffNoneConfirmedOverHeld(w: World, s: State, steps: seq<Step>)
    requires Runs(w, s, steps) && Exclusive(s) && (s.file.None? ==> !SomebodyHolds(s))
    ensures AlwaysExclusive(w, s, steps) <==> NeverConfirmsOverHeld(w, s, steps)
    decreases |steps|
  {
    if steps != [] {
      var t := Next(w, s, steps[0]);
      StepStaysExclusive(w, s, steps[0]);
      if Exclusive(t) {
        ExclusiveIffNoneConfirmedOverHeld(w, t, steps[1..]);
      }
    }
  }

  /** Steals of crashed attempts, one window at a time, rename nothing that is held. */
  lemma {:induction false} ApartStealsRenameNothingHeld(w: World, s: State, steps: seq<Step>)
    requires w.Distinct() && Orderly(w, s) && Runs(w, s, steps)
    requires StealsOnlyFromCrashed(w, s, steps) && WindowsApart(w, s, steps)
    ensures NeverRenamesHeld(w, s, steps)
    decreases |steps|
  {
    if steps != [] {
      if RenamesHeld(s, steps[0]) {
        var k :| 0 <= k < |s.pcs| && Holds(s.pcs[k]);
        NobodyHolds(w, s, k);
        assert false;
      }
      StepStaysOrderly(w, s, steps[0]);
      ApartStealsRenameNothingHeld(w, Next(w, s, steps[0]), steps[1..]);
    }
  }

  lemma HeldAtEnd(w: World, s: State, steps: seq<Step>, i: nat, k: nat, next: Step)
    requires w.Distinct() && |s.pcs| == |w.infos| && RecordsKept(w, s) && Runs(w, s, steps)
    requires NeverRenamesHeld(w, s, steps) && i < |s.pcs| && k < |s.pcs| && Holds(After(w, s, steps).pcs[i])
    ensures After(w, s, steps).file == Some(w.infos[i])
    ensures Holds(After(w, s, steps).pcs[k]) ==> i == k
    ensures Enabled(w, After(w, s, steps), next) ==> RemovesOnlyItsOwn(w, After(w, s, steps), next)
  {
    var t := After(w, s, steps);
    KeptIffNoHeldRenamed(w, s, steps);
    KeptAtEnd(w, s, steps);
    if Holds(t.pcs[k]) {
      KeptMeansOneHolder(w, t, i, k);
    }
    if Enabled(w, t, next) {
      StepKeepsRecords(w, t, next);
    }
  }

  /** At most one holder, its record in the file, and whatever is unlinked next is the releaser's own. */
  lemma MutualExclusion(w: World, s: State, steps: seq<Step>, i: nat, k: nat, next: Step)
    requires w.Distinct() && Initial(w, s) && Runs(w, s, steps)
    requires StealsOnlyFromCrashed(w, s, steps) && WindowsApart(w, s, steps)
    requires i < |s.pcs| && k < |s.pcs|
    requires Holds(After(w, s, steps).pcs[i])
    ensures After(w, s, steps).file == Some(w.infos[i])
    ensures Holds(After(w, s, steps).pcs[k]) ==> i == k
    ensures Enabled(w, After(w, s, steps), next) ==> RemovesOnlyItsOwn(w, After(w, s, steps), next)
  {
    ApartStealsRenameNothingHeld(w, s, steps);
    HeldAtEnd(w, s, steps, i, k, next);
  }

  // -----------------------------------------------------------------------
  // What the liveness probe is worth
  // -----------------------------------------------------------------------

  /**
   * The record of an attempt that has not crashed is judged young, and its pid alive, unless it is the
   * judge's own.
   */
  predicate HonestProbe(w: World, s: State, step: Step)
    requires Enabled(w, s, step)
  {
    step.Judge? ==>
      forall j :: 0 <= j < |w.infos| && !s.pcs[j].Crashed? && s.pcs[step.i].seen == Some(w.infos[j]) ==>
        && step.now - w.infos[j].acquiredAt <= w.staleMs
        && (step.alive || w.infos[j].pid == w.infos[step.i].pid)
  }

  /** A read that opens a steal window finds a record. */
  predicate FindsRecord(w: World, s: State, step: Step)
    requires Enabled(w, s, step)
  {
    OpensWindow(step) ==> step.ok && s.file.Some?
  }

  ghost predicate HonestlyProbed(w: World, s: State, steps: seq<Step>)
    requires Runs(w, s, steps)
    decreases |steps|
  {
    steps == [] ||
    (HonestProbe(w, s, steps[0]) && FindsRecord(w, s, steps[0])
     && HonestlyProbed(w, Next(w, s, steps[0]), steps[1..]))
  }

  /** What is judged stale is the record of a crashed attempt, or no record of an attempt at all. */
  lemma StaleMeansCrashed(w: World, s: State, step: Step, j: nat)
    requires Enabled(w, s, step) && HonestProbe(w, s, step) && step.Judge? && j < |w.infos|
    requires s.pcs[step.i].seen == Some(w.infos[j]) && Next(w, s, step).pcs[step.i].Stealing?
    ensures s.pcs[j].Crashed?
  {}

  /** An attempt whose record may be in the file, or may have been. */
  predicate Begun(pc: Pc) {
    pc.Confirming? || pc.Holding? || pc.Releasing? || pc.Finished? || pc.Refused? || pc.Crashed?
  }

  /** A steal in sight is of a record that is still in the file if its owner has crashed since. */
  ghost predicate SeenFrom(w: World, s: State, seen: Option<Info>, j: nat)
    requires |s.pcs| == |w.infos|
  {
    && j < |w.infos| && seen == Some(w.infos[j]) && Begun(s.pcs[j]) && !s.pcs[j].Confirming?
    && (s.pcs[j].Crashed? ==> s.file == seen)
  }

  ghost predicate SeenFromSomeone(w: World, s: State, seen: Option<Info>)
    requires |s.pcs| == |w.infos|
  {
    exists j: nat :: SeenFrom(w, s, seen, j)
  }

  ghost predicate OwnRecords(w: World, s: State) {
    && |s.pcs| == |w.infos|
    && (forall i :: 0 <= i < |s.pcs| && (Holds(s.pcs[i]) || s.pcs[i].Confirming?) ==> s.file == Some(w.infos[i]))
    && (s.file.Some? ==> exists j :: 0 <= j < |w.infos| && s.file == Some(w.infos[j]) && Begun(s.pcs[j]))
  }

  ghost predicate Windows(w: World, s: State)
    requires |s.pcs| == |w.infos|
  {
    && (forall i :: 0 <= i < |s.pcs| && s.pcs[i].Stealing? ==> LeftBehind(w, s, s.file))
    && (forall i :: 0 <= i < |s.pcs| && s.pcs[i].Judging? && s.pcs[i].steals ==>
          SeenFromSomeone(w, s, s.pcs[i].seen))
    && (forall i, k :: 0 <= i < |s.pcs| && 0 <= k < |s.pcs| && InWindow(s.pcs[i]) && InWindow(s.pcs[k]) ==> i == k)
  }

  /** What the probe keeps in place of `Orderly`: here a window may open on a record whose owner is alive. */
  ghost predicate Watched(w: World, s: State) {
    OwnRecords(w, s) && Windows(w, s)
  }

  lemma HolderIsNotLeftBehind(w: World, s: State, k: nat)
    requires w.Distinct() && OwnRecords(w, s) && k < |s.pcs| && (Holds(s.pcs[k]) || s.pcs[k].Confirming?)
    ensures !LeftBehind(w, s, s.file)
  {
    forall j | 0 <= j < |w.infos| && s.pcs[j].Crashed?
      ensures s.file != Some(w.infos[j])
    {
      InfosIdentify(w, j, k);
    }
  }

  lemma OwnRecordsStay(w: World, s: State, step: Step)
    requires w.Distinct() && Watched(w, s) && Enabled(w, s, step)
    ensures OwnRecords(w, Next(w, s, step))
  {
    var i, t := step.i, Next(w, s, step);
    forall k | 0 <= k < |t.pcs| && (Holds(t.pcs[k]) || t.pcs[k].Confirming?)
      ensures t.file == Some(w.infos[k])
    {
      InfosIdentify(w, i, k);
      if k != i {
        HolderIsNotLeftBehind(w, s, k);
      }
    }
    if t.file.Some? {
      var j :| 0 <= j < |w.infos| && t.file == Some(w.infos[j]) && (j == i || (t.file == s.file && Begun(s.pcs[j])));
      assert Begun(t.pcs[j]) || t.file == s.file;
    }
  }

  /** What a judge has seen stays as it was described, whatever another attempt does. */
  lemma SeenStays(w: World, s: State, step: Step, k: nat)
    requires w.Distinct() && Watched(w, s) && Enabled(w, s, step) && k < |s.pcs| && k != step.i
    requires s.pcs[k].Judging? && s.pcs[k].steals
    ensures SeenFromSomeone(w, Next(w, s, step), s.pcs[k].seen)
  {
    var i, t := step.i, Next(w, s, step);
    var j: nat :| SeenFrom(w, s, s.pcs[k].seen, j);
    InfosIdentify(w, i, j);
    assert InWindow(s.pcs[k]) && !InWindow(s.pcs[i]);
    assert SeenFrom(w, t, s.pcs[k].seen, j);
  }

  lemma StealingStays(w: World, s: State, step: Step, k: nat)
    requires w.Distinct() && Watched(w, s) && Enabled(w, s, step) && k < |s.pcs| && k != step.i
    requires s.pcs[k].Stealing?
    ensures LeftBehind(w, Next(w, s, step), Next(w, s, step).file)
  {
    var i, t := step.i, Next(w, s, step);
    var j :| 0 <= j < |w.infos| && s.pcs[j].Crashed? && s.file == Some(w.infos[j]);
    InfosIdentify(w, i, j);
    assert InWindow(s.pcs[k]) && !InWindow(s.pcs[i]);
    assert t.pcs[j].Crashed? && t.file == Some(w.infos[j]);
  }

  /** The attempt that steps. */
  lemma OwnWindow(w: World, s: State, step: Step)
    requires w.Distinct() && Watched(w, s) && Enabled(w, s, step)
    requires HonestProbe(w, s, step) && FindsRecord(w, s, step) && OpensAlone(w, s, step)
    ensures var t := Next(w, s, step); var pc := t.pcs[step.i];
      && (pc.Stealing? ==> LeftBehind(w, t, t.file))
      && (pc.Judging? && pc.steals ==> SeenFromSomeone(w, t, pc.seen))
  {
    var i, t := step.i, Next(w, s, step);
    if step.Judge? && t.pcs[i].Stealing? {
      var j: nat :| SeenFrom(w, s, s.pcs[i].seen, j);
      StaleMeansCrashed(w, s, step, j);
      assert t.pcs[j].Crashed?;
    }
    if step.Read? && step.steals {
      var j: nat :| j < |w.infos| && s.file == Some(w.infos[j]) && Begun(s.pcs[j]);
      assert SeenFrom(w, t, t.pcs[i].seen, j);
    }
  }

  lemma WindowsStayApart(w: World, s: State, step: Step)
    requires Watched(w, s) && Enabled(w, s, step) && OpensAlone(w, s, step)
    ensures var t := Next(w, s, step);
      forall i, k :: 0 <= i < |t.pcs| && 0 <= k < |t.pcs| && InWindow(t.pcs[i]) && InWindow(t.pcs[k]) ==> i == k
  {
    var t := Next(w, s, step);
    if InWindow(t.pcs[step.i]) && !InWindow(s.pcs[step.i]) {
      assert OpensWindow(step);
    }
    forall k | 0 <= k < |t.pcs| && InWindow(t.pcs[k]) && k != step.i
      ensures InWindow(s.pcs[k])
    {}
  }

  lemma WindowsStay(w: World, s: State, step: Step)
    requires w.Distinct() && Watched(w, s) && Enabled(w, s, step) && OpensAlone(w, s, step)
    requires HonestProbe(w, s, step) && FindsRecord(w, s, step)
    ensures Windows(w, Next(w, s, step))
  {
    var t := Next(w, s, step);
    OwnWindow(w, s, step);
    WindowsStayApart(w, s, step);
    forall k | 0 <= k < |t.pcs| && k != step.i
      ensures t.pcs[k].Stealing? ==> LeftBehind(w, t, t.file)
      ensures t.pcs[k].Judging? && t.pcs[k].steals ==> SeenFromSomeone(w, t, t.pcs[k].seen)
    {
      if s.pcs[k].Stealing? {
        StealingStays(w, s, step, k);
      } else if s.pcs[k].Judging? && s.pcs[k].steals {
        SeenStays(w, s, step, k);
      }
    }
  }

  lemma {:induction false} ProbedStealsRenameNothingHeld(w: World, s: State, steps: seq<Step>)
    requires w.Distinct() && Watched(w, s) && Runs(w, s, steps)
    requires HonestlyProbed(w, s, steps) && WindowsApart(w, s, steps)
    ensures NeverRenamesHeld(w, s, steps)
    decreases |steps|
  {
    if steps != [] {
      if RenamesHeld(s, steps[0]) {
        var k :| 0 <= k < |s.pcs| && Holds(s.pcs[k]);
        HolderIsNotLeftBehind(w, s, k);
      }
      OwnRecordsStay(w, s, steps[0]);
      WindowsStay(w, s, steps[0]);
      ProbedStealsRenameNothingHeld(w, Next(w, s, steps[0]), steps[1..]);
    }
  }

  /**
   * Mutual exclusion from the probe: if no uncrashed attempt's record is ever judged dead or old, every steal
   * found a record when it read, and steal windows do not overlap, then as above.
   */
  lemma ProbeMutualExclusion(w: World, s: State, steps: seq<Step>, i: nat, k: nat, next: Step)
    requires w.Distinct() && Initial(w, s) && Runs(w, s, steps)
    requires HonestlyProbed(w, s, steps) && WindowsApart(w, s, steps)
    requires i < |s.pcs| && k < |s.pcs|
    requires Holds(After(w, s, steps).pcs[i])
    ensures After(w, s, steps).file == Some(w.infos[i])
    ensures Holds(After(w, s, steps).pcs[k]) ==> i == k
    ensures Enabled(w, After(w, s, steps), next) ==> RemovesOnlyItsOwn(w, After(w, s, steps), next)
  {
    ProbedStealsRenameNothingHeld(w, s, steps);
    HeldAtEnd(w, s, steps, i, k, next);
  }

  // -----------------------------------------------------------------------
  // What happens without the two conditions
  // -----------------------------------------------------------------------

  /** The later rename always wins; the earlier one wins as well just when it was confirmed before the later. */
  lemma StealersRace(w: World, s: State, i: nat, k: nat, order: seq<Step>)
    requires w.Distinct() && |s.pcs| == |w.infos| && i < |s.pcs| && k < |s.pcs| && i != k
    requires s.pcs[i].Stealing? && s.pcs[k].Stealing?
    requires || order == [Rename(i), Confirm(i, true), Rename(k), Confirm(k, true)]
             || order == [Rename(i), Rename(k), Confirm(i, true), Confirm(k, true)]
             || order == [Rename(i), Rename(k), Confirm(k, true), Confirm(i, true)]
    ensures Runs(w, s, order)
    ensures Holds(After(w, s, order).pcs[k])
    ensures Holds(After(w, s, order).pcs[i]) <==> order[1].Confirm?
  {
    InfosIdentify(w, i, k);
    var a, u := Then(w, s, [], s, order[0]);
    var b, v := Then(w, s, a, u, order[1]);
    var c, x := Then(w, s, b, v, order[2]);
    var d, y := Then(w, s, c, x, order[3]);
    assert d == order;
  }

  lemma Then(w: World, s: State, steps: seq<Step>, t: State, step: Step) returns (more: seq<Step>, u: State)
    requires Runs(w, s, steps) && After(w, s, steps) == t && Enabled(w, t, step)
    ensures more == steps + [step] && u == Next(w, t, step)
    ensures Runs(w, s, more) && After(w, s, more) == u
    ensures StealsOnlyFromCrashed(w, s, more) <==> StealsOnlyFromCrashed(w, s, steps) && TargetsCrashed(w, t, step)
    ensures WindowsApart(w, s, more) <==> WindowsApart(w, s, steps) && OpensAlone(w, t, step)
    decreases |steps|
  {
    more, u := steps + [step], Next(w, t, step);
    if steps != [] {
      var rest, _ := Then(w, Next(w, s, steps[0]), steps[1..], t, step);
      assert more[1..] == rest;
    } else {
      assert more[1..] == [];
    }
  }

  /** Two attempts that both read the crashed holder's record can both end up holding. */
  lemma DoubleHoldFromOverlappingSteals(w: World) returns (s: State, steps: seq<Step>)
    requires w.Distinct() && |w.infos| == 3
    ensures Initial(w, s) && Runs(w, s, steps) && StealsOnlyFromCrashed(w, s, steps)
    ensures Holds(After(w, s, steps).pcs[1]) && Holds(After(w, s, steps).pcs[2])
  {
    s := State(Some(w.infos[0]), [Crashed, Start, Start]);
    assert s.pcs[0].Crashed?;
    var now := w.infos[0].acquiredAt + w.staleMs + 1;
    var t := s;
    steps := [];
    steps, t := Then(w, s, steps, t, Link(1));
    steps, t := Then(w, s, steps, t, Link(2));
    assert t.pcs[0].Crashed?;
    steps, t := Then(w, s, steps, t, Read(1, true, true));
    assert t.pcs[0].Crashed?;
    steps, t := Then(w, s, steps, t, Read(2, true, true));
    steps, t := Then(w, s, steps, t, Judge(1, now, false));
    steps, t := Then(w, s, steps, t, Judge(2, now, false));
    steps, t := Then(w, s, steps, t, Rename(1));
    steps, t := Then(w, s, steps, t, Confirm(1, true));
    steps, t := Then(w, s, steps, t, Rename(2));
    steps, t := Then(w, s, steps, t, Confirm(2, true));
  }

  /** Once the first has released, the second steals what it judged stale before, over the third's new lock. */
  lemma StealAfterRelease(w: World, s: State, steps: seq<Step>, t: State, now: int, alive: bool)
    returns (more: seq<Step>)
    requires w.Distinct() && |w.infos| == |t.pcs| == 3 && t.file.None?
    requires t.pcs[0].Finished? && t.pcs[1].Judging? && t.pcs[1].steals && t.pcs[2].Start?
    requires Stale(t.pcs[1].seen, now, w.staleMs, w.infos[1].pid, alive)
    requires Runs(w, s, steps) && After(w, s, steps) == t
    ensures more == steps + [Judge(1, now, alive), Link(2), Rename(1), Confirm(1, true)]
    ensures Runs(w, s, more) && (WindowsApart(w, s, steps) ==> WindowsApart(w, s, more))
    ensures After(w, s, more).pcs[0].Finished?
    ensures Holds(After(w, s, more).pcs[1]) && Holds(After(w, s, more).pcs[2])
  {
    var u;
    more, u := Then(w, s, steps, t, Judge(1, now, alive));
    more, u := Then(w, s, more, u, Link(2));
    more, u := Then(w, s, more, u, Rename(1));
    more, u := Then(w, s, more, u, Confirm(1, true));
  }

  /** A single steal is enough when the record is gone at the read: an absent record counts as stale. */
  lemma DoubleHoldFromVanishedRecord(w: World) returns (s: State, steps: seq<Step>)
    requires w.Distinct() && |w.infos| == 3
    ensures Initial(w, s) && Runs(w, s, steps) && WindowsApart(w, s, steps)
    ensures Holds(After(w, s, steps).pcs[1]) && Holds(After(w, s, steps).pcs[2])
  {
    s := State(None, [Start, Start, Start]);
    var t := s;
    steps := [];
    steps, t := Then(w, s, steps, t, Link(0));
    steps, t := Then(w, s, steps, t, Link(1));
    steps, t := Then(w, s, steps, t, ReleaseRead(0, true));
    steps, t := Then(w, s, steps, t, Unlink(0));
    steps, t := Then(w, s, steps, t, Read(1, true, true));
    steps := StealAfterRelease(w, s, steps, t, 0, true);
  }

  /** Nor is it enough that the holder is gone when its pid is probed: it may have released since the read. */
  lemma DoubleHoldFromLateProbe(w: World) returns (s: State, steps: seq<Step>)
    requires w.Distinct() && |w.infos| == 3 && w.infos[0].pid != w.infos[1].pid
    ensures Initial(w, s) && Runs(w, s, steps) && WindowsApart(w, s, steps)
    ensures forall n :: 0 <= n < |steps| && steps[n].Judge? ==> steps[n].now == w.infos[0].acquiredAt && !steps[n].alive
    ensures After(w, s, steps).pcs[0].Finished?
    ensures Holds(After(w, s, steps).pcs[1]) && Holds(After(w, s, steps).pcs[2])
  {
    s := State(None, [Start, Start, Start]);
    var t := s;
    steps := [];
    steps, t := Then(w, s, steps, t, Link(0));
    steps, t := Then(w, s, steps, t, Link(1));
    steps, t := Then(w, s, steps, t, Read(1, true, true));
    steps, t := Then(w, s, steps, t, ReleaseRead(0, true));
    steps, t := Then(w, s, steps, t, Unlink(0));
    assert forall step :: step in steps ==> !step.Judge?;
    steps := StealAfterRelease(w, s, steps, t, w.infos[0].acquiredAt, false);
  }

  /** And a holder that is alive loses its exclusion once its record is older than the limit. */
  lemma DoubleHoldFromAge(w: World) returns (s: State, steps: seq<Step>)
    requires w.Distinct() && |w.infos| == 2
    ensures Initial(w, s) && Runs(w, s, steps) && WindowsApart(w, s, steps)
    ensures forall n :: 0 <= n < |steps| && steps[n].Judge? ==>
              steps[n].now == w.infos[0].acquiredAt + w.staleMs + 1 && steps[n].alive
    ensures Holds(After(w, s, steps).pcs[0]) && Holds(After(w, s, steps).pcs[1])
  {
    s := State(None, [Start, Start]);
    var t := s;
    steps := [];
    steps, t := Then(w, s, steps, t, Link(0));
    steps, t := Then(w, s, steps, t, Link(1));
    steps, t := Then(w, s, steps, t, Read(1, true, true));
    steps, t := Then(w, s, steps, t, Judge(1, w.infos[0].acquiredAt + w.staleMs + 1, true));
    steps, t := Then(w, s, steps, t, Rename(1));
    steps, t := Then(w, s, steps, t, Confirm(1, true));
  }
}
