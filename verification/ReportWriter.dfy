/**
 * The crash-recoverable replacement of the three plan-report files
 * (src/io/plan-report-writer-v02.ts).
 *
 * The run directory is a mutable map from names to entries. Every filesystem call that changes it
 * takes a fault: the call may fail or the process may die before it, after it, or, while a temp is
 * being written, in the middle of it, leaving any bytes at all.
 */
module ReportWriter {
  import opened Prelude

  /** A free constructor: digests are equal exactly when the contents are. */
  datatype Hash = Sha256(of: Content)
  datatype Content = Bytes(data: seq<Byte>) | LockText(lock: Lock)
  datatype Entry = File(content: Content) | Folder | Special
  type Files = map<string, Entry>

  datatype Source = Source(
    runId: string, planHash: string, manifestHash: string, loopHash: string,
    rendererId: string, rendererHash: string)

  datatype Lock = Lock(
    pid: nat, startIdentity: string, source: Source, before: Option<seq<Hash>>,
    generation: string, target: seq<Hash>, temps: seq<string>)

  datatype Request = Request(
    source: Source, generation: string, declared: seq<Hash>, bytes: seq<Content>)

  // -----------------------------------------------------------------------
  // Names
  // -----------------------------------------------------------------------

  /** The fixed names: the reserved prefix, the lock, the three reports in publication order. */
  datatype Layout = Layout(prefix: string, lock: string, reports: seq<string>)

  const LAYOUT := Layout("plan-report", "plan-report.lock",
                         ["plan-report.md", "plan-report.html", "plan-report-input.json"])

  /** The seven names the protocol uses, and the prefix that reserves them. */
  datatype Names = Names(prefix: string, lock: string, reports: seq<string>, temps: seq<string>)

  function NamesFor(l: Layout, temps: seq<string>): Names {
    Names(l.prefix, l.lock, l.reports, temps)
  }

  predicate Owns(n: Names, name: string) {
    name == n.lock || name in n.reports || name in n.temps
  }

  ghost predicate Apart(n: Names) {
    && |n.reports| == 3 && |n.temps| == 3
    && (forall i, j :: 0 <= i < j < 3 ==> n.reports[i] != n.reports[j] && n.temps[i] != n.temps[j])
    && (forall i, j :: 0 <= i < 3 && 0 <= j < 3 ==> n.reports[i] != n.temps[j])
    && n.lock !in n.reports && n.lock !in n.temps
  }

  predicate IsHexDigit(c: char) {
    '0' <= c <= '9' || 'a' <= c <= 'f'
  }

  /** Sixteen random bytes in hex. */
  type Entropy = s: string | |s| == 32 && forall c :: c in s ==> IsHexDigit(c)
    witness "00000000000000000000000000000000"

  /** What the lock parser demands of a temp name: its report name, 32 hex digits, `.tmp`. */
  predicate IsTempName(report: string, name: string) {
    && |name| == |report| + 37
    && name[..|report| + 1] == report + "."
    && (forall c :: c in name[|report| + 1..|report| + 33] ==> IsHexDigit(c))
    && name[|report| + 33..] == ".tmp"
  }

  predicate TempNamesParse(l: Layout, temps: seq<string>) {
    |l.reports| == |temps| == 3 && forall i :: 0 <= i < 3 ==> IsTempName(l.reports[i], temps[i])
  }

  function TempNames(l: Layout, entropy: Entropy): seq<string>
    requires |l.reports| == 3
  {
    seq(3, i requires 0 <= i < 3 => l.reports[i] + "." + entropy + ".tmp")
  }

  /** What makes the protocol's names safe: whatever the temps, all seven differ and are reserved. */
  ghost predicate Proper(l: Layout) {
    && |l.reports| == 3
    && (forall temps :: TempNamesParse(l, temps) ==>
          Apart(NamesFor(l, temps)) && forall name :: Owns(NamesFor(l, temps), name) ==> l.prefix <= name)
    && forall entropy: Entropy :: TempNamesParse(l, TempNames(l, entropy))
  }

  lemma FreshTempName(report: string, entropy: Entropy)
    ensures IsTempName(report, report + "." + entropy + ".tmp")
  {
    var name := report + "." + entropy + ".tmp";
    assert name[|report| + 1..|report| + 33] == entropy;
  }

  lemma TempsApart(temps: seq<string>)
    requires TempNamesParse(LAYOUT, temps)
    ensures Apart(NamesFor(LAYOUT, temps))
    ensures forall name :: Owns(NamesFor(LAYOUT, temps), name) ==> LAYOUT.prefix <= name
  {
    var n := NamesFor(LAYOUT, temps);
    forall i | 0 <= i < 3
      ensures |temps[i]| == |n.reports[i]| + 37 && temps[i][..|n.reports[i]|] == n.reports[i]
    {
      assert temps[i][..|n.reports[i]|] == temps[i][..|n.reports[i]| + 1][..|n.reports[i]|];
    }
    assert |n.lock| == 16 && |n.reports[0]| == 14 && |n.reports[1]| == 16 && |n.reports[2]| == 22;
    assert n.lock[12] == 'l' && n.reports[1][12] == 'h';
    assert |temps[0]| == 51 && |temps[1]| == 53 && |temps[2]| == 59;
    forall name | Owns(n, name) ensures n.prefix <= name {
      if name in temps {
        var i :| 0 <= i < 3 && temps[i] == name;
        assert name[..11] == temps[i][..|n.reports[i]|][..11] == n.prefix;
      }
    }
  }

  lemma LayoutIsProper()
    ensures Proper(LAYOUT)
  {
    forall temps | TempNamesParse(LAYOUT, temps)
      ensures Apart(NamesFor(LAYOUT, temps)) && forall name :: Owns(NamesFor(LAYOUT, temps), name) ==>
                LAYOUT.prefix <= name
    {
      TempsApart(temps);
    }
    forall entropy: Entropy ensures TempNamesParse(LAYOUT, TempNames(LAYOUT, entropy)) {
      forall i | 0 <= i < 3 ensures IsTempName(LAYOUT.reports[i], TempNames(LAYOUT, entropy)[i]) {
        FreshTempName(LAYOUT.reports[i], entropy);
      }
    }
  }

  // -----------------------------------------------------------------------
  // What the directory shows
  // -----------------------------------------------------------------------

  /** Absent, a folder or a link: all of these read as no hash. */
  function HashAt(files: Files, name: string): Option<Hash> {
    if name in files && files[name].File? then Some(Sha256(files[name].content)) else None
  }

  predicate LockShape(lock: Lock) {
    |lock.target| == 3 && (lock.before.Some? ==> |lock.before.value| == 3)
  }

  function Before(lock: Lock, i: nat): Option<Hash>
    requires LockShape(lock) && i < 3
  {
    match lock.before
    case None => None
    case Some(hashes) => Some(hashes[i])
  }

  /** The lock is untouched and no foreign report file or irregular entry is in sight. */
  predicate Authentic(files: Files, n: Names, lock: Lock) {
    && n.lock in files && files[n.lock] == File(LockText(lock))
    && (forall name :: name in files ==> !files[name].Special?)
    && (forall name :: name in files && n.prefix <= name ==> Owns(n, name))
  }

  /** Where the protocol stands: `Staged(n)` temps written, `Renamed(n)` moved into place. */
  datatype Stage = Staged(n: nat) | Torn(n: nat) | Renamed(n: nat)

  ghost predicate Stands(stage: Stage, files: Files, n: Names, lock: Lock)
    requires Apart(n) && LockShape(lock)
  {
    match stage
    case Staged(k) =>
      && k <= 3
      && (k == 0 ==> exists i :: 0 <= i < 3 && HashAt(files, n.reports[i]) != Some(lock.target[i]))
      && forall i :: 0 <= i < 3 ==>
           && HashAt(files, n.reports[i]) == Before(lock, i)
           && HashAt(files, n.temps[i]) == if i < k then Some(lock.target[i]) else None
    case Torn(k) =>
      && k < 3
      && forall i :: 0 <= i < 3 ==>
           && HashAt(files, n.reports[i]) == Before(lock, i)
           && if i == k then HashAt(files, n.temps[i]) !in [None, Some(lock.target[i])]
              else HashAt(files, n.temps[i]) == if i < k then Some(lock.target[i]) else None
    case Renamed(k) =>
      && 1 <= k <= 3
      && forall i :: 0 <= i < 3 ==>
           && HashAt(files, n.reports[i]) == (if i < k then Some(lock.target[i]) else Before(lock, i))
           && HashAt(files, n.temps[i]) == if i < k then None else Some(lock.target[i])
  }

  /** Nothing that is not a regular file sits at a report or temp name. */
  ghost predicate Plain(files: Files, n: Names) {
    forall name :: name in n.reports + n.temps && name in files ==> files[name].File?
  }

  /** Steps that remain, the last of which removes the lock. */
  function Rank(stage: Stage): nat {
    match stage
    case Staged(k) => if k <= 3 then 7 - k else 0
    case Torn(k) => if k < 3 then 8 - k else 0
    case Renamed(k) => if k <= 3 then 4 - k else 0
  }

  function Moved(files: Files, from: string, to: string): Files
    requires from in files
  {
    files[to := files[from]] - {from}
  }

  /** The one change that a stage calls for. */
  function Effect(stage: Stage, files: Files, n: Names, bytes: seq<Content>): Files
    requires |n.reports| == 3 && |n.temps| == 3 && |bytes| == 3
  {
    match stage
    case Staged(k) =>
      if k < 3 then files[n.temps[k] := File(bytes[k])]
      else if n.temps[0] in files then Moved(files, n.temps[0], n.reports[0]) else files
    case Torn(k) => if k < 3 then files - {n.temps[k]} else files
    case Renamed(k) =>
      if k == 3 then files - {n.lock}
      else if k < 3 && n.temps[k] in files then Moved(files, n.temps[k], n.reports[k]) else files
  }

  /** What one step may leave, wherever the process stops. */
  ghost predicate MayLeave(stage: Stage, files: Files, after: Files, n: Names, bytes: seq<Content>)
    requires |n.reports| == 3 && |n.temps| == 3 && |bytes| == 3
  {
    || after == files
    || after == Effect(stage, files, n, bytes)
    || (stage.Staged? && stage.n < 3 && exists torn :: after == files[n.temps[stage.n] := File(torn)])
  }

  /** All that the protocol relies on between any two calls, before the lock is gone. */
  ghost predicate InFlight(files: Files, n: Names, lock: Lock, bytes: seq<Content>) {
    && Apart(n) && LockShape(lock) && |bytes| == 3
    && (forall i :: 0 <= i < 3 ==> lock.target[i] == Sha256(bytes[i]))
    && Authentic(files, n, lock)
    && exists stage :: Stands(stage, files, n, lock)
  }

  /** The target trio, no temp, no lock. */
  ghost predicate Committed(files: Files, n: Names, bytes: seq<Content>) {
    && |n.reports| == 3 && |bytes| == 3
    && (forall i :: 0 <= i < 3 ==> n.reports[i] in files && files[n.reports[i]] == File(bytes[i]))
    && (forall name :: name in files && n.prefix <= name ==>
        name in n.reports || (name in n.temps && !files[name].File?))
    && n.lock !in files
  }

  ghost predicate OthersUnchanged(files: Files, after: Files, n: Names) {
    forall name :: !Owns(n, name) ==>
      (name in after <==> name in files) && (name in files ==> after[name] == files[name])
  }

  // -----------------------------------------------------------------------
  // One step
  // -----------------------------------------------------------------------

  lemma StandsOnce(a: Stage, b: Stage, files: Files, n: Names, lock: Lock)
    requires Apart(n) && LockShape(lock) && Stands(a, files, n, lock) && Stands(b, files, n, lock)
    ensures a == b
  {
    assert forall i :: 0 <= i < 3 ==> HashAt(files, n.temps[i]) == HashAt(files, n.temps[i]);
    assert a.n < 3 ==> HashAt(files, n.temps[a.n]) == HashAt(files, n.temps[a.n]);
    assert b.n < 3 ==> HashAt(files, n.temps[b.n]) == HashAt(files, n.temps[b.n]);
    assert HashAt(files, n.temps[0]) == HashAt(files, n.temps[0]);
  }

  /** The stage that a stage's one change leads to. */
  function Next(stage: Stage, same: bool): Stage {
    match stage
    case Staged(k) => if k < 3 then Staged(k + 1) else Renamed(1)
    case Torn(k) => if k == 0 && same then Renamed(3) else Staged(k)
    case Renamed(k) => Renamed(k + 1)
  }

  ghost predicate BeforeIsTarget(lock: Lock)
    requires LockShape(lock)
  {
    forall i :: 0 <= i < 3 ==> Before(lock, i) == Some(lock.target[i])
  }

  /** Changing one owned file keeps the rest of the protocol state in place. */
  ghost predicate OneChange(files: Files, after: Files, name: string) {
    forall other :: other != name ==>
      (other in after <==> other in files) && (other in files ==> after[other] == files[other])
  }

  lemma KeepsAuthentic(files: Files, after: Files, n: Names, lock: Lock, name: string)
    requires Apart(n) && Authentic(files, n, lock)
    requires OneChange(files, after, name) && (name in n.reports || name in n.temps)
    requires name in after ==> after[name].File?
    ensures Authentic(after, n, lock) && (Plain(files, n) ==> Plain(after, n)) && OthersUnchanged(files, after, n)
    ensures forall other :: other != name ==> HashAt(after, other) == HashAt(files, other)
  {}

  lemma WriteAdvances(k: nat, files: Files, n: Names, lock: Lock, content: Content)
    requires Apart(n) && LockShape(lock) && Authentic(files, n, lock)
    requires k < 3 && Stands(Staged(k), files, n, lock)
    ensures var after := files[n.temps[k] := File(content)];
      && Authentic(after, n, lock) && (Plain(files, n) ==> Plain(after, n)) && OthersUnchanged(files, after, n)
      && Stands(if lock.target[k] == Sha256(content) then Staged(k + 1) else Torn(k), after, n, lock)
  {
    var after := files[n.temps[k] := File(content)];
    KeepsAuthentic(files, after, n, lock, n.temps[k]);
    TempWritten(k, files, after, n, lock);
  }

  /** With the next temp written, and all other hashes as they were, the stage is the next one or torn. */
  lemma TempWritten(k: nat, files: Files, after: Files, n: Names, lock: Lock)
    requires Apart(n) && LockShape(lock) && k < 3 && Stands(Staged(k), files, n, lock)
    requires HashAt(after, n.temps[k]).Some?
    requires forall other :: other != n.temps[k] ==> HashAt(after, other) == HashAt(files, other)
    ensures Stands(if HashAt(after, n.temps[k]) == Some(lock.target[k]) then Staged(k + 1) else Torn(k), after, n, lock)
  {
    assert forall i :: 0 <= i < 3 ==> HashAt(after, n.reports[i]) == HashAt(files, n.reports[i]);
    assert forall i :: 0 <= i < 3 && i != k ==> HashAt(after, n.temps[i]) == HashAt(files, n.temps[i]);
  }

  lemma UnlinkAdvances(k: nat, files: Files, n: Names, lock: Lock)
    requires Apart(n) && LockShape(lock) && Authentic(files, n, lock)
    requires k < 3 && Stands(Torn(k), files, n, lock)
    ensures var after := files - {n.temps[k]};
      && Authentic(after, n, lock) && (Plain(files, n) ==> Plain(after, n)) && OthersUnchanged(files, after, n)
      && Stands(Next(Torn(k), BeforeIsTarget(lock)), after, n, lock)
  {
    var after := files - {n.temps[k]};
    KeepsAuthentic(files, after, n, lock, n.temps[k]);
    assert HashAt(after, n.temps[k]) == None;
    if k == 0 && !BeforeIsTarget(lock) {
      var i :| 0 <= i < 3 && Before(lock, i) != Some(lock.target[i]);
      assert HashAt(after, n.reports[i]) != Some(lock.target[i]);
    }
  }

  lemma MoveKeeps(files: Files, n: Names, lock: Lock, from: string, to: string)
    requires Apart(n) && Authentic(files, n, lock)
    requires from in n.temps && to in n.reports && HashAt(files, from).Some?
    ensures from in files
    ensures var after := Moved(files, from, to);
      && Authentic(after, n, lock) && (Plain(files, n) ==> Plain(after, n)) && OthersUnchanged(files, after, n)
      && HashAt(after, to) == HashAt(files, from) && HashAt(after, from) == None
      && forall other :: other != from && other != to ==> HashAt(after, other) == HashAt(files, other)
  {
    var written := files[to := files[from]];
    KeepsAuthentic(files, written, n, lock, to);
    KeepsAuthentic(written, written - {from}, n, lock, from);
    assert from != to by {
      var i :| 0 <= i < 3 && n.temps[i] == from;
      var j :| 0 <= j < 3 && n.reports[j] == to;
    }
  }

  lemma RenameAdvances(k: nat, files: Files, n: Names, lock: Lock)
    requires Apart(n) && LockShape(lock) && Authentic(files, n, lock)
    requires k < 3 && Stands(if k == 0 then Staged(3) else Renamed(k), files, n, lock)
    ensures n.temps[k] in files
    ensures var after := Moved(files, n.temps[k], n.reports[k]);
      && Authentic(after, n, lock) && (Plain(files, n) ==> Plain(after, n)) && OthersUnchanged(files, after, n)
      && Stands(Renamed(k + 1), after, n, lock)
  {
    assert HashAt(files, n.temps[k]) == Some(lock.target[k]);
    MoveKeeps(files, n, lock, n.temps[k], n.reports[k]);
    var after := Moved(files, n.temps[k], n.reports[k]);
    forall i | 0 <= i < 3 && i != k
      ensures HashAt(after, n.reports[i]) == HashAt(files, n.reports[i])
      ensures HashAt(after, n.temps[i]) == HashAt(files, n.temps[i])
    {}
  }

  lemma UnlockCommits(files: Files, n: Names, lock: Lock, bytes: seq<Content>)
    requires InFlight(files, n, lock, bytes) && Stands(Renamed(3), files, n, lock)
    ensures Committed(files - {n.lock}, n, bytes) && OthersUnchanged(files, files - {n.lock}, n)
  {
    var after := files - {n.lock};
    forall i | 0 <= i < 3
      ensures n.reports[i] in after && after[n.reports[i]] == File(bytes[i])
      ensures n.temps[i] in after ==> !after[n.temps[i]].File?
    {
      assert HashAt(files, n.reports[i]) == Some(lock.target[i]) && HashAt(files, n.temps[i]) == None;
    }
  }

  /** A stage's change leads to the next stage, with a smaller rank, and from the last to the committed set. */
  ghost predicate Advances(stage: Stage, files: Files, n: Names, lock: Lock, bytes: seq<Content>)
    requires Apart(n) && LockShape(lock) && |bytes| == 3
  {
    var after, next := Effect(stage, files, n, bytes), Next(stage, BeforeIsTarget(lock));
    && OthersUnchanged(files, after, n) && (Plain(files, n) ==> Plain(after, n))
    && (if stage == Renamed(3) then Committed(after, n, bytes)
        else InFlight(after, n, lock, bytes) && Stands(next, after, n, lock) && Rank(next) < Rank(stage))
  }

  /** What each of the following lemmas puts together. */
  lemma StillInFlight(files: Files, after: Files, n: Names, lock: Lock, bytes: seq<Content>, next: Stage)
    requires InFlight(files, n, lock, bytes) && Authentic(after, n, lock) && Stands(next, after, n, lock)
    ensures InFlight(after, n, lock, bytes)
  {}

  lemma StageAdvances(stage: Stage, files: Files, after: Files, n: Names, lock: Lock, bytes: seq<Content>, next: Stage)
    requires Apart(n) && LockShape(lock) && |bytes| == 3 && stage != Renamed(3)
    requires after == Effect(stage, files, n, bytes) && next == Next(stage, BeforeIsTarget(lock))
             && Rank(next) < Rank(stage)
    requires OthersUnchanged(files, after, n) && (Plain(files, n) ==> Plain(after, n))
    requires InFlight(after, n, lock, bytes) && Stands(next, after, n, lock)
    ensures Advances(stage, files, n, lock, bytes)
  {}

  lemma StagedAdvances(k: nat, files: Files, n: Names, lock: Lock, bytes: seq<Content>)
    requires InFlight(files, n, lock, bytes) && k < 3 && Stands(Staged(k), files, n, lock)
    ensures Advances(Staged(k), files, n, lock, bytes)
  {
    WriteAdvances(k, files, n, lock, bytes[k]);
    StillInFlight(files, files[n.temps[k] := File(bytes[k])], n, lock, bytes, Staged(k + 1));
    StageAdvances(Staged(k), files, files[n.temps[k] := File(bytes[k])], n, lock, bytes, Staged(k + 1));
  }

  lemma TornAdvances(k: nat, files: Files, n: Names, lock: Lock, bytes: seq<Content>)
    requires InFlight(files, n, lock, bytes) && k < 3 && Stands(Torn(k), files, n, lock)
    ensures Advances(Torn(k), files, n, lock, bytes)
  {
    UnlinkAdvances(k, files, n, lock);
    var next := Next(Torn(k), BeforeIsTarget(lock));
    StillInFlight(files, files - {n.temps[k]}, n, lock, bytes, next);
    StageAdvances(Torn(k), files, files - {n.temps[k]}, n, lock, bytes, next);
  }

  lemma FirstMoveAdvances(files: Files, n: Names, lock: Lock, bytes: seq<Content>)
    requires InFlight(files, n, lock, bytes) && Stands(Staged(3), files, n, lock)
    ensures Advances(Staged(3), files, n, lock, bytes)
  {
    RenameAdvances(0, files, n, lock);
    StillInFlight(files, Moved(files, n.temps[0], n.reports[0]), n, lock, bytes, Renamed(1));
    StageAdvances(Staged(3), files, Moved(files, n.temps[0], n.reports[0]), n, lock, bytes, Renamed(1));
  }

  lemma MoveAdvances(k: nat, files: Files, n: Names, lock: Lock, bytes: seq<Content>)
    requires InFlight(files, n, lock, bytes) && 0 < k < 3 && Stands(Renamed(k), files, n, lock)
    ensures Advances(Renamed(k), files, n, lock, bytes)
  {
    RenameAdvances(k, files, n, lock);
    StillInFlight(files, Moved(files, n.temps[k], n.reports[k]), n, lock, bytes, Renamed(k + 1));
    StageAdvances(Renamed(k), files, Moved(files, n.temps[k], n.reports[k]), n, lock, bytes, Renamed(k + 1));
  }

  lemma EffectAdvances(stage: Stage, files: Files, n: Names, lock: Lock, bytes: seq<Content>)
    requires InFlight(files, n, lock, bytes) && Stands(stage, files, n, lock)
    ensures Advances(stage, files, n, lock, bytes)
  {
    match stage {
      case Staged(k) =>
        if k < 3 {
          StagedAdvances(k, files, n, lock, bytes);
        } else {
          FirstMoveAdvances(files, n, lock, bytes);
        }
      case Torn(k) => TornAdvances(k, files, n, lock, bytes);
      case Renamed(k) =>
        if k < 3 {
          MoveAdvances(k, files, n, lock, bytes);
        } else {
          UnlockCommits(files, n, lock, bytes);
        }
    }
  }

  // -----------------------------------------------------------------------
  // Crashes
  // -----------------------------------------------------------------------

  /** Wherever a process stops, the protocol state it leaves is one that the next process recognises. */
  lemma CrashIsRecognised(stage: Stage, files: Files, after: Files, n: Names, lock: Lock, bytes: seq<Content>)
    requires InFlight(files, n, lock, bytes) && Stands(stage, files, n, lock)
    requires MayLeave(stage, files, after, n, bytes)
    ensures InFlight(after, n, lock, bytes) || (stage == Renamed(3) && Committed(after, n, bytes))
    ensures OthersUnchanged(files, after, n) && (Plain(files, n) ==> Plain(after, n))
  {
    EffectAdvances(stage, files, n, lock, bytes);
    if after != files && after != Effect(stage, files, n, bytes) {
      var torn :| after == files[n.temps[stage.n] := File(torn)];
      WriteAdvances(stage.n, files, n, lock, torn);
    }
  }

  /** Any number of processes, each doing any part of any number of steps. */
  ghost predicate Run(states: seq<Files>, n: Names, lock: Lock, bytes: seq<Content>)
    requires Apart(n) && LockShape(lock) && |bytes| == 3
  {
    forall t :: 0 <= t < |states| - 1 ==> RunStep(states[t], states[t + 1], n, lock, bytes)
  }

  ghost predicate RunStep(files: Files, after: Files, n: Names, lock: Lock, bytes: seq<Content>)
    requires Apart(n) && LockShape(lock) && |bytes| == 3
  {
    if Authentic(files, n, lock)
    then exists stage :: Stands(stage, files, n, lock) && MayLeave(stage, files, after, n, bytes)
    else after == files
  }

  /** Every state of every run is in flight or committed, and a committed one stays committed. */
  lemma {:induction false} RunsStayRecognised(states: seq<Files>, n: Names, lock: Lock, bytes: seq<Content>)
    requires states != [] && InFlight(states[0], n, lock, bytes) && Run(states, n, lock, bytes)
    ensures var last := states[|states| - 1];
      && (InFlight(last, n, lock, bytes) || Committed(last, n, bytes))
      && OthersUnchanged(states[0], last, n) && (Plain(states[0], n) ==> Plain(last, n))
  {
    if |states| > 1 {
      var init := states[..|states| - 1];
      RunsStayRecognised(init, n, lock, bytes);
      var files, after := states[|states| - 2], states[|states| - 1];
      assert RunStep(files, after, n, lock, bytes);
      if Authentic(files, n, lock) {
        var stage :| Stands(stage, files, n, lock) && MayLeave(stage, files, after, n, bytes);
        CrashIsRecognised(stage, files, after, n, lock, bytes);
      }
    }
  }

  // -----------------------------------------------------------------------
  // The writer
  // -----------------------------------------------------------------------

  /** Where a changing call fails or the process dies; what a torn write leaves. */
  datatype Fault = NoFault | BeforeCall | TornCall(left: Content) | AfterCall

  datatype Outcome = Advanced | Complete | Stale | Threw

  datatype Result = Ok | Busy | StaleLock | IdentityMismatch | DurabilityUnconfirmed

  datatype Environment = Environment(
    selfIdentity: Option<string>, pid: nat, entropy: Entropy, rootReplaced: bool,
    ownerDead: bool, ownerIdentity: Option<string>, lockFault: Fault, faults: seq<Fault>)

  predicate ValidRequest(request: Request) {
    && |request.declared| == 3 && |request.bytes| == 3
    && forall i :: 0 <= i < 3 ==> request.declared[i] == Sha256(request.bytes[i])
  }

  /** Some but not all of the reports are readable files. */
  predicate PartialSet(l: Layout, files: Files)
    requires |l.reports| == 3
  {
    && (exists i :: 0 <= i < 3 && HashAt(files, l.reports[i]).Some?)
    && (exists i :: 0 <= i < 3 && HashAt(files, l.reports[i]).None?)
  }

  /** The lock text at the lock name, if it is one. */
  function CapturedLock(l: Layout, files: Files): Option<Lock> {
    if l.lock in files && files[l.lock].File? && files[l.lock].content.LockText? then
      var lock := files[l.lock].content.lock;
      if LockShape(lock) && TempNamesParse(l, lock.temps) then Some(lock) else None
    else None
  }

  predicate SameLineage(lock: Lock, request: Request) {
    lock.source == request.source && lock.generation == request.generation && lock.target == request.declared
  }

  lemma PrefixOfLock(l: Layout, entropy: Entropy)
    requires Proper(l)
    ensures l.prefix <= l.lock
  {
    assert TempNamesParse(l, TempNames(l, entropy));
    assert Owns(NamesFor(l, TempNames(l, entropy)), l.lock);
  }

  lemma CommittedOnlyReports(l: Layout, files: Files, n: Names, bytes: seq<Content>)
    requires n == NamesFor(l, n.temps) && Committed(files, n, bytes) && Plain(files, n)
    ensures OnlyReports(l, files) && Published(l, files, bytes)
  {}

  /** The lock that a fresh writer records: what it found, and what it is about to publish. */
  function FreshLock(l: Layout, files: Files, request: Request, env: Environment): Lock
    requires |l.reports| == 3 && env.selfIdentity.Some?
  {
    Lock(env.pid, env.selfIdentity.value, request.source, CommittedBefore(l, files), request.generation,
         request.declared, TempNames(l, env.entropy))
  }

  function CommittedBefore(l: Layout, files: Files): Option<seq<Hash>>
    requires |l.reports| == 3
  {
    var md, html, input := HashAt(files, l.reports[0]), HashAt(files, l.reports[1]), HashAt(files, l.reports[2]);
    if md.Some? && html.Some? && input.Some? then Some([md.value, html.value, input.value]) else None
  }

  /** Each report holds its target bytes and there is no lock. */
  ghost predicate Published(l: Layout, files: Files, bytes: seq<Content>) {
    && |bytes| == |l.reports| == 3 && l.lock !in files
    && forall i :: 0 <= i < 3 ==> l.reports[i] in files && files[l.reports[i]] == File(bytes[i])
  }

  ghost predicate OnlyReports(l: Layout, files: Files) {
    forall name :: name in files && l.prefix <= name ==> name in l.reports
  }

  /** A directory that no writer has touched since the last publication. */
  ghost predicate Fresh(l: Layout, files: Files) {
    && l.lock !in files && OnlyReports(l, files)
    && forall name :: name in files ==> !files[name].Special?
  }

  /** The names at stake: those of the lock found, or of the lock about to be made. */
  function NamesHeld(l: Layout, files: Files, env: Environment): Names
    requires |l.reports| == 3
  {
    match CapturedLock(l, files)
    case None => NamesFor(l, TempNames(l, env.entropy))
    case Some(lock) => NamesFor(l, lock.temps)
  }

  /** No folder in the way, and every call succeeds. */
  ghost predicate Settled(l: Layout, files: Files, env: Environment)
    requires |l.reports| == 3
  {
    Plain(files, NamesHeld(l, files, env)) && forall f :: f in env.faults ==> f == NoFault
  }

  ghost predicate Untroubled(env: Environment) {
    env.lockFault == NoFault && !env.rootReplaced
  }

  ghost predicate Recoverable(l: Layout, files: Files, lock: Lock, bytes: seq<Content>) {
    InFlight(files, NamesFor(l, lock.temps), lock, bytes) || Committed(files, NamesFor(l, lock.temps), bytes)
  }

  /** The lock found may be taken over: a dead writer's, of the same lineage. */
  predicate TakesOver(l: Layout, files: Files, request: Request, env: Environment) {
    && env.ownerDead && CapturedLock(l, files).Some?
    && SameLineage(CapturedLock(l, files).value, request)
  }

  /** The lock found belongs to a process that still is the one that wrote it. */
  predicate OwnerActive(l: Layout, files: Files, env: Environment) {
    && !env.ownerDead && CapturedLock(l, files).Some?
    && env.ownerIdentity == Some(CapturedLock(l, files).value.startIdentity)
  }

  /** A dead writer's lock of the same lineage over a state that its crash can have left. */
  ghost predicate Resumable(l: Layout, files: Files, request: Request, env: Environment) {
    && ValidRequest(request) && env.selfIdentity.Some? && TakesOver(l, files, request, env)
    && var lock := CapturedLock(l, files).value;
       InFlight(files, NamesFor(l, lock.temps), lock, request.bytes)
  }

  /** Writing the lock in a fresh directory starts the protocol at its first stage. */
  lemma FreshIsInFlight(l: Layout, files: Files, request: Request, env: Environment)
    requires Proper(l) && Fresh(l, files) && ValidRequest(request) && env.selfIdentity.Some? && !PartialSet(l, files)
    ensures var lock := FreshLock(l, files, request, env);
      InFlight(files[l.lock := File(LockText(lock))], NamesFor(l, lock.temps), lock, request.bytes)
  {
    var lock := FreshLock(l, files, request, env);
    var n := NamesFor(l, lock.temps);
    assert TempNamesParse(l, lock.temps);
    forall i | 0 <= i < 3
      ensures HashAt(files, n.reports[i]) == Before(lock, i) && n.temps[i] !in files
    {
      assert Owns(n, n.temps[i]);
    }
    LockedStart(files, n, lock);
  }

  /** The lock over untouched reports, without temps. */
  lemma LockedStart(files: Files, n: Names, lock: Lock)
    requires Apart(n) && LockShape(lock)
    requires forall name :: name in files ==> !files[name].Special? && (n.prefix <= name ==> Owns(n, name))
    requires forall i :: 0 <= i < 3 ==> HashAt(files, n.reports[i]) == Before(lock, i) && n.temps[i] !in files
    ensures var after := files[n.lock := File(LockText(lock))];
      Authentic(after, n, lock) && Stands(if BeforeIsTarget(lock) then Renamed(3) else Staged(0), after, n, lock)
  {
    var after := files[n.lock := File(LockText(lock))];
    forall i | 0 <= i < 3
      ensures HashAt(after, n.reports[i]) == Before(lock, i) && HashAt(after, n.temps[i]) == None
    {
      assert n.reports[i] != n.lock && n.temps[i] != n.lock;
    }
    CleanStart(after, n, lock);
  }

  /** Reports as before and no temps: the first stage, or the last when there is nothing to change. */
  lemma CleanStart(files: Files, n: Names, lock: Lock)
    requires Apart(n) && LockShape(lock)
    requires forall i :: 0 <= i < 3 ==>
               HashAt(files, n.reports[i]) == Before(lock, i) && HashAt(files, n.temps[i]) == None
    ensures Stands(if BeforeIsTarget(lock) then Renamed(3) else Staged(0), files, n, lock)
  {
    if !BeforeIsTarget(lock) {
      var i :| 0 <= i < 3 && Before(lock, i) != Some(lock.target[i]);
      assert HashAt(files, n.reports[i]) != Some(lock.target[i]);
    }
  }

  /** A call that gets as far as creating the lock. */
  predicate Creates(l: Layout, files: Files, request: Request, env: Environment)
    requires |l.reports| == 3
  {
    ValidRequest(request) && env.selfIdentity.Some? && !PartialSet(l, files) && l.lock !in files
  }

  /** What creating the lock leaves, whether it succeeds or not. */
  function AfterCreate(l: Layout, files: Files, request: Request, env: Environment): Files
    requires |l.reports| == 3 && Creates(l, files, request, env)
  {
    match env.lockFault
    case BeforeCall => files
    case TornCall(left) => files[l.lock := File(left)]
    case _ => files[l.lock := File(LockText(FreshLock(l, files, request, env)))]
  }

  /** The answer when creating the lock goes wrong. */
  function Trouble(env: Environment): Result {
    if env.lockFault != NoFault then DurabilityUnconfirmed else IdentityMismatch
  }

  /** The lock just created starts the protocol. */
  ghost predicate Starts(l: Layout, files: Files, request: Request, env: Environment)
    requires |l.reports| == 3 && Creates(l, files, request, env)
  {
    var lock := FreshLock(l, files, request, env);
    InFlight(AfterCreate(l, files, request, env), NamesFor(l, lock.temps), lock, request.bytes)
  }

  /** The random temp names are not taken. */
  predicate TempsFree(l: Layout, files: Files, env: Environment)
    requires |l.reports| == 3
  {
    forall name :: name in TempNames(l, env.entropy) ==> name !in files
  }

  /** Exactly a directory without leftovers, links and special entries is one that the protocol starts on. */
  lemma StartsIffFresh(l: Layout, files: Files, request: Request, env: Environment)
    requires Proper(l) && Creates(l, files, request, env) && Untroubled(env) && TempsFree(l, files, env)
    ensures Starts(l, files, request, env) <==> Fresh(l, files)
  {
    var lock, after := FreshLock(l, files, request, env), AfterCreate(l, files, request, env);
    var n := NamesFor(l, lock.temps);
    if Fresh(l, files) {
      FreshIsInFlight(l, files, request, env);
    } else if Authentic(after, n, lock) {
      forall name | name in files
        ensures !files[name].Special? && (l.prefix <= name ==> name in l.reports)
      {
        assert after[name] == files[name];
      }
    }
  }

  lemma WhereItStarts(l: Layout, files: Files, request: Request, env: Environment)
    requires Proper(l) && Creates(l, files, request, env) && Untroubled(env)
    ensures Fresh(l, files) ==> Starts(l, files, request, env)
    ensures TempsFree(l, files, env) ==> (Starts(l, files, request, env) <==> Fresh(l, files))
  {
    if TempsFree(l, files, env) {
      StartsIffFresh(l, files, request, env);
    } else if Fresh(l, files) {
      FreshIsInFlight(l, files, request, env);
    }
  }

  /** A lock that did not start the protocol stops every later call, whatever became of its owner. */
  lemma LeftLockBlocks(l: Layout, files: Files, request: Request, env: Environment, next: Request, later: Environment)
    requires Proper(l) && Creates(l, files, request, env) && Untroubled(env) && !Starts(l, files, request, env)
    ensures CapturedLock(l, AfterCreate(l, files, request, env)) == Some(FreshLock(l, files, request, env))
    ensures !Resumable(l, AfterCreate(l, files, request, env), next, later)
  {
    var lock, after := FreshLock(l, files, request, env), AfterCreate(l, files, request, env);
    assert TempNamesParse(l, lock.temps);
    if Resumable(l, after, next, later) {
      SameDeclaredSameBytes(request, next);
      assert false;
    }
  }

  lemma SameDeclaredSameBytes(a: Request, b: Request)
    requires ValidRequest(a) && ValidRequest(b) && a.declared == b.declared
    ensures a.bytes == b.bytes
  {
    forall i | 0 <= i < 3
      ensures a.bytes[i] == b.bytes[i]
    {
      assert a.declared[i] == Sha256(a.bytes[i]) && b.declared[i] == Sha256(b.bytes[i]);
    }
  }

  /** The lock found is the one that a writer of `request` made. */
  ghost predicate HoldsLockOf(l: Layout, after: Files, files: Files, request: Request, env: Environment)
    requires |l.reports| == 3 && env.selfIdentity.Some?
  {
    CapturedLock(l, after) == Some(FreshLock(l, files, request, env))
  }

  lemma LockIsCaptured(l: Layout, files: Files, request: Request, env: Environment, after: Files)
    requires Proper(l) && Creates(l, files, request, env)
    requires var lock := FreshLock(l, files, request, env);
      InFlight(after, NamesFor(l, lock.temps), lock, request.bytes)
    ensures HoldsLockOf(l, after, files, request, env)
  {
    assert TempNamesParse(l, FreshLock(l, files, request, env).temps);
  }

  /**
   * Whatever state a dead writer's run has reached, it is resumed by exactly the requests that agree with
   * the writer's own in source, generation and declared hashes; so by its own request in any case.
   */
  lemma ResumedByItsOwnLineage(l: Layout, files: Files, request: Request, env: Environment, after: Files,
                               next: Request, later: Environment)
    requires Proper(l) && Creates(l, files, request, env)
    requires var lock := FreshLock(l, files, request, env);
      InFlight(after, NamesFor(l, lock.temps), lock, request.bytes)
    requires later.selfIdentity.Some? && later.ownerDead
    ensures Resumable(l, after, next, later) <==>
            && ValidRequest(next) && next.source == request.source && next.generation == request.generation
            && next.declared == request.declared
    ensures Resumable(l, after, request, later)
  {
    LockIsCaptured(l, files, request, env, after);
    if ValidRequest(next) && next.declared == request.declared {
      SameDeclaredSameBytes(request, next);
    }
  }

  /** `processStartIdentity`: a process knows its own, and reads that of another from `ps`. */
  function IdentityRead(env: Environment, pid: nat, ps: Option<string>): Option<string> {
    if pid == env.pid then env.selfIdentity else ps
  }

  /**
   * Since the two ways of telling an identity never agree, "busy" is for a lock of the caller's own process:
   * another live owner is answered as stale.
   */
  lemma BusyIffOwnProcess(l: Layout, files: Files, env: Environment, own: string, ps: Option<string>)
    requires CapturedLock(l, files).Some? && own <= CapturedLock(l, files).value.startIdentity
    requires ps.Some? ==> !(own <= ps.value)
    requires env.ownerIdentity == IdentityRead(env, CapturedLock(l, files).value.pid, ps)
    ensures var lock := CapturedLock(l, files).value;
      OwnerActive(l, files, env) <==>
      !env.ownerDead && lock.pid == env.pid && env.selfIdentity == Some(lock.startIdentity)
  {
    var lock := CapturedLock(l, files).value;
    if lock.pid != env.pid {
      assert env.ownerIdentity == ps;
    }
  }

  /** So a writer's lock is busy exactly for the process that wrote it, while that is alive. */
  lemma BusyForItsWriter(l: Layout, files: Files, request: Request, env: Environment, after: Files,
                         probe: Environment, own: string, ps: Option<string>)
    requires Proper(l) && Creates(l, files, request, env) && HoldsLockOf(l, after, files, request, env)
    requires own <= env.selfIdentity.value && (ps.Some? ==> !(own <= ps.value))
    requires probe.ownerIdentity == IdentityRead(probe, CapturedLock(l, after).value.pid, ps)
    ensures OwnerActive(l, after, probe) <==>
            !probe.ownerDead && probe.pid == env.pid && probe.selfIdentity == env.selfIdentity
  {
    BusyIffOwnProcess(l, after, probe, own, ps);
  }

  /** The rank of the stage recognised, if any. */
  ghost function Remaining(files: Files, n: Names, lock: Lock): nat
    requires Apart(n) && LockShape(lock)
  {
    if exists stage :: Stands(stage, files, n, lock)
    then var stage :| Stands(stage, files, n, lock); Rank(stage)
    else 0
  }

  lemma RemainingIs(stage: Stage, files: Files, n: Names, lock: Lock)
    requires Apart(n) && LockShape(lock) && Stands(stage, files, n, lock)
    ensures Remaining(files, n, lock) == Rank(stage)
  {
    forall s | Stands(s, files, n, lock) ensures s == stage {
      StandsOnce(s, stage, files, n, lock);
    }
  }

  /** A fault-free call fails only over an entry that is not a regular file. */
  lemma BlockedIsNotPlain(stage: Stage, files: Files, n: Names, lock: Lock)
    requires Apart(n) && LockShape(lock) && Stands(stage, files, n, lock) && Plain(files, n)
    ensures stage.Staged? && stage.n < 3 ==> n.temps[stage.n] !in files
    ensures forall i :: 0 <= i < 3 && n.reports[i] in files ==> !files[n.reports[i]].Folder?
  {
    if stage.Staged? && stage.n < 3 {
      assert HashAt(files, n.temps[stage.n]) == None;
    }
  }

  /** `Stands`, written out over the four rows of hashes. */
  predicate Shows(stage: Stage, canon: seq<Option<Hash>>, temps: seq<Option<Hash>>, before: seq<Option<Hash>>,
                  target: seq<Option<Hash>>)
    requires |canon| == |temps| == |before| == |target| == 3
  {
    match stage
    case Staged(k) =>
      && k <= 3 && canon == before && (k == 0 ==> canon != target)
      && temps[0] == (if k > 0 then target[0] else None)
      && temps[1] == (if k > 1 then target[1] else None)
      && temps[2] == (if k > 2 then target[2] else None)
    case Torn(k) =>
      && k < 3 && canon == before && temps[k] != None && temps[k] != target[k]
      && (k > 0 ==> temps[0] == target[0])
      && (k > 1 ==> temps[1] == target[1])
      && (k < 1 ==> temps[1] == None)
      && (k < 2 ==> temps[2] == None)
    case Renamed(k) =>
      && 1 <= k <= 3 && canon[0] == target[0] && temps[0] == None
      && canon[1] == (if k > 1 then target[1] else before[1]) && temps[1] == (if k > 1 then None else target[1])
      && canon[2] == (if k > 2 then target[2] else before[2]) && temps[2] == (if k > 2 then None else target[2])
  }

  lemma StandsShows(s: Stage, f: Files, n: Names, lock: Lock)
    requires Apart(n) && LockShape(lock)
    ensures Stands(s, f, n, lock) <==> Shows(s,
      [HashAt(f, n.reports[0]), HashAt(f, n.reports[1]), HashAt(f, n.reports[2])],
      [HashAt(f, n.temps[0]), HashAt(f, n.temps[1]), HashAt(f, n.temps[2])],
      [Before(lock, 0), Before(lock, 1), Before(lock, 2)],
      [Some(lock.target[0]), Some(lock.target[1]), Some(lock.target[2])])
  {
    match s {
      case Staged(k) =>
      case Torn(k) =>
      case Renamed(k) =>
    }
  }

  method ClassifyHashes(canon: seq<Option<Hash>>, temps: seq<Option<Hash>>, before: seq<Option<Hash>>,
                        target: seq<Option<Hash>>)
    returns (stage: Option<Stage>)
    requires |canon| == |temps| == |before| == |target| == 3 && None !in target
    ensures stage.Some? ==> Shows(stage.value, canon, temps, before, target)
    ensures stage.None? ==> forall s :: !Shows(s, canon, temps, before, target)
  {
    var nothing: seq<Option<Hash>> := [None, None, None];
    if canon == target && temps == nothing { return Some(Renamed(3)); }
    assert !Shows(Renamed(3), canon, temps, before, target);
    if canon == before && temps == nothing { return Some(Staged(0)); }
    if canon == before && temps[0] == target[0] && temps[1] == None && temps[2] == None { return Some(Staged(1)); }
    if canon == before && temps[0] == target[0] && temps[1] == target[1] && temps[2] == None { return Some(Staged(2)); }
    if canon == before && temps == target { return Some(Staged(3)); }
    assert forall k :: !Shows(Staged(k), canon, temps, before, target);
    if canon[0] == target[0] && canon[1] == before[1] && canon[2] == before[2]
       && temps[0] == None && temps[1] == target[1] && temps[2] == target[2] { return Some(Renamed(1)); }
    if canon[0] == target[0] && canon[1] == target[1] && canon[2] == before[2]
       && temps[0] == None && temps[1] == None && temps[2] == target[2] { return Some(Renamed(2)); }
    assert forall k :: !Shows(Renamed(k), canon, temps, before, target);
    for index := 0 to 3
      invariant forall k :: 0 <= k < index ==> !Shows(Torn(k), canon, temps, before, target)
    {
      if temps[index] != None && temps[index] != target[index] {
        var precedingComplete := forall j :: 0 <= j < index ==> temps[j] == target[j];
        var followingAbsent := forall j :: index < j < 3 ==> temps[j] == None;
        if precedingComplete && followingAbsent && canon == before { return Some(Torn(index)); }
      }
    }
    return None;
  }

  class RunDirectory {
    const l: Layout
    var files: Files

    constructor (files: Files)
      ensures this.files == files && l == LAYOUT && Proper(l)
    {
      this.files := files;
      this.l := LAYOUT;
      new;
      LayoutIsProper();
    }

    /** Exclusive create, write, sync, close. */
    method WriteTemp(name: string, content: Content, fault: Fault) returns (ok: bool)
      modifies this
      ensures ok <==> name !in old(files) && fault == NoFault
      ensures
        || files == old(files)
        || (name !in old(files) && files == old(files)[name := File(content)])
        || (name !in old(files) && fault.TornCall? && files == old(files)[name := File(fault.left)])
      ensures ok ==> files == old(files)[name := File(content)]
    {
      if name in files { return false; }
      match fault {
        case NoFault => files := files[name := File(content)];
        case BeforeCall =>
        case TornCall(left) => files := files[name := File(left)];
        case AfterCall => files := files[name := File(content)];
      }
      ok := fault == NoFault;
    }

    /** An atomic replace; a folder cannot be replaced by a file. */
    method Rename(from: string, to: string, fault: Fault) returns (ok: bool)
      requires from in files
      modifies this
      ensures ok ==> files == Moved(old(files), from, to)
      ensures files == old(files) || files == Moved(old(files), from, to)
      ensures !ok && fault == NoFault ==> to in old(files) && old(files)[to].Folder?
    {
      if to in files && files[to].Folder? { return false; }
      if fault == NoFault || fault == AfterCall { files := Moved(files, from, to); }
      ok := fault == NoFault;
    }

    method Unlink(name: string, fault: Fault) returns (ok: bool)
      modifies this
      ensures ok <==> fault == NoFault
      ensures ok ==> files == old(files) - {name}
      ensures files == old(files) || files == old(files) - {name}
    {
      if fault == NoFault || fault == AfterCall { files := files - {name}; }
      ok := fault == NoFault;
    }

    /** The branches of the classification, in order, on the hashes alone. */
    method Classify(n: Names, lock: Lock) returns (stage: Option<Stage>)
      requires Apart(n) && LockShape(lock)
      ensures stage.Some? ==> Stands(stage.value, files, n, lock)
      ensures stage.None? ==> forall s :: !Stands(s, files, n, lock)
    {
      var f := files;
      var canon := [HashAt(f, n.reports[0]), HashAt(f, n.reports[1]), HashAt(f, n.reports[2])];
      var temps := [HashAt(f, n.temps[0]), HashAt(f, n.temps[1]), HashAt(f, n.temps[2])];
      var before := [Before(lock, 0), Before(lock, 1), Before(lock, 2)];
      var target := [Some(lock.target[0]), Some(lock.target[1]), Some(lock.target[2])];
      stage := ClassifyHashes(canon, temps, before, target);
      forall s ensures Stands(s, f, n, lock) <==> Shows(s, canon, temps, before, target) {
        StandsShows(s, f, n, lock);
      }
    }

    /**
     * One step of the protocol. It is stale, and then changes nothing, exactly when no stage is
     * recognised; otherwise it makes the one change that the stage calls for, or stops in it.
     */
    method ClassifyAndAdvance(n: Names, lock: Lock, bytes: seq<Content>, fault: Fault) returns (outcome: Outcome)
      requires Apart(n) && LockShape(lock) && |bytes| == 3
      modifies this
      ensures outcome.Stale? <==> !Authentic(old(files), n, lock) || forall s :: !Stands(s, old(files), n, lock)
      ensures outcome.Stale? ==> files == old(files)
      ensures forall s :: Stands(s, old(files), n, lock) && !outcome.Stale? ==>
                && MayLeave(s, old(files), files, n, bytes)
                && (!outcome.Threw? ==> files == Effect(s, old(files), n, bytes))
                && (outcome.Complete? ==> s == Renamed(3)) && (outcome.Advanced? ==> s != Renamed(3))
      ensures outcome.Threw? && fault == NoFault ==> !Plain(old(files), n)
    {
      if !Authentic(files, n, lock) { return Stale; }
      var stage := Classify(n, lock);
      if stage.None? { return Stale; }
      ghost var was := files;
      forall s | Stands(s, was, n, lock) ensures s == stage.value {
        StandsOnce(s, stage.value, was, n, lock);
      }
      var ok;
      match stage.value {
        case Staged(k) =>
          if k < 3 {
            ok := WriteTemp(n.temps[k], bytes[k], fault);
          } else {
            RenameAdvances(0, files, n, lock);
            ok := Rename(n.temps[0], n.reports[0], fault);
          }
        case Torn(k) =>
          ok := Unlink(n.temps[k], fault);
        case Renamed(k) =>
          if k == 3 {
            ok := Unlink(n.lock, fault);
            return if ok then Complete else Threw;
          }
          RenameAdvances(k, files, n, lock);
          ok := Rename(n.temps[k], n.reports[k], fault);
      }
      if Plain(was, n) {
        BlockedIsNotPlain(stage.value, was, n, lock);
      }
      outcome := if ok then Advanced else Threw;
    }

    /** One step: stale exactly off the protocol, and otherwise strictly closer to the end. */
    method Step(n: Names, lock: Lock, bytes: seq<Content>, fault: Fault) returns (outcome: Outcome)
      requires Apart(n) && LockShape(lock) && |bytes| == 3
      requires forall i :: 0 <= i < 3 ==> lock.target[i] == Sha256(bytes[i])
      modifies this
      ensures outcome.Stale? <==> !InFlight(old(files), n, lock, bytes)
      ensures outcome.Stale? ==> files == old(files)
      ensures outcome.Advanced? ==>
                InFlight(files, n, lock, bytes) && Remaining(files, n, lock) < Remaining(old(files), n, lock)
      ensures outcome.Complete? ==> Committed(files, n, bytes)
      ensures outcome.Threw? ==> InFlight(files, n, lock, bytes) || Committed(files, n, bytes)
      ensures outcome.Threw? ==> fault != NoFault || !Plain(old(files), n)
      ensures OthersUnchanged(old(files), files, n) && (Plain(old(files), n) ==> Plain(files, n))
    {
      ghost var was := files;
      outcome := ClassifyAndAdvance(n, lock, bytes, fault);
      if !outcome.Stale? {
        ghost var stage :| Stands(stage, was, n, lock);
        EffectAdvances(stage, was, n, lock, bytes);
        CrashIsRecognised(stage, was, files, n, lock, bytes);
        RemainingIs(stage, was, n, lock);
        if outcome.Advanced? {
          RemainingIs(Next(stage, BeforeIsTarget(lock)), files, n, lock);
        }
      }
    }

    /** The loop: steps until the protocol is complete, stale or stopped. */
    method Drive(n: Names, lock: Lock, bytes: seq<Content>, faults: seq<Fault>) returns (result: Result)
      requires Apart(n) && LockShape(lock) && |bytes| == 3
      requires forall i :: 0 <= i < 3 ==> lock.target[i] == Sha256(bytes[i])
      modifies this
      ensures result.Ok? ==> Committed(files, n, bytes)
      ensures result.StaleLock? <==> !InFlight(old(files), n, lock, bytes)
      ensures result.StaleLock? ==> files == old(files)
      ensures !result.Ok? && !result.StaleLock? ==>
                && result.DurabilityUnconfirmed?
                && (InFlight(files, n, lock, bytes) || Committed(files, n, bytes))
                && (!Plain(old(files), n) || exists f :: f in faults && f != NoFault)
      ensures OthersUnchanged(old(files), files, n) && (Plain(old(files), n) ==> Plain(files, n))
    {
      var i := 0;
      while true
        invariant if InFlight(old(files), n, lock, bytes) then InFlight(files, n, lock, bytes) else files == old(files)
        invariant OthersUnchanged(old(files), files, n) && (Plain(old(files), n) ==> Plain(files, n))
        decreases Remaining(files, n, lock)
      {
        var fault := if i < |faults| then faults[i] else NoFault;
        assert fault != NoFault ==> fault in faults;
        var outcome := Step(n, lock, bytes, fault);
        if outcome.Complete? { return Ok; }
        if outcome.Stale? { return StaleLock; }
        if outcome.Threw? { return DurabilityUnconfirmed; }
        i := i + 1;
      }
    }

    /** The loop under the lock that was taken, in terms of the layout. */
    method DriveUnder(lock: Lock, request: Request, faults: seq<Fault>) returns (result: Result)
      requires Proper(l) && ValidRequest(request)
      requires LockShape(lock) && TempNamesParse(l, lock.temps) && lock.target == request.declared
      modifies this
      ensures result.Ok? ==> Published(l, files, request.bytes)
      ensures result.Ok? && Plain(old(files), NamesFor(l, lock.temps)) ==> OnlyReports(l, files)
      ensures result.StaleLock? <==> !InFlight(old(files), NamesFor(l, lock.temps), lock, request.bytes)
      ensures result.StaleLock? ==> files == old(files)
      ensures !result.Ok? && !result.StaleLock? ==>
                && result.DurabilityUnconfirmed? && Recoverable(l, files, lock, request.bytes)
                && (!Plain(old(files), NamesFor(l, lock.temps)) || exists f :: f in faults && f != NoFault)
      ensures OthersUnchanged(old(files), files, NamesFor(l, lock.temps))
      ensures Plain(old(files), NamesFor(l, lock.temps)) ==> Plain(files, NamesFor(l, lock.temps))
    {
      var n := NamesFor(l, lock.temps);
      ghost var locked := files;
      result := Drive(n, lock, request.bytes, faults);
      if result.Ok? && Plain(locked, n) { CommittedOnlyReports(l, files, n, request.bytes); }
    }

    /**
     * Create the lock, or take over a dead writer's lock of the same lineage. The set already
     * published is captured before the lock is tried.
     */
    method TakeLock(request: Request, env: Environment) returns (lock: Option<Lock>, refused: Result)
      requires Proper(l) && ValidRequest(request)
      modifies this
      ensures lock.Some? ==>
                LockShape(lock.value) && TempNamesParse(l, lock.value.temps) && lock.value.target == request.declared
      ensures lock.None? ==> !refused.Ok?
      ensures env.selfIdentity.None? ==> lock.None? && refused.DurabilityUnconfirmed?
      ensures files == old(files) || (l.lock !in old(files) && OneChange(old(files), files, l.lock))
      ensures l.lock in old(files) || PartialSet(l, old(files)) || env.selfIdentity.None? ==> files == old(files)
      ensures env.selfIdentity.Some? && PartialSet(l, old(files)) ==> lock.None? && refused.StaleLock?
      ensures env.selfIdentity.Some? && !PartialSet(l, old(files)) ==>
                if l.lock !in old(files) then
                  && files == AfterCreate(l, old(files), request, env)
                  && lock == (if Untroubled(env) then Some(FreshLock(l, old(files), request, env)) else None)
                  && (lock.None? ==> refused == Trouble(env))
                else if TakesOver(l, old(files), request, env) then lock == CapturedLock(l, old(files))
                else lock.None? && refused == if OwnerActive(l, old(files), env) then Busy else StaleLock
      ensures lock.None? && refused.Busy? ==>
                env.selfIdentity.Some? && !PartialSet(l, old(files)) && OwnerActive(l, old(files), env)
    {
      lock, refused := None, StaleLock;
      if env.selfIdentity.None? { return None, DurabilityUnconfirmed; }
      if PartialSet(l, files) { return None, StaleLock; }
      if l.lock !in files {
        var mine := FreshLock(l, files, request, env);
        match env.lockFault {
          case BeforeCall => return None, DurabilityUnconfirmed;
          case TornCall(left) => files := files[l.lock := File(left)]; return None, DurabilityUnconfirmed;
          case AfterCall => files := files[l.lock := File(LockText(mine))]; return None, DurabilityUnconfirmed;
          case NoFault =>
        }
        files := files[l.lock := File(LockText(mine))];
        if env.rootReplaced { return None, IdentityMismatch; }
        lock := Some(mine);
      } else {
        var captured := CapturedLock(l, files);
        if captured.None? { return None, StaleLock; }
        if !env.ownerDead {
          return None, if env.ownerIdentity == Some(captured.value.startIdentity) then Busy else StaleLock;
        }
        if !SameLineage(captured.value, request) { return None, StaleLock; }
        lock := captured;
      }
    }

    /** Replace the report set, from a fresh directory or from what a dead writer left. */
    method Replace(request: Request, env: Environment) returns (result: Result)
      requires Proper(l)
      modifies this
      ensures result.Ok? ==> ValidRequest(request) && Published(l, files, request.bytes)
      ensures Plain(old(files), NamesHeld(l, old(files), env)) ==>
                Plain(files, NamesHeld(l, old(files), env)) && (result.Ok? ==> OnlyReports(l, files))
      // refused before anything is tried
      ensures !ValidRequest(request) ==> result.IdentityMismatch? && files == old(files)
      ensures ValidRequest(request) && env.selfIdentity.None? ==> result.DurabilityUnconfirmed? && files == old(files)
      ensures ValidRequest(request) && env.selfIdentity.Some? && PartialSet(l, old(files)) ==>
                result.StaleLock? && files == old(files)
      // nothing but the names of the lock found or made
      ensures OthersUnchanged(old(files), files, NamesHeld(l, old(files), env))
      ensures forall name :: !(l.prefix <= name) ==>
                (name in files <==> name in old(files)) && (name in files ==> files[name] == old(files)[name])
      // over a lock
      ensures result.Busy? <==>
                ValidRequest(request) && env.selfIdentity.Some? && !PartialSet(l, old(files))
                  && OwnerActive(l, old(files), env)
      ensures ValidRequest(request) && env.selfIdentity.Some? && l.lock in old(files)
              && !Resumable(l, old(files), request, env) ==>
                result in {Busy, StaleLock} && files == old(files)
      ensures l.lock in old(files) && !env.ownerDead ==> !result.Ok? && files == old(files)
      ensures Resumable(l, old(files), request, env) ==>
                && (result.StaleLock? <==> PartialSet(l, old(files)))
                && (result.StaleLock? ==> files == old(files))
                && (Settled(l, old(files), env) && !result.StaleLock? ==> result.Ok? && OnlyReports(l, files))
                && (result.Ok? || Recoverable(l, files, CapturedLock(l, old(files)).value, request.bytes))
      // without a lock
      ensures Creates(l, old(files), request, env) && !Untroubled(env) ==>
                && result == (if env.lockFault != NoFault then DurabilityUnconfirmed else IdentityMismatch)
                && files == AfterCreate(l, old(files), request, env)
      ensures Creates(l, old(files), request, env) && Untroubled(env) ==>
                && (result.StaleLock? <==> !Starts(l, old(files), request, env))
                && (TempsFree(l, old(files), env) ==> (result.StaleLock? <==> !Fresh(l, old(files))))
                && (result.StaleLock? ==> files == AfterCreate(l, old(files), request, env))
      ensures Fresh(l, old(files)) && ValidRequest(request) && env.selfIdentity.Some? && Untroubled(env) ==>
                if PartialSet(l, old(files)) then result.StaleLock? && files == old(files)
                else if Settled(l, old(files), env) then result.Ok? && OnlyReports(l, files)
                else result.Ok? || Recoverable(l, files, FreshLock(l, old(files), request, env), request.bytes)
    {
      if !ValidRequest(request) { return IdentityMismatch; }
      var taken;
      taken, result := TakeLock(request, env);
      ghost var was := old(files);
      PrefixOfLock(l, env.entropy);
      if taken.Some? {
        if Creates(l, was, request, env) && Untroubled(env) {
          WhereItStarts(l, was, request, env);
        }
        result := DriveUnder(taken.value, request, env.faults);
      }
    }
  }

  /** A writer that finds a leftover stops, leaves its lock, and no later call gets past that. */
  method BlockedForGood(d: RunDirectory, request: Request, env: Environment, next: Request, later: Environment)
    returns (first: Result, second: Result)
    requires Proper(d.l) && Creates(d.l, d.files, request, env) && Untroubled(env)
    requires TempsFree(d.l, d.files, env) && !Fresh(d.l, d.files)
    modifies d
    ensures first.StaleLock? && d.files == AfterCreate(d.l, old(d.files), request, env)
    ensures ValidRequest(next) && later.selfIdentity.Some? ==> second in {Busy, StaleLock}
    ensures ValidRequest(next) && later.selfIdentity.Some? && later.ownerDead ==> second.StaleLock?
  {
    StartsIffFresh(d.l, d.files, request, env);
    LeftLockBlocks(d.l, d.files, request, env, next, later);
    first := d.Replace(request, env);
    second := d.Replace(next, later);
  }

  /** What the next call of the same request finds: its own lock to resume, or a directory to start in. */
  ghost predicate ResumesOrStarts(l: Layout, files: Files, request: Request, later: Environment)
    requires |l.reports| == 3
  {
    || (l.lock in files && Resumable(l, files, request, later))
    || (Fresh(l, files) && Creates(l, files, request, later))
  }

  lemma PublishedIsFresh(l: Layout, files: Files, after: Files, n: Names, bytes: seq<Content>)
    requires |l.reports| == 3 && n == NamesFor(l, n.temps) && Fresh(l, files) && OthersUnchanged(files, after, n)
    requires Published(l, after, bytes) && OnlyReports(l, after)
    requires forall name :: name in n.temps ==> l.prefix <= name
    ensures Fresh(l, after) && !PartialSet(l, after)
  {}

  /** Whatever the first call leaves over a fresh directory, except a torn lock. */
  lemma LeftForTheNext(l: Layout, files: Files, after: Files, request: Request, env: Environment, later: Environment)
    requires Proper(l) && Fresh(l, files) && Creates(l, files, request, env)
    requires later.selfIdentity.Some? && later.ownerDead
    requires var n := NamesFor(l, TempNames(l, env.entropy)); OthersUnchanged(files, after, n)
    requires
      || after == files
      || Recoverable(l, after, FreshLock(l, files, request, env), request.bytes)
      || (Published(l, after, request.bytes) && OnlyReports(l, after))
    requires Plain(after, NamesFor(l, TempNames(l, env.entropy)))
    ensures ResumesOrStarts(l, after, request, later)
  {
    var lock := FreshLock(l, files, request, env);
    var n := NamesFor(l, lock.temps);
    assert TempNamesParse(l, lock.temps);
    forall name | name in n.temps ensures l.prefix <= name {
      assert Owns(n, name);
    }
    if InFlight(after, n, lock, request.bytes) {
      ResumedByItsOwnLineage(l, files, request, env, after, request, later);
    } else if after != files {
      if Committed(after, n, request.bytes) {
        CommittedOnlyReports(l, after, n, request.bytes);
      }
      PublishedIsFresh(l, files, after, n, request.bytes);
    }
  }

  /**
   * A call dies anywhere, and the same request comes again: unless the lock itself was torn, the second call
   * is stale exactly when the first left a partial set, and otherwise publishes when nothing fails again.
   */
  method CrashThenResume(d: RunDirectory, request: Request, env: Environment, later: Environment)
    returns (first: Result, second: Result, ghost between: Files)
    requires Proper(d.l) && Fresh(d.l, d.files) && Creates(d.l, d.files, request, env)
    requires Plain(d.files, NamesFor(d.l, TempNames(d.l, env.entropy)))
    requires later.selfIdentity.Some? && later.ownerDead
    modifies d
    ensures !env.lockFault.TornCall? ==>
              && (second.StaleLock? <==> PartialSet(d.l, between))
              && (!second.StaleLock? && Untroubled(later) && Settled(d.l, between, later) ==>
                    second.Ok? && Published(d.l, d.files, request.bytes) && OnlyReports(d.l, d.files))
    ensures env.lockFault.TornCall? && !env.lockFault.left.LockText? ==> second.StaleLock? && d.files == between
  {
    ghost var was := d.files;
    assert CapturedLock(d.l, was).None?;
    first := d.Replace(request, env);
    between := d.files;
    if !env.lockFault.TornCall? {
      if env.lockFault.AfterCall? || env.rootReplaced {
        FreshIsInFlight(d.l, was, request, env);
      }
      LeftForTheNext(d.l, was, between, request, env, later);
    }
    second := d.Replace(request, later);
  }

  // -----------------------------------------------------------------------
  // What a resumed writer refuses
  // -----------------------------------------------------------------------

  /**
   * Exactly the states that the next call refuses although the protocol recognises them: a first
   * publication (nothing was there before) that stopped between the first and the last rename.
   */
  lemma PartialIffFirstPublicationStopped(l: Layout, files: Files, lock: Lock, bytes: seq<Content>)
    requires Proper(l) && InFlight(files, NamesFor(l, lock.temps), lock, bytes)
    ensures var n := NamesFor(l, lock.temps);
      PartialSet(l, files) <==>
      (lock.before.None? && (Stands(Renamed(1), files, n, lock) || Stands(Renamed(2), files, n, lock)))
  {
    var n := NamesFor(l, lock.temps);
    var stage :| Stands(stage, files, n, lock);
    assert forall i :: 0 <= i < 3 ==> HashAt(files, l.reports[i]) == HashAt(files, n.reports[i]);
    forall s | Stands(s, files, n, lock) ensures s == stage {
      StandsOnce(s, stage, files, n, lock);
    }
    var md, input := HashAt(files, l.reports[0]), HashAt(files, l.reports[2]);
    match stage {
      case Staged(k) =>
      case Torn(k) =>
      case Renamed(k) => assert md.Some? && (k == 3 || input == Before(lock, 2));
    }
  }

  /** Such a state is reached from every directory without reports: the lock, four steps, then a crash. */
  lemma FirstPublicationCanStick(l: Layout, core: Files, lock: Lock, bytes: seq<Content>) returns (states: seq<Files>)
    requires Proper(l) && LockShape(lock) && TempNamesParse(l, lock.temps) && lock.before.None?
    requires |bytes| == 3 && forall i :: 0 <= i < 3 ==> lock.target[i] == Sha256(bytes[i])
    requires forall name :: name in core ==> core[name].File? && !(l.prefix <= name)
    ensures |states| == 5 && states[0] == core[l.lock := File(LockText(lock))]
    ensures Run(states, NamesFor(l, lock.temps), lock, bytes)
    ensures InFlight(states[4], NamesFor(l, lock.temps), lock, bytes) && PartialSet(l, states[4])
    ensures Stands(Staged(0), states[0], NamesFor(l, lock.temps), lock)
    ensures InFlight(states[0], NamesFor(l, lock.temps), lock, bytes)
    ensures Stands(Renamed(1), states[4], NamesFor(l, lock.temps), lock)
  {
    var n := NamesFor(l, lock.temps);
    var s0 := core[l.lock := File(LockText(lock))];
    CoreStart(core, n, lock, bytes);
    states := ToFirstRename(4, s0, n, lock, bytes);
    PartialIffFirstPublicationStopped(l, states[4], lock, bytes);
  }

  /** The stage with `m` steps to go, the last of which is the first rename. */
  function ToGo(m: nat): Stage
    requires m <= 4
  {
    if m == 0 then Renamed(1) else Staged(4 - m)
  }

  ghost predicate Reached(stage: Stage, files: Files, n: Names, lock: Lock, bytes: seq<Content>) {
    InFlight(files, n, lock, bytes) && Stands(stage, files, n, lock)
  }

  lemma OneStepOn(m: nat, files: Files, n: Names, lock: Lock, bytes: seq<Content>) returns (after: Files)
    requires 0 < m <= 4 && Reached(ToGo(m), files, n, lock, bytes)
    ensures Reached(ToGo(m - 1), after, n, lock, bytes) && RunStep(files, after, n, lock, bytes)
  {
    after := WholeStep(ToGo(m), files, n, lock, bytes);
  }

  lemma {:induction false} ToFirstRename(m: nat, files: Files, n: Names, lock: Lock, bytes: seq<Content>)
    returns (states: seq<Files>)
    requires m <= 4 && Reached(ToGo(m), files, n, lock, bytes)
    ensures |states| == m + 1 && states[0] == files && Run(states, n, lock, bytes)
    ensures Reached(Renamed(1), states[m], n, lock, bytes)
  {
    if m == 0 {
      states := [files];
    } else {
      var after := OneStepOn(m, files, n, lock, bytes);
      var rest := ToFirstRename(m - 1, after, n, lock, bytes);
      RunGoesOn(files, rest, n, lock, bytes);
      states := [files] + rest;
    }
  }

  lemma CoreStart(core: Files, n: Names, lock: Lock, bytes: seq<Content>)
    requires Apart(n) && LockShape(lock) && lock.before.None?
    requires |bytes| == 3 && forall i :: 0 <= i < 3 ==> lock.target[i] == Sha256(bytes[i])
    requires forall name :: Owns(n, name) ==> n.prefix <= name
    requires forall name :: name in core ==> core[name].File? && !(n.prefix <= name)
    ensures var files := core[n.lock := File(LockText(lock))];
      InFlight(files, n, lock, bytes) && Stands(Staged(0), files, n, lock)
  {
    forall i | 0 <= i < 3
      ensures HashAt(core, n.reports[i]) == None && n.temps[i] !in core
    {
      assert Owns(n, n.reports[i]) && Owns(n, n.temps[i]);
    }
    assert Before(lock, 0) != Some(lock.target[0]);
    LockedStart(core, n, lock);
  }

  lemma RunGoesOn(files: Files, rest: seq<Files>, n: Names, lock: Lock, bytes: seq<Content>)
    requires Apart(n) && LockShape(lock) && |bytes| == 3 && rest != []
    requires RunStep(files, rest[0], n, lock, bytes) && Run(rest, n, lock, bytes)
    ensures Run([files] + rest, n, lock, bytes) && ([files] + rest)[|rest|] == rest[|rest| - 1]
  {
    var all := [files] + rest;
    forall t | 0 <= t < |all| - 1
      ensures RunStep(all[t], all[t + 1], n, lock, bytes)
    {
      assert t > 0 ==> all[t] == rest[t - 1] && all[t + 1] == rest[t];
    }
  }

  lemma WholeStep(stage: Stage, files: Files, n: Names, lock: Lock, bytes: seq<Content>) returns (after: Files)
    requires InFlight(files, n, lock, bytes) && Stands(stage, files, n, lock) && stage != Renamed(3)
    ensures InFlight(after, n, lock, bytes) && Stands(Next(stage, BeforeIsTarget(lock)), after, n, lock)
    ensures RunStep(files, after, n, lock, bytes)
  {
    EffectAdvances(stage, files, n, lock, bytes);
    after := Effect(stage, files, n, bytes);
    assert MayLeave(stage, files, after, n, bytes);
  }
}
