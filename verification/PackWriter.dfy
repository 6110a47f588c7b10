/**
 * The manifest-last pack writer (src/io/compiler-writer-child.ts), as a program over a small
 * filesystem in which every call may fail, before or after its effect, or tear a write.
 *
 * The state after every call, and a state inside every write, is logged: a statement about the log is
 * a statement about every state that a crash can leave.
 */
module PackWriter {
  import opened Prelude

  type Ident = int
  type Names = map<string, Ident>

  datatype FileData = FileData(bytes: seq<Byte>, synced: bool)

  /** Directories and files by identity, and the first identity never used. */
  datatype Fs = Fs(dirs: map<Ident, Names>, files: map<Ident, FileData>, next: Ident)

  predicate WellFormed(fs: Fs) {
    && (forall d :: d in fs.dirs ==> d < fs.next)
    && (forall f :: f in fs.files ==> f < fs.next)
    && (forall d, name :: d in fs.dirs && name in fs.dirs[d] ==> fs.dirs[d][name] < fs.next)
  }

  datatype Member = Member(name: string, bytes: seq<Byte>)

  /** `at` is the directory that the parent path leads to, `parentId` the identity it should have. */
  datatype Standalone = Standalone(at: Ident, parentId: Ident, name: string, bytes: seq<Byte>)

  datatype Request = Request(storeId: Ident, packName: string, members: seq<Member>, manifest: Member,
                             standalone: Option<Standalone>)

  /** What request parsing guarantees: the manifest comes last and no name comes twice. */
  predicate ValidRequest(req: Request) {
    && (forall i, j :: 0 <= i < j < |req.members| ==> req.members[i].name != req.members[j].name)
    && (forall i :: 0 <= i < |req.members| ==> req.members[i].name != req.manifest.name)
  }

  /** How a call goes wrong: before or after its effect, leaving part of a write, or seeing another mode. */
  datatype Fault = Fine | Before | After | Torn(left: seq<Byte>) | OtherMode

  datatype Call = Done | Exists | Failed
  datatype Created = Created(name: string, id: Ident)

  datatype Response = Ok | PackExists | StandaloneExists | IdentityMismatch | DurabilityUnconfirmed

  // -----------------------------------------------------------------------
  // Effects
  // -----------------------------------------------------------------------

  function AddDir(fs: Fs, d: Ident, name: string): Fs
    requires d in fs.dirs
  {
    var none: Names := map[];
    Fs(fs.dirs[d := fs.dirs[d][name := fs.next]][fs.next := none], fs.files, fs.next + 1)
  }

  function AddFile(fs: Fs, d: Ident, name: string): Fs
    requires d in fs.dirs
  {
    Fs(fs.dirs[d := fs.dirs[d][name := fs.next]], fs.files[fs.next := FileData([], false)], fs.next + 1)
  }

  function SetFile(fs: Fs, id: Ident, data: FileData): Fs {
    fs.(files := fs.files[id := data])
  }

  function RemoveName(fs: Fs, d: Ident, name: string): Fs
    requires d in fs.dirs
  {
    fs.(dirs := fs.dirs[d := fs.dirs[d] - {name}])
  }

  function RemoveDir(fs: Fs, d: Ident, name: string, id: Ident): Fs
    requires d in fs.dirs
  {
    fs.(dirs := fs.dirs[d := fs.dirs[d] - {name}] - {id})
  }

  // -----------------------------------------------------------------------
  // What every state satisfies
  // -----------------------------------------------------------------------

  /** Nothing that was there before is renamed, removed or rewritten. */
  ghost predicate Preserves(base: Fs, fs: Fs) {
    && (forall d :: d in base.dirs ==> d in fs.dirs)
    && (forall d, name :: d in base.dirs && name in base.dirs[d] ==>
        name in fs.dirs[d] && fs.dirs[d][name] == base.dirs[d][name])
    && (forall f :: f in base.files ==> f in fs.files && fs.files[f] == base.files[f])
  }

  predicate Holds(fs: Fs, d: Ident, m: Member) {
    && d in fs.dirs && m.name in fs.dirs[d]
    && fs.dirs[d][m.name] in fs.files && fs.files[fs.dirs[d][m.name]] == FileData(m.bytes, true)
  }

  ghost predicate StandaloneHeld(fs: Fs, req: Request) {
    req.standalone.Some? ==>
      Holds(fs, req.standalone.value.at, Member(req.standalone.value.name, req.standalone.value.bytes))
  }

  /** Every member but the manifest, and the standalone file, hold their exact synced bytes. */
  ghost predicate ContentComplete(fs: Fs, p: Ident, req: Request) {
    (forall i :: 0 <= i < |req.members| ==> Holds(fs, p, req.members[i])) && StandaloneHeld(fs, req)
  }

  ghost predicate ManifestLast(base: Fs, fs: Fs, req: Request) {
    forall p :: p in fs.dirs && p !in base.dirs && req.manifest.name in fs.dirs[p] ==> ContentComplete(fs, p, req)
  }

  predicate PackEntry(req: Request, d: Ident, name: string) {
    d == req.storeId && name == req.packName
  }

  predicate StandaloneEntry(req: Request, d: Ident, name: string) {
    req.standalone.Some? && req.standalone.value.at == d && name == req.standalone.value.name
  }

  /** The only new directory is the pack, the only new names are the pack's and the standalone file's. */
  ghost predicate OnlyRequested(base: Fs, fs: Fs, req: Request) {
    && (forall d :: d in fs.dirs && d !in base.dirs ==>
          req.storeId in fs.dirs && req.packName in fs.dirs[req.storeId] && fs.dirs[req.storeId][req.packName] == d)
    && (forall d, name :: d in base.dirs && d in fs.dirs && name in fs.dirs[d] && name !in base.dirs[d] ==>
          PackEntry(req, d, name) || StandaloneEntry(req, d, name))
  }

  ghost predicate Safe(base: Fs, fs: Fs, req: Request) {
    Preserves(base, fs) && ManifestLast(base, fs, req) && OnlyRequested(base, fs, req)
  }

  // -----------------------------------------------------------------------
  // While the pack is being filled
  // -----------------------------------------------------------------------

  ghost predicate InPack(base: Fs, fs: Fs, req: Request, p: Ident) {
    && WellFormed(base) && WellFormed(fs) && base.next <= p < fs.next
    && req.storeId in base.dirs && req.packName !in base.dirs[req.storeId]
    && Preserves(base, fs)
    && (forall d :: d in fs.dirs <==> d in base.dirs || d == p)
    && req.packName in fs.dirs[req.storeId] && fs.dirs[req.storeId][req.packName] == p
    && p !in fs.files
  }

  ghost predicate NewNames(base: Fs, fs: Fs, req: Request) {
    forall d, name :: d in base.dirs && d in fs.dirs && name in fs.dirs[d] && name !in base.dirs[d] ==>
      fs.dirs[d][name] >= base.next && (PackEntry(req, d, name) || StandaloneEntry(req, d, name))
  }

  /** The pack exists and is without its manifest. */
  ghost predicate Filling(base: Fs, fs: Fs, req: Request, p: Ident) {
    InPack(base, fs, req, p) && NewNames(base, fs, req) && req.manifest.name !in fs.dirs[p]
  }

  /** A file of this run: never one that was there before. */
  ghost predicate Ours(base: Fs, fs: Fs, p: Ident, id: Ident) {
    id >= base.next && id != p && id in fs.files
  }

  ghost predicate AllOurs(base: Fs, fs: Fs, p: Ident, recorded: seq<Created>) {
    forall i :: 0 <= i < |recorded| ==> Ours(base, fs, p, recorded[i].id)
  }

  ghost predicate SafeFrom(base: Fs, req: Request, states: seq<Fs>, from: nat) {
    from <= |states| && forall i :: from <= i < |states| ==> Safe(base, states[i], req)
  }

  lemma SafeFurther(base: Fs, req: Request, start: seq<Fs>, states: seq<Fs>, more: seq<Fs>)
    requires start <= states <= more
    requires SafeFrom(base, req, states, |start|) && SafeFrom(base, req, more, |states|)
    ensures start <= more && SafeFrom(base, req, more, |start|)
  {
    forall i | |start| <= i < |states|
      ensures Safe(base, more[i], req)
    {
      assert more[i] == states[i];
    }
  }

  lemma FillingIsSafe(base: Fs, fs: Fs, req: Request, p: Ident)
    requires Filling(base, fs, req, p)
    ensures Safe(base, fs, req)
  {}

  lemma MadeDir(base: Fs, req: Request)
    requires WellFormed(base) && req.storeId in base.dirs && req.packName !in base.dirs[req.storeId]
    ensures Filling(base, AddDir(base, req.storeId, req.packName), req, base.next)
  {}

  lemma MadeFile(base: Fs, fs: Fs, req: Request, p: Ident, d: Ident, name: string)
    requires Filling(base, fs, req, p) && d in fs.dirs && name !in fs.dirs[d]
    requires (d == p && name != req.manifest.name) || (d in base.dirs && StandaloneEntry(req, d, name))
    ensures Filling(base, AddFile(fs, d, name), req, p) && Ours(base, AddFile(fs, d, name), p, fs.next)
  {}

  lemma WroteFile(base: Fs, fs: Fs, req: Request, p: Ident, id: Ident, data: FileData)
    requires Filling(base, fs, req, p) && Ours(base, fs, p, id)
    ensures Filling(base, SetFile(fs, id, data), req, p)
  {}

  lemma RemovedName(base: Fs, fs: Fs, req: Request, p: Ident, d: Ident, name: string)
    requires Filling(base, fs, req, p) && d in fs.dirs && name in fs.dirs[d] && Ours(base, fs, p, fs.dirs[d][name])
    ensures Filling(base, RemoveName(fs, d, name), req, p)
  {}

  lemma RemovedPack(base: Fs, fs: Fs, req: Request, p: Ident)
    requires Filling(base, fs, req, p)
    ensures Safe(base, RemoveDir(fs, req.storeId, req.packName, p), req)
  {}

  /** Making the pack and removing it again leaves every name as it was. */
  lemma RemovedUndoesMade(fs: Fs, d: Ident, name: string)
    requires WellFormed(fs) && d in fs.dirs && name !in fs.dirs[d]
    ensures var back := RemoveDir(AddDir(fs, d, name), d, name, fs.next); back.dirs == fs.dirs && back.files == fs.files
  {
    var back := RemoveDir(AddDir(fs, d, name), d, name, fs.next);
    assert back.dirs[d] == fs.dirs[d];
  }

  /** The members written so far, and no others, hold their bytes, in files numbered above `floor`. */
  ghost predicate Written(base: Fs, fs: Fs, p: Ident, req: Request, count: nat, floor: Ident) {
    && count <= |req.members| && p in fs.dirs
    && (forall i :: 0 <= i < count ==> Holds(fs, p, req.members[i]) && fs.dirs[p][req.members[i].name] > floor)
    && (forall name :: name in fs.dirs[p] ==> exists i :: 0 <= i < count && req.members[i].name == name)
  }

  /** What was there outside the pack, or has a file of its own, is as it was. */
  ghost predicate Untouched(was: Fs, fs: Fs, p: Ident) {
    && (forall d :: d in was.dirs && d != p ==> d in fs.dirs && fs.dirs[d] == was.dirs[d])
    && (forall f :: f in was.files ==> f in fs.files && fs.files[f] == was.files[f])
  }

  lemma StillOurs(base: Fs, was: Fs, before: Fs, fs: Fs, p: Ident, recorded: seq<Created>, created: Created)
    requires Untouched(was, before, p) && Untouched(before, fs, p) && AllOurs(base, before, p, recorded)
    ensures Untouched(was, fs, p) && AllOurs(base, fs, p, recorded)
    ensures Ours(base, fs, p, created.id) ==> AllOurs(base, fs, p, recorded + [created])
  {}

  lemma NextNameIsFree(base: Fs, fs: Fs, p: Ident, req: Request, k: nat, floor: Ident)
    requires ValidRequest(req) && Written(base, fs, p, req, k, floor)
    ensures k < |req.members| ==> req.members[k].name !in fs.dirs[p]
    ensures req.manifest.name !in fs.dirs[p]
  {}

  lemma FileLeavesRest(fs: Fs, p: Ident, name: string, data: FileData)
    requires WellFormed(fs) && p in fs.dirs
    ensures Untouched(fs, AddFile(fs, p, name), p) && Untouched(fs, SetFile(AddFile(fs, p, name), fs.next, data), p)
  {}

  lemma MemberIsWritten(base: Fs, fs: Fs, p: Ident, req: Request, k: nat, floor: Ident)
    requires WellFormed(fs) && ValidRequest(req) && k < |req.members| && floor < fs.next
    requires Written(base, fs, p, req, k, floor)
    ensures Written(base, SetFile(AddFile(fs, p, req.members[k].name), fs.next,
                                  FileData(req.members[k].bytes, true)), p, req, k + 1, floor)
  {
    NextNameIsFree(base, fs, p, req, k, floor);
    var full := SetFile(AddFile(fs, p, req.members[k].name), fs.next, FileData(req.members[k].bytes, true));
    forall name | name in full.dirs[p]
      ensures exists i :: 0 <= i < k + 1 && req.members[i].name == name
    {
      if name == req.members[k].name {
        assert req.members[k].name == name;
      } else {
        assert name in fs.dirs[p];
      }
    }
  }

  /** The whole request is there: every file with its exact synced bytes, and no other name in the pack. */
  ghost predicate Committed(base: Fs, fs: Fs, req: Request) {
    && req.storeId in fs.dirs && req.packName in fs.dirs[req.storeId]
    && var p := fs.dirs[req.storeId][req.packName];
      && p !in base.dirs && ContentComplete(fs, p, req) && Holds(fs, p, req.manifest)
      && (forall name :: name in fs.dirs[p] ==>
          name == req.manifest.name || exists i :: 0 <= i < |req.members| && req.members[i].name == name)
  }

  /** Adding the manifest's file, with whatever bytes, disturbs no content. */
  lemma ManifestLeavesContent(base: Fs, fs: Fs, req: Request, p: Ident, data: FileData)
    requires Filling(base, fs, req, p) && ContentComplete(fs, p, req)
    ensures ContentComplete(SetFile(AddFile(fs, p, req.manifest.name), fs.next, data), p, req)
  {}

  lemma ManifestIsLast(base: Fs, fs: Fs, req: Request, p: Ident, data: FileData)
    requires Filling(base, fs, req, p) && ContentComplete(fs, p, req)
    ensures Safe(base, SetFile(AddFile(fs, p, req.manifest.name), fs.next, data), req)
  {
    ManifestLeavesContent(base, fs, req, p, data);
  }

  lemma ReservedManifest(fs: Fs, p: Ident, name: string)
    requires p in fs.dirs
    ensures SetFile(AddFile(fs, p, name), fs.next, FileData([], false)) == AddFile(fs, p, name)
  {
    assert AddFile(fs, p, name).files == SetFile(AddFile(fs, p, name), fs.next, FileData([], false)).files;
  }

  lemma ManifestCommits(base: Fs, fs: Fs, req: Request, p: Ident, floor: Ident)
    requires Filling(base, fs, req, p) && ContentComplete(fs, p, req) && Written(base, fs, p, req, |req.members|, floor)
    ensures Committed(base, SetFile(AddFile(fs, p, req.manifest.name), fs.next, FileData(req.manifest.bytes, true)),
                      req)
  {
    ManifestLeavesContent(base, fs, req, p, FileData(req.manifest.bytes, true));
  }

  lemma StandaloneIsWritten(base: Fs, fs: Fs, req: Request, p: Ident, id: Ident)
    requires Filling(base, fs, req, p) && Ours(base, fs, p, id) && Written(base, fs, p, req, |req.members|, id)
    requires req.standalone.Some? && req.standalone.value.at in fs.dirs
    requires req.standalone.value.name in fs.dirs[req.standalone.value.at]
    requires fs.dirs[req.standalone.value.at][req.standalone.value.name] == id
    ensures var full := SetFile(fs, id, FileData(req.standalone.value.bytes, true));
            Written(base, full, p, req, |req.members|, id) && ContentComplete(full, p, req)
  {}

  /** The standalone name is taken, by an old file or by the pack itself. */
  predicate StandaloneTaken(base: Fs, req: Request) {
    && req.standalone.Some?
    && var s := req.standalone.value;
      PackEntry(req, s.at, s.name) || (s.at in base.dirs && s.name in base.dirs[s.at])
  }

  lemma TakenBefore(base: Fs, req: Request)
    requires req.storeId in base.dirs && req.standalone.Some? && req.standalone.value.at in base.dirs
    requires req.standalone.value.name in AddDir(base, req.storeId, req.packName).dirs[req.standalone.value.at]
    ensures StandaloneTaken(base, req)
  {}

  datatype Thrown = AlreadyThere | Mismatch | Other

  /** What stands in the way of the standalone file. */
  function StandaloneObstacle(fs: Fs, req: Request): Option<Thrown>
    requires req.standalone.Some? ==> req.standalone.value.at in fs.dirs
  {
    if req.standalone.None? then None
    else if req.standalone.value.at != req.standalone.value.parentId then Some(Mismatch)
    else if req.standalone.value.name in fs.dirs[req.standalone.value.at] then Some(AlreadyThere)
    else None
  }

  function AnswerTo(thrown: Option<Thrown>): Response {
    match thrown
    case None => Ok
    case Some(AlreadyThere) => StandaloneExists
    case Some(Mismatch) => IdentityMismatch
    case Some(Other) => DurabilityUnconfirmed
  }

  /** The answer when no call goes wrong. */
  function Expected(fs: Fs, cwd: Ident, req: Request): Response
    requires cwd in fs.dirs && (req.standalone.Some? ==> req.standalone.value.at in fs.dirs)
  {
    if cwd != req.storeId then IdentityMismatch
    else if req.packName in fs.dirs[cwd] then PackExists
    else AnswerTo(StandaloneObstacle(AddDir(fs, cwd, req.packName), req))
  }

  /** When no call goes wrong: each answer by the names and identities found, and never "unconfirmed". */
  lemma ExpectedExactly(fs: Fs, cwd: Ident, req: Request)
    requires WellFormed(fs) && cwd in fs.dirs && (req.standalone.Some? ==> req.standalone.value.at in fs.dirs)
    ensures var answer, here := Expected(fs, cwd, req), cwd == req.storeId;
      var free := here && req.packName !in fs.dirs[cwd];
      var moved := req.standalone.Some? && req.standalone.value.at != req.standalone.value.parentId;
      && (answer.PackExists? <==> here && req.packName in fs.dirs[cwd])
      && (answer.IdentityMismatch? <==> !here || (free && moved))
      && (answer.StandaloneExists? <==> free && !moved && StandaloneTaken(fs, req))
      && (answer.Ok? <==> free && !moved && !StandaloneTaken(fs, req))
  {}

  // -----------------------------------------------------------------------
  // What one reads
  // -----------------------------------------------------------------------

  /** The file at the name, if there is one. */
  function Read(fs: Fs, d: Ident, name: string): Option<FileData> {
    if d in fs.dirs && name in fs.dirs[d] && fs.dirs[d][name] in fs.files then Some(fs.files[fs.dirs[d][name]])
    else None
  }

  function Synced(bytes: seq<Byte>): Option<FileData> {
    Some(FileData(bytes, true))
  }

  /** In every state that a crash can leave, old names read as they did. */
  lemma OldNamesRead(base: Fs, fs: Fs, req: Request, d: Ident, name: string)
    requires Safe(base, fs, req) && Read(base, d, name).Some?
    ensures Read(fs, d, name) == Read(base, d, name)
  {}

  /** And whoever finds the manifest in a new directory reads every member, and the standalone file, whole. */
  lemma ManifestMeansWhole(base: Fs, fs: Fs, req: Request, p: Ident)
    requires Safe(base, fs, req) && p in fs.dirs && p !in base.dirs && req.manifest.name in fs.dirs[p]
    ensures forall i :: 0 <= i < |req.members| ==> Read(fs, p, req.members[i].name) == Synced(req.members[i].bytes)
    ensures req.standalone.Some? ==>
              Read(fs, req.standalone.value.at, req.standalone.value.name) == Synced(req.standalone.value.bytes)
  {
    assert ContentComplete(fs, p, req);
    forall i | 0 <= i < |req.members|
      ensures Read(fs, p, req.members[i].name) == Synced(req.members[i].bytes)
    {
      assert Holds(fs, p, req.members[i]);
    }
  }

  /** After success the pack under its name reads as the request: every member, the manifest, and nothing else. */
  lemma CommittedReads(base: Fs, fs: Fs, req: Request)
    requires Committed(base, fs, req)
    ensures req.storeId in fs.dirs && req.packName in fs.dirs[req.storeId]
    ensures var p := fs.dirs[req.storeId][req.packName];
      && p !in base.dirs && p in fs.dirs
      && (forall i :: 0 <= i < |req.members| ==> Read(fs, p, req.members[i].name) == Synced(req.members[i].bytes))
      && Read(fs, p, req.manifest.name) == Synced(req.manifest.bytes)
      && (forall name :: name in fs.dirs[p] && name != req.manifest.name ==>
            exists i :: 0 <= i < |req.members| && req.members[i].name == name)
      && (req.standalone.Some? ==>
            Read(fs, req.standalone.value.at, req.standalone.value.name) == Synced(req.standalone.value.bytes))
  {
    var p := fs.dirs[req.storeId][req.packName];
    forall i | 0 <= i < |req.members|
      ensures Read(fs, p, req.members[i].name) == Synced(req.members[i].bytes)
    {
      assert Holds(fs, p, req.members[i]);
    }
  }

  /** Of new names there are only the pack's and the standalone file's, and the pack is the only new directory. */
  lemma NothingElseIsNew(base: Fs, fs: Fs, req: Request, d: Ident, name: string)
    requires Safe(base, fs, req) && d in fs.dirs && name in fs.dirs[d]
    ensures d in base.dirs && name !in base.dirs[d] ==>
              (d == req.storeId && name == req.packName)
              || (req.standalone.Some? && d == req.standalone.value.at && name == req.standalone.value.name)
    ensures d !in base.dirs ==> req.storeId in fs.dirs && req.packName in fs.dirs[req.storeId]
                                && fs.dirs[req.storeId][req.packName] == d
  {}

  // -----------------------------------------------------------------------
  // What cleanup has on record
  // -----------------------------------------------------------------------

  /** The recorded file is still where it was created. */
  predicate At(fs: Fs, d: Ident, c: Created)
    requires d in fs.dirs
  {
    c.name in fs.dirs[d] && fs.dirs[d][c.name] == c.id
  }

  predicate AllAt(fs: Fs, d: Ident, recorded: seq<Created>)
    requires d in fs.dirs
  {
    forall i :: 0 <= i < |recorded| ==> At(fs, d, recorded[i])
  }

  predicate DistinctNames(recorded: seq<Created>) {
    forall i, j :: 0 <= i < j < |recorded| ==> recorded[i].name != recorded[j].name
  }

  function NamesOf(recorded: seq<Created>): set<string> {
    set c | c in recorded :: c.name
  }

  /** The directory without some of its names. */
  function Without(fs: Fs, d: Ident, names: set<string>): Fs
    requires d in fs.dirs
  {
    fs.(dirs := fs.dirs[d := fs.dirs[d] - names])
  }

  /**
   * What the source relies on: the pack holds nothing but recorded files, each at its name, and so does the
   * standalone parent.
   */
  predicate OnRecord(fs: Fs, req: Request, p: Ident, recorded: seq<Created>, standalone: Option<Created>)
    requires p in fs.dirs && (standalone.Some? ==> req.standalone.Some? && req.standalone.value.at in fs.dirs)
  {
    && AllAt(fs, p, recorded) && fs.dirs[p].Keys <= NamesOf(recorded)
    && (standalone.Some? ==> At(fs, req.standalone.value.at, standalone.value))
  }

  /** A standalone file was created outside the pack without being recorded. */
  predicate StandaloneUnrecorded(base: Fs, fs: Fs, req: Request, standalone: Option<Created>) {
    && req.standalone.Some? && standalone.None?
    && var s := req.standalone.value;
      && s.at in base.dirs && s.at in fs.dirs && s.name in fs.dirs[s.at] && s.name !in base.dirs[s.at]
      && !PackEntry(req, s.at, s.name)
  }

  lemma StandaloneOnRecord(base: Fs, fs: Fs, req: Request, standalone: Option<Created>)
    ensures req.standalone.None? || standalone.Some? ==> !StandaloneUnrecorded(base, fs, req, standalone)
  {}

  lemma WithoutNothing(fs: Fs, d: Ident)
    requires d in fs.dirs
    ensures Without(fs, d, {}) == fs
  {
    assert fs.dirs[d] - {} == fs.dirs[d];
  }

  lemma WithoutOneMore(fs: Fs, d: Ident, names: set<string>, name: string)
    requires d in fs.dirs
    ensures RemoveName(Without(fs, d, names), d, name) == Without(fs, d, names + {name})
  {
    assert fs.dirs[d] - names - {name} == fs.dirs[d] - (names + {name});
  }

  lemma NamesOfTail(recorded: seq<Created>, i: nat)
    requires i < |recorded|
    ensures NamesOf(recorded[i..]) == NamesOf(recorded[i + 1..]) + {recorded[i].name}
  {
    assert recorded[i..] == [recorded[i]] + recorded[i + 1..];
  }

  lemma TailNamesDiffer(recorded: seq<Created>, i: nat)
    requires i < |recorded| && DistinctNames(recorded)
    ensures recorded[i].name !in NamesOf(recorded[i + 1..])
  {}

  /** The recorded files from `i` on have been dealt with: `gone` are the names that went. */
  ghost predicate Progress(was: Fs, now: Fs, p: Ident, recorded: seq<Created>, i: nat, gone: set<string>,
                           clean: bool, quiet: bool) {
    && p in was.dirs && i <= |recorded|
    && now == Without(was, p, gone) && gone <= NamesOf(recorded[i..])
    && (clean ==> gone == NamesOf(recorded[i..]))
    && (quiet && DistinctNames(recorded) ==> (clean <==> AllAt(was, p, recorded[i..])))
  }

  lemma ProgressStarts(fs: Fs, p: Ident, recorded: seq<Created>, quiet: bool)
    requires p in fs.dirs
    ensures Progress(fs, fs, p, recorded, |recorded|, {}, true, quiet)
  {
    WithoutNothing(fs, p);
    assert recorded[|recorded|..] == [];
  }

  /** Unlinking the file at `i`, after the later ones. */
  lemma ProgressStep(was: Fs, now: Fs, after: Fs, p: Ident, recorded: seq<Created>, i: nat, gone: set<string>,
                     clean: bool, quiet: bool, went: bool) returns (more: set<string>)
    requires i < |recorded| && Progress(was, now, p, recorded, i + 1, gone, clean, quiet)
    requires after == RemoveName(now, p, recorded[i].name) || (after == now && !went)
    requires quiet ==> (went <==> At(now, p, recorded[i]))
    ensures Progress(was, after, p, recorded, i, more, went && clean, quiet)
  {
    more := if after == now && !went then gone else gone + {recorded[i].name};
    WithoutOneMore(was, p, gone, recorded[i].name);
    NamesOfTail(recorded, i);
    if DistinctNames(recorded) {
      TailNamesDiffer(recorded, i);
      AllAtTail(was, p, recorded, i);
    }
  }

  lemma AllAtTail(fs: Fs, p: Ident, recorded: seq<Created>, i: nat)
    requires p in fs.dirs && i < |recorded|
    ensures AllAt(fs, p, recorded[i..]) <==> At(fs, p, recorded[i]) && AllAt(fs, p, recorded[i + 1..])
  {
    assert recorded[i..] == [recorded[i]] + recorded[i + 1..];
  }

  lemma ProgressEnds(was: Fs, now: Fs, p: Ident, recorded: seq<Created>, gone: set<string>, clean: bool, quiet: bool)
    requires Progress(was, now, p, recorded, 0, gone, clean, quiet)
    ensures clean ==> now == Without(was, p, NamesOf(recorded))
    ensures quiet && DistinctNames(recorded) ==> (clean <==> AllAt(was, p, recorded))
  {
    assert recorded[0..] == recorded;
  }

  /** The recorded files and the standalone file are unlinked. */
  function Unlinked(fs: Fs, req: Request, p: Ident, recorded: seq<Created>, standalone: Option<Created>): Fs
    requires p in fs.dirs && (standalone.Some? ==> req.standalone.Some? && req.standalone.value.at in fs.dirs)
  {
    var bare := Without(fs, p, NamesOf(recorded));
    if standalone.Some? then RemoveName(bare, req.standalone.value.at, standalone.value.name) else bare
  }

  /** Unlinking the recorded files empties the pack just when it holds no other name. */
  lemma EmptyIffOnRecord(base: Fs, fs: Fs, req: Request, p: Ident, recorded: seq<Created>, standalone: Option<Created>)
    requires InPack(base, fs, req, p)
    requires standalone.Some? ==> req.standalone.Some? && req.standalone.value.at in base.dirs
    ensures |Unlinked(fs, req, p, recorded, standalone).dirs[p]| == 0 <==> fs.dirs[p].Keys <= NamesOf(recorded)
  {
    assert Unlinked(fs, req, p, recorded, standalone).dirs[p] == fs.dirs[p] - NamesOf(recorded);
    EmptyWithout(fs.dirs[p], NamesOf(recorded));
  }

  lemma EmptyWithout(names: Names, gone: set<string>)
    ensures |names - gone| == 0 <==> names.Keys <= gone
  {
    if names.Keys <= gone {
      assert names - gone == map[];
    } else {
      var name :| name in names && name !in gone;
      assert name in names - gone;
    }
  }

  /**
   * With the pack gone as well, one directory has exactly its old names unless it holds an unrecorded standalone
   * file.
   */
  lemma DirectoryRestored(base: Fs, was: Fs, req: Request, p: Ident, recorded: seq<Created>,
                          standalone: Option<Created>, d: Ident)
    requires Filling(base, was, req, p) && d in base.dirs
    requires standalone.Some? ==>
               req.standalone.Some? && req.standalone.value.at in base.dirs && standalone.value.id >= base.next
               && standalone.value.id != p && standalone.value.name == req.standalone.value.name
               && At(was, req.standalone.value.at, standalone.value)
    ensures RemoveDir(Unlinked(was, req, p, recorded, standalone), req.storeId, req.packName, p).dirs[d] == base.dirs[d]
            <==> !(StandaloneUnrecorded(base, was, req, standalone) && req.standalone.value.at == d)
  {
    var now := RemoveDir(Unlinked(was, req, p, recorded, standalone), req.storeId, req.packName, p).dirs[d];
    forall name | name in base.dirs[d]
      ensures name in now && now[name] == base.dirs[d][name]
    {
      assert was.dirs[d][name] == base.dirs[d][name] < base.next;
    }
    if StandaloneUnrecorded(base, was, req, standalone) && req.standalone.value.at == d {
      assert req.standalone.value.name in now && req.standalone.value.name !in base.dirs[d];
    } else {
      assert forall name :: name in now ==> name in base.dirs[d];
    }
  }

  lemma SameDirectories(base: Fs, was: Fs, req: Request, p: Ident, recorded: seq<Created>, standalone: Option<Created>)
    requires Filling(base, was, req, p)
    requires standalone.Some? ==> req.standalone.Some? && req.standalone.value.at in base.dirs
    ensures RemoveDir(Unlinked(was, req, p, recorded, standalone), req.storeId, req.packName, p).dirs.Keys ==
            base.dirs.Keys
  {
    var now := RemoveDir(Unlinked(was, req, p, recorded, standalone), req.storeId, req.packName, p);
    forall d
      ensures d in now.dirs <==> d in base.dirs
    {
      assert d in now.dirs <==> d in was.dirs && d != p;
      assert p !in base.dirs;
    }
  }

  lemma NamespaceRestored(base: Fs, was: Fs, req: Request, p: Ident, recorded: seq<Created>,
                          standalone: Option<Created>)
    requires Filling(base, was, req, p)
    requires standalone.Some? ==>
               req.standalone.Some? && req.standalone.value.at in base.dirs && standalone.value.id >= base.next
               && standalone.value.id != p && standalone.value.name == req.standalone.value.name
               && At(was, req.standalone.value.at, standalone.value)
    ensures RemoveDir(Unlinked(was, req, p, recorded, standalone), req.storeId, req.packName, p).dirs == base.dirs
            <==> !StandaloneUnrecorded(base, was, req, standalone)
  {
    var now := RemoveDir(Unlinked(was, req, p, recorded, standalone), req.storeId, req.packName, p);
    SameDirectories(base, was, req, p, recorded, standalone);
    forall d | d in base.dirs
      ensures now.dirs[d] == base.dirs[d] <==>
                !(StandaloneUnrecorded(base, was, req, standalone) && req.standalone.value.at == d)
    {
      DirectoryRestored(base, was, req, p, recorded, standalone, d);
    }
  }

  lemma StrandedIsNotEmpty(was: Fs, fs: Fs, req: Request, p: Ident)
    requires p in was.dirs && req.members != [] && Stranded(was, fs, req, p)
    ensures |fs.dirs[p]| != 0
  {
    assert req.members[0].name in fs.dirs[p].Keys;
  }

  /** The standalone file of this run is where it was reserved. */
  ghost predicate StandaloneReserved(base: Fs, fs: Fs, req: Request, p: Ident, id: Ident)
    requires req.standalone.Some?
  {
    var s := req.standalone.value;
    s.at in base.dirs && s.at in fs.dirs && s.name in fs.dirs[s.at] && fs.dirs[s.at][s.name] == id
      && Ours(base, fs, p, id)
  }

  /**
   * The pack holds the recorded files, each at its name, and besides them the file that was created without
   * being recorded, if there is one.
   */
  ghost predicate Tracked(fs: Fs, p: Ident, recorded: seq<Created>, lost: Option<string>) {
    && p in fs.dirs && DistinctNames(recorded) && AllAt(fs, p, recorded)
    && fs.dirs[p].Keys == NamesOf(recorded) + (if lost.Some? then {lost.value} else {})
    && (lost.Some? ==> lost.value !in NamesOf(recorded))
  }

  lemma TrackedAtFirst(fs: Fs, p: Ident)
    requires p in fs.dirs && fs.dirs[p] == map[]
    ensures Tracked(fs, p, [], None)
  {}

  lemma TrackedRecorded(was: Fs, fs: Fs, p: Ident, recorded: seq<Created>, name: string)
    requires Tracked(was, p, recorded, None) && name !in was.dirs[p] && fs.dirs == AddFile(was, p, name).dirs
    ensures Tracked(fs, p, recorded + [Created(name, was.next)], None)
  {
    var more := recorded + [Created(name, was.next)];
    assert NamesOf(more) == NamesOf(recorded) + {name} by {
      assert forall c :: c in more <==> c in recorded || c == Created(name, was.next);
    }
    forall i | 0 <= i < |recorded|
      ensures recorded[i].name in NamesOf(recorded) && At(was, p, recorded[i])
    {
      assert recorded[i] in recorded;
    }
  }

  lemma TrackedLost(was: Fs, p: Ident, recorded: seq<Created>, name: string)
    requires Tracked(was, p, recorded, None) && name !in was.dirs[p]
    ensures Tracked(AddFile(was, p, name), p, recorded, Some(name))
  {
    forall i | 0 <= i < |recorded|
      ensures recorded[i].name in NamesOf(recorded) && At(was, p, recorded[i])
    {
      assert recorded[i] in recorded;
    }
  }

  lemma TrackedByNames(was: Fs, fs: Fs, p: Ident, recorded: seq<Created>, lost: Option<string>)
    requires Tracked(was, p, recorded, lost) && fs.dirs == was.dirs
    ensures Tracked(fs, p, recorded, lost)
  {}

  /** The first `k` members have been tried, and written when `ok`. */
  ghost predicate MembersSoFar(base: Fs, was: Fs, fs: Fs, req: Request, p: Ident, floor: Ident, k: nat, ok: bool,
                               recorded: seq<Created>, lost: Option<string>) {
    && p in was.dirs && Filling(base, fs, req, p) && Untouched(was, fs, p) && AllOurs(base, fs, p, recorded)
    && Tracked(fs, p, recorded, lost)
    && (ok ==> lost.None? && |recorded| == k && Written(base, fs, p, req, k, floor) && (k == 0 ==> fs == was))
    && (lost.Some? ==>
          && |recorded| < |req.members| && lost.value == req.members[|recorded|].name
          && (recorded == [] ==> fs == AddFile(was, p, lost.value)))
  }

  /** Writing member `k` has been tried from the state `was`. */
  ghost predicate MemberTried(base: Fs, was: Fs, fs: Fs, req: Request, p: Ident, floor: Ident, k: nat, r: Call,
                              created: Created, reserved: bool) {
    && k < |req.members| && p in was.dirs && req.members[k].name !in was.dirs[p]
    && Filling(base, fs, req, p) && fs.next >= was.next && Untouched(was, fs, p) && !r.Exists?
    && (r.Done? ==> reserved && Written(base, fs, p, req, k + 1, floor))
    && (if reserved then
          && created == Created(req.members[k].name, was.next) && Ours(base, fs, p, created.id)
          && fs.dirs == AddFile(was, p, req.members[k].name).dirs
        else fs == was || fs == AddFile(was, p, req.members[k].name))
  }

  lemma MemberFilled(base: Fs, was: Fs, fs: Fs, req: Request, p: Ident, floor: Ident, k: nat, created: Created, r: Call)
    requires k < |req.members| && p in was.dirs && req.members[k].name !in was.dirs[p] && !r.Exists?
    requires Filling(base, fs, req, p) && Untouched(was, fs, p)
    requires created == Created(req.members[k].name, was.next) && Ours(base, fs, p, created.id)
    requires fs.next == was.next + 1 && fs.dirs == AddFile(was, p, req.members[k].name).dirs
    requires r.Done? ==> Written(base, fs, p, req, k + 1, floor)
    ensures MemberTried(base, was, fs, req, p, floor, k, r, created, true)
  {}

  lemma MemberUnreserved(base: Fs, was: Fs, fs: Fs, req: Request, p: Ident, floor: Ident, k: nat, created: Created)
    requires k < |req.members| && p in was.dirs && req.members[k].name !in was.dirs[p]
    requires Filling(base, fs, req, p) && Untouched(was, fs, p)
    requires fs == was || fs == AddFile(was, p, req.members[k].name)
    ensures MemberTried(base, was, fs, req, p, floor, k, Failed, created, false)
  {}

  lemma OneMoreMember(base: Fs, was: Fs, before: Fs, fs: Fs, req: Request, p: Ident, floor: Ident, k: nat, r: Call,
                      recorded: seq<Created>, created: Created)
    requires MembersSoFar(base, was, before, req, p, floor, k, true, recorded, None)
    requires MemberTried(base, before, fs, req, p, floor, k, r, created, true)
    ensures MembersSoFar(base, was, fs, req, p, floor, k + 1, r.Done?, recorded + [created], None)
  {
    StillOurs(base, was, before, fs, p, recorded, created);
    TrackedRecorded(before, fs, p, recorded, req.members[k].name);
  }

  lemma NoMoreMember(base: Fs, was: Fs, before: Fs, fs: Fs, req: Request, p: Ident, floor: Ident, k: nat, r: Call,
                     recorded: seq<Created>, created: Created)
    requires MembersSoFar(base, was, before, req, p, floor, k, true, recorded, None)
    requires MemberTried(base, before, fs, req, p, floor, k, r, created, false)
    ensures MembersSoFar(base, was, fs, req, p, floor, k + 1, false, recorded,
                         if fs == before then None else Some(req.members[k].name))
  {
    StillOurs(base, was, before, fs, p, recorded, created);
    if fs != before {
      TrackedLost(before, p, recorded, req.members[k].name);
    }
  }

  /** The content is there, and the manifest comes next. */
  ghost predicate Ready(base: Fs, fs: Fs, req: Request, p: Ident, floor: Ident) {
    Filling(base, fs, req, p) && ContentComplete(fs, p, req) && Written(base, fs, p, req, |req.members|, floor)
  }

  /** Where the content's writing has got to, or stopped. */
  ghost predicate ContentTried(base: Fs, was: Fs, fs: Fs, req: Request, p: Ident, thrown: Option<Thrown>,
                               recorded: seq<Created>, created: Option<Created>, started: bool, lost: Option<string>) {
    && Filling(base, fs, req, p) && AllOurs(base, fs, p, recorded) && Tracked(fs, p, recorded, lost)
    && (created.Some? ==> StandaloneCreated(base, fs, req, p, created.value))
    && (!started && thrown in {Some(AlreadyThere), Some(Mismatch)} ==>
          fs == was && recorded == [] && created.None?)
    && (!started && thrown == Some(AlreadyThere) ==>
          && req.standalone.Some? && req.standalone.value.at in was.dirs
          && req.standalone.value.name in was.dirs[req.standalone.value.at])
  }

  ghost predicate StandaloneCreated(base: Fs, fs: Fs, req: Request, p: Ident, created: Created) {
    && req.standalone.Some? && req.standalone.value.at in base.dirs && req.standalone.value.at in fs.dirs
    && created.name == req.standalone.value.name && Ours(base, fs, p, created.id)
    && At(fs, req.standalone.value.at, created)
  }

  lemma ContentStopped(base: Fs, was: Fs, fs: Fs, req: Request, p: Ident, thrown: Thrown)
    requires Filling(base, fs, req, p) && fs.dirs[p] == map[] && (thrown.Other? || fs == was)
    requires thrown.AlreadyThere? ==>
               && req.standalone.Some? && req.standalone.value.at in was.dirs
               && req.standalone.value.name in was.dirs[req.standalone.value.at]
    ensures ContentTried(base, was, fs, req, p, Some(thrown), [], None, false, None)
  {
    TrackedAtFirst(fs, p);
  }

  lemma ContentFromReserved(base: Fs, was: Fs, fs: Fs, req: Request, p: Ident, thrown: Option<Thrown>,
                            recorded: seq<Created>, created: Option<Created>, started: bool, lost: Option<string>,
                            mark: Ident)
    requires Filling(base, fs, req, p) && AllOurs(base, fs, p, recorded) && Tracked(fs, p, recorded, lost)
    requires if req.standalone.None? then created.None?
             else StandaloneReserved(base, fs, req, p, mark)
                  && created == Some(Created(req.standalone.value.name, mark))
    requires thrown in {None, Some(Other)}
    ensures ContentTried(base, was, fs, req, p, thrown, recorded, created, started, lost)
  {}

  /** What a writer that gave up on its content leaves and answers. */
  ghost predicate GivenUp(base: Fs, was: Fs, fs: Fs, req: Request, p: Ident, answer: Response) {
    && Safe(base, fs, req) && answer in {StandaloneExists, IdentityMismatch, DurabilityUnconfirmed}
    && (!answer.DurabilityUnconfirmed? ==>
          req.storeId in was.dirs && fs == RemoveDir(was, req.storeId, req.packName, p))
    && (answer.StandaloneExists? ==>
          && req.standalone.Some? && req.standalone.value.at in was.dirs
          && req.standalone.value.name in was.dirs[req.standalone.value.at])
  }

  lemma AnswersAsGivenUp(base: Fs, was: Fs, before: Fs, fs: Fs, req: Request, p: Ident, thrown: Thrown,
                         recorded: seq<Created>, created: Option<Created>, started: bool, lost: Option<string>,
                         answer: Response)
    requires ContentTried(base, was, before, req, p, Some(thrown), recorded, created, started, lost)
    requires Safe(base, fs, req)
    requires answer.DurabilityUnconfirmed? || (!started && answer == AnswerTo(Some(thrown)))
    requires !answer.DurabilityUnconfirmed? && recorded == [] && created.None? ==>
               fs == RemoveDir(before, req.storeId, req.packName, p)
    ensures GivenUp(base, was, fs, req, p, answer)
  {}

  /** What cleanup leaves: the old names, or the pack with the lost file and nothing else beside the old names. */
  ghost predicate LeftOver(base: Fs, fs: Fs, req: Request, p: Ident, lost: Option<string>) {
    match lost
    case None => fs.dirs == base.dirs
    case Some(name) =>
      && p in fs.dirs && req.storeId in fs.dirs && fs.dirs[p].Keys == {name}
      && RemoveDir(fs, req.storeId, req.packName, p).dirs == base.dirs
  }

  /** Unlinking what is on record leaves in the pack just what was lost. */
  lemma LostStays(base: Fs, fs: Fs, req: Request, p: Ident, recorded: seq<Created>, standalone: Option<Created>,
                  lost: Option<string>)
    requires InPack(base, fs, req, p) && Tracked(fs, p, recorded, lost)
    requires standalone.Some? ==> req.standalone.Some? && req.standalone.value.at in base.dirs
    ensures Unlinked(fs, req, p, recorded, standalone).dirs[p].Keys == if lost.Some? then {lost.value} else {}
    ensures fs.dirs[p].Keys <= NamesOf(recorded) <==> lost.None?
  {
    assert Unlinked(fs, req, p, recorded, standalone).dirs[p] == fs.dirs[p] - NamesOf(recorded);
    assert lost.Some? ==> lost.value in fs.dirs[p].Keys;
  }

  lemma LeftOverAfterCleanup(base: Fs, fs: Fs, req: Request, p: Ident, recorded: seq<Created>,
                             standalone: Option<Created>, lost: Option<string>)
    requires Filling(base, fs, req, p) && Tracked(fs, p, recorded, lost)
    requires standalone.Some? ==>
               req.standalone.Some? && req.standalone.value.at in base.dirs && standalone.value.id >= base.next
               && standalone.value.id != p && standalone.value.name == req.standalone.value.name
               && At(fs, req.standalone.value.at, standalone.value)
    ensures var bare := Unlinked(fs, req, p, recorded, standalone);
      var after := if |bare.dirs[p]| == 0 then RemoveDir(bare, req.storeId, req.packName, p) else bare;
      LeftOver(base, after, req, p, lost) <==> !StandaloneUnrecorded(base, fs, req, standalone)
  {
    LostStays(base, fs, req, p, recorded, standalone, lost);
    NamespaceRestored(base, fs, req, p, recorded, standalone);
    var left := Unlinked(fs, req, p, recorded, standalone).dirs[p];
    assert |left| == 0 <==> left.Keys == {};
  }

  /** The first member's file was created, and nothing else. */
  predicate Stranded(was: Fs, fs: Fs, req: Request, p: Ident)
    requires p in was.dirs && req.members != []
  {
    fs == AddFile(was, p, req.members[0].name)
  }

  /** The number of the first call from `from` on that goes wrong, or of the first after all faults. */
  function FirstFault(faults: seq<Fault>, from: nat): (n: nat)
    requires from <= |faults|
    ensures from <= n <= |faults|
    decreases |faults| - from
  {
    if from < |faults| && faults[from] == Fine then FirstFault(faults, from + 1) else from
  }

  lemma {:induction false} FirstFaultIsFirst(faults: seq<Fault>, from: nat)
    requires from <= |faults|
    ensures forall k :: from <= k < FirstFault(faults, from) ==> faults[k] == Fine
    ensures FirstFault(faults, from) < |faults| ==> faults[FirstFault(faults, from)] != Fine
    decreases |faults| - from
  {
    if from < |faults| && faults[from] == Fine {
      FirstFaultIsFirst(faults, from + 1);
    }
  }

  class Writer {
    var fs: Fs
    var cwd: Ident
    var clock: nat
    const faults: seq<Fault>
    var log: seq<Fs>

    constructor (fs: Fs, cwd: Ident, faults: seq<Fault>)
      ensures this.fs == fs && this.cwd == cwd && this.log == [fs] && this.faults == faults && this.clock == 0
    {
      this.fs, this.cwd, this.clock, this.log, this.faults := fs, cwd, 0, [fs], faults;
    }

    /** Every state logged since `from` is safe. */
    ghost predicate SafeSince(base: Fs, req: Request, from: nat)
      reads this`log
    {
      SafeFrom(base, req, log, from)
    }

    /** No call will go wrong from here on. */
    predicate Quiet()
      reads this`clock
    {
      |faults| <= clock
    }

    predicate GoesRight(n: nat) {
      n < |faults| ==> faults[n] == Fine
    }

    /** The calls before number `n` go right. */
    predicate GoRightUntil(n: nat) {
      n <= FirstFault(faults, 0) || FirstFault(faults, 0) == |faults|
    }

    /** Call number `n` goes wrong, and no other. */
    predicate OnlyFault(n: nat) {
      |faults| == n + 1 && FirstFault(faults, 0) == n
    }

    /** The only call that goes wrong is one of the `n` from number `c` on. */
    predicate FaultWithin(c: nat, n: nat) {
      c <= |faults| - 1 < c + n && OnlyFault(|faults| - 1)
    }

    /** The call that goes wrong is the mode check after the create, number `c`, or the create after its effect. */
    predicate SlipsAt(c: nat)
      requires faults != []
    {
      |faults| == c + 2 || (|faults| == c + 1 && faults[c] == After)
    }

    /** Likewise for one of the files written from number `c` on, five calls each: create, mode, write, sync, close. */
    predicate Slips(c: nat)
      requires faults != [] && c <= |faults| - 1
    {
      SlipsAt(c + (|faults| - 1 - c) / 5 * 5)
    }

    lemma GoRightUntilMeans(n: nat)
      ensures GoRightUntil(n) <==> forall k :: 0 <= k < n ==> GoesRight(k)
      ensures OnlyFault(n) ==> !GoesRight(n)
    {
      FirstFaultIsFirst(faults, 0);
      if FirstFault(faults, 0) < n {
        assert FirstFault(faults, 0) < |faults| ==> !GoesRight(FirstFault(faults, 0));
      }
    }

    lemma SlipsLater(c: nat, k: nat, n: nat)
      requires k < n && FaultWithin(c, 5 * n) && c + 5 * k <= |faults| - 1
      ensures |faults| - 1 < c + 5 * k + 5 ==>
                && (FaultWithin(c + 5 * k, 2) || (FaultWithin(c + 5 * k + 2, 3) && !SlipsAt(c + 5 * k)))
                && (|faults| - 1 - c) / 5 == k && (Slips(c) <==> SlipsAt(c + 5 * k))
      ensures |faults| - 1 >= c + 5 * k + 5 ==> GoRightUntil(c + 5 * k + 5)
    {}

    /** The call that goes wrong is one of those that write the members and the standalone file, from number `c` on. */
    predicate FaultInFiles(req: Request, c: nat) {
      FaultWithin(c, if req.standalone.Some? then 5 * |req.members| + 4 else 5 * |req.members|)
    }

    /** The member whose file is left without a record. */
    function LostMember(req: Request, c: nat): Option<string>
      requires FaultInFiles(req, c)
    {
      var k := (|faults| - 1 - c) / 5;
      if k < |req.members| && Slips(c) then Some(req.members[k].name) else None
    }

    /** The standalone file is checked and created in three calls before the members. */
    function FilesFrom(req: Request, c: nat): nat {
      if req.standalone.Some? then c + 3 else c
    }

    /** The second call is the mode check of the first of `n` files. */
    lemma FirstIsLost(n: nat, c: nat)
      requires OnlyFault(c + 1) && n > 0
      ensures FaultWithin(c, 5 * n) && Slips(c) && (|faults| - 1 - c) / 5 == 0
    {}

    /** The fault, if any, of the next call. */
    method Tick() returns (f: Fault)
      modifies this`clock
      ensures clock == old(clock) + 1
      ensures f == if old(clock) < |faults| then faults[old(clock)] else Fine
      ensures GoRightUntil(clock) ==> f == Fine
      ensures OnlyFault(old(clock)) ==> f != Fine
    {
      GoRightUntilMeans(clock);
      GoRightUntilMeans(clock + 1);
      assert GoRightUntil(clock + 1) ==> GoesRight(clock);
      f := if clock < |faults| then faults[clock] else Fine;
      clock := clock + 1;
    }

    /** A call without effect on names or bytes: stat, chmod, sync of a directory. */
    method Look() returns (ok: bool)
      modifies this`clock
      ensures clock == old(clock) + 1
      ensures ok <==> GoesRight(old(clock))
      ensures GoRightUntil(clock) ==> ok
      ensures OnlyFault(old(clock)) ==> !ok
    {
      var f := Tick();
      ok := f == Fine;
    }

    /** The process is killed: what stays is where it began, from `from` on, or a state that it went through. */
    method Die(began: Fs, from: nat, states: nat)
      requires from + states <= |log|
      modifies this`fs, this`log
      ensures log == old(log)[..from + states]
      ensures fs == if states == 0 then began else log[from + states - 1]
    {
      log := log[..from + states];
      fs := if states == 0 then began else log[from + states - 1];
    }

    method ChangeDirectory(to: Ident) returns (ok: bool)
      modifies this`clock, this`cwd
      ensures clock == old(clock) + 1
      ensures ok <==> GoesRight(old(clock))
      ensures GoRightUntil(clock) ==> ok
      ensures OnlyFault(old(clock)) ==> !ok
      ensures cwd == if ok then to else old(cwd)
    {
      ok := Look();
      if ok {
        cwd := to;
      }
    }

    method MakeDir(name: string) returns (r: Call)
      requires cwd in fs.dirs
      modifies this`fs, this`clock, this`log
      ensures clock == old(clock) + 1
      ensures GoesRight(old(clock)) || GoRightUntil(clock) ==> !r.Failed?
      ensures log == old(log) + [fs]
      ensures r.Exists? ==> fs == old(fs) && name in fs.dirs[cwd]
      ensures r.Done? ==> name !in old(fs).dirs[cwd] && fs == AddDir(old(fs), cwd, name)
      ensures r.Failed? ==> fs == old(fs) || (name !in old(fs).dirs[cwd] && fs == AddDir(old(fs), cwd, name))
    {
      var f := Tick();
      if f != Fine && f != After {
        r := Failed;
      } else if name in fs.dirs[cwd] {
        r := Exists;
      } else {
        fs := AddDir(fs, cwd, name);
        r := if f == Fine then Done else Failed;
      }
      log := log + [fs];
    }

    /** Exclusive create, then mode and identity: a failure after the create leaves the file unrecorded. */
    method ReserveFile(d: Ident, name: string) returns (r: Call, created: Created)
      requires d in fs.dirs
      modifies this`fs, this`clock, this`log
      ensures old(Quiet()) ==> Quiet() && !r.Failed?
      ensures GoRightUntil(old(clock) + 2) && name !in old(fs).dirs[d] ==> r.Done? && clock == old(clock) + 2
      ensures FaultWithin(old(clock), 2) && name !in old(fs).dirs[d] ==>
                && r.Failed? && Quiet()
                && fs == if SlipsAt(old(clock)) then AddFile(old(fs), d, name) else old(fs)
      ensures log == old(log) + [fs]
      ensures r.Exists? ==> fs == old(fs) && name in fs.dirs[d]
      ensures r.Done? ==>
                name !in old(fs).dirs[d] && fs == AddFile(old(fs), d, name) && created == Created(name, old(fs).next)
      ensures r.Failed? ==> fs == old(fs) || (name !in old(fs).dirs[d] && fs == AddFile(old(fs), d, name))
    {
      created := Created(name, fs.next);
      var f := Tick();
      if f != Fine && f != After {
        r := Failed;
      } else if name in fs.dirs[d] {
        r := Exists;
      } else {
        fs := AddFile(fs, d, name);
        var ok := Look();
        r := if f == Fine && ok then Done else Failed;
      }
      log := log + [fs];
    }

    /** Write, sync, close. A crash inside the write may leave anything in the file. */
    method WriteAndSync(id: Ident, bytes: seq<Byte>) returns (ok: bool, ghost during: FileData, ghost last: FileData)
      requires id in fs.files
      modifies this`fs, this`clock, this`log
      ensures clock == old(clock) + 3
      ensures old(Quiet()) || GoRightUntil(clock) ==> ok
      ensures FaultWithin(old(clock), 3) ==> !ok
      ensures log == old(log) + [SetFile(old(fs), id, during), fs]
      ensures fs == SetFile(old(fs), id, last)
      ensures ok ==> last == FileData(bytes, true)
    {
      var left: seq<Byte> := *;
      var torn := FileData(left, false);
      during, last := torn, fs.files[id];
      var was := fs;
      assert was == SetFile(was, id, last);
      var write := Tick();
      var sync := Tick();
      var close := Tick();
      match write {
        case Fine =>
          last := FileData(bytes, sync == Fine || sync == After);
          fs := SetFile(fs, id, FileData(bytes, sync == Fine || sync == After));
        case After =>
          last := FileData(bytes, false);
          fs := SetFile(fs, id, FileData(bytes, false));
        case Torn(part) =>
          last := FileData(part, false);
          fs := SetFile(fs, id, FileData(part, false));
        case _ =>
      }
      log := log + [SetFile(was, id, torn), fs];
      ok := write == Fine && sync == Fine && close == Fine;
    }

    method UnlinkIfSame(d: Ident, c: Created) returns (ok: bool)
      requires d in fs.dirs
      modifies this`fs, this`clock, this`log
      ensures old(Quiet()) ==> Quiet() && (ok <==> At(old(fs), d, c) && c.id in old(fs).files)
      ensures log == old(log) + [fs]
      ensures ok ==> At(old(fs), d, c) && fs == RemoveName(old(fs), d, c.name)
      ensures fs == old(fs) || (At(old(fs), d, c) && fs == RemoveName(old(fs), d, c.name))
    {
      var seen := Look();
      var same := seen && c.name in fs.dirs[d] && fs.dirs[d][c.name] == c.id && c.id in fs.files;
      ok := false;
      if same {
        var f := Tick();
        if f == Fine || f == After {
          fs := RemoveName(fs, d, c.name);
        }
        ok := f == Fine;
      }
      log := log + [fs];
    }

    /** rmdir: only an empty directory goes. */
    method RemoveEmpty(name: string, id: Ident) returns (ok: bool)
      requires cwd in fs.dirs && id in fs.dirs && name in fs.dirs[cwd] && fs.dirs[cwd][name] == id
      modifies this`fs, this`clock, this`log
      ensures old(Quiet()) ==> Quiet() && (ok <==> |old(fs).dirs[id]| == 0)
      ensures log == old(log) + [fs]
      ensures ok ==> fs == RemoveDir(old(fs), cwd, name, id)
      ensures fs == old(fs) || (fs == RemoveDir(old(fs), cwd, name, id) && |old(fs).dirs[id]| == 0)
    {
      var f := Tick();
      var empty := |fs.dirs[id]| == 0;
      if empty && (f == Fine || f == After) {
        fs := RemoveDir(fs, cwd, name, id);
      }
      log := log + [fs];
      ok := empty && f == Fine;
    }

    /** Lines 132 to 140: the pack goes if it is empty. */
    method CleanupEmptyPack(req: Request, p: Ident, ghost base: Fs) returns (clean: bool)
      requires Filling(base, fs, req, p) && cwd == req.storeId
      modifies this`fs, this`clock, this`log
      ensures old(Quiet()) ==> Quiet() && (clean <==> |old(fs).dirs[p]| == 0)
      ensures old(log) <= log && SafeSince(base, req, |old(log)|)
      ensures fs == old(fs) || (fs == RemoveDir(old(fs), req.storeId, req.packName, p) && |old(fs).dirs[p]| == 0)
      ensures clean ==> fs == RemoveDir(old(fs), req.storeId, req.packName, p)
      ensures Safe(base, fs, req)
    {
      FillingIsSafe(base, fs, req, p);
      RemovedPack(base, fs, req, p);
      clean := Look();
      if clean {
        clean := RemoveEmpty(req.packName, p);
        if clean {
          clean := Look();
        }
      }
    }

    /** One recorded file goes, if it still is the one that was created. */
    method UnlinkRecorded(req: Request, p: Ident, d: Ident, c: Created, ghost base: Fs) returns (gone: bool)
      requires Filling(base, fs, req, p) && d in fs.dirs && Ours(base, fs, p, c.id)
      modifies this`fs, this`clock, this`log
      ensures old(Quiet()) ==> Quiet() && (gone <==> At(old(fs), d, c))
      ensures log == old(log) + [fs] && Safe(base, fs, req)
      ensures Filling(base, fs, req, p) && fs.files == old(fs).files
      ensures gone ==> At(old(fs), d, c) && fs == RemoveName(old(fs), d, c.name)
      ensures fs == old(fs) || fs == RemoveName(old(fs), d, c.name)
    {
      if c.name in fs.dirs[d] && fs.dirs[d][c.name] == c.id {
        RemovedName(base, fs, req, p, d, c.name);
      }
      gone := UnlinkIfSame(d, c);
      FillingIsSafe(base, fs, req, p);
    }

    /** The recorded files go from last to first. */
    method UnlinkAll(req: Request, p: Ident, packFiles: seq<Created>, ghost base: Fs) returns (clean: bool)
      requires Filling(base, fs, req, p)
      requires AllOurs(base, fs, p, packFiles)
      modifies this`fs, this`clock, this`log
      ensures old(Quiet()) ==> Quiet() && (DistinctNames(packFiles) ==> (clean <==> AllAt(old(fs), p, packFiles)))
      ensures old(log) <= log && SafeSince(base, req, |old(log)|)
      ensures Filling(base, fs, req, p) && fs.files == old(fs).files
      ensures clean ==> fs == Without(old(fs), p, NamesOf(packFiles))
      ensures forall d :: d in old(fs).dirs && d != p ==> d in fs.dirs && fs.dirs[d] == old(fs).dirs[d]
      ensures packFiles == [] ==> clean && fs == old(fs)
    {
      clean := true;
      ghost var was, gone, quiet := fs, {}, Quiet();
      ProgressStarts(was, p, packFiles, quiet);
      var i := |packFiles|;
      while i > 0
        invariant 0 <= i <= |packFiles| && (quiet ==> Quiet())
        invariant old(log) <= log && SafeSince(base, req, |old(log)|)
        invariant Filling(base, fs, req, p) && fs.files == was.files
        invariant Progress(was, fs, p, packFiles, i, gone, clean, quiet)
        invariant i == |packFiles| ==> clean && fs == was
      {
        i := i - 1;
        ghost var before := fs;
        var went := UnlinkRecorded(req, p, p, packFiles[i], base);
        gone := ProgressStep(was, before, fs, p, packFiles, i, gone, clean, quiet, went);
        clean := went && clean;
      }
      ProgressEnds(was, fs, p, packFiles, gone, clean, quiet);
    }

    /** Back to the store, and the pack goes if it is empty. */
    method LeavePack(req: Request, p: Ident, ghost base: Fs) returns (clean: bool)
      requires Filling(base, fs, req, p) && cwd == p
      modifies this`fs, this`cwd, this`clock, this`log
      ensures old(Quiet()) ==> Quiet() && (clean <==> |old(fs).dirs[p]| == 0)
      ensures old(log) <= log && SafeSince(base, req, |old(log)|) && Safe(base, fs, req)
      ensures fs == old(fs) || (fs == RemoveDir(old(fs), req.storeId, req.packName, p) && |old(fs).dirs[p]| == 0)
      ensures clean ==> fs == RemoveDir(old(fs), req.storeId, req.packName, p)
    {
      FillingIsSafe(base, fs, req, p);
      RemovedPack(base, fs, req, p);
      clean := ChangeDirectory(req.storeId);
      if clean {
        clean := Look();
      }
      if clean {
        clean := RemoveEmpty(req.packName, p);
      }
      if clean {
        clean := Look();
      }
    }

    /** The recorded pack files and the standalone file, lines 151 to 152. */
    method UnlinkOnRecord(req: Request, p: Ident, packFiles: seq<Created>, standalone: Option<Created>, ghost base: Fs)
      returns (clean: bool)
      requires Filling(base, fs, req, p)
      requires AllOurs(base, fs, p, packFiles)
      requires standalone.Some? ==>
                 req.standalone.Some? && req.standalone.value.at in base.dirs
                 && standalone.value.name == req.standalone.value.name && Ours(base, fs, p, standalone.value.id)
      modifies this`fs, this`clock, this`log
      ensures old(Quiet()) ==> Quiet()
      ensures old(Quiet()) && DistinctNames(packFiles) ==>
                (clean <==> AllAt(old(fs), p, packFiles)
                            && (standalone.Some? ==> At(old(fs), req.standalone.value.at, standalone.value)))
      ensures old(log) <= log && SafeSince(base, req, |old(log)|)
      ensures Filling(base, fs, req, p)
      ensures clean ==> fs == Unlinked(old(fs), req, p, packFiles, standalone)
      ensures clean && standalone.Some? ==> At(old(fs), req.standalone.value.at, standalone.value)
      ensures packFiles == [] && standalone.None? ==> fs == old(fs) && clean
    {
      ghost var before := fs;
      clean := UnlinkAll(req, p, packFiles, base);
      if standalone.Some? {
        var at := req.standalone.value.at;
        assert fs.dirs[at] == before.dirs[at];
        var went := UnlinkRecorded(req, p, at, standalone.value, base);
        clean := went && clean;
      }
    }

    /**
     * Lines 142 to 170: the recorded files in reverse, the standalone file, the pack. With no call failing it
     * is clean exactly when everything in the pack is on record; a clean answer means that every name is as
     * it was, unless a standalone file went unrecorded.
     */
    method CleanupBeforeManifest(req: Request, p: Ident, packFiles: seq<Created>, standalone: Option<Created>,
                                 ghost base: Fs)
      returns (clean: bool)
      requires Filling(base, fs, req, p) && cwd == p
      requires AllOurs(base, fs, p, packFiles)
      requires standalone.Some? ==>
                 req.standalone.Some? && req.standalone.value.at in base.dirs
                 && standalone.value.name == req.standalone.value.name && Ours(base, fs, p, standalone.value.id)
      modifies this`fs, this`cwd, this`clock, this`log
      ensures old(Quiet()) && DistinctNames(packFiles) ==> (clean <==> OnRecord(old(fs), req, p, packFiles, standalone))
      ensures old(Quiet()) && DistinctNames(packFiles) && AllAt(old(fs), p, packFiles)
              && (standalone.Some? ==> At(old(fs), req.standalone.value.at, standalone.value)) ==>
                var bare := Unlinked(old(fs), req, p, packFiles, standalone);
                fs == if |bare.dirs[p]| == 0 then RemoveDir(bare, req.storeId, req.packName, p) else bare
      ensures old(log) <= log && SafeSince(base, req, |old(log)|) && Safe(base, fs, req)
      ensures clean ==> (fs.dirs == base.dirs <==> !StandaloneUnrecorded(base, old(fs), req, standalone))
      ensures clean ==> p !in fs.dirs && req.storeId in fs.dirs && req.packName !in fs.dirs[req.storeId]
      ensures packFiles == [] && standalone.None? ==>
                fs == old(fs) || (fs == RemoveDir(old(fs), req.storeId, req.packName, p) && |old(fs).dirs[p]| == 0)
      ensures packFiles == [] && standalone.None? && clean ==> fs == RemoveDir(old(fs), req.storeId, req.packName, p)
    {
      ghost var before := fs;
      clean := UnlinkOnRecord(req, p, packFiles, standalone, base);
      EmptyIffOnRecord(base, before, req, p, packFiles, standalone);
      var here := Look();
      var left := LeavePack(req, p, base);
      clean := clean && here && left;
      if standalone.Some? {
        var synced := Look();
        clean := synced && clean;
      }
      if clean {
        NamespaceRestored(base, before, req, p, packFiles, standalone);
      }
    }

    /** Lines 177 to 206: make the pack and identify it. */
    method OpenPack(req: Request) returns (answer: Option<Response>, p: Ident)
      requires WellFormed(fs) && cwd == req.storeId && cwd in fs.dirs
      modifies this`fs, this`clock, this`log
      ensures old(Quiet()) ==> Quiet() && answer == if req.packName in old(fs).dirs[cwd] then Some(PackExists) else None
      ensures GoRightUntil(old(clock) + 5) && req.packName !in old(fs).dirs[cwd] ==>
                answer.None? && clock == old(clock) + 5
      ensures old(log) <= log && SafeSince(old(fs), req, |old(log)|) && Safe(old(fs), fs, req)
      ensures answer.None? ==>
                p == old(fs).next && req.packName !in old(fs).dirs[cwd] && fs == AddDir(old(fs), cwd, req.packName)
      ensures answer.None? ==> log == old(log) + [fs]
      ensures answer.Some? ==> answer.value in {PackExists, IdentityMismatch, DurabilityUnconfirmed}
      ensures answer == Some(PackExists) ==> fs == old(fs) && req.packName in fs.dirs[cwd]
      ensures answer == Some(IdentityMismatch) ==> fs.dirs == old(fs).dirs && fs.files == old(fs).files
    {
      ghost var base := fs;
      p := fs.next;
      var made := MakeDir(req.packName);
      if made.Exists? {
        answer := Some(PackExists);
        return;
      }
      if req.packName !in base.dirs[cwd] {
        MadeDir(base, req);
        FillingIsSafe(base, AddDir(base, cwd, req.packName), req, p);
        RemovedUndoesMade(base, cwd, req.packName);
      }
      answer := Some(DurabilityUnconfirmed);
      if made.Done? {
        answer := ConfirmPack(req, p, base);
      }
    }

    /** Lines 181 to 206: identify the directory just made, and remove it again if it is not as it should be. */
    method ConfirmPack(req: Request, p: Ident, ghost base: Fs) returns (answer: Option<Response>)
      requires Filling(base, fs, req, p) && cwd == req.storeId
      modifies this`fs, this`clock, this`log
      ensures old(Quiet()) ==> Quiet() && answer.None?
      ensures GoRightUntil(old(clock) + 4) ==> answer.None? && clock == old(clock) + 4
      ensures old(log) <= log && SafeSince(base, req, |old(log)|) && Safe(base, fs, req)
      ensures answer.None? ==> fs == old(fs) && log == old(log)
      ensures answer in {None, Some(IdentityMismatch), Some(DurabilityUnconfirmed)}
      ensures answer == Some(IdentityMismatch) ==> fs == RemoveDir(old(fs), req.storeId, req.packName, p)
    {
      FillingIsSafe(base, fs, req, p);
      var identified := Look();
      if !identified {
        return Some(DurabilityUnconfirmed);
      }
      answer := IdentifyPack();
      if answer.Some? {
        var cleaned := CleanupEmptyPack(req, p, base);
        answer := if cleaned then answer else Some(DurabilityUnconfirmed);
      }
    }

    /** Lines 186 to 193: the mode, the identity again, and the directory itself. */
    method IdentifyPack() returns (thrown: Option<Response>)
      modifies this`clock
      ensures old(Quiet()) ==> Quiet() && thrown.None?
      ensures GoRightUntil(old(clock) + 3) ==> thrown.None? && clock == old(clock) + 3
      ensures thrown in {None, Some(IdentityMismatch), Some(DurabilityUnconfirmed)}
    {
      var moded := Look();
      if !moded {
        return Some(DurabilityUnconfirmed);
      }
      var f := Tick();
      if f == OtherMode {
        return Some(IdentityMismatch);
      }
      if f != Fine {
        return Some(DurabilityUnconfirmed);
      }
      var verified := Look();
      thrown := if verified then None else Some(IdentityMismatch);
    }

    /** Enter the pack; failing that, remove it again: lines 208 to 232. */
    method EnterPack(req: Request, p: Ident, ghost base: Fs) returns (answer: Option<Response>)
      requires Filling(base, fs, req, p) && cwd == req.storeId && fs == AddDir(base, cwd, req.packName)
               && p == base.next
      modifies this`fs, this`cwd, this`clock, this`log
      ensures old(Quiet()) ==> Quiet() && answer.None?
      ensures GoRightUntil(old(clock) + 2) ==> answer.None? && clock == old(clock) + 2
      ensures old(log) <= log && SafeSince(base, req, |old(log)|) && Safe(base, fs, req)
      ensures answer.None? ==> cwd == p && fs == old(fs)
      ensures answer.Some? ==> answer.value in {IdentityMismatch, DurabilityUnconfirmed}
      ensures answer == Some(IdentityMismatch) ==> fs.dirs == base.dirs && fs.files == base.files
    {
      RemovedUndoesMade(base, cwd, req.packName);
      FillingIsSafe(base, fs, req, p);
      var entered := ChangeDirectory(p);
      if entered {
        var seen := Look();
        if seen {
          return None;
        }
      }
      var cleaned := Look();
      if cleaned {
        if cwd == p {
          cleaned := CleanupBeforeManifest(req, p, [], None, base);
        } else {
          cleaned := CleanupEmptyPack(req, p, base);
        }
      }
      answer := if cleaned then Some(IdentityMismatch) else Some(DurabilityUnconfirmed);
    }

    /** Write a file of this run, in a pack still without its manifest. */
    method FillFile(req: Request, p: Ident, id: Ident, bytes: seq<Byte>, ghost base: Fs)
      returns (ok: bool, ghost last: FileData)
      requires Filling(base, fs, req, p) && Ours(base, fs, p, id)
      modifies this`fs, this`clock, this`log
      ensures clock == old(clock) + 3
      ensures old(Quiet()) || GoRightUntil(clock) ==> ok
      ensures FaultWithin(old(clock), 3) ==> !ok
      ensures old(log) <= log && SafeSince(base, req, |old(log)|)
      ensures Filling(base, fs, req, p)
      ensures fs == SetFile(old(fs), id, last) && (ok ==> last == FileData(bytes, true))
    {
      ghost var before := fs;
      ghost var during;
      ok, during, last := WriteAndSync(id, bytes);
      WroteFile(base, before, req, p, id, during);
      WroteFile(base, before, req, p, id, last);
      FillingIsSafe(base, SetFile(before, id, during), req, p);
      FillingIsSafe(base, fs, req, p);
    }

    /** Reserve a file of this run, in the pack or as the standalone file. */
    method ReserveOurs(req: Request, p: Ident, d: Ident, name: string, ghost base: Fs)
      returns (r: Call, created: Created)
      requires Filling(base, fs, req, p) && d in fs.dirs
      requires (d == p && name != req.manifest.name) || (d in base.dirs && StandaloneEntry(req, d, name))
      modifies this`fs, this`clock, this`log
      ensures old(Quiet()) ==> Quiet() && !r.Failed?
      ensures GoRightUntil(old(clock) + 2) && name !in old(fs).dirs[d] ==> r.Done? && clock == old(clock) + 2
      ensures FaultWithin(old(clock), 2) && name !in old(fs).dirs[d] ==>
                && r.Failed? && Quiet()
                && fs == if SlipsAt(old(clock)) then AddFile(old(fs), d, name) else old(fs)
      ensures old(log) <= log && SafeSince(base, req, |old(log)|)
      ensures Filling(base, fs, req, p)
      ensures fs == old(fs) || (name !in old(fs).dirs[d] && fs == AddFile(old(fs), d, name))
      ensures r.Exists? ==> fs == old(fs) && name in fs.dirs[d]
      ensures r.Done? ==> fs != old(fs) && created == Created(name, old(fs).next) && Ours(base, fs, p, created.id)
    {
      if name !in fs.dirs[d] {
        MadeFile(base, fs, req, p, d, name);
      }
      r, created := ReserveFile(d, name);
      FillingIsSafe(base, fs, req, p);
    }

    /** Create the member's file. */
    method ReserveMember(req: Request, p: Ident, k: nat, floor: Ident, ghost base: Fs)
      returns (r: Call, created: Created)
      requires ValidRequest(req) && k < |req.members|
      requires Filling(base, fs, req, p) && Written(base, fs, p, req, k, floor)
      modifies this`fs, this`clock, this`log
      ensures old(Quiet()) ==> Quiet() && r.Done?
      ensures GoRightUntil(old(clock) + 2) ==> r.Done? && clock == old(clock) + 2
      ensures FaultWithin(old(clock), 2) ==>
                && r.Failed? && Quiet()
                && fs == if SlipsAt(old(clock)) then AddFile(old(fs), p, req.members[k].name) else old(fs)
      ensures old(log) <= log && SafeSince(base, req, |old(log)|)
      ensures !r.Exists?
      ensures r.Done? ==>
                && Filling(base, fs, req, p) && req.members[k].name !in old(fs).dirs[p]
                && fs == AddFile(old(fs), p, req.members[k].name)
                && created == Created(req.members[k].name, old(fs).next) && Ours(base, fs, p, created.id)
      ensures r.Failed? ==> MemberTried(base, old(fs), fs, req, p, floor, k, r, created, false)
    {
      ghost var before := fs;
      NextNameIsFree(base, fs, p, req, k, floor);
      r, created := ReserveOurs(req, p, p, req.members[k].name, base);
      FileLeavesRest(before, p, req.members[k].name, FileData([], false));
      if r.Failed? {
        MemberUnreserved(base, before, fs, req, p, floor, k, created);
      }
    }

    /** Lines 252 to 261, one member. */
    method WriteMember(req: Request, p: Ident, k: nat, floor: Ident, ghost base: Fs)
      returns (r: Call, created: Created, reserved: bool)
      requires ValidRequest(req) && k < |req.members| && floor < fs.next
      requires Filling(base, fs, req, p) && Written(base, fs, p, req, k, floor)
      modifies this`fs, this`clock, this`log
      ensures old(Quiet()) ==> Quiet() && r.Done?
      ensures GoRightUntil(old(clock) + 5) ==> r.Done? && clock == old(clock) + 5
      ensures FaultWithin(old(clock), 2) ==>
                && Quiet() && r.Failed? && !reserved
                && fs == if SlipsAt(old(clock)) then AddFile(old(fs), p, req.members[k].name) else old(fs)
      ensures FaultWithin(old(clock) + 2, 3) ==> Quiet() && r.Failed? && reserved
      ensures old(log) <= log && SafeSince(base, req, |old(log)|)
      ensures MemberTried(base, old(fs), fs, req, p, floor, k, r, created, reserved)
    {
      ghost var before := fs;
      r, created := ReserveMember(req, p, k, floor, base);
      reserved := r.Done?;
      if reserved {
        ghost var logged := log;
        r := FillMember(req, p, k, floor, before, created, base);
        SafeFurther(base, req, old(log), logged, log);
      }
    }

    /** Write the member's file that was just created over the state `before`. */
    method FillMember(req: Request, p: Ident, k: nat, floor: Ident, ghost before: Fs, created: Created, ghost base: Fs)
      returns (r: Call)
      requires ValidRequest(req) && k < |req.members| && floor < before.next && WellFormed(before)
      requires Written(base, before, p, req, k, floor) && req.members[k].name !in before.dirs[p]
      requires created == Created(req.members[k].name, before.next) && Ours(base, fs, p, created.id)
      requires fs == AddFile(before, p, req.members[k].name) && Filling(base, fs, req, p)
      modifies this`fs, this`clock, this`log
      ensures clock == old(clock) + 3
      ensures old(Quiet()) || GoRightUntil(clock) ==> r.Done?
      ensures FaultWithin(old(clock), 3) ==> !r.Done?
      ensures old(log) <= log && SafeSince(base, req, |old(log)|)
      ensures MemberTried(base, before, fs, req, p, floor, k, r, created, true)
    {
      var ok;
      ghost var last;
      ok, last := FillFile(req, p, created.id, req.members[k].bytes, base);
      FileLeavesRest(before, p, req.members[k].name, last);
      MemberIsWritten(base, before, p, req, k, floor);
      r := if ok then Done else Failed;
      MemberFilled(base, before, fs, req, p, floor, k, created, r);
    }

    /** Check the standalone parent and create the file, lines 241 to 248. */
    method ReserveStandalone(req: Request, p: Ident, ghost base: Fs)
      returns (thrown: Option<Thrown>, created: Option<Created>)
      requires Filling(base, fs, req, p) && req.standalone.Some? && req.standalone.value.at in base.dirs
      modifies this`fs, this`clock, this`log
      ensures old(Quiet()) ==> Quiet() && thrown == StandaloneObstacle(old(fs), req)
      ensures old(log) <= log && SafeSince(base, req, |old(log)|)
      ensures Filling(base, fs, req, p) && fs.dirs[p] == old(fs).dirs[p]
      ensures GoRightUntil(old(clock) + 3) && StandaloneObstacle(old(fs), req).None? ==>
                thrown.None? && clock == old(clock) + 3
      ensures thrown == Some(Mismatch) ==> fs == old(fs)
      ensures thrown == Some(AlreadyThere) ==>
                fs == old(fs) && req.standalone.value.name in fs.dirs[req.standalone.value.at]
      ensures thrown.Some? ==> created.None?
      ensures thrown.None? ==> created.Some? && created.value.name == req.standalone.value.name
      ensures thrown.None? ==> Ours(base, fs, p, created.value.id) && created.value.id < fs.next
      ensures thrown.None? ==> req.standalone.value.name in fs.dirs[req.standalone.value.at]
      ensures thrown.None? ==> fs.dirs[req.standalone.value.at][req.standalone.value.name] == created.value.id
    {
      var at, name := req.standalone.value.at, req.standalone.value.name;
      var seen := Look();
      if !(seen && at == req.standalone.value.parentId) {
        return Some(Mismatch), None;
      }
      var r, file := ReserveOurs(req, p, at, name, base);
      match r {
        case Done => thrown, created := None, Some(file);
        case Exists => thrown, created := Some(AlreadyThere), None;
        case Failed => thrown, created := Some(Other), None;
      }
    }

    /** How far the calls have got after `k` members of five calls each, from number `c` on. */
    ghost predicate Counted(c: nat, n: nat, k: nat, ok: bool, recorded: nat, lost: bool)
      reads this`clock
    {
      && (GoRightUntil(c + 5 * n) ==> ok && clock == c + 5 * k)
      && (FaultWithin(c, 5 * n) ==>
            if ok then clock == c + 5 * k <= |faults| - 1
            else Quiet() && (lost <==> Slips(c)) && (lost ==> recorded == (|faults| - 1 - c) / 5))
    }

    /** Create, write and sync the members one after the other, lines 250 to 261; `tried` is how many. */
    method WriteMembers(req: Request, p: Ident, floor: Ident, ghost base: Fs)
      returns (ok: bool, packFiles: seq<Created>, ghost lost: Option<string>, ghost tried: nat)
      requires ValidRequest(req) && floor < fs.next
      requires Filling(base, fs, req, p) && Written(base, fs, p, req, 0, floor) && fs.dirs[p] == map[]
      modifies this`fs, this`clock, this`log
      ensures old(Quiet()) ==> Quiet() && ok
      ensures ok ==> tried == |req.members|
      ensures Counted(old(clock), |req.members|, tried, ok, |packFiles|, lost.Some?)
      ensures MembersSoFar(base, old(fs), fs, req, p, floor, tried, ok, packFiles, lost)
      ensures old(log) <= log && SafeSince(base, req, |old(log)|)
    {
      ghost var was, c := fs, clock;
      ok, packFiles, lost := true, [], None;
      TrackedAtFirst(fs, p);
      var k := 0;
      while ok && k < |req.members|
        invariant 0 <= k <= |req.members| && floor < fs.next
        invariant old(Quiet()) ==> Quiet() && ok
        invariant Counted(c, |req.members|, k, ok, |packFiles|, lost.Some?)
        invariant MembersSoFar(base, was, fs, req, p, floor, k, ok, packFiles, lost)
        invariant old(log) <= log && SafeSince(base, req, |old(log)|)
        decreases |req.members| - k
      {
        ghost var logged := log;
        ok, packFiles, lost := WriteNext(req, p, floor, k, packFiles, c, was, base);
        SafeFurther(base, req, old(log), logged, log);
        k := k + 1;
      }
      tried := k;
    }

    /** What the members' calls come to, when one of them is the only one to go wrong. */
    lemma MembersFault(base: Fs, was: Fs, req: Request, p: Ident, floor: Ident, c: nat, tried: nat, ok: bool,
                       recorded: seq<Created>, lost: Option<string>)
      requires MembersSoFar(base, was, fs, req, p, floor, tried, ok, recorded, lost)
      requires Counted(c, |req.members|, tried, ok, |recorded|, lost.Some?) && (ok ==> tried == |req.members|)
      ensures FaultInFiles(req, c) ==>
                if |faults| - 1 < c + 5 * |req.members| then !ok && Quiet() && lost == LostMember(req, c)
                else ok && clock == c + 5 * |req.members| && lost == None == LostMember(req, c)
      ensures OnlyFault(c + 1) && req.members != [] ==>
                Stranded(was, fs, req, p) && Quiet() && !ok && recorded == [] && |fs.dirs[p]| != 0
    {
      if OnlyFault(c + 1) && req.members != [] {
        FirstIsLost(|req.members|, c);
        StrandedIsNotEmpty(was, fs, req, p);
      }
    }

    /** One round of the loop. */
    method WriteNext(req: Request, p: Ident, floor: Ident, k: nat, packFiles: seq<Created>, ghost c: nat,
                     ghost was: Fs, ghost base: Fs)
      returns (ok: bool, more: seq<Created>, ghost lost: Option<string>)
      requires ValidRequest(req) && k < |req.members| && floor < fs.next
      requires MembersSoFar(base, was, fs, req, p, floor, k, true, packFiles, None)
      requires Counted(c, |req.members|, k, true, |packFiles|, false)
      modifies this`fs, this`clock, this`log
      ensures old(Quiet()) ==> Quiet() && ok
      ensures floor < fs.next
      ensures Counted(c, |req.members|, k + 1, ok, |more|, lost.Some?)
      ensures MembersSoFar(base, was, fs, req, p, floor, k + 1, ok, more, lost)
      ensures old(log) <= log && SafeSince(base, req, |old(log)|)
    {
      ghost var before := fs;
      if FaultWithin(c, 5 * |req.members|) {
        SlipsLater(c, k, |req.members|);
      }
      var r, created, reserved := WriteMember(req, p, k, floor, base);
      ok, more, lost := r.Done?, packFiles, None;
      if reserved {
        OneMoreMember(base, was, before, fs, req, p, floor, k, r, packFiles, created);
        more := packFiles + [created];
      } else {
        if fs != before {
          lost := Some(req.members[k].name);
        }
        NoMoreMember(base, was, before, fs, req, p, floor, k, r, packFiles, created);
      }
    }

    /** Write the standalone file that was reserved before, lines 263 to 270. */
    method WriteStandalone(req: Request, p: Ident, id: Ident, ghost base: Fs) returns (ok: bool)
      requires Filling(base, fs, req, p) && Ours(base, fs, p, id) && Written(base, fs, p, req, |req.members|, id)
      requires req.standalone.Some? && req.standalone.value.at in fs.dirs
      requires req.standalone.value.name in fs.dirs[req.standalone.value.at]
      requires fs.dirs[req.standalone.value.at][req.standalone.value.name] == id
      modifies this`fs, this`clock, this`log
      ensures old(Quiet()) ==> Quiet() && ok
      ensures FaultWithin(old(clock), 4) ==> Quiet() && !ok
      ensures old(log) <= log && SafeSince(base, req, |old(log)|)
      ensures Filling(base, fs, req, p) && fs.dirs == old(fs).dirs && fs.files.Keys == old(fs).files.Keys
      ensures ok ==> ContentComplete(fs, p, req) && Written(base, fs, p, req, |req.members|, id)
    {
      StandaloneIsWritten(base, fs, req, p, id);
      ghost var last;
      ok, last := FillFile(req, p, id, req.standalone.value.bytes, base);
      if ok {
        ok := Look();
      }
    }

    /** Lines 241 to 248: the standalone file, if one is asked for. */
    method ReserveIfAny(req: Request, p: Ident, ghost base: Fs)
      returns (thrown: Option<Thrown>, created: Option<Created>, mark: Ident)
      requires Filling(base, fs, req, p) && fs.dirs[p] == map[]
      requires req.standalone.Some? ==> req.standalone.value.at in base.dirs
      modifies this`fs, this`clock, this`log
      ensures old(Quiet()) ==> Quiet() && thrown == StandaloneObstacle(old(fs), req)
      ensures FaultInFiles(req, FilesFrom(req, old(clock))) && StandaloneObstacle(old(fs), req).None? ==>
                thrown.None? && clock == FilesFrom(req, old(clock))
      ensures old(log) <= log && SafeSince(base, req, |old(log)|)
      ensures Filling(base, fs, req, p) && fs.dirs[p] == map[]
      ensures req.standalone.None? ==> thrown.None? && created.None? && fs == old(fs) && clock == old(clock)
      ensures thrown.Some? ==> created.None?
      ensures thrown.None? ==> mark < fs.next
      ensures thrown.None? && req.standalone.Some? ==>
                && StandaloneReserved(base, fs, req, p, mark)
                && created == Some(Created(req.standalone.value.name, mark))
      ensures thrown in {Some(AlreadyThere), Some(Mismatch)} ==> fs == old(fs)
      ensures thrown == Some(AlreadyThere) ==>
                req.standalone.Some? && req.standalone.value.name in fs.dirs[req.standalone.value.at]
    {
      thrown, created, mark := None, None, p;
      if req.standalone.Some? {
        thrown, created := ReserveStandalone(req, p, base);
        if thrown.None? {
          mark := created.value.id;
        }
      }
    }

    /** Lines 241 to 270; `started` as in the source, `thrown` what ends the block early. */
    method WriteContent(req: Request, p: Ident, ghost base: Fs)
      returns (thrown: Option<Thrown>, packFiles: seq<Created>, created: Option<Created>, started: bool,
               ghost floor: Ident, ghost lost: Option<string>)
      requires ValidRequest(req) && Filling(base, fs, req, p) && fs.dirs[p] == map[]
      requires req.standalone.Some? ==> req.standalone.value.at in base.dirs
      modifies this`fs, this`clock, this`log
      ensures old(Quiet()) ==> Quiet() && thrown == StandaloneObstacle(old(fs), req) && (thrown.Some? ==> !started)
      ensures OnlyFault(old(clock) + 1) && req.members != [] && req.standalone.None? ==>
                && Stranded(old(fs), fs, req, p) && Quiet() && thrown == Some(Other)
                && packFiles == [] && created.None? && |fs.dirs[p]| != 0
      ensures FaultInFiles(req, FilesFrom(req, old(clock))) && StandaloneObstacle(old(fs), req).None? ==>
                && thrown == Some(Other) && Quiet() && lost == LostMember(req, FilesFrom(req, old(clock)))
                && (req.standalone.Some? ==> created.Some?)
      ensures old(log) <= log && SafeSince(base, req, |old(log)|)
      ensures ContentTried(base, old(fs), fs, req, p, thrown, packFiles, created, started, lost)
      ensures thrown.None? ==> Ready(base, fs, req, p, floor)
    {
      ghost var was := fs;
      packFiles, started, lost := [], false, None;
      var mark;
      thrown, created, mark := ReserveIfAny(req, p, base);
      floor := mark;
      if thrown.None? {
        ghost var logged := log;
        thrown, packFiles, started, lost := WriteReserved(req, p, mark, created, was, base);
        SafeFurther(base, req, old(log), logged, log);
      } else {
        ContentStopped(base, was, fs, req, p, thrown.value);
      }
    }

    /** Lines 250 to 270: all members but the manifest, then the standalone file, which is `mark`. */
    method WriteReserved(req: Request, p: Ident, mark: Ident, ghost created: Option<Created>, ghost first: Fs,
                         ghost base: Fs)
      returns (thrown: Option<Thrown>, packFiles: seq<Created>, started: bool, ghost lost: Option<string>)
      requires ValidRequest(req) && Filling(base, fs, req, p) && fs.dirs[p] == map[] && mark < fs.next
      requires if req.standalone.None? then created.None?
               else StandaloneReserved(base, fs, req, p, mark)
                    && created == Some(Created(req.standalone.value.name, mark))
      modifies this`fs, this`clock, this`log
      ensures old(Quiet()) ==> Quiet() && thrown.None?
      ensures FaultInFiles(req, old(clock)) ==> Quiet() && thrown == Some(Other) && lost == LostMember(req, old(clock))
      ensures OnlyFault(old(clock) + 1) && req.members != [] ==>
                && Stranded(old(fs), fs, req, p) && Quiet() && thrown == Some(Other)
                && packFiles == [] && |fs.dirs[p]| != 0
      ensures old(log) <= log && SafeSince(base, req, |old(log)|)
      ensures ContentTried(base, first, fs, req, p, thrown, packFiles, created, started, lost)
      ensures thrown.None? ==> Ready(base, fs, req, p, mark)
    {
      ghost var was, c, tried := fs, clock, 0;
      var ok;
      ok, packFiles, lost, tried := WriteMembers(req, p, mark, base);
      MembersFault(base, was, req, p, mark, c, tried, ok, packFiles, lost);
      started := packFiles != [];
      if ok && req.standalone.Some? {
        ghost var before, logged := fs, log;
        started := true;
        ok := WriteStandalone(req, p, mark, base);
        SafeFurther(base, req, old(log), logged, log);
        TrackedByNames(before, fs, p, packFiles, lost);
      }
      thrown := if ok then None else Some(Other);
      ContentFromReserved(base, first, fs, req, p, thrown, packFiles, created, started, lost, mark);
    }

    /** Lines 272 to 289: the manifest, and the way back to the store. */
    method WriteManifest(req: Request, p: Ident, ghost floor: Ident, ghost base: Fs) returns (ok: bool)
      requires Ready(base, fs, req, p, floor)
      modifies this`fs, this`cwd, this`clock, this`log
      ensures old(Quiet()) ==> Quiet() && ok
      ensures old(log) <= log && SafeSince(base, req, |old(log)|) && Safe(base, fs, req)
      ensures ok ==> Committed(base, fs, req)
    {
      ghost var before := fs;
      FillingIsSafe(base, fs, req, p);
      ManifestIsLast(base, fs, req, p, FileData([], false));
      ReservedManifest(fs, p, req.manifest.name);
      var r, created := ReserveFile(p, req.manifest.name);
      ok := r.Done?;
      if ok {
        ok := FillManifest(req, p, created.id, before, floor, base);
      }
      if ok {
        ok := ReturnToStore(req);
      }
    }

    /** Write the manifest that was just created over the complete content of `before`. */
    method FillManifest(req: Request, p: Ident, id: Ident, ghost before: Fs, ghost floor: Ident, ghost base: Fs)
      returns (ok: bool)
      requires Filling(base, before, req, p) && ContentComplete(before, p, req)
      requires Written(base, before, p, req, |req.members|, floor)
      requires fs == AddFile(before, p, req.manifest.name) && id == before.next
      modifies this`fs, this`clock, this`log
      ensures old(Quiet()) ==> Quiet() && ok
      ensures old(log) <= log && SafeSince(base, req, |old(log)|) && Safe(base, fs, req)
      ensures ok ==> Committed(base, fs, req)
    {
      ghost var during, last;
      ok, during, last := WriteAndSync(id, req.manifest.bytes);
      ManifestIsLast(base, before, req, p, during);
      ManifestIsLast(base, before, req, p, last);
      ManifestCommits(base, before, req, p, floor);
    }

    /** Sync the pack, go back to the store and sync it too: lines 282 to 288. */
    method ReturnToStore(req: Request) returns (ok: bool)
      modifies this`cwd, this`clock
      ensures old(Quiet()) ==> Quiet() && ok
    {
      var synced := Look();
      if synced {
        ok := ChangeDirectory(req.storeId);
        if ok {
          ok := Look();
        }
        if ok {
          ok := Look();
        }
      } else {
        ok := false;
      }
    }

    /** `executeCompilerWriterRequest`, lines 172 to 323. */
    method Execute(req: Request) returns (answer: Response)
      requires WellFormed(fs) && cwd in fs.dirs && ValidRequest(req)
      requires req.standalone.Some? ==> req.standalone.value.at in fs.dirs
      modifies this`fs, this`cwd, this`clock, this`log
      ensures old(Quiet()) ==> answer == Expected(old(fs), old(cwd), req)
      // the mode check after the first member's create fails, and nothing else
      ensures OnlyFault(old(clock) + 9) && old(cwd) == req.storeId && req.packName !in old(fs).dirs[old(cwd)]
              && req.members != [] && req.standalone.None? ==>
                Stranded(AddDir(old(fs), old(cwd), req.packName), fs, req, old(fs).next)
                  && answer.DurabilityUnconfirmed?
      // one call fails while content is written: cleanup leaves the old names, or the file without a record
      ensures old(cwd) == req.storeId && req.packName !in old(fs).dirs[old(cwd)]
              && FaultInFiles(req, FilesFrom(req, old(clock) + 8))
              && StandaloneObstacle(AddDir(old(fs), old(cwd), req.packName), req).None? ==>
                && answer.DurabilityUnconfirmed?
                && LeftOver(old(fs), fs, req, old(fs).next, LostMember(req, FilesFrom(req, old(clock) + 8)))
      // the first state on the way is the empty pack
      ensures old(cwd) == req.storeId && req.packName !in old(fs).dirs[old(cwd)] && GoRightUntil(old(clock) + 6) ==>
                |log| > |old(log)| && log[|old(log)|] == AddDir(old(fs), old(cwd), req.packName)
      // every state a crash could leave
      ensures old(log) <= log && SafeSince(old(fs), req, |old(log)|) && Safe(old(fs), fs, req)
      ensures answer.Ok? ==> Committed(old(fs), fs, req)
      ensures answer in {PackExists, StandaloneExists, IdentityMismatch} ==>
                fs.dirs == old(fs).dirs && fs.files == old(fs).files
      ensures answer.PackExists? ==>
                fs == old(fs) && cwd == old(cwd) && cwd == req.storeId && req.packName in fs.dirs[cwd]
      ensures answer.StandaloneExists? ==> StandaloneTaken(old(fs), req)
    {
      ghost var base := fs;
      var verified := Look();
      if !(verified && cwd == req.storeId) {
        return IdentityMismatch;
      }
      var early, p := OpenPack(req);
      if early.Some? {
        return early.value;
      }
      answer := EnterAndFill(req, p, base);
    }

    /** Lines 208 to 322, the pack being made. */
    method EnterAndFill(req: Request, p: Ident, ghost base: Fs) returns (answer: Response)
      requires ValidRequest(req) && WellFormed(base) && req.storeId in base.dirs
               && req.packName !in base.dirs[req.storeId]
      requires p == base.next && fs == AddDir(base, req.storeId, req.packName) && cwd == req.storeId
      requires req.standalone.Some? ==> req.standalone.value.at in base.dirs
      modifies this`fs, this`cwd, this`clock, this`log
      ensures old(Quiet()) ==> answer == AnswerTo(StandaloneObstacle(old(fs), req))
      ensures OnlyFault(old(clock) + 3) && req.members != [] && req.standalone.None? ==>
                Stranded(old(fs), fs, req, p) && answer.DurabilityUnconfirmed?
      ensures FaultInFiles(req, FilesFrom(req, old(clock) + 2)) && StandaloneObstacle(old(fs), req).None? ==>
                && answer.DurabilityUnconfirmed?
                && LeftOver(base, fs, req, p, LostMember(req, FilesFrom(req, old(clock) + 2)))
      ensures old(log) <= log && SafeSince(base, req, |old(log)|) && Safe(base, fs, req)
      ensures answer in {Ok, StandaloneExists, IdentityMismatch, DurabilityUnconfirmed}
      ensures answer.Ok? ==> Committed(base, fs, req)
      ensures answer in {StandaloneExists, IdentityMismatch} ==> fs.dirs == base.dirs && fs.files == base.files
      ensures answer.StandaloneExists? ==> StandaloneTaken(base, req)
    {
      MadeDir(base, req);
      var early := EnterPack(req, p, base);
      if early.Some? {
        return early.value;
      }
      RemovedUndoesMade(base, req.storeId, req.packName);
      if req.standalone.Some? && req.standalone.value.name in fs.dirs[req.standalone.value.at] {
        TakenBefore(base, req);
      }
      answer := FillPack(req, p, base);
    }

    /** Lines 240 to 322, the pack being entered and empty. */
    method FillPack(req: Request, p: Ident, ghost base: Fs) returns (answer: Response)
      requires ValidRequest(req) && Filling(base, fs, req, p) && fs.dirs[p] == map[] && cwd == p
      requires req.standalone.Some? ==> req.standalone.value.at in base.dirs
      modifies this`fs, this`cwd, this`clock, this`log
      ensures old(Quiet()) ==> answer == AnswerTo(StandaloneObstacle(old(fs), req))
      ensures OnlyFault(old(clock) + 1) && req.members != [] && req.standalone.None? ==>
                Stranded(old(fs), fs, req, p) && answer.DurabilityUnconfirmed?
      ensures FaultInFiles(req, FilesFrom(req, old(clock))) && StandaloneObstacle(old(fs), req).None? ==>
                answer.DurabilityUnconfirmed? && LeftOver(base, fs, req, p, LostMember(req, FilesFrom(req, old(clock))))
      ensures old(log) <= log && SafeSince(base, req, |old(log)|) && Safe(base, fs, req)
      ensures answer in {Ok, StandaloneExists, IdentityMismatch, DurabilityUnconfirmed}
      ensures answer.Ok? ==> Committed(base, fs, req)
      ensures answer in {StandaloneExists, IdentityMismatch} ==> fs == RemoveDir(old(fs), req.storeId, req.packName, p)
      ensures answer.StandaloneExists? ==>
                req.standalone.Some? && req.standalone.value.name in old(fs).dirs[req.standalone.value.at]
    {
      var failed;
      ghost var floor;
      failed, floor := FillOrGiveUp(req, p, base);
      if failed.Some? {
        return failed.value;
      }
      ghost var logged := log;
      var ok := WriteManifest(req, p, floor, base);
      SafeFurther(base, req, old(log), logged, log);
      answer := if ok then Ok else DurabilityUnconfirmed;
    }

    /** The content, and what happens when it fails. */
    method FillOrGiveUp(req: Request, p: Ident, ghost base: Fs) returns (failed: Option<Response>, ghost floor: Ident)
      requires ValidRequest(req) && Filling(base, fs, req, p) && fs.dirs[p] == map[] && cwd == p
      requires req.standalone.Some? ==> req.standalone.value.at in base.dirs
      modifies this`fs, this`cwd, this`clock, this`log
      ensures old(Quiet()) ==>
                if StandaloneObstacle(old(fs), req).None? then Quiet() && failed.None?
                else failed == Some(AnswerTo(StandaloneObstacle(old(fs), req)))
      ensures OnlyFault(old(clock) + 1) && req.members != [] && req.standalone.None? ==>
                Stranded(old(fs), fs, req, p) && failed == Some(DurabilityUnconfirmed)
      ensures FaultInFiles(req, FilesFrom(req, old(clock))) && StandaloneObstacle(old(fs), req).None? ==>
                && failed == Some(DurabilityUnconfirmed)
                && LeftOver(base, fs, req, p, LostMember(req, FilesFrom(req, old(clock))))
      ensures old(log) <= log && SafeSince(base, req, |old(log)|)
      ensures failed.Some? ==> GivenUp(base, old(fs), fs, req, p, failed.value)
      ensures failed.None? ==> Ready(base, fs, req, p, floor)
    {
      ghost var was := fs;
      var thrown, packFiles, created, started;
      ghost var lost;
      thrown, packFiles, created, started, floor, lost := WriteContent(req, p, base);
      failed := None;
      if thrown.Some? {
        ghost var logged := log;
        StandaloneOnRecord(base, fs, req, created);
        var answer := GiveUp(req, p, thrown.value, packFiles, created, started, lost, was, base);
        SafeFurther(base, req, old(log), logged, log);
        failed := Some(answer);
      }
    }

    /** Lines 290 to 322: clean up, and answer with what was thrown only if that left nothing behind. */
    method GiveUp(req: Request, p: Ident, thrown: Thrown, packFiles: seq<Created>, created: Option<Created>,
                  started: bool, ghost lost: Option<string>, ghost was: Fs, ghost base: Fs)
      returns (answer: Response)
      requires ContentTried(base, was, fs, req, p, Some(thrown), packFiles, created, started, lost) && cwd == p
      modifies this`fs, this`cwd, this`clock, this`log
      ensures old(Quiet()) && !started && !thrown.Other? && |was.dirs[p]| == 0 ==> answer == AnswerTo(Some(thrown))
      ensures started || thrown.Other? ==> answer.DurabilityUnconfirmed?
      ensures old(Quiet()) && !StandaloneUnrecorded(base, old(fs), req, created) ==> LeftOver(base, fs, req, p, lost)
      ensures old(log) <= log && SafeSince(base, req, |old(log)|)
      ensures GivenUp(base, was, fs, req, p, answer)
      ensures packFiles == [] && created.None? && |old(fs).dirs[p]| != 0 ==>
                fs == old(fs) && answer.DurabilityUnconfirmed?
    {
      ghost var before := fs;
      LeftOverAfterCleanup(base, fs, req, p, packFiles, created, lost);
      var cleaned := CleanupBeforeManifest(req, p, packFiles, created, base);
      answer := if started || !cleaned then DurabilityUnconfirmed else AnswerTo(Some(thrown));
      AnswersAsGivenUp(base, was, before, fs, req, p, thrown, packFiles, created, started, lost, answer);
    }
  }

  lemma {:induction false} FirstFaultAt(faults: seq<Fault>, n: nat)
    requires n < |faults| && faults[n] != Fine && forall k :: 0 <= k < n ==> faults[k] == Fine
    ensures FirstFault(faults, 0) == n
  {
    FirstFaultIsFirst(faults, 0);
  }

  /**
   * A failed mode check after the first create, and no other fault, leaves the pack behind with a file that no
   * cleanup removes.
   */
  method FailedModeCheckLeavesFile(base: Fs, req: Request) returns (answer: Response, left: Fs)
    requires WellFormed(base) && ValidRequest(req) && req.storeId in base.dirs
             && req.packName !in base.dirs[req.storeId]
    requires req.members != [] && req.standalone.None?
    ensures answer == DurabilityUnconfirmed
    ensures left == AddFile(AddDir(base, req.storeId, req.packName), base.next, req.members[0].name)
  {
    var faults := [Fine, Fine, Fine, Fine, Fine, Fine, Fine, Fine, Fine, OtherMode];
    var writer := new Writer(base, req.storeId, faults);
    FirstFaultAt(faults, 9);
    answer := writer.Execute(req);
    left := writer.fs;
  }
}
