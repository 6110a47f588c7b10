/**
 * The reader of the planned report (src/report/plan-open.ts, src/run/planned-directory-classifier.ts)
 * against the crash-recoverable writer.
 */
module ReportReader {
  import opened Prelude
  import opened ReportWriter

  /** The commit marker: the third report names the hashes of everything it was generated from and with. */
  datatype ReportInput = ReportInput(
    generation: string, planHash: Hash, manifestHash: Hash, loopHash: Hash, markdownHash: Hash, htmlHash: Hash)

  /** Structured and UTF-8 decoding, and the text of a hash. */
  datatype Codec = Codec(input: Content -> Option<ReportInput>, text: Content -> Option<string>,
                         hashText: Hash -> string)

  datatype Generation = Generation(
    input: Content, markdown: Content, html: Content, plan: Content, manifest: Content, loop: Content)

  // -----------------------------------------------------------------------
  // Literals in text
  // -----------------------------------------------------------------------

  predicate At(text: string, literal: string, i: nat) {
    i + |literal| <= |text| && text[i..i + |literal|] == literal
  }

  /** The first place at or after `from`, or none. */
  function IndexOf(text: string, literal: string, from: nat): (r: Option<nat>)
    ensures r.Some? ==> r.value >= from && At(text, literal, r.value)
    ensures r.Some? ==> forall i: nat :: from <= i < r.value ==> !At(text, literal, i)
    ensures r.None? ==> forall i: nat :: from <= i ==> !At(text, literal, i)
    decreases |text| - from
  {
    if from + |literal| > |text| then None
    else if At(text, literal, from) then Some(from)
    else IndexOf(text, literal, from + 1)
  }

  predicate OccursExactlyOnce(text: string, literal: string) {
    var first := IndexOf(text, literal, 0);
    first.Some? && IndexOf(text, literal, first.value + |literal|).None?
  }

  /** A literal whose first character does not come back in it cannot overlap itself. */
  predicate OpensOnce(literal: string) {
    literal != [] && forall i :: 0 < i < |literal| ==> literal[i] != literal[0]
  }

  lemma CharAt(text: string, literal: string, i: nat, d: nat)
    requires At(text, literal, i)
    ensures d < |literal| ==> text[i + d] == literal[d]
  {
    if d < |literal| {
      assert text[i..i + |literal|][d] == text[i + d];
    }
  }

  lemma OccursExactlyOnceMeansOnePlace(text: string, literal: string)
    requires OpensOnce(literal)
    ensures OccursExactlyOnce(text, literal) <==>
            exists p: nat :: At(text, literal, p) && forall q: nat :: At(text, literal, q) ==> q == p
  {
    forall p: nat, q: nat | At(text, literal, p) && At(text, literal, q) && p < q
      ensures q >= p + |literal|
    {
      CharAt(text, literal, q, 0);
      CharAt(text, literal, p, q - p);
    }
    if OccursExactlyOnce(text, literal) {
      var p := IndexOf(text, literal, 0).value;
      forall q: nat | At(text, literal, q) ensures q == p {}
    }
  }

  // -----------------------------------------------------------------------
  // Validation of one generation
  // -----------------------------------------------------------------------

  function MarkdownMarker(i: ReportInput, hashText: Hash -> string): string {
    "<!-- " + "loopeix-plan-report-v0.1" + " generation=" + i.generation + " source=" + hashText(i.planHash) + " -->"
  }

  const META_NAMES: seq<string> := ["loopeix-plan-report-version", "loopeix-generation-id", "loopeix-source-plan-hash"]

  /** The tag up to the end of its name. */
  function MetaOpening(name: string): string {
    "<meta name=\"" + name + "\""
  }

  function Meta(name: string, content: string): string {
    MetaOpening(name) + " content=\"" + content + "\">"
  }

  /** What the three tags hold. */
  function Contents(i: ReportInput, hashText: Hash -> string): seq<string> {
    ["0.1", i.generation, hashText(i.planHash)]
  }

  function Tags(contents: seq<string>): seq<string>
    requires |contents| == 3
  {
    [Meta(META_NAMES[0], contents[0]), Meta(META_NAMES[1], contents[1]), Meta(META_NAMES[2], contents[2])]
  }

  function HtmlMarkers(i: ReportInput, hashText: Hash -> string): seq<string> {
    Tags(Contents(i, hashText))
  }

  predicate IsTag(text: string) {
    OpensOnce(text) && text[0] == '<'
  }

  lemma TagGoesOn(tag: string, more: string)
    requires IsTag(tag) && '<' !in more
    ensures IsTag(tag + more)
  {
    forall i | 0 < i < |tag + more|
      ensures (tag + more)[i] != '<'
    {
      if i >= |tag| {
        assert (tag + more)[i] == more[i - |tag|];
      }
    }
  }

  lemma NoTagInNames()
    ensures forall name :: name in META_NAMES ==> '<' !in name
  {
    assert '<' !in META_NAMES[0];
    assert '<' !in META_NAMES[1];
    assert '<' !in META_NAMES[2];
  }

  lemma MetaIsTag(name: string, content: string)
    requires '<' !in name && '<' !in content
    ensures IsTag(Meta(name, content))
  {
    var open := "<meta name=\"";
    assert IsTag(open);
    TagGoesOn(open, name);
    TagGoesOn(open + name, "\"");
    TagGoesOn(MetaOpening(name), " content=\"");
    TagGoesOn(MetaOpening(name) + " content=\"", content);
    TagGoesOn(MetaOpening(name) + " content=\"" + content, "\">");
  }

  lemma CommentIsTag(generation: string, hash: string)
    requires '<' !in generation && '<' !in hash
    ensures IsTag("<!-- " + "loopeix-plan-report-v0.1" + " generation=" + generation + " source=" + hash + " -->")
  {
    var name, tag := "loopeix-plan-report-v0.1", "<!-- ";
    assert IsTag(tag) && '<' !in name;
    TagGoesOn(tag, name);
    TagGoesOn(tag + name, " generation=");
    TagGoesOn(tag + name + " generation=", generation);
    TagGoesOn(tag + name + " generation=" + generation, " source=");
    TagGoesOn(tag + name + " generation=" + generation + " source=", hash);
    TagGoesOn(tag + name + " generation=" + generation + " source=" + hash, " -->");
  }

  /** So two searches are as good as one for the markers in use: none of their texts opens a tag inside. */
  lemma MarkersOpenOnce(i: ReportInput, hashText: Hash -> string)
    requires '<' !in i.generation && '<' !in hashText(i.planHash)
    ensures OpensOnce(MarkdownMarker(i, hashText))
    ensures forall m :: m in HtmlMarkers(i, hashText) ==> OpensOnce(m)
  {
    CommentIsTag(i.generation, hashText(i.planHash));
    NoTagInNames();
    MetaIsTag(META_NAMES[0], "0.1");
    MetaIsTag(META_NAMES[1], i.generation);
    MetaIsTag(META_NAMES[2], hashText(i.planHash));
  }

  predicate OpensAt(html: string, i: nat) {
    exists name :: name in META_NAMES && At(html, MetaOpening(name), i)
  }

  /** The places where a tag opens under one of the three names. */
  function OpeningPlaces(html: string): set<nat> {
    set i: nat | i < |html| && OpensAt(html, i)
  }

  function FirstLine(text: string): string {
    match IndexOf(text, "\n", 0)
    case None => text
    case Some(i) => text[..i]
  }

  predicate MarkersHold(i: ReportInput, markdown: string, html: string, hashText: Hash -> string) {
    var marker := MarkdownMarker(i, hashText);
    && FirstLine(markdown) == marker && OccursExactlyOnce(markdown, marker)
    && (forall m :: m in HtmlMarkers(i, hashText) ==> OccursExactlyOnce(html, m))
    && |OpeningPlaces(html)| == 3
  }

  /** Neither an id nor a hash text holds a character that ends a line, a quotation or a text node. */
  predicate Inert(text: string) {
    '\n' !in text && '<' !in text && '"' !in text
  }

  ghost predicate OnePlace(text: string, literal: string) {
    exists p: nat :: At(text, literal, p) && forall q: nat :: At(text, literal, q) ==> q == p
  }

  lemma FirstLineIs(text: string, line: string)
    requires '\n' !in line
    ensures FirstLine(text) == line <==> text == line || line + "\n" <= text
  {
    match IndexOf(text, "\n", 0) {
      case None =>
        if line + "\n" <= text {
          assert At(text, "\n", |line|);
        }
      case Some(i) =>
        assert text[i] == '\n' by { CharAt(text, "\n", i, 0); }
        if FirstLine(text) == line {
          assert line + "\n" == text[..i + 1];
        }
        if line + "\n" <= text {
          assert At(text, "\n", |line|) && text[..|line|] == line;
          forall k | 0 <= k < |line| ensures text[k] != '\n' {
            assert text[k] == text[..|line|][k];
          }
        }
    }
  }

  lemma MarkerOnOneLine(i: ReportInput, hashText: Hash -> string)
    requires Inert(i.generation) && Inert(hashText(i.planHash))
    ensures '\n' !in MarkdownMarker(i, hashText)
  {
    assert '\n' !in "<!-- " && '\n' !in "loopeix-plan-report-v0.1" && '\n' !in " generation=";
    assert '\n' !in " source=" && '\n' !in " -->";
  }

  lemma OpeningIsAPlace(html: string, i: nat)
    ensures i in OpeningPlaces(html) <==> OpensAt(html, i)
  {
    if OpensAt(html, i) {
      var name :| name in META_NAMES && At(html, MetaOpening(name), i);
      assert |MetaOpening(name)| > 0;
    }
  }

  lemma MetaOpens(html: string, k: nat, content: string, i: nat)
    requires k < 3 && At(html, Meta(META_NAMES[k], content), i)
    ensures At(html, MetaOpening(META_NAMES[k]), i) && OpensAt(html, i)
  {
    var open := MetaOpening(META_NAMES[k]);
    assert Meta(META_NAMES[k], content)[..|open|] == open;
    assert html[i..i + |open|] == html[i..i + |Meta(META_NAMES[k], content)|][..|open|];
  }

  /** Tags of different names cannot open at the same place: the names differ in their ninth character. */
  lemma OneNamePerPlace(html: string, j: nat, k: nat, i: nat)
    requires j < 3 && k < 3
    requires At(html, MetaOpening(META_NAMES[j]), i) && At(html, MetaOpening(META_NAMES[k]), i)
    ensures j == k
  {
    NinthCharacters();
    OpeningCharacter(html, j, i);
    OpeningCharacter(html, k, i);
  }

  lemma NinthCharacters()
    ensures |META_NAMES[0]| > 8 && |META_NAMES[1]| > 8 && |META_NAMES[2]| > 8
    ensures META_NAMES[0][8] == 'p' && META_NAMES[1][8] == 'g' && META_NAMES[2][8] == 's'
  {}

  lemma OpeningCharacter(html: string, k: nat, i: nat)
    requires k < 3 && |META_NAMES[k]| > 8 && At(html, MetaOpening(META_NAMES[k]), i)
    ensures i + 20 < |html| && html[i + 20] == META_NAMES[k][8]
  {
    var open := "<meta name=\"";
    assert |open| == 12;
    assert MetaOpening(META_NAMES[k])[20] == META_NAMES[k][8];
    CharAt(html, MetaOpening(META_NAMES[k]), i, 20);
  }

  lemma SubsetOfSameSize(a: set<nat>, b: set<nat>)
    requires a <= b && |a| == |b|
    ensures a == b
  {
    assert |b - a| == |b| - |a|;
  }

  lemma ThreePlaces(html: string, opens: set<nat>, tags: seq<string>, p: nat, q: nat, r: nat)
    requires |tags| == 3 && p != q && q != r && p != r && p in opens && q in opens && r in opens
    requires forall i: nat :: (At(html, tags[0], i) <==> i == p) && (At(html, tags[1], i) <==> i == q)
    requires forall i: nat :: At(html, tags[2], i) <==> i == r
    ensures |opens| == 3 <==> forall i: nat :: i in opens ==> exists k :: 0 <= k < 3 && At(html, tags[k], i)
  {
    var places := {p, q, r};
    assert |places| == 3 && places <= opens;
    forall i: nat ensures i in places <==> exists k :: 0 <= k < 3 && At(html, tags[k], i) {
      assert At(html, tags[0], p) && At(html, tags[1], q) && At(html, tags[2], r);
    }
    if opens <= places {
      assert opens == places;
    }
    if |opens| == 3 {
      SubsetOfSameSize(places, opens);
    }
  }

  /** The one place of the tag with this name and content, at which a tag opens under the name. */
  lemma PlaceOf(html: string, k: nat, content: string) returns (p: nat)
    requires k < 3 && OnePlace(html, Meta(META_NAMES[k], content))
    ensures forall i: nat :: At(html, Meta(META_NAMES[k], content), i) <==> i == p
    ensures At(html, MetaOpening(META_NAMES[k]), p) && p in OpeningPlaces(html)
  {
    p :| At(html, Meta(META_NAMES[k], content), p);
    MetaOpens(html, k, content, p);
    OpeningIsAPlace(html, p);
  }

  /** Where each of the three tags stands once, counting three openings means that there is no other one. */
  lemma ThreeOpenings(html: string, contents: seq<string>)
    requires |contents| == 3 && forall k :: 0 <= k < 3 ==> OnePlace(html, Tags(contents)[k])
    ensures |OpeningPlaces(html)| == 3 <==>
            forall i: nat :: OpensAt(html, i) ==> exists k :: 0 <= k < 3 && At(html, Tags(contents)[k], i)
  {
    assert OnePlace(html, Tags(contents)[0]) && OnePlace(html, Tags(contents)[1]) && OnePlace(html, Tags(contents)[2]);
    var p := PlaceOf(html, 0, contents[0]);
    var q := PlaceOf(html, 1, contents[1]);
    var r := PlaceOf(html, 2, contents[2]);
    PlacesDiffer(html, p, q, r);
    ThreePlaces(html, OpeningPlaces(html), Tags(contents), p, q, r);
    forall i: nat ensures i in OpeningPlaces(html) <==> OpensAt(html, i) {
      OpeningIsAPlace(html, i);
    }
  }

  lemma PlacesDiffer(html: string, p: nat, q: nat, r: nat)
    requires At(html, MetaOpening(META_NAMES[0]), p) && At(html, MetaOpening(META_NAMES[1]), q)
    requires At(html, MetaOpening(META_NAMES[2]), r)
    ensures p != q && q != r && p != r
  {
    if p == q { OneNamePerPlace(html, 0, 1, p); }
    if q == r { OneNamePerPlace(html, 1, 2, q); }
    if p == r { OneNamePerPlace(html, 0, 2, p); }
  }

  /**
   * What the searches of the reader come to: the Markdown begins with its marker, on a line of its own, and
   * has no other; each HTML marker stands at one place, and no other tag opens under one of the three names.
   */
  lemma MarkersExactly(i: ReportInput, markdown: string, html: string, hashText: Hash -> string)
    requires Inert(i.generation) && Inert(hashText(i.planHash))
    ensures var marker, tags := MarkdownMarker(i, hashText), Tags(["0.1", i.generation, hashText(i.planHash)]);
      MarkersHold(i, markdown, html, hashText) <==>
      && (markdown == marker || marker + "\n" <= markdown)
      && (forall p: nat :: At(markdown, marker, p) <==> p == 0)
      && (forall k :: 0 <= k < 3 ==> OnePlace(html, tags[k]))
      && forall p: nat :: OpensAt(html, p) ==> exists k :: 0 <= k < 3 && At(html, tags[k], p)
  {
    var marker, tags := MarkdownMarker(i, hashText), HtmlMarkers(i, hashText);
    MarkersOpenOnce(i, hashText);
    MarkerOnOneLine(i, hashText);
    FirstLineIs(markdown, marker);
    OccursExactlyOnceMeansOnePlace(markdown, marker);
    if FirstLine(markdown) == marker {
      assert At(markdown, marker, 0);
    }
    EachOnce(html, tags);
    if forall k :: 0 <= k < 3 ==> OnePlace(html, tags[k]) {
      ThreeOpenings(html, Contents(i, hashText));
    }
  }

  lemma EachOnce(html: string, tags: seq<string>)
    requires forall m :: m in tags ==> OpensOnce(m)
    ensures (forall m :: m in tags ==> OccursExactlyOnce(html, m)) <==>
            forall k :: 0 <= k < |tags| ==> OnePlace(html, tags[k])
  {
    forall m | m in tags ensures OccursExactlyOnce(html, m) <==> OnePlace(html, m) {
      OccursExactlyOnceMeansOnePlace(html, m);
    }
  }

  /** At one place a tag has one content. */
  lemma OneContentPerPlace(html: string, name: string, a: string, b: string, p: nat)
    requires At(html, Meta(name, a), p) && At(html, Meta(name, b), p) && '"' !in a && '"' !in b
    ensures a == b
  {
    var open := MetaOpening(name) + " content=\"";
    SameUpToEnd(html, open, a, b, "\">", p);
  }

  lemma SameUpToEnd(text: string, open: string, a: string, b: string, end: string, p: nat)
    requires end != [] && end[0] !in a && end[0] !in b
    requires At(text, open + a + end, p) && At(text, open + b + end, p)
    ensures a == b
  {
    CharAt(text, open + a + end, p, |open| + |a|);
    CharAt(text, open + b + end, p, |open| + |b|);
    CharAt(text, open + a + end, p, |open| + |b|);
    CharAt(text, open + b + end, p, |open| + |a|);
    forall d | 0 <= d < |a| && d < |b| ensures a[d] == b[d] {
      CharAt(text, open + a + end, p, |open| + d);
      CharAt(text, open + b + end, p, |open| + d);
    }
  }

  lemma MarkerFixesContent(html: string, k: nat, c: string, d: string)
    requires k < 3 && '"' !in c && '"' !in d && OnePlace(html, Meta(META_NAMES[k], d))
    requires forall p: nat :: At(html, MetaOpening(META_NAMES[k]), p) ==> At(html, Meta(META_NAMES[k], c), p)
    ensures c == d
  {
    var p := PlaceOf(html, k, d);
    OneContentPerPlace(html, META_NAMES[k], c, d, p);
  }

  /** No other tag opens, so under each name it is its own tag. */
  lemma OwnTagOnly(html: string, contents: seq<string>, k: nat, p: nat)
    requires |contents| == 3 && k < 3 && At(html, MetaOpening(META_NAMES[k]), p)
    requires OpensAt(html, p) ==> exists j :: 0 <= j < 3 && At(html, Tags(contents)[j], p)
    ensures At(html, Meta(META_NAMES[k], contents[k]), p)
  {
    assert META_NAMES[k] in META_NAMES;
    var j :| 0 <= j < 3 && At(html, Tags(contents)[j], p);
    MetaOpens(html, j, contents[j], p);
    OneNamePerPlace(html, k, j, p);
  }

  /** So the two texts alone say which generation and which plan they belong to. */
  lemma TextsNameTheirInput(i: ReportInput, j: ReportInput, markdown: string, html: string, hashText: Hash -> string)
    requires Inert(i.generation) && Inert(hashText(i.planHash)) && Inert(j.generation) && Inert(hashText(j.planHash))
    requires MarkersHold(i, markdown, html, hashText) && MarkersHold(j, markdown, html, hashText)
    ensures i.generation == j.generation && hashText(i.planHash) == hashText(j.planHash)
  {
    MarkersExactly(i, markdown, html, hashText);
    MarkersExactly(j, markdown, html, hashText);
    var c, d := Contents(i, hashText), Contents(j, hashText);
    forall k, p: nat | 1 <= k < 3 && At(html, MetaOpening(META_NAMES[k]), p)
      ensures At(html, Meta(META_NAMES[k], c[k]), p)
    {
      OwnTagOnly(html, c, k, p);
    }
    assert OnePlace(html, Tags(d)[1]) && OnePlace(html, Tags(d)[2]);
    MarkerFixesContent(html, 1, c[1], d[1]);
    MarkerFixesContent(html, 2, c[2], d[2]);
  }

  function Validate(codec: Codec, g: Generation): Option<ReportInput> {
    match codec.input(g.input)
    case None => None
    case Some(i) =>
      if Sha256(g.plan) != i.planHash || Sha256(g.manifest) != i.manifestHash || Sha256(g.loop) != i.loopHash
         || Sha256(g.markdown) != i.markdownHash || Sha256(g.html) != i.htmlHash then None
      else
        var markdown, html := codec.text(g.markdown), codec.text(g.html);
        if markdown.None? || html.None? then None
        else if MarkersHold(i, markdown.value, html.value, codec.hashText) then Some(i) else None
  }

  // -----------------------------------------------------------------------
  // The open decision
  // -----------------------------------------------------------------------

  datatype Decision = Opened(input: ReportInput) | NotBuilt | Contaminated | InvalidGeneration

  /** Exactly these names, each a regular file. */
  predicate ExactRegularSet(files: Files, names: set<string>) {
    files.Keys == names && forall name :: name in files ==> files[name].File?
  }

  function Decide(codec: Codec, listed: Files, core: set<string>, l: Layout, g: Option<Generation>): Decision {
    if ExactRegularSet(listed, core) then NotBuilt
    else if ExactRegularSet(listed, core + (set name | name in l.reports)) then
      match g
      case None => InvalidGeneration
      case Some(bytes) =>
        match Validate(codec, bytes)
        case None => InvalidGeneration
        case Some(i) => Opened(i)
    else Contaminated
  }

  /**
   * What opening a directory comes to. Not built: the core files and nothing else. Contaminated: neither these
   * nor these with the three reports. Opened: the input names the hash of each of the other five members, and
   * both texts carry its markers.
   */
  lemma OpenDecision(codec: Codec, listed: Files, core: set<string>, l: Layout, g: Option<Generation>)
    requires exists name :: name in l.reports && name !in core
    ensures var d := Decide(codec, listed, core, l, g);
      var regular := forall name :: name in listed ==> listed[name].File?;
      var bare, full := listed.Keys == core, forall name :: name in listed <==> name in core || name in l.reports;
      && (d == NotBuilt <==> regular && bare)
      && (d == Contaminated <==> !regular || (!bare && !full))
      && (forall i :: d == Opened(i) <==>
            && regular && full && g.Some? && codec.input(g.value.input) == Some(i)
            && i == ReportInput(i.generation, Sha256(g.value.plan), Sha256(g.value.manifest), Sha256(g.value.loop),
                                Sha256(g.value.markdown), Sha256(g.value.html))
            && codec.text(g.value.markdown).Some? && codec.text(g.value.html).Some?
            && MarkersHold(i, codec.text(g.value.markdown).value, codec.text(g.value.html).value, codec.hashText))
  {
    var names := core + (set name | name in l.reports);
    assert listed.Keys == names <==> forall name :: name in listed <==> name in core || name in l.reports;
    var name :| name in l.reports && name !in core;
    assert name in names;
  }

  /** So the input alone fixes all that is opened with it: plan, manifest, loop and both texts. */
  lemma InputFixesTheRest(codec: Codec, listed: Files, other: Files, core: set<string>, l: Layout,
                          g: Generation, h: Generation)
    requires Decide(codec, listed, core, l, Some(g)).Opened? && Decide(codec, other, core, l, Some(h)).Opened?
    requires g.input == h.input
    ensures g == h
  {}

  // -----------------------------------------------------------------------
  // No mixture
  // -----------------------------------------------------------------------

  /** The reports are still those that the writer found, whatever there is at the lock's name. */
  ghost predicate NotBegun(files: Files, n: Names, lock: Lock) {
    |n.reports| == 3 && LockShape(lock) && forall i :: 0 <= i < 3 ==> HashAt(files, n.reports[i]) == Before(lock, i)
  }

  /** Every state that the writer passes through, or leaves: before its lock, with it, after it. */
  ghost predicate During(files: Files, n: Names, lock: Lock, bytes: seq<Content>) {
    NotBegun(files, n, lock) || InFlight(files, n, lock, bytes) || Committed(files, n, bytes)
  }

  /** Taking the lock changes nothing but the lock, so until it is whole nothing has begun. */
  lemma TakingTheLockIsNotBegun(l: Layout, files: Files, after: Files, request: Request, env: Environment)
    requires Proper(l) && ValidRequest(request) && env.selfIdentity.Some? && !PartialSet(l, files)
    requires after == files || OneChange(files, after, l.lock)
    ensures var lock := FreshLock(l, files, request, env); NotBegun(after, NamesFor(l, lock.temps), lock)
  {
    var lock := FreshLock(l, files, request, env);
    assert TempNamesParse(l, lock.temps);
    forall i | 0 <= i < 3
      ensures HashAt(after, l.reports[i]) == HashAt(files, l.reports[i]) == Before(lock, i)
    {
      assert l.reports[i] != l.lock;
      assert HashAt(files, l.reports[0]).Some? <==> HashAt(files, l.reports[1]).Some?;
    }
  }

  /** What a read of report `i` returns at some moment of the writer's run. */
  ghost predicate ReadAt(files: Files, n: Names, i: nat, content: Content)
    requires i < |n.reports|
  {
    n.reports[i] in files && files[n.reports[i]] == File(content)
  }

  lemma ReadsOldOrNew(files: Files, n: Names, lock: Lock, bytes: seq<Content>, i: nat, content: Content)
    requires LockShape(lock) && |n.reports| == |bytes| == 3 && During(files, n, lock, bytes)
    requires i < 3 && ReadAt(files, n, i, content)
    ensures content == bytes[i] || (lock.before.Some? && lock.before.value[i] == Sha256(content))
  {
    if InFlight(files, n, lock, bytes) {
      var stage :| Stands(stage, files, n, lock);
      assert HashAt(files, n.reports[i]) == Some(Sha256(content));
    }
  }

  /**
   * Three reads, at any three moments of any run of the writer, however often it crashed: what is
   * accepted is the whole old generation or the whole new one, plan, manifest and loop included.
   */
  lemma NeverAMixture(codec: Codec, n: Names, lock: Lock, bytes: seq<Content>, s: Files, t: Files, u: Files,
                      old': Generation, new': Generation, g: Generation)
    requires LockShape(lock) && |bytes| == |n.reports| == 3
    requires During(s, n, lock, bytes) && During(t, n, lock, bytes) && During(u, n, lock, bytes)
    requires lock.before == None || lock.before == Some([Sha256(old'.markdown), Sha256(old'.html), Sha256(old'.input)])
    requires lock.before.Some? ==> Validate(codec, old').Some?
    requires bytes == [new'.markdown, new'.html, new'.input] && Validate(codec, new').Some?
    requires ReadAt(s, n, 2, g.input) && ReadAt(t, n, 0, g.markdown) && ReadAt(u, n, 1, g.html)
    requires Validate(codec, g).Some?
    ensures g == new' || (lock.before.Some? && g == old')
  {
    ReadsOldOrNew(s, n, lock, bytes, 2, g.input);
  }

  /** A directory listed while the lock is there is refused before anything is read. */
  lemma ListedInFlightIsContaminated(codec: Codec, files: Files, n: Names, lock: Lock, bytes: seq<Content>,
                                     core: set<string>, l: Layout, g: Option<Generation>)
    requires InFlight(files, n, lock, bytes) && n == NamesFor(l, n.temps) && l.lock !in core
    ensures Decide(codec, files, core, l, g) == Contaminated
  {
    assert n.lock in files;
  }

  /** Once the writer has committed, the new trio is what opens, with the plan, manifest and loop it was built from. */
  lemma CommittedOpens(codec: Codec, files: Files, l: Layout, n: Names, bytes: seq<Content>, core: set<string>,
                       new': Generation, g: Generation)
    requires Committed(files, n, bytes) && Plain(files, n) && n == NamesFor(l, n.temps)
    requires forall name :: name in l.reports ==> l.prefix <= name
    requires forall name :: name in core ==> name in files && files[name].File? && !(l.prefix <= name)
    requires forall name :: name in files ==> name in core || l.prefix <= name
    requires bytes == [new'.markdown, new'.html, new'.input] && Validate(codec, new').Some?
    requires ReadAt(files, n, 2, g.input) && ReadAt(files, n, 0, g.markdown) && ReadAt(files, n, 1, g.html)
    ensures Decide(codec, files, core, l, Some(g)) ==
            if g.plan == new'.plan && g.manifest == new'.manifest && g.loop == new'.loop
            then Opened(Validate(codec, new').value) else InvalidGeneration
  {
    assert l.reports[0] in l.reports && l.prefix <= l.reports[0];
    assert l.reports[0] in files && l.reports[0] !in core;
    var names := core + (set name | name in l.reports);
    forall name
      ensures name in files <==> name in names
    {
      if name in files && name !in core {
        assert name in n.reports || name in n.temps;
      }
    }
    assert files.Keys == names;
  }

  // -----------------------------------------------------------------------
  // The layout filter in front of the writer
  // -----------------------------------------------------------------------

  /** The temp names that the report-writer capture lets through. */
  predicate CaptureTempName(name: string) {
    exists kind :: kind in ["md", "html", "input.json"] && IsTempName("plan-report." + kind, name)
  }

  predicate CaptureLayout(files: Files, core: set<string>) {
    && (forall name :: name in files ==>
          files[name].File? &&
          (name in core || name in LAYOUT.reports || name == LAYOUT.lock || CaptureTempName(name)))
    && core <= files.Keys
  }

  lemma TempNameStarts(report: string, name: string, i: nat)
    requires IsTempName(report, name) && i < |report|
    ensures name[i] == report[i]
  {
    assert name[i] == name[..|report| + 1][i];
  }

  /** The third temp is spelled with a hyphen where the filter expects a dot. */
  lemma ThirdTempIsFiltered(name: string)
    requires IsTempName(LAYOUT.reports[2], name)
    ensures !CaptureTempName(name)
  {
    TempNameStarts(LAYOUT.reports[2], name, 11);
    forall kind: string ensures !IsTempName("plan-report." + kind, name) {
      if IsTempName("plan-report." + kind, name) {
        TempNameStarts("plan-report." + kind, name, 11);
      }
    }
  }

  lemma OtherTempsPass(name: string)
    requires IsTempName(LAYOUT.reports[0], name) || IsTempName(LAYOUT.reports[1], name)
    ensures CaptureTempName(name)
  {
    assert "plan-report." + "md" == LAYOUT.reports[0] && "plan-report." + "html" == LAYOUT.reports[1];
    assert "md" in ["md", "html", "input.json"] && "html" in ["md", "html", "input.json"];
  }

  lemma ThirdTempExists(files: Files, n: Names, lock: Lock, stage: Stage)
    requires Apart(n) && LockShape(lock) && Stands(stage, files, n, lock) && Plain(files, n)
    ensures n.temps[2] in files <==> stage in [Torn(2), Staged(3), Renamed(1), Renamed(2)]
  {
    assert HashAt(files, n.temps[2]).Some? <==> n.temps[2] in files;
  }

  /**
   * So the filter admits a state of the protocol exactly as long as the third temp has not been
   * created, or once it has been renamed.
   */
  lemma FilteredWhileThirdTempExists(files: Files, lock: Lock, bytes: seq<Content>, core: set<string>, stage: Stage)
    requires TempNamesParse(LAYOUT, lock.temps) && InFlight(files, NamesFor(LAYOUT, lock.temps), lock, bytes)
    requires Stands(stage, files, NamesFor(LAYOUT, lock.temps), lock)
    requires core <= files.Keys && forall name :: name in core ==> !(LAYOUT.prefix <= name)
    requires forall name :: name in files ==> files[name].File? && (name in core || LAYOUT.prefix <= name)
    ensures CaptureLayout(files, core) <==> stage !in [Torn(2), Staged(3), Renamed(1), Renamed(2)]
  {
    var n := NamesFor(LAYOUT, lock.temps);
    TempsApart(lock.temps);
    ThirdTempExists(files, n, lock, stage);
    ThirdTempIsFiltered(n.temps[2]);
    OtherTempsPass(n.temps[0]);
    OtherTempsPass(n.temps[1]);
    FilterOnOwned(files, core, n);
  }

  lemma FilterOnOwned(files: Files, core: set<string>, n: Names)
    requires Apart(n) && n.lock == LAYOUT.lock && n.reports == LAYOUT.reports && core <= files.Keys
    requires forall name :: name in files ==> files[name].File? && (name in core || Owns(n, name))
    requires forall name :: Owns(n, name) ==> name !in core
    requires CaptureTempName(n.temps[0]) && CaptureTempName(n.temps[1]) && !CaptureTempName(n.temps[2])
    ensures CaptureLayout(files, core) <==> n.temps[2] !in files
  {
    var third := n.temps[2];
    assert Owns(n, third) && third !in n.reports && third != n.lock;
    forall name | name in files && name !in core && name != third
      ensures name in n.reports || name == n.lock || CaptureTempName(name)
    {
      assert name in n.temps ==> name == n.temps[0] || name == n.temps[1];
    }
  }

  /**
   * And there is such a state for every directory: after the lock the filter admits it, four steps later it does
   * not.
   */
  lemma FilterRejectsFirstPublication(core: Files, lock: Lock, bytes: seq<Content>) returns (states: seq<Files>)
    requires LockShape(lock) && TempNamesParse(LAYOUT, lock.temps) && lock.before.None?
    requires |bytes| == 3 && forall i :: 0 <= i < 3 ==> lock.target[i] == Sha256(bytes[i])
    requires forall name :: name in core ==> core[name].File? && !(LAYOUT.prefix <= name)
    ensures Apart(NamesFor(LAYOUT, lock.temps)) && Run(states, NamesFor(LAYOUT, lock.temps), lock, bytes)
    ensures |states| == 5 && states[0] == core[LAYOUT.lock := File(LockText(lock))]
    ensures CaptureLayout(states[0], core.Keys) && !CaptureLayout(states[4], core.Keys)
  {
    LayoutIsProper();
    states := StuckRun(LAYOUT, core, lock, bytes);
    FilterFromCore(core, states[0], lock, bytes, Staged(0));
    FilterFromCore(core, states[4], lock, bytes, Renamed(1));
  }

  lemma StuckRun(l: Layout, core: Files, lock: Lock, bytes: seq<Content>) returns (states: seq<Files>)
    requires Proper(l) && LockShape(lock) && TempNamesParse(l, lock.temps) && lock.before.None?
    requires |bytes| == 3 && forall i :: 0 <= i < 3 ==> lock.target[i] == Sha256(bytes[i])
    requires forall name :: name in core ==> core[name].File? && !(l.prefix <= name)
    ensures var n := NamesFor(l, lock.temps);
      && Apart(n) && |states| == 5 && states[0] == core[l.lock := File(LockText(lock))] && Run(states, n, lock, bytes)
      && Stood(Staged(0), core, states[0], n, lock, bytes) && Stood(Renamed(1), core, states[4], n, lock, bytes)
  {
    states := FirstPublicationCanStick(l, core, lock, bytes);
    RunFromCore(core, states, NamesFor(l, lock.temps), lock, bytes);
  }

  /** A state of the protocol that has left everything but its own names alone. */
  ghost predicate Stood(stage: Stage, core: Files, files: Files, n: Names, lock: Lock, bytes: seq<Content>) {
    && InFlight(files, n, lock, bytes) && Stands(stage, files, n, lock) && Plain(files, n)
    && OthersUnchanged(core[n.lock := File(LockText(lock))], files, n)
  }

  lemma RunFromCore(core: Files, states: seq<Files>, n: Names, lock: Lock, bytes: seq<Content>)
    requires states != [] && InFlight(states[0], n, lock, bytes) && Run(states, n, lock, bytes)
    requires states[0] == core[n.lock := File(LockText(lock))]
    requires forall name :: Owns(n, name) ==> n.prefix <= name
    requires forall name :: name in core ==> core[name].File? && !(n.prefix <= name)
    ensures Plain(states[0], n) && OthersUnchanged(states[0], states[0], n)
    ensures Plain(states[|states| - 1], n) && OthersUnchanged(states[0], states[|states| - 1], n)
  {
    RunsStayRecognised(states, n, lock, bytes);
  }

  lemma FilterFromCore(core: Files, files: Files, lock: Lock, bytes: seq<Content>, stage: Stage)
    requires TempNamesParse(LAYOUT, lock.temps) && Stood(stage, core, files, NamesFor(LAYOUT, lock.temps), lock, bytes)
    requires forall name :: name in core ==> core[name].File? && !(LAYOUT.prefix <= name)
    ensures CaptureLayout(files, core.Keys) <==> stage !in [Torn(2), Staged(3), Renamed(1), Renamed(2)]
  {
    TempsApart(lock.temps);
    NothingElseAppears(core, files, NamesFor(LAYOUT, lock.temps), lock);
    FilteredWhileThirdTempExists(files, lock, bytes, core.Keys, stage);
  }

  lemma NothingElseAppears(core: Files, files: Files, n: Names, lock: Lock)
    requires Apart(n) && Authentic(files, n, lock) && Plain(files, n)
    requires OthersUnchanged(core[n.lock := File(LockText(lock))], files, n)
    requires forall name :: Owns(n, name) ==> n.prefix <= name
    requires forall name :: name in core ==> core[name].File? && !(n.prefix <= name)
    ensures core.Keys <= files.Keys
    ensures forall name :: name in files ==> files[name].File? && (name in core || n.prefix <= name)
  {
    forall name | name in files
      ensures files[name].File? && (name in core || n.prefix <= name)
    {
      if !Owns(n, name) {
        assert name in core;
      }
    }
    forall name | name in core
      ensures name in files
    {
      assert !Owns(n, name);
    }
  }
}
