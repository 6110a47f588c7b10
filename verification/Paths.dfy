/**
 * Path normalisation and glob adjudication of one path (src/glob.ts).
 *
 * `normalizePath` keeps a stack of segment texts. Its meaning is given by walking a directory tree
 * from the workspace root, one segment at a time.
 */
module Paths {
  import opened Prelude
  import opened Text
  import opened Glob

  const DOT_SEGMENT: UnitString := [DOT]
  const DOT_DOT: UnitString := [DOT, DOT]

  /** A place in the tree below the workspace root. */
  datatype Node = Root | Child(parent: Node, name: UnitString)

  predicate IsSkip(segment: UnitString) {
    segment == [] || segment == DOT_SEGMENT
  }

  predicate IsName(segment: UnitString) {
    !IsSkip(segment) && segment != DOT_DOT
  }

  function Step(at: Option<Node>, segment: UnitString): Option<Node> {
    if at.None? || IsSkip(segment) then at
    else if segment == DOT_DOT then if at.value.Root? then None else Some(at.value.parent)
    else Some(Child(at.value, segment))
  }

  function Walk(segments: seq<UnitString>): Option<Node> {
    if segments == [] then Some(Root)
    else Step(Walk(segments[..|segments| - 1]), segments[|segments| - 1])
  }

  function Names(node: Node): seq<UnitString> {
    match node
    case Root => []
    case Child(parent, name) => Names(parent) + [name]
  }

  /** How far below the root the segments lead, when going above it is allowed. */
  function Depth(segments: seq<UnitString>): int {
    if segments == [] then 0
    else
      var last := segments[|segments| - 1];
      Depth(segments[..|segments| - 1]) + if last == DOT_DOT then -1 else if IsSkip(last) then 0 else 1
  }

  /** Some prefix of the segments has more `..` than names. */
  ghost predicate StepsAboveRoot(segments: seq<UnitString>) {
    exists n: nat :: n <= |segments| && Depth(segments[..n]) < 0
  }

  /** An absolute path is taken relative to the workspace root, if it lies there. */
  function Relative(path: UnitString, root: Option<UnitString>): Option<UnitString> {
    if path == [] || path[0] != SLASH then Some(path)
    else
      match root
      case None => None
      case Some(w) =>
        var dir := if w != [] && w[|w| - 1] == SLASH then w else w + [SLASH];
        if dir <= path then Some(path[|dir|..]) else if path == w then Some([]) else None
  }

  function Reached(path: UnitString, root: Option<UnitString>): Option<Node> {
    match Relative(path, root)
    case None => None
    case Some(p) => Walk(Split(p, SLASH))
  }

  /** The canonical name of the node reached. */
  function Canonical(path: UnitString, root: Option<UnitString>): Option<UnitString> {
    match Reached(path, root)
    case None => None
    case Some(node) => Some(Join(Names(node), SLASH))
  }

  /** An absolute path must lie in the workspace root. */
  method RelativeTo(path: UnitString, workspaceRoot: Option<UnitString>) returns (r: Option<UnitString>)
    ensures r == Relative(path, workspaceRoot)
  {
    if path == [] || path[0] != SLASH {
      return Some(path);
    }
    if workspaceRoot.None? {
      return None;
    }
    var w := workspaceRoot.value;
    var root := if w != [] && w[|w| - 1] == SLASH then w else w + [SLASH];
    if root <= path {
      r := Some(path[|root|..]);
    } else if path == w {
      r := Some([]);
    } else {
      r := None;
    }
  }

  method NormalizePath(path: UnitString, workspaceRoot: Option<UnitString>) returns (r: Option<UnitString>)
    ensures r == Canonical(path, workspaceRoot)
  {
    var relative := RelativeTo(path, workspaceRoot);
    if relative.None? {
      return None;
    }
    var p := relative.value;
    if [DOT, SLASH] <= p {
      StripDotSlash(p);
      p := p[2..];
    }
    var resolved := Resolve(Split(p, SLASH));
    match resolved {
      case None => r := None;
      case Some(names) => r := Some(Join(names, SLASH));
    }
  }

  /** The loop over the segments: names are pushed, `..` pops. */
  method Resolve(segments: seq<UnitString>) returns (r: Option<seq<UnitString>>)
    ensures r == match Walk(segments) case None => None case Some(node) => Some(Names(node))
  {
    var resolved: seq<UnitString> := [];
    for i := 0 to |segments|
      invariant Walk(segments[..i]).Some? && Names(Walk(segments[..i]).value) == resolved
    {
      var seg := segments[i];
      assert segments[..i + 1][..i] == segments[..i];
      if seg == [] || seg == DOT_SEGMENT {
      } else if seg == DOT_DOT {
        if |resolved| > 0 {
          resolved := resolved[..|resolved| - 1];
        } else {
          WalkStuck(segments, i + 1);
          return None;
        }
      } else {
        resolved := resolved + [seg];
      }
    }
    assert segments[..|segments|] == segments;
    r := Some(resolved);
  }

  lemma {:induction false} WalkStuck(segments: seq<UnitString>, n: nat)
    requires n <= |segments| && Walk(segments[..n]).None?
    ensures Walk(segments).None?
    decreases |segments| - n
  {
    if n == |segments| {
      assert segments[..n] == segments;
    } else {
      assert segments[..n + 1][..n] == segments[..n];
      WalkStuck(segments, n + 1);
    }
  }

  lemma {:induction false} WalkSkip(segment: UnitString, rest: seq<UnitString>)
    requires IsSkip(segment)
    ensures Walk([segment] + rest) == Walk(rest)
  {
    var all := [segment] + rest;
    if rest == [] {
      assert all[..0] == [];
    } else {
      WalkSkip(segment, rest[..|rest| - 1]);
      assert all[..|all| - 1] == [segment] + rest[..|rest| - 1];
    }
  }

  lemma StripDotSlash(p: UnitString)
    requires [DOT, SLASH] <= p
    ensures Walk(Split(p[2..], SLASH)) == Walk(Split(p, SLASH))
  {
    assert p == DOT_SEGMENT + [SLASH] + p[2..];
    SplitHead(DOT_SEGMENT, p[2..], SLASH);
    WalkSkip(DOT_SEGMENT, Split(p[2..], SLASH));
  }

  // -----------------------------------------------------------------------
  // What is promised
  // -----------------------------------------------------------------------

  lemma {:induction false} WalkDepth(segments: seq<UnitString>)
    ensures Walk(segments).None? <==> StepsAboveRoot(segments)
    ensures Walk(segments).Some? ==> |Names(Walk(segments).value)| == Depth(segments)
  {
    if segments == [] {
      assert forall n: nat :: n <= 0 ==> segments[..n] == [];
    } else {
      var init := segments[..|segments| - 1];
      WalkDepth(init);
      assert forall n: nat :: n < |segments| ==> segments[..n] == init[..n];
      assert segments[..|segments|] == segments;
      if Walk(init).None? {
        var n: nat :| n <= |init| && Depth(init[..n]) < 0;
        assert Depth(segments[..n]) < 0;
      } else if Depth(segments) < 0 {
        assert Depth(segments[..|segments|]) < 0;
      }
    }
  }

  /** A relative path is refused exactly when some prefix of it has stepped above the root. */
  lemma RefusedIffEscapes(path: UnitString, root: Option<UnitString>)
    requires path == [] || path[0] != SLASH
    ensures Canonical(path, root).None? <==>
            StepsAboveRoot(Split(path, SLASH))
  {
    WalkDepth(Split(path, SLASH));
    assert Reached(path, root) == Walk(Split(path, SLASH));
  }

  /** Without a root, and outside the root, an absolute path is refused: "/ws2/a" is not under "/ws". */
  lemma AbsoluteIffUnderRoot(path: UnitString, w: UnitString)
    requires path != [] && path[0] == SLASH && (w == [] || w[|w| - 1] != SLASH)
    ensures Canonical(path, None) == None
    ensures Relative(path, Some(w)).Some? <==> path == w || w + [SLASH] <= path
    ensures Relative(path, Some(w + [SLASH])).Some? <==> w + [SLASH] <= path
    ensures |path| > |w| && path[|w|] != SLASH ==> Canonical(path, Some(w)) == None
  {
    var dir := w + [SLASH];
    assert dir[|dir| - 1] == SLASH && dir[|w|] == SLASH;
    assert |path| > |w| && path[|w|] != SLASH ==> !(dir <= path);
  }

  /**
   * Under the root, named with or without its final slash, an absolute path normalises as the rest of it does
   * when taken from there. The root itself is the empty path, unless it was named with the slash and the path
   * without.
   */
  lemma AbsoluteIsRelative(w: UnitString, rest: UnitString)
    requires w == [] || (w[0] == SLASH && w[|w| - 1] != SLASH)
    ensures var path, here := w + [SLASH] + rest, [DOT, SLASH] + rest;
      Canonical(path, Some(w)) == Canonical(here, None) && Canonical(path, Some(w + [SLASH])) == Canonical(here, None)
    ensures w != [] ==> Canonical(w, Some(w)) == Some([]) && Canonical(w, Some(w + [SLASH])) == None
  {
    var dir, here := w + [SLASH], [DOT, SLASH] + rest;
    var path := dir + rest;
    assert dir[|dir| - 1] == SLASH && path[0] == SLASH && path[|dir|..] == rest && here[2..] == rest;
    StripDotSlash(here);
    if w != [] {
      assert !(dir <= w);
      EmptyLeadsToRoot();
    }
  }

  lemma EmptyLeadsToRoot()
    ensures Split<CodeUnit>([], SLASH) == [[]] && Walk([[]]) == Some(Root) && Join<CodeUnit>([], SLASH) == []
  {
    WalkSkip([], []);
    var empty: seq<UnitString> := [[]];
    assert empty + [] == empty;
  }

  predicate CanonicalNames(names: seq<UnitString>) {
    forall name :: name in names ==> IsName(name) && Free(name, SLASH)
  }

  lemma {:induction false} WalkNames(segments: seq<UnitString>)
    requires Walk(segments).Some? && forall s :: s in segments ==> Free(s, SLASH)
    ensures CanonicalNames(Names(Walk(segments).value))
  {
    if segments != [] {
      WalkNames(segments[..|segments| - 1]);
    }
  }

  lemma {:induction false} NamesWalk(node: Node)
    requires CanonicalNames(Names(node))
    ensures Walk(Names(node)) == Some(node)
  {
    if node.Child? {
      var names := Names(node);
      assert names[..|names| - 1] == Names(node.parent);
      NamesWalk(node.parent);
      assert names[|names| - 1] == node.name && node.name in names;
      assert Walk(names) == Step(Some(node.parent), node.name);
    }
  }

  lemma ReachedNames(path: UnitString, root: Option<UnitString>)
    requires Reached(path, root).Some?
    ensures CanonicalNames(Names(Reached(path, root).value))
  {
    var p := Relative(path, root).value;
    SplitPartsFree(p, SLASH);
    WalkNames(Split(p, SLASH));
  }

  /** The text of a node splits back into its names; the root is the empty text. */
  lemma SplitCanonical(names: seq<UnitString>)
    requires CanonicalNames(names)
    ensures Split(Join(names, SLASH), SLASH) == if names == [] then [[]] else names
  {
    if names != [] {
      SplitJoin(names, SLASH);
    }
  }

  /** A normalised path has no empty, `.` or `..` segment, except that the root is the empty path. */
  lemma OutputIsCanonical(path: UnitString, root: Option<UnitString>)
    requires Canonical(path, root).Some?
    ensures var out := Canonical(path, root).value;
      && (out == [] || CanonicalNames(Split(out, SLASH)))
      && Normalised(out)
  {
    ReachedNames(path, root);
    SplitCanonical(Names(Reached(path, root).value));
  }

  /** Two paths normalise alike exactly when they lead to the same place. */
  lemma SameTextIffSameNode(p: UnitString, q: UnitString, root: Option<UnitString>)
    requires Reached(p, root).Some? && Reached(q, root).Some?
    ensures Canonical(p, root) == Canonical(q, root) <==> Reached(p, root) == Reached(q, root)
  {
    var a, b := Reached(p, root).value, Reached(q, root).value;
    ReachedNames(p, root);
    ReachedNames(q, root);
    SplitCanonical(Names(a));
    SplitCanonical(Names(b));
    NamesWalk(a);
    NamesWalk(b);
    var empty: seq<UnitString> := [[]];
    assert [] in empty && empty != Names(a) && empty != Names(b);
  }

  /** Normalising again changes nothing, and ends at the same place. */
  lemma Idempotent(path: UnitString, root: Option<UnitString>, again: Option<UnitString>)
    requires Canonical(path, root).Some?
    ensures Canonical(Canonical(path, root).value, again) == Canonical(path, root)
  {
    var node, out := Reached(path, root).value, Canonical(path, root).value;
    var names := Names(node);
    ReachedNames(path, root);
    SplitCanonical(names);
    NamesWalk(node);
    if names == [] {
      WalkSkip([], []);
      var empty: seq<UnitString> := [[]];
      assert empty + [] == empty;
    } else {
      SplitCases(out, SLASH);
      assert IsName(names[0]) && Free(names[0], SLASH) && out[..|names[0]|] == names[0];
      assert out[0] == names[0][0];
    }
  }

  // -----------------------------------------------------------------------
  // Matching one path against one glob
  // -----------------------------------------------------------------------

  ghost predicate MatchesGlob(path: UnitString, pattern: UnitString) {
    match Canonical(path, None)
    case None => false
    case Some(p) => Test(GlobText(pattern), p)
  }

  /**
   * A match always means a place inside the workspace whose names the glob covers; the converse
   * holds whenever the canonical path is one line.
   */
  lemma MatchMeansCovered(path: UnitString, pattern: UnitString)
    ensures MatchesGlob(path, pattern) ==>
            Reached(path, None).Some? && Covers(Segments(pattern), Split(Canonical(path, None).value, SLASH))
    ensures Canonical(path, None).Some? && OneLine(Canonical(path, None).value) ==>
            (MatchesGlob(path, pattern) <==> Covers(Segments(pattern), Split(Canonical(path, None).value, SLASH)))
  {
    if Canonical(path, None).Some? {
      var p := Canonical(path, None).value;
      OutputIsCanonical(path, None);
      CompiledExactlyIffOneLine(p);
      if Test(GlobText(pattern), p) {
        CompiledIsConservative(pattern, p);
      }
    }
  }
}
