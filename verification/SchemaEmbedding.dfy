/**
 * Embedding version schemas in the dispatcher schema: the generator's recursive rewriting of
 * references (scripts/generate-schema.ts), and what a reference resolves to before and after.
 */
module SchemaEmbedding {
  import opened Prelude
  import opened Json
  import Decimal
  import Text

  /** The words that the two programs share. */
  datatype Words = Words(ref: string, defs: string, id: string, dialect: string, v01: string, v02: string) {

    predicate Proper() {
      && Plain(defs) && Plain(v01) && Plain(v02) && v01 != v02
      && defs != id && defs != dialect && defs != ref && ref != id && ref != dialect
      && ref != [] && !('0' <= ref[0] <= '9')
    }

    /** `#/$defs/` */
    function Prefix(): string {
      ['#', '/'] + defs + ['/']
    }

    /** The reference, in the namespace. */
    function Rewritten(namespace: string, ref: string): string
      requires Prefix() <= ref
    {
      Prefix() + namespace + ['/'] + defs + ['/'] + ref[|Prefix()|..]
    }
  }

  /** A pointer token that stands for itself. */
  predicate Plain(s: string) {
    s != [] && '/' !in s && '~' !in s
  }

  const WORDS := Words("$ref", "$defs", "$id", "$schema", "v01", "v02")

  /** The words of the repository are as the theorems ask. */
  lemma WordsAreProper()
    ensures WORDS.Proper()
  {
    assert |WORDS.ref| == 4 && |WORDS.defs| == 5 && |WORDS.id| == 3 && |WORDS.dialect| == 7;
    assert WORDS.v01[2] == '1' && WORDS.v02[2] == '2';
  }

  // -----------------------------------------------------------------------
  // Rewriting by recursion
  // -----------------------------------------------------------------------

  predicate IsReference(w: Words, key: string, value: J) {
    key == w.ref && value.Str? && w.Prefix() <= value.s
  }

  /** `rebaseInternalRefs`, lines 62 to 73. */
  function Rebase(w: Words, namespace: string, v: J): (r: J)
    ensures r.Arr? == v.Arr? && r.Obj? == v.Obj?
    decreases v, 0
  {
    match v
    case Arr(items) => Arr(RebaseItems(w, namespace, items))
    case Obj(fields) => Obj(RebaseFields(w, namespace, fields))
    case _ => v
  }

  function RebaseItems(w: Words, namespace: string, items: seq<J>): (r: seq<J>)
    ensures |r| == |items|
    decreases items, 1
  {
    if items == [] then [] else [Rebase(w, namespace, items[0])] + RebaseItems(w, namespace, items[1..])
  }

  function RebaseFields(w: Words, namespace: string, fields: seq<Field>): (r: seq<Field>)
    ensures |r| == |fields|
    decreases fields, 1
  {
    if fields == [] then [] else [RebaseField(w, namespace, fields[0])] + RebaseFields(w, namespace, fields[1..])
  }

  function RebaseField(w: Words, namespace: string, f: Field): Field
    decreases f, 0
  {
    Field(f.key, if IsReference(w, f.key, f.value) then Str(w.Rewritten(namespace, f.value.s))
          else Rebase(w, namespace, f.value))
  }

  /** The image of the value found under a key. */
  function Image(w: Words, namespace: string, key: string, value: J): J {
    RebaseField(w, namespace, Field(key, value)).value
  }

  /** `embeddedVersionSchema`, lines 75 to 80 of the generator. */
  function Embedded(w: Words, namespace: string, schema: seq<Field>): J {
    Rebase(w, namespace, Obj(Without(Without(schema, w.dialect), w.id)))
  }

  /** Lines 101 to 112: `head` is everything before the definitions. */
  function Dispatcher(w: Words, head: seq<Field>, v01: seq<Field>, v02: seq<Field>): J {
    Obj(head + [Field(w.defs, Obj([Field(w.v01, Embedded(w, w.v01, v01)), Field(w.v02, Embedded(w, w.v02, v02))]))])
  }

  // -----------------------------------------------------------------------
  // What a reference resolves to (sections 3, 4 and 6 of RFC 6901)
  // -----------------------------------------------------------------------

  /** The value under a key, of an object that has each key once. */
  function Property(fields: seq<Field>, key: string): Option<J> {
    if fields == [] then None
    else if fields[0].key == key then Some(fields[0].value)
    else Property(fields[1..], key)
  }

  /** With each key once it is what the parser would have kept. */
  lemma {:induction false} PropertyIsLookup(fields: seq<Field>, key: string)
    requires forall i, j :: 0 <= i < j < |fields| ==> fields[i].key != fields[j].key
    ensures Property(fields, key) == Lookup(fields, key)
  {
    if fields != [] {
      var rest := fields[1..];
      PropertyIsLookup(rest, key);
      FirstOrLater(fields[0], rest, key);
      if fields[0].key == key {
        AbsentIsNotFound(rest, key);
      }
      assert fields == [fields[0]] + rest;
    }
  }

  lemma {:induction false} FirstOrLater(first: Field, rest: seq<Field>, key: string)
    ensures Lookup([first] + rest, key) ==
            if Lookup(rest, key).None? && first.key == key then Some(first.value) else Lookup(rest, key)
  {
    var all := [first] + rest;
    if rest != [] {
      FirstOrLater(first, rest[..|rest| - 1], key);
      assert all[..|all| - 1] == [first] + rest[..|rest| - 1];
    } else {
      assert all[..0] == [];
    }
  }

  /** An array index: digits without a leading zero. */
  predicate IsIndex(token: string) {
    token != [] && Decimal.AllDigits(token) && (token[0] == '0' ==> |token| == 1)
  }

  function Enter(v: J, token: string): Option<J> {
    match v
    case Obj(fields) => Property(fields, token)
    case Arr(items) =>
      if IsIndex(token) && Decimal.ValueOf(token) < |items| then Some(items[Decimal.ValueOf(token)]) else None
    case _ => None
  }

  function Resolve(v: J, tokens: seq<string>): Option<J>
    decreases |tokens|
  {
    if tokens == [] then Some(v)
    else
      var next := Enter(v, tokens[0]);
      if next.None? then None else Resolve(next.value, tokens[1..])
  }

  function Unescape(token: string): string {
    if token == [] then []
    else if token[0] == '~' && |token| > 1 && token[1] == '1' then ['/'] + Unescape(token[2..])
    else if token[0] == '~' && |token| > 1 && token[1] == '0' then ['~'] + Unescape(token[2..])
    else [token[0]] + Unescape(token[1..])
  }

  function UnescapeAll(tokens: seq<string>): (r: seq<string>)
    ensures |r| == |tokens|
  {
    if tokens == [] then [] else [Unescape(tokens[0])] + UnescapeAll(tokens[1..])
  }

  /** What the reference, a pointer after `#`, resolves to in the document. */
  function Target(document: J, ref: string): Option<J> {
    if ref == ['#'] then Some(document)
    else if |ref| >= 2 && ref[0] == '#' && ref[1] == '/' then Resolve(document, UnescapeAll(Text.Split(ref[2..], '/')))
    else None
  }

  /** An array index is the numeral of a number, section 4 of RFC 6901: "01" is none. */
  lemma IndexIsNumeral(token: string)
    ensures IsIndex(token) <==> exists n: nat :: token == Decimal.Digits(n)
  {
    if IsIndex(token) {
      Decimal.DigitsOfValue(token);
      assert token == Decimal.Digits(Decimal.ValueOf(token));
    }
    if n: nat :| token == Decimal.Digits(n) {
      assert n == 0 ==> Decimal.Digits(n) == [Decimal.DigitChar(0)];
    }
  }

  /** The whole document, and a single token: sections 5 and 6 of RFC 6901. */
  lemma SingleToken(document: J, token: string)
    requires '/' !in token && '~' !in token
    ensures Target(document, ['#']) == Some(document)
    ensures Target(document, ['#', '/'] + token) == Enter(document, token)
  {
    var ref := ['#', '/'] + token;
    assert ref[2..] == token;
    Text.SplitFree(token, '/');
    PlainUnescapes(token);
    assert UnescapeAll([token]) == [Unescape(token)] + UnescapeAll([token][1..]) && [token][1..] == [];
    assert Resolve(document, [token]) == Enter(document, token);
  }

  lemma {:induction false} PlainUnescapes(token: string)
    requires '~' !in token
    ensures Unescape(token) == token
  {
    if token != [] {
      PlainUnescapes(token[1..]);
      assert [token[0]] + token[1..] == token;
    }
  }

  /** A reference into the definitions has the definitions' name and the tail's tokens. */
  lemma ReferenceTokens(w: Words, tail: string)
    requires w.Proper()
    ensures UnescapeAll(Text.Split((w.Prefix() + tail)[2..], '/')) == [w.defs] + UnescapeAll(Text.Split(tail, '/'))
  {
    assert (w.Prefix() + tail)[2..] == w.defs + ['/'] + tail;
    Text.SplitHead(w.defs, tail, '/');
    PlainUnescapes(w.defs);
    UnescapeOneMore(w.defs, Text.Split(tail, '/'));
  }

  lemma UnescapeOneMore(token: string, tokens: seq<string>)
    requires '~' !in token
    ensures UnescapeAll([token] + tokens) == [token] + UnescapeAll(tokens)
  {
    PlainUnescapes(token);
    assert ([token] + tokens)[1..] == tokens;
  }

  lemma RewrittenTokens(w: Words, namespace: string, ref: string)
    requires w.Proper() && Plain(namespace) && w.Prefix() <= ref
    ensures var tail := ref[|w.Prefix()|..];
      UnescapeAll(Text.Split(w.Rewritten(namespace, ref)[2..], '/'))
        == [w.defs, namespace, w.defs] + UnescapeAll(Text.Split(tail, '/'))
  {
    var tail := ref[|w.Prefix()|..];
    var inner := namespace + ['/'] + (w.defs + ['/'] + tail);
    assert w.Rewritten(namespace, ref) == w.Prefix() + inner;
    ReferenceTokens(w, inner);
    Text.SplitHead(namespace, w.defs + ['/'] + tail, '/');
    Text.SplitHead(w.defs, tail, '/');
    UnescapeOneMore(w.defs, Text.Split(tail, '/'));
    UnescapeOneMore(namespace, [w.defs] + Text.Split(tail, '/'));
  }

  // -----------------------------------------------------------------------
  // Rewriting keeps what references mean
  // -----------------------------------------------------------------------

  /** The image under the key, of what was found, if anything was. */
  function ImageOf(w: Words, namespace: string, key: string, found: Option<J>): Option<J> {
    if found.None? then None else Some(Image(w, namespace, key, found.value))
  }

  lemma {:induction false} PropertyRebased(w: Words, namespace: string, fields: seq<Field>, key: string)
    ensures Property(RebaseFields(w, namespace, fields), key) == ImageOf(w, namespace, key, Property(fields, key))
  {
    if fields != [] {
      PropertyRebased(w, namespace, fields[1..], key);
      assert RebaseFields(w, namespace, fields)[1..] == RebaseFields(w, namespace, fields[1..]);
    }
  }

  lemma {:induction false} ItemRebased(w: Words, namespace: string, items: seq<J>, i: nat)
    requires i < |items|
    ensures RebaseItems(w, namespace, items)[i] == Rebase(w, namespace, items[i])
  {
    if i > 0 {
      ItemRebased(w, namespace, items[1..], i - 1);
    }
  }

  lemma EnterRebased(w: Words, namespace: string, v: J, token: string)
    requires w.Proper()
    ensures Enter(Rebase(w, namespace, v), token) == ImageOf(w, namespace, token, Enter(v, token))
  {
    match v {
      case Obj(fields) => PropertyRebased(w, namespace, fields, token);
      case Arr(items) =>
        if IsIndex(token) && Decimal.ValueOf(token) < |items| {
          ItemRebased(w, namespace, items, Decimal.ValueOf(token));
        }
      case _ =>
    }
  }

  lemma {:induction false} ResolveRebased(w: Words, namespace: string, v: J, tokens: seq<string>)
    requires w.Proper() && tokens != []
    ensures Resolve(Rebase(w, namespace, v), tokens) == ImageOf(w, namespace, tokens[|tokens| - 1], Resolve(v, tokens))
    decreases |tokens|
  {
    EnterRebased(w, namespace, v, tokens[0]);
    var next := Enter(v, tokens[0]);
    if next.Some? && |tokens| > 1 && !IsReference(w, tokens[0], next.value) {
      ResolveRebased(w, namespace, next.value, tokens[1..]);
    }
  }

  lemma {:induction false} WithoutKeepsOthers(fields: seq<Field>, key: string, other: string)
    requires other != key
    ensures Property(Without(fields, key), other) == Property(fields, other)
  {
    if fields != [] {
      WithoutKeepsOthers(fields[1..], key, other);
    }
  }

  lemma {:induction false} WithoutIsGone(fields: seq<Field>, key: string)
    ensures Property(Without(fields, key), key) == None
  {
    if fields != [] {
      WithoutIsGone(fields[1..], key);
    }
  }

  lemma {:induction false} PropertyLast(head: seq<Field>, last: Field)
    requires forall i :: 0 <= i < |head| ==> head[i].key != last.key
    ensures Property(head + [last], last.key) == Some(last.value)
  {
    if head == [] {
      assert head + [last] == [last];
    } else {
      assert (head + [last])[1..] == head[1..] + [last];
      PropertyLast(head[1..], last);
    }
  }

  /** The embedded schema has the image of everything the standalone one has, except its identity and dialect. */
  lemma ResolveEmbedded(w: Words, namespace: string, schema: seq<Field>, tokens: seq<string>)
    requires w.Proper() && tokens != []
    ensures tokens[0] != w.id && tokens[0] != w.dialect ==>
              Resolve(Embedded(w, namespace, schema), tokens)
              == ImageOf(w, namespace, tokens[|tokens| - 1], Resolve(Obj(schema), tokens))
    ensures tokens[0] == w.id || tokens[0] == w.dialect ==> Resolve(Embedded(w, namespace, schema), tokens) == None
  {
    var trimmed := Without(Without(schema, w.dialect), w.id);
    ResolveRebased(w, namespace, Obj(trimmed), tokens);
    if tokens[0] == w.id {
      WithoutIsGone(Without(schema, w.dialect), w.id);
    } else {
      WithoutKeepsOthers(Without(schema, w.dialect), w.id, tokens[0]);
      if tokens[0] == w.dialect {
        WithoutIsGone(schema, w.dialect);
      } else {
        WithoutKeepsOthers(schema, w.dialect, tokens[0]);
      }
    }
  }

  /** Wherever a reference into the definitions stands in the standalone schema, its rewriting stands in the image. */
  lemma ReferencesAreRewritten(w: Words, namespace: string, schema: seq<Field>, path: seq<string>, ref: string)
    requires w.Proper() && (path != [] ==> path[0] != w.id && path[0] != w.dialect)
    requires Resolve(Obj(schema), path + [w.ref]) == Some(Str(ref)) && w.Prefix() <= ref
    ensures Resolve(Embedded(w, namespace, schema), path + [w.ref]) == Some(Str(w.Rewritten(namespace, ref)))
  {
    assert (path + [w.ref])[0] == if path != [] then path[0] else w.ref;
    ResolveEmbedded(w, namespace, schema, path + [w.ref]);
  }

  function Keys(fields: seq<Field>): (keys: seq<string>)
    ensures |keys| == |fields| && forall i :: 0 <= i < |fields| ==> keys[i] == fields[i].key
  {
    seq(|fields|, i requires 0 <= i < |fields| => fields[i].key)
  }

  lemma {:induction false} KeysRebased(w: Words, namespace: string, fields: seq<Field>)
    ensures Keys(RebaseFields(w, namespace, fields)) == Keys(fields)
  {
    if fields != [] {
      KeysRebased(w, namespace, fields[1..]);
      assert RebaseFields(w, namespace, fields)[1..] == RebaseFields(w, namespace, fields[1..]);
      assert Keys(fields) == [fields[0].key] + Keys(fields[1..]);
      var r := RebaseFields(w, namespace, fields);
      assert Keys(r) == [r[0].key] + Keys(r[1..]);
    }
  }

  /** Arrays keep their length, objects their keys and their order, and what is no reference stays. */
  ghost predicate Kept(w: Words, key: string, was: J, now: J) {
    match was
    case Arr(items) => now.Arr? && |now.items| == |items|
    case Obj(fields) => now.Obj? && Keys(now.fields) == Keys(fields)
    case Str(s) => (key == w.ref && w.Prefix() <= s) || now == was
    case _ => now == was
  }

  lemma ImageIsKept(w: Words, namespace: string, key: string, value: J)
    ensures Kept(w, key, value, Image(w, namespace, key, value))
  {
    if !IsReference(w, key, value) {
      assert Image(w, namespace, key, value) == Rebase(w, namespace, value);
      match value {
        case Obj(fields) => KeysRebased(w, namespace, fields);
        case Arr(items) => assert |RebaseItems(w, namespace, items)| == |items|;
        case _ => assert Rebase(w, namespace, value) == value;
      }
    }
  }

  /** And nothing else is touched, except that the identity and the dialect of the root are gone. */
  lemma NothingElseIsRewritten(w: Words, namespace: string, schema: seq<Field>, tokens: seq<string>)
    requires w.Proper() && tokens != []
    ensures var was, now := Resolve(Obj(schema), tokens), Resolve(Embedded(w, namespace, schema), tokens);
      if tokens[0] == w.id || tokens[0] == w.dialect then now == None
      else (now.Some? <==> was.Some?) && (was.Some? ==> Kept(w, tokens[|tokens| - 1], was.value, now.value))
  {
    ResolveEmbedded(w, namespace, schema, tokens);
    var was := Resolve(Obj(schema), tokens);
    if was.Some? {
      ImageIsKept(w, namespace, tokens[|tokens| - 1], was.value);
    }
  }

  /** Two definitions deep in the dispatcher lies the embedded schema. */
  lemma ResolveThrough(w: Words, dispatcher: seq<Field>, definitions: seq<Field>, namespace: string, e: J,
                       tokens: seq<string>)
    requires Property(dispatcher, w.defs) == Some(Obj(definitions)) && Property(definitions, namespace) == Some(e)
    ensures Resolve(Obj(dispatcher), [w.defs, namespace] + tokens) == Resolve(e, tokens)
  {
    var path := [w.defs, namespace] + tokens;
    assert path[1..] == [namespace] + tokens && path[1..][1..] == tokens;
  }

  lemma DispatcherDefines(w: Words, head: seq<Field>, v01: seq<Field>, v02: seq<Field>, second: bool)
    returns (definitions: seq<Field>)
    requires w.Proper() && forall i :: 0 <= i < |head| ==> head[i].key != w.defs
    ensures Property(Dispatcher(w, head, v01, v02).fields, w.defs) == Some(Obj(definitions)) && |definitions| == 2
    ensures definitions == [Field(w.v01, Embedded(w, w.v01, v01)), Field(w.v02, Embedded(w, w.v02, v02))]
    ensures var namespace := if second then w.v02 else w.v01;
            Property(definitions, namespace) == Some(Embedded(w, namespace, if second then v02 else v01))
  {
    definitions := [Field(w.v01, Embedded(w, w.v01, v01)), Field(w.v02, Embedded(w, w.v02, v02))];
    PropertyLast(head, Field(w.defs, Obj(definitions)));
    assert definitions[1..] == [definitions[1]];
  }

  /** The tokens of a reference, before and after rewriting. */
  lemma TargetsByTokens(w: Words, namespace: string, schema: J, dispatcher: J, ref: string)
    returns (tokens: seq<string>)
    requires w.Proper() && Plain(namespace) && w.Prefix() <= ref
    ensures tokens == UnescapeAll(Text.Split(ref[|w.Prefix()|..], '/')) && tokens != []
    ensures Target(schema, ref) == Resolve(schema, [w.defs] + tokens)
    ensures Target(dispatcher, w.Rewritten(namespace, ref)) ==
            Resolve(dispatcher, [w.defs, namespace] + ([w.defs] + tokens))
  {
    var tail := ref[|w.Prefix()|..];
    tokens := UnescapeAll(Text.Split(tail, '/'));
    RewrittenTokens(w, namespace, ref);
    assert ref == w.Prefix() + tail;
    ReferenceTokens(w, tail);
    assert [w.defs, namespace, w.defs] + tokens == [w.defs, namespace] + ([w.defs] + tokens);
  }

  lemma TargetEmbedded(w: Words, namespace: string, schema: seq<Field>, dispatcher: seq<Field>,
                       definitions: seq<Field>, ref: string)
    returns (last: string)
    requires w.Proper() && Plain(namespace) && w.Prefix() <= ref
    requires Property(dispatcher, w.defs) == Some(Obj(definitions))
    requires Property(definitions, namespace) == Some(Embedded(w, namespace, schema))
    ensures var tokens := UnescapeAll(Text.Split(ref[|w.Prefix()|..], '/')); last == tokens[|tokens| - 1]
    ensures Target(Obj(dispatcher), w.Rewritten(namespace, ref)) ==
            ImageOf(w, namespace, last, Target(Obj(schema), ref))
  {
    var tokens := TargetsByTokens(w, namespace, Obj(schema), Obj(dispatcher), ref);
    last := tokens[|tokens| - 1];
    ResolveThrough(w, dispatcher, definitions, namespace, Embedded(w, namespace, schema), [w.defs] + tokens);
    ResolveEmbedded(w, namespace, schema, [w.defs] + tokens);
  }

  /** Of an array or an object the image is the rebased value, whatever the key. */
  lemma ImageOfContainer(w: Words, namespace: string, key: string, found: Option<J>)
    ensures found.Some? && (found.value.Obj? || found.value.Arr?) ==>
              ImageOf(w, namespace, key, found) == Some(Rebase(w, namespace, found.value))
  {}

  /**
   * A reference into the definitions of a standalone schema, rewritten, resolves inside the dispatcher
   * exactly when it did before, and to the image of the same value.
   */
  lemma ReferenceKeepsMeaning(w: Words, head: seq<Field>, v01: seq<Field>, v02: seq<Field>, second: bool, ref: string)
    returns (last: string)
    requires w.Proper() && forall i :: 0 <= i < |head| ==> head[i].key != w.defs
    requires w.Prefix() <= ref
    ensures var tokens := UnescapeAll(Text.Split(ref[|w.Prefix()|..], '/')); last == tokens[|tokens| - 1]
    ensures var namespace, schema := if second then w.v02 else w.v01, if second then v02 else v01;
      && Target(Dispatcher(w, head, v01, v02), w.Rewritten(namespace, ref)) ==
         ImageOf(w, namespace, last, Target(Obj(schema), ref))
      && (Target(Obj(schema), ref).Some?
          && (Target(Obj(schema), ref).value.Obj? || Target(Obj(schema), ref).value.Arr?) ==>
            Target(Dispatcher(w, head, v01, v02), w.Rewritten(namespace, ref)) ==
              Some(Rebase(w, namespace, Target(Obj(schema), ref).value)))
  {
    var namespace, schema := if second then w.v02 else w.v01, if second then v02 else v01;
    var definitions := DispatcherDefines(w, head, v01, v02, second);
    last := TargetEmbedded(w, namespace, schema, Dispatcher(w, head, v01, v02).fields, definitions, ref);
    ImageOfContainer(w, namespace, last, Target(Obj(schema), ref));
  }

  /**
   * The two together: at the place of a reference of the standalone schema the dispatcher has one that leads
   * somewhere exactly when the other did, and to the rebased image of the same array or object.
   */
  lemma ReferenceLands(w: Words, head: seq<Field>, v01: seq<Field>, v02: seq<Field>, second: bool,
                       path: seq<string>, ref: string)
    returns (now: string)
    requires w.Proper() && forall i :: 0 <= i < |head| ==> head[i].key != w.defs
    requires (path != [] ==> path[0] != w.id && path[0] != w.dialect) && w.Prefix() <= ref
    requires Resolve(Obj(if second then v02 else v01), path + [w.ref]) == Some(Str(ref))
    ensures var namespace, schema := if second then w.v02 else w.v01, if second then v02 else v01;
            var dispatcher, was := Dispatcher(w, head, v01, v02), Target(Obj(schema), ref);
      && Resolve(dispatcher, [w.defs, namespace] + (path + [w.ref])) == Some(Str(now))
      && (Target(dispatcher, now).Some? <==> was.Some?)
      && (was.Some? && (was.value.Obj? || was.value.Arr?) ==>
            Target(dispatcher, now) == Some(Rebase(w, namespace, was.value)))
  {
    var namespace, schema := if second then w.v02 else w.v01, if second then v02 else v01;
    var definitions := DispatcherDefines(w, head, v01, v02, second);
    var fields := Dispatcher(w, head, v01, v02).fields;
    ResolveThrough(w, fields, definitions, namespace, Embedded(w, namespace, schema), path + [w.ref]);
    ReferencesAreRewritten(w, namespace, schema, path, ref);
    now := w.Rewritten(namespace, ref);
    var last := ReferenceKeepsMeaning(w, head, v01, v02, second, ref);
  }

  // -----------------------------------------------------------------------
  // Nested identifiers
  // -----------------------------------------------------------------------

  predicate Has(fields: seq<Field>, key: string) {
    Property(fields, key).Some?
  }

  /** `hasNestedId`, lines 181 to 187 of src/commands/doctor.ts. */
  predicate NestedId(w: Words, v: J, root: bool)
    decreases v, 0
  {
    match v
    case Arr(items) => AnyItemNested(w, items)
    case Obj(fields) => (!root && Has(fields, w.id)) || AnyFieldNested(w, fields)
    case _ => false
  }

  predicate AnyItemNested(w: Words, items: seq<J>)
    decreases items, 1
  {
    items != [] && (NestedId(w, items[0], false) || AnyItemNested(w, items[1..]))
  }

  predicate AnyFieldNested(w: Words, fields: seq<Field>)
    decreases fields, 1
  {
    fields != [] && (NestedId(w, fields[0].value, false) || AnyFieldNested(w, fields[1..]))
  }

  lemma {:induction false} NestedIdRebased(w: Words, namespace: string, v: J, root: bool)
    requires w.Proper()
    ensures NestedId(w, Rebase(w, namespace, v), root) == NestedId(w, v, root)
    decreases v, 0
  {
    match v {
      case Arr(items) => AnyItemNestedRebased(w, namespace, items);
      case Obj(fields) =>
        AnyFieldNestedRebased(w, namespace, fields);
        PropertyRebased(w, namespace, fields, w.id);
      case _ =>
    }
  }

  lemma {:induction false} AnyItemNestedRebased(w: Words, namespace: string, items: seq<J>)
    requires w.Proper()
    ensures AnyItemNested(w, RebaseItems(w, namespace, items)) == AnyItemNested(w, items)
    decreases items, 1
  {
    if items != [] {
      NestedIdRebased(w, namespace, items[0], false);
      AnyItemNestedRebased(w, namespace, items[1..]);
    }
  }

  lemma {:induction false} AnyFieldNestedRebased(w: Words, namespace: string, fields: seq<Field>)
    requires w.Proper()
    ensures AnyFieldNested(w, RebaseFields(w, namespace, fields)) == AnyFieldNested(w, fields)
    decreases fields, 1
  {
    if fields != [] {
      assert NestedId(w, RebaseField(w, namespace, fields[0]).value, false) == NestedId(w, fields[0].value, false) by {
        NestedIdRebased(w, namespace, fields[0].value, false);
      }
      AnyFieldNestedRebased(w, namespace, fields[1..]);
    }
  }

  lemma {:induction false} NestedWithout(w: Words, fields: seq<Field>, key: string)
    requires forall i :: 0 <= i < |fields| && fields[i].key == key ==> fields[i].value.Str?
    ensures AnyFieldNested(w, Without(fields, key)) == AnyFieldNested(w, fields)
    ensures !Has(Without(fields, key), key)
    ensures forall f :: f in Without(fields, key) ==> f in fields
  {
    if fields != [] {
      NestedWithout(w, fields[1..], key);
    }
  }

  /** Embedding adds no identifier that would re-root a reference, and hides none. */
  lemma NestedIdEmbedded(w: Words, namespace: string, schema: seq<Field>)
    requires w.Proper()
    requires forall i :: 0 <= i < |schema| && (schema[i].key == w.id || schema[i].key == w.dialect) ==>
               schema[i].value.Str?
    ensures NestedId(w, Embedded(w, namespace, schema), false) == NestedId(w, Obj(schema), true)
  {
    var once := Without(schema, w.dialect);
    NestedWithout(w, schema, w.dialect);
    forall i | 0 <= i < |once| && once[i].key == w.id
      ensures once[i].value.Str?
    {
      assert once[i] in schema;
    }
    NestedWithout(w, once, w.id);
    NestedIdRebased(w, namespace, Obj(Without(once, w.id)), false);
  }
}
