/**
 * The checker of the packaged schemas (src/commands/doctor.ts). Its embedding rewrites references in
 * place, on a heap of arrays and objects, with a worklist.
 */
module SchemaChecker {
  import opened Prelude
  import opened Json
  import opened SchemaEmbedding
  import Decimal

  type Address = nat

  /** What a variable, an item or a property holds. */
  datatype Slot = Scalar(value: J) | At(address: Address)

  datatype Entry = Entry(key: string, slot: Slot)

  datatype Cell = ArrayCell(items: seq<Slot>) | ObjectCell(entries: seq<Entry>)

  function SlotsOf(entries: seq<Entry>): (slots: seq<Slot>)
    ensures |slots| == |entries| && forall i :: 0 <= i < |slots| ==> slots[i] == entries[i].slot
  {
    if entries == [] then [] else [entries[0].slot] + SlotsOf(entries[1..])
  }

  function Inside(c: Cell): seq<Slot> {
    match c
    case ArrayCell(items) => items
    case ObjectCell(entries) => SlotsOf(entries)
  }

  predicate Below(slots: seq<Slot>, limit: Address) {
    forall i :: 0 <= i < |slots| ==>
      (slots[i].At? ==> slots[i].address < limit) && (slots[i].Scalar? ==> !slots[i].value.Arr? && !slots[i].value.Obj?)
  }

  /** Every cell refers only to cells made before it. */
  predicate Grounded(cells: seq<Cell>) {
    forall a :: 0 <= a < |cells| ==> Below(Inside(cells[a]), a)
  }

  // -----------------------------------------------------------------------
  // The value in the heap
  // -----------------------------------------------------------------------

  function Value(cells: seq<Cell>, s: Slot): J
    requires Grounded(cells) && (s.At? ==> s.address < |cells|)
    decreases if s.At? then s.address + 1 else 0, 0
  {
    if s.Scalar? then s.value
    else match cells[s.address]
      case ArrayCell(items) => Arr(Values(cells, items, s.address))
      case ObjectCell(entries) => Obj(FieldsOf(cells, entries, s.address))
  }

  function Values(cells: seq<Cell>, slots: seq<Slot>, limit: Address): (vs: seq<J>)
    requires Grounded(cells) && limit <= |cells| && Below(slots, limit)
    ensures |vs| == |slots|
    decreases limit, 1 + |slots|
  {
    if slots == [] then [] else [Value(cells, slots[0])] + Values(cells, slots[1..], limit)
  }

  function FieldsOf(cells: seq<Cell>, entries: seq<Entry>, limit: Address): (fs: seq<Field>)
    requires Grounded(cells) && limit <= |cells| && Below(SlotsOf(entries), limit)
    ensures |fs| == |entries|
    decreases limit, 1 + |entries|
  {
    if entries == [] then []
    else
      assert entries[0].slot == SlotsOf(entries)[0];
      [Field(entries[0].key, Value(cells, entries[0].slot))] + FieldsOf(cells, entries[1..], limit)
  }

  // -----------------------------------------------------------------------
  // A tree: no cell is reached twice
  // -----------------------------------------------------------------------

  /** How often each cell is reached from the slots, counting each way. */
  function Reach(cells: seq<Cell>, slots: seq<Slot>, limit: Address): multiset<Address>
    requires Grounded(cells) && limit <= |cells| && Below(slots, limit)
    decreases limit, |slots|
  {
    if slots == [] then multiset{}
    else
      (if slots[0].Scalar? then multiset{}
       else multiset{slots[0].address} + Reach(cells, Inside(cells[slots[0].address]), slots[0].address))
      + Reach(cells, slots[1..], limit)
  }

  /** How much there is to visit. */
  function Work(cells: seq<Cell>, slots: seq<Slot>, limit: Address): nat
    requires Grounded(cells) && limit <= |cells| && Below(slots, limit)
    decreases limit, |slots|
  {
    if slots == [] then 0
    else
      1 + (if slots[0].Scalar? then 0 else Work(cells, Inside(cells[slots[0].address]), slots[0].address))
      + Work(cells, slots[1..], limit)
  }

  predicate Once(ms: multiset<Address>) {
    forall a :: a in ms ==> ms[a] == 1
  }

  // -----------------------------------------------------------------------
  // Rewriting one cell
  // -----------------------------------------------------------------------

  /** Lines 202 to 204: the property, if it is a reference, is assigned. */
  function RewriteEntries(w: Words, namespace: string, entries: seq<Entry>): (r: seq<Entry>)
    ensures |r| == |entries|
  {
    if entries == [] then []
    else if entries[0].key == w.ref then
      [if entries[0].slot.Scalar? && IsReference(w, w.ref, entries[0].slot.value)
       then Entry(w.ref, Scalar(Str(w.Rewritten(namespace, entries[0].slot.value.s)))) else entries[0]] + entries[1..]
    else [entries[0]] + RewriteEntries(w, namespace, entries[1..])
  }

  function RewriteCell(w: Words, namespace: string, c: Cell): Cell {
    match c
    case ArrayCell(_) => c
    case ObjectCell(entries) => ObjectCell(RewriteEntries(w, namespace, entries))
  }

  /** An object has each key once. */
  predicate KeysOnce(entries: seq<Entry>) {
    forall i, j :: 0 <= i < j < |entries| ==> entries[i].key != entries[j].key
  }

  predicate ObjectsAreProper(cells: seq<Cell>) {
    forall a :: 0 <= a < |cells| ==> (cells[a].ObjectCell? ==> KeysOnce(cells[a].entries))
  }

  /** The same slots but for what the scalars are. */
  predicate SameShape(slots: seq<Slot>, others: seq<Slot>) {
    && |slots| == |others|
    && forall i :: 0 <= i < |slots| ==>
         if slots[i].At? then others[i] == slots[i]
         else others[i].Scalar? && (!slots[i].value.Arr? && !slots[i].value.Obj? ==>
                                    !others[i].value.Arr? && !others[i].value.Obj?)
  }

  lemma {:induction false} RewriteKeepsShape(w: Words, namespace: string, entries: seq<Entry>)
    ensures SameShape(SlotsOf(entries), SlotsOf(RewriteEntries(w, namespace, entries)))
  {
    if entries != [] {
      var r := RewriteEntries(w, namespace, entries);
      if entries[0].key != w.ref {
        RewriteKeepsShape(w, namespace, entries[1..]);
        assert r[1..] == RewriteEntries(w, namespace, entries[1..]);
        forall i | 1 <= i < |entries|
          ensures SlotsOf(entries)[i] == SlotsOf(entries[1..])[i - 1] && SlotsOf(r)[i] == SlotsOf(r[1..])[i - 1]
        {}
      }
    }
  }

  lemma RewrittenCellKeepsShape(w: Words, namespace: string, c: Cell)
    ensures SameShape(Inside(c), Inside(RewriteCell(w, namespace, c)))
  {
    if c.ObjectCell? {
      RewriteKeepsShape(w, namespace, c.entries);
    }
  }

  lemma {:induction false} ReachSameShape(cells: seq<Cell>, slots: seq<Slot>, others: seq<Slot>, limit: Address,
                                          more: Address)
    requires Grounded(cells) && limit <= |cells| && more <= |cells| && Below(slots, limit)
             && SameShape(slots, others) && Below(others, more)
    ensures Reach(cells, slots, limit) == Reach(cells, others, more)
    ensures Work(cells, slots, limit) == Work(cells, others, more)
    decreases |slots|
  {
    if slots != [] {
      ReachSameShape(cells, slots[1..], others[1..], limit, more);
    }
  }

  lemma {:induction false} ReachAppend(cells: seq<Cell>, a: seq<Slot>, b: seq<Slot>, limit: Address)
    requires Grounded(cells) && limit <= |cells| && Below(a, limit) && Below(b, limit)
    ensures Below(a + b, limit)
    ensures Reach(cells, a + b, limit) == Reach(cells, a, limit) + Reach(cells, b, limit)
    ensures Work(cells, a + b, limit) == Work(cells, a, limit) + Work(cells, b, limit)
    decreases |a|
  {
    if a == [] {
      assert a + b == b;
    } else {
      assert (a + b)[1..] == a[1..] + b;
      ReachAppend(cells, a[1..], b, limit);
    }
  }

  /** Taking the top off. */
  lemma Popped(cells: seq<Cell>, rest: seq<Slot>, top: Slot)
    requires Grounded(cells) && Below(rest + [top], |cells|)
    ensures Below(rest, |cells|) && Below([top], |cells|) && (top.At? ==> top.address < |cells|)
    ensures Reach(cells, rest + [top], |cells|) == Reach(cells, rest, |cells|) + Reach(cells, [top], |cells|)
    ensures Work(cells, rest + [top], |cells|) == Work(cells, rest, |cells|) + Work(cells, [top], |cells|)
  {
    BelowParts(rest, top, |cells|);
    ReachAppend(cells, rest, [top], |cells|);
  }

  lemma BelowParts(rest: seq<Slot>, top: Slot, limit: Address)
    requires Below(rest + [top], limit)
    ensures Below(rest, limit) && Below([top], limit) && (top.At? ==> top.address < limit)
  {
    var stack := rest + [top];
    assert stack[|rest|] == top && forall i :: 0 <= i < |rest| ==> stack[i] == rest[i];
  }

  lemma AloneOnTop(cells: seq<Cell>, top: Slot)
    requires Grounded(cells) && Below([top], |cells|)
    ensures top.Scalar? ==> Reach(cells, [top], |cells|) == multiset{} && Work(cells, [top], |cells|) == 1
    ensures top.At? ==> top.address < |cells|
    ensures top.At? ==>
              Reach(cells, [top], |cells|) == multiset{top.address}
                + Reach(cells, Inside(cells[top.address]), top.address)
    ensures top.At? ==> Work(cells, [top], |cells|) == 1 + Work(cells, Inside(cells[top.address]), top.address)
  {
    assert [top][0] == top;
    ReachOfOne(cells, [top], |cells|);
    WorkOfOne(cells, [top], |cells|);
  }

  lemma ReachOfOne(cells: seq<Cell>, slots: seq<Slot>, limit: Address)
    requires Grounded(cells) && limit <= |cells| && Below(slots, limit) && |slots| == 1
    ensures slots[0].Scalar? ==> Reach(cells, slots, limit) == multiset{}
    ensures slots[0].At? ==>
              slots[0].address < limit
              && Reach(cells, slots, limit)
                 == multiset{slots[0].address} + Reach(cells, Inside(cells[slots[0].address]), slots[0].address)
  {
    assert slots[1..] == [];
  }

  lemma WorkOfOne(cells: seq<Cell>, slots: seq<Slot>, limit: Address)
    requires Grounded(cells) && limit <= |cells| && Below(slots, limit) && |slots| == 1
    ensures slots[0].Scalar? ==> Work(cells, slots, limit) == 1
    ensures slots[0].At? ==>
              slots[0].address < limit
              && Work(cells, slots, limit) == 1 + Work(cells, Inside(cells[slots[0].address]), slots[0].address)
  {
    assert slots[1..] == [];
  }

  /** Putting the content of a cell on instead. */
  lemma Pushed(cells: seq<Cell>, rest: seq<Slot>, a: Address, inside: seq<Slot>)
    requires Grounded(cells) && a < |cells| && Below(rest, |cells|) && Below(inside, |cells|)
    requires SameShape(Inside(cells[a]), inside)
    ensures Below(rest + inside, |cells|)
    ensures Reach(cells, rest + inside, |cells|) == Reach(cells, rest, |cells|) + Reach(cells, Inside(cells[a]), a)
    ensures Work(cells, rest + inside, |cells|) == Work(cells, rest, |cells|) + Work(cells, Inside(cells[a]), a)
  {
    ReachAppend(cells, rest, inside, |cells|);
    ReachSameShape(cells, Inside(cells[a]), inside, a, |cells|);
  }

  // -----------------------------------------------------------------------
  // Rewriting every cell of a tree rebases its value
  // -----------------------------------------------------------------------

  lemma {:induction false} ValueRewritten(w: Words, namespace: string, was: seq<Cell>, cells: seq<Cell>, s: Slot)
    requires Grounded(was) && Grounded(cells) && |cells| == |was| && ObjectsAreProper(was)
    requires Below([s], |was|)
    requires forall a :: a in Reach(was, [s], |was|) && a < |was| ==> cells[a] == RewriteCell(w, namespace, was[a])
    ensures Value(cells, s) == Rebase(w, namespace, Value(was, s))
    decreases if s.At? then s.address + 1 else 0, 0
  {
    assert [s][0] == s;
    if s.At? {
      var a := s.address;
      ReachOfCell(was, a);
      match was[a] {
        case ArrayCell(items) => ValuesRewritten(w, namespace, was, cells, items, a);
        case ObjectCell(entries) =>
          RewriteKeepsShape(w, namespace, entries);
          FieldsRewritten(w, namespace, was, cells, entries, a);
      }
    }
  }

  lemma ReachOfCell(cells: seq<Cell>, a: Address)
    requires Grounded(cells) && a < |cells|
    ensures a in Reach(cells, [At(a)], |cells|)
    ensures forall b :: b in Reach(cells, Inside(cells[a]), a) ==> b in Reach(cells, [At(a)], |cells|)
  {
    var one := [At(a)];
    assert one[1..] == [] && one[0] == At(a);
    assert Reach(cells, one, |cells|) == multiset{a} + Reach(cells, Inside(cells[a]), a);
    InSum(multiset{a}, Reach(cells, Inside(cells[a]), a));
  }

  lemma {:induction false} ValuesRewritten(w: Words, namespace: string, was: seq<Cell>, cells: seq<Cell>,
                                           slots: seq<Slot>, limit: Address)
    requires Grounded(was) && Grounded(cells) && |cells| == |was| && ObjectsAreProper(was)
    requires limit <= |was| && Below(slots, limit)
    requires forall a :: a in Reach(was, slots, limit) && a < |was| ==> cells[a] == RewriteCell(w, namespace, was[a])
    ensures Values(cells, slots, limit) == RebaseItems(w, namespace, Values(was, slots, limit))
    decreases limit, 1 + |slots|
  {
    if slots != [] {
      FirstReached(was, slots, limit);
      InSum(Reach(was, [slots[0]], |was|), Reach(was, slots[1..], limit));
      ValueRewritten(w, namespace, was, cells, slots[0]);
      ValuesRewritten(w, namespace, was, cells, slots[1..], limit);
    }
  }

  lemma InSum(a: multiset<Address>, b: multiset<Address>)
    ensures forall x :: x in a || x in b ==> x in a + b
  {}

  lemma FirstReached(cells: seq<Cell>, slots: seq<Slot>, limit: Address)
    requires Grounded(cells) && limit <= |cells| && Below(slots, limit) && slots != []
    ensures Below([slots[0]], |cells|) && Below(slots[1..], limit)
    ensures Reach(cells, slots, limit) == Reach(cells, [slots[0]], |cells|) + Reach(cells, slots[1..], limit)
  {
    assert [slots[0]][1..] == [];
  }

  lemma FirstFieldRewritten(w: Words, namespace: string, was: seq<Cell>, cells: seq<Cell>, entries: seq<Entry>,
                            r: seq<Entry>, limit: Address)
    requires Grounded(was) && Grounded(cells) && |cells| == |was| && limit <= |was| && entries != []
    requires r == RewriteEntries(w, namespace, entries)
    requires Below(SlotsOf(entries), limit) && Below(SlotsOf(r), limit) && Below(SlotsOf(entries[1..]), limit)
             && Below(SlotsOf(r[1..]), limit)
    requires (entries[0].slot.At? ==> entries[0].slot.address < |was|)
    requires Value(cells, entries[0].slot) == Rebase(w, namespace, Value(was, entries[0].slot))
    requires FieldsOf(cells, r[1..], limit) == RebaseFields(w, namespace, FieldsOf(was, entries[1..], limit))
    ensures FieldsOf(cells, r, limit) == RebaseFields(w, namespace, FieldsOf(was, entries, limit))
  {
    var first := Field(entries[0].key, Value(was, entries[0].slot));
    RebaseCons(w, namespace, first, FieldsOf(was, entries[1..], limit));
    FirstEntryImage(w, namespace, was, cells, entries, r[0]);
  }

  lemma RebaseCons(w: Words, namespace: string, first: Field, rest: seq<Field>)
    ensures RebaseFields(w, namespace, [first] + rest) == [RebaseField(w, namespace, first)]
            + RebaseFields(w, namespace, rest)
  {
    assert ([first] + rest)[1..] == rest;
  }

  /** The first entry, rewritten, holds the image of its field. */
  lemma FirstEntryImage(w: Words, namespace: string, was: seq<Cell>, cells: seq<Cell>, entries: seq<Entry>, r: Entry)
    requires Grounded(was) && Grounded(cells) && |cells| == |was| && entries != []
    requires entries[0].slot.At? ==> entries[0].slot.address < |was|
    requires r == RewriteEntries(w, namespace, entries)[0]
    requires Value(cells, entries[0].slot) == Rebase(w, namespace, Value(was, entries[0].slot))
    ensures r.slot.At? ==> r.slot.address < |cells|
    ensures Field(r.key, Value(cells, r.slot)) ==
            RebaseField(w, namespace, Field(entries[0].key, Value(was, entries[0].slot)))
  {}

  lemma FirstSlot(entries: seq<Entry>)
    requires entries != []
    ensures SlotsOf(entries)[0] == entries[0].slot && SlotsOf(entries)[1..] == SlotsOf(entries[1..])
  {}

  lemma {:induction false} FieldsRewritten(w: Words, namespace: string, was: seq<Cell>, cells: seq<Cell>,
                                           entries: seq<Entry>, limit: Address)
    requires Grounded(was) && Grounded(cells) && |cells| == |was| && ObjectsAreProper(was)
    requires limit <= |was| && Below(SlotsOf(entries), limit) && KeysOnce(entries)
    requires Below(SlotsOf(RewriteEntries(w, namespace, entries)), limit)
    requires forall a :: a in Reach(was, SlotsOf(entries), limit) && a < |was| ==>
               cells[a] == RewriteCell(w, namespace, was[a])
    ensures FieldsOf(cells, RewriteEntries(w, namespace, entries), limit) ==
            RebaseFields(w, namespace, FieldsOf(was, entries, limit))
    decreases limit, 1 + |entries|
  {
    if entries != [] {
      var slots, r := SlotsOf(entries), RewriteEntries(w, namespace, entries);
      FirstSlot(entries);
      FirstSlot(r);
      FirstReached(was, slots, limit);
      InSum(Reach(was, [slots[0]], |was|), Reach(was, slots[1..], limit));
      ValueRewritten(w, namespace, was, cells, entries[0].slot);
      RestRewritten(w, namespace, entries);
      FieldsRewritten(w, namespace, was, cells, entries[1..], limit);
      FirstFieldRewritten(w, namespace, was, cells, entries, r, limit);
    }
  }

  /** Keys being single, rewriting one entry does for all. */
  lemma {:induction false} RestRewritten(w: Words, namespace: string, entries: seq<Entry>)
    requires entries != [] && KeysOnce(entries)
    ensures RewriteEntries(w, namespace, entries)[1..] == RewriteEntries(w, namespace, entries[1..])
  {
    if entries[0].key == w.ref {
      NothingToRewrite(w, namespace, entries[1..]);
    }
  }

  lemma {:induction false} NothingToRewrite(w: Words, namespace: string, entries: seq<Entry>)
    requires forall i :: 0 <= i < |entries| ==> entries[i].key != w.ref
    ensures RewriteEntries(w, namespace, entries) == entries
  {
    if entries != [] {
      NothingToRewrite(w, namespace, entries[1..]);
    }
  }

  // -----------------------------------------------------------------------
  // The worklist
  // -----------------------------------------------------------------------

  /** Partway: the visited cells are rewritten, and what the stack reaches is what is left of the tree. */
  ghost predicate Partway(w: Words, namespace: string, was: seq<Cell>, cells: seq<Cell>, stack: seq<Slot>,
                          visited: multiset<Address>, all: multiset<Address>)
    requires Grounded(was)
  {
    && |cells| == |was| && Grounded(cells) && Below(stack, |was|)
    && visited + Reach(was, stack, |was|) == all
    && forall a :: 0 <= a < |was| ==> cells[a] == if a in visited then RewriteCell(w, namespace, was[a]) else was[a]
  }

  lemma NoneVisited(w: Words, namespace: string, cells: seq<Cell>, stack: seq<Slot>)
    requires Grounded(cells) && Below(stack, |cells|)
    ensures Partway(w, namespace, cells, cells, stack, multiset{}, Reach(cells, stack, |cells|))
  {}

  lemma PartwayScalar(w: Words, namespace: string, was: seq<Cell>, cells: seq<Cell>, rest: seq<Slot>, top: Slot,
                      visited: multiset<Address>, all: multiset<Address>)
    requires Grounded(was) && Partway(w, namespace, was, cells, rest + [top], visited, all) && top.Scalar?
    ensures Partway(w, namespace, was, cells, rest, visited, all)
    ensures Work(was, rest, |was|) < Work(was, rest + [top], |was|)
  {
    Popped(was, rest, top);
    AloneOnTop(was, top);
  }

  /** A cell on the stack has not been visited; taking it off leaves its content to account for. */
  lemma TakeCell(w: Words, namespace: string, was: seq<Cell>, cells: seq<Cell>, rest: seq<Slot>, a: Address,
                 visited: multiset<Address>, all: multiset<Address>)
    requires Grounded(was) && Partway(w, namespace, was, cells, rest + [At(a)], visited, all) && Once(all)
    ensures a < |was| && cells[a] == was[a] && Below(rest, |was|) && a !in visited
    ensures visited + multiset{a} + (Reach(was, rest, |was|) + Reach(was, Inside(was[a]), a)) == all
    ensures Work(was, rest + [At(a)], |was|) == Work(was, rest, |was|) + 1 + Work(was, Inside(was[a]), a)
  {
    Popped(was, rest, At(a));
    AloneOnTop(was, At(a));
    var left := Reach(was, rest, |was|) + Reach(was, Inside(was[a]), a);
    assert all == visited + (multiset{a} + left);
    FirstVisit(all, visited, a, left);
  }

  /** It is rewritten, once, and its content goes on the stack. */
  lemma PartwayCell(w: Words, namespace: string, was: seq<Cell>, cells: seq<Cell>, rest: seq<Slot>, a: Address, c: Cell,
                    visited: multiset<Address>, all: multiset<Address>)
    requires Grounded(was) && Partway(w, namespace, was, cells, rest + [At(a)], visited, all)
    requires a < |was| && cells[a] == was[a] && Below(rest, |was|) && a !in visited
    requires visited + multiset{a} + (Reach(was, rest, |was|) + Reach(was, Inside(was[a]), a)) == all
    requires c == RewriteCell(w, namespace, was[a])
    ensures Partway(w, namespace, was, cells[a := c], rest + Inside(c), visited + multiset{a}, all)
    ensures Work(was, rest + Inside(c), |was|) == Work(was, rest, |was|) + Work(was, Inside(was[a]), a)
  {
    RewrittenCellKeepsShape(w, namespace, was[a]);
    GroundedAfter(cells, a, c);
    Pushed(was, rest, a, Inside(c));
  }

  /** Both together: one round of the loop on a cell. */
  lemma VisitCell(w: Words, namespace: string, was: seq<Cell>, cells: seq<Cell>, rest: seq<Slot>, a: Address,
                  visited: multiset<Address>, all: multiset<Address>)
    requires Grounded(was) && Partway(w, namespace, was, cells, rest + [At(a)], visited, all) && Once(all)
    ensures a < |cells|
    ensures var c := RewriteCell(w, namespace, cells[a]);
      && Partway(w, namespace, was, cells[a := c], rest + Inside(c), visited + multiset{a}, all)
      && Work(was, rest + Inside(c), |was|) < Work(was, rest + [At(a)], |was|)
  {
    TakeCell(w, namespace, was, cells, rest, a, visited, all);
    PartwayCell(w, namespace, was, cells, rest, a, RewriteCell(w, namespace, cells[a]), visited, all);
  }

  lemma FirstVisit(all: multiset<Address>, visited: multiset<Address>, a: Address, left: multiset<Address>)
    requires Once(all) && all == visited + (multiset{a} + left)
    ensures a !in visited && visited + multiset{a} + left == all
  {
    assert all[a] == visited[a] + 1 + left[a];
  }

  /** Once the stack is empty the whole tree is rewritten, and nothing else is. */
  lemma AllVisited(w: Words, namespace: string, was: seq<Cell>, cells: seq<Cell>, root: Slot,
                   visited: multiset<Address>, all: multiset<Address>)
    requires Grounded(was) && ObjectsAreProper(was) && Below([root], |was|) && all == Reach(was, [root], |was|)
    requires Partway(w, namespace, was, cells, [], visited, all)
    ensures root.At? ==> root.address < |was|
    ensures Value(cells, root) == Rebase(w, namespace, Value(was, root))
    ensures forall a :: 0 <= a < |cells| && a !in all ==> cells[a] == was[a]
  {
    assert [root][0] == root && visited == all;
    ValueRewritten(w, namespace, was, cells, root);
  }

  lemma GroundedAfter(cells: seq<Cell>, a: Address, c: Cell)
    requires Grounded(cells) && a < |cells| && SameShape(Inside(cells[a]), Inside(c))
    ensures Grounded(cells[a := c]) && Below(Inside(c), |cells|)
  {
    assert Below(Inside(c), a);
  }

  // -----------------------------------------------------------------------
  // Growing the heap
  // -----------------------------------------------------------------------

  lemma {:induction false} ReachBelow(cells: seq<Cell>, slots: seq<Slot>, limit: Address)
    requires Grounded(cells) && limit <= |cells| && Below(slots, limit)
    ensures forall a :: a in Reach(cells, slots, limit) ==> a < limit
    decreases limit, |slots|
  {
    if slots != [] {
      if slots[0].At? {
        ReachBelow(cells, Inside(cells[slots[0].address]), slots[0].address);
      }
      ReachBelow(cells, slots[1..], limit);
    }
  }

  lemma {:induction false} ReachGrown(cells: seq<Cell>, more: seq<Cell>, slots: seq<Slot>, limit: Address,
                                      other: Address)
    requires Grounded(cells) && Grounded(more) && cells <= more && limit <= |cells| && other <= |more|
    requires Below(slots, limit) && Below(slots, other)
    ensures Reach(cells, slots, limit) == Reach(more, slots, other)
    decreases limit, |slots|
  {
    if slots != [] {
      if slots[0].At? {
        ReachGrown(cells, more, Inside(cells[slots[0].address]), slots[0].address, slots[0].address);
      }
      ReachGrown(cells, more, slots[1..], limit, other);
    }
  }

  lemma {:induction false} ValueGrown(cells: seq<Cell>, more: seq<Cell>, s: Slot)
    requires Grounded(cells) && Grounded(more) && cells <= more && (s.At? ==> s.address < |cells|)
    ensures Value(cells, s) == Value(more, s)
    decreases if s.At? then s.address + 1 else 0, 0
  {
    if s.At? {
      match cells[s.address] {
        case ArrayCell(items) => ValuesGrown(cells, more, items, s.address, s.address);
        case ObjectCell(entries) => FieldsGrown(cells, more, entries, s.address, s.address);
      }
    }
  }

  lemma {:induction false} ValuesGrown(cells: seq<Cell>, more: seq<Cell>, slots: seq<Slot>, limit: Address,
                                       other: Address)
    requires Grounded(cells) && Grounded(more) && cells <= more && limit <= |cells| && other <= |more|
    requires Below(slots, limit) && Below(slots, other)
    ensures Values(cells, slots, limit) == Values(more, slots, other)
    decreases limit, 1 + |slots|
  {
    if slots != [] {
      ValueGrown(cells, more, slots[0]);
      ValuesGrown(cells, more, slots[1..], limit, other);
    }
  }

  lemma {:induction false} FieldsGrown(cells: seq<Cell>, more: seq<Cell>, entries: seq<Entry>, limit: Address,
                                       other: Address)
    requires Grounded(cells) && Grounded(more) && cells <= more && limit <= |cells| && other <= |more|
    requires Below(SlotsOf(entries), limit) && Below(SlotsOf(entries), other)
    ensures FieldsOf(cells, entries, limit) == FieldsOf(more, entries, other)
    decreases limit, 1 + |entries|
  {
    if entries != [] {
      assert SlotsOf(entries)[0] == entries[0].slot && SlotsOf(entries)[1..] == SlotsOf(entries[1..]);
      ValueGrown(cells, more, entries[0].slot);
      FieldsGrown(cells, more, entries[1..], limit, other);
    }
  }

  /** Slots whose cells are all new, each reached once. */
  ghost predicate FreshTree(cells: seq<Cell>, slots: seq<Slot>, from: Address)
    requires Grounded(cells)
  {
    && Below(slots, |cells|) && Once(Reach(cells, slots, |cells|))
    && forall a :: a in Reach(cells, slots, |cells|) ==> a >= from
  }

  /** A tree made before the others shares no cell with them. */
  lemma FreshCons(cells: seq<Cell>, more: seq<Cell>, s: Slot, rest: seq<Slot>, from: Address)
    requires Grounded(cells) && Grounded(more) && cells <= more && from <= |cells|
    requires FreshTree(cells, [s], from) && FreshTree(more, rest, |cells|)
    ensures FreshTree(more, [s] + rest, from)
  {
    var all := [s] + rest;
    assert [s][0] == s;
    assert Below([s], |more|);
    assert all[0] == s && all[1..] == rest;
    ReachGrown(cells, more, [s], |cells|, |more|);
    ReachBelow(cells, [s], |cells|);
    ReachAppend(more, [s], rest, |more|);
    var r, q := Reach(more, [s], |more|), Reach(more, rest, |more|);
    forall a | a in r + q
      ensures (r + q)[a] == 1 && a >= from
    {
      assert a in r ==> a !in q;
    }
  }

  /** A new cell around a fresh tree is a fresh tree. */
  lemma FreshCell(cells: seq<Cell>, c: Cell, from: Address)
    requires Grounded(cells) && from <= |cells| && FreshTree(cells, Inside(c), from)
    ensures Grounded(cells + [c]) && FreshTree(cells + [c], [At(|cells|)], from)
  {
    var more := cells + [c];
    forall a | 0 <= a < |more|
      ensures Below(Inside(more[a]), a)
    {
      assert a < |cells| ==> more[a] == cells[a];
    }
    AloneOnTop(more, At(|cells|));
    ReachGrown(cells, more, Inside(c), |cells|, |cells|);
    ReachBelow(cells, Inside(c), |cells|);
  }

  function CellValue(cells: seq<Cell>, c: Cell): J
    requires Grounded(cells) && Below(Inside(c), |cells|)
  {
    match c
    case ArrayCell(items) => Arr(Values(cells, items, |cells|))
    case ObjectCell(entries) => Obj(FieldsOf(cells, entries, |cells|))
  }

  /** JavaScript objects have each key once. */
  ghost predicate Tidy(v: J) {
    match v
    case Arr(items) => forall i :: 0 <= i < |items| ==> Tidy(items[i])
    case Obj(fields) =>
      && (forall i :: 0 <= i < |fields| ==> Tidy(fields[i].value))
      && (forall i, j :: 0 <= i < j < |fields| ==> fields[i].key != fields[j].key)
    case _ => true
  }

  class Heap {
    var cells: seq<Cell>

    constructor ()
      ensures cells == []
    {
      cells := [];
    }

    /** Lines 193 to 206: the tree under the root becomes its rebased image, and nothing else changes. */
    method RewriteInPlace(w: Words, namespace: string, root: Slot)
      requires Grounded(cells) && ObjectsAreProper(cells) && Below([root], |cells|)
      requires Once(Reach(cells, [root], |cells|))
      modifies this
      ensures |cells| == |old(cells)| && Grounded(cells)
      ensures Value(cells, root) == Rebase(w, namespace, old(Value(cells, root)))
      ensures forall a :: 0 <= a < |cells| && a !in old(Reach(cells, [root], |cells|)) ==> cells[a] == old(cells[a])
    {
      ghost var was, all := cells, Reach(cells, [root], |cells|);
      ghost var visited: multiset<Address> := multiset{};
      var stack := [root];
      NoneVisited(w, namespace, cells, stack);
      while stack != []
        invariant Partway(w, namespace, was, cells, stack, visited, all)
        decreases Work(was, stack, |was|)
      {
        var top, rest := stack[|stack| - 1], stack[..|stack| - 1];
        assert stack == rest + [top];
        if top.At? {
          VisitCell(w, namespace, was, cells, rest, top.address, visited, all);
          cells := cells[top.address := RewriteCell(w, namespace, cells[top.address])];
          stack := rest + Inside(cells[top.address]);
          visited := visited + multiset{top.address};
        } else {
          PartwayScalar(w, namespace, was, cells, rest, top, visited, all);
          stack := rest;
        }
      }
      AllVisited(w, namespace, was, cells, root, visited, all);
    }

    /** `structuredClone`: a fresh tree with the value. */
    method Store(v: J) returns (s: Slot)
      requires Grounded(cells) && ObjectsAreProper(cells) && Tidy(v)
      modifies this
      ensures Grounded(cells) && ObjectsAreProper(cells) && old(cells) <= cells
      ensures FreshTree(cells, [s], |old(cells)|) && Below([s], |cells|) && (s.At? ==> s.address < |cells|)
      ensures Value(cells, s) == v
      decreases v, 0
    {
      match v {
        case Arr(items) =>
          var slots := StoreItems(items);
          s := Allocate(ArrayCell(slots), |old(cells)|);
        case Obj(fields) =>
          var entries := StoreFields(fields);
          s := Allocate(ObjectCell(entries), |old(cells)|);
        case _ =>
          s := Scalar(v);
          assert [s][0] == s;
          AloneOnTop(cells, s);
      }
    }

    method Allocate(c: Cell, ghost from: Address) returns (s: Slot)
      requires Grounded(cells) && ObjectsAreProper(cells) && from <= |cells| && FreshTree(cells, Inside(c), from)
      requires c.ObjectCell? ==> KeysOnce(c.entries)
      modifies this
      ensures cells == old(cells) + [c] && Grounded(cells) && ObjectsAreProper(cells)
      ensures FreshTree(cells, [s], from) && s.At? && s.address < |cells|
      ensures Value(cells, s) == old(CellValue(cells, c))
    {
      ghost var was := cells;
      FreshCell(was, c, from);
      cells := cells + [c];
      s := At(|cells| - 1);
      match c {
        case ArrayCell(items) => ValuesGrown(was, cells, items, |was|, |was|);
        case ObjectCell(entries) => FieldsGrown(was, cells, entries, |was|, |was|);
      }
    }

    method StoreItems(items: seq<J>) returns (slots: seq<Slot>)
      requires Grounded(cells) && ObjectsAreProper(cells)
      requires forall i :: 0 <= i < |items| ==> Tidy(items[i])
      modifies this
      ensures Grounded(cells) && ObjectsAreProper(cells) && old(cells) <= cells
      ensures FreshTree(cells, slots, |old(cells)|)
      ensures Values(cells, slots, |cells|) == items
      decreases items, 1
    {
      slots := [];
      if items != [] {
        var first := Store(items[0]);
        ghost var was := cells;
        var rest := StoreItems(items[1..]);
        FreshCons(was, cells, first, rest, |old(cells)|);
        ValueGrown(was, cells, first);
        slots := [first] + rest;
        assert slots[1..] == rest;
        assert items == [items[0]] + items[1..];
      }
    }

    method StoreFields(fields: seq<Field>) returns (entries: seq<Entry>)
      requires Grounded(cells) && ObjectsAreProper(cells)
      requires forall i :: 0 <= i < |fields| ==> Tidy(fields[i].value)
      modifies this
      ensures Grounded(cells) && ObjectsAreProper(cells) && old(cells) <= cells
      ensures FreshTree(cells, SlotsOf(entries), |old(cells)|)
      ensures |entries| == |fields| && forall i :: 0 <= i < |entries| ==> entries[i].key == fields[i].key
      ensures FieldsOf(cells, entries, |cells|) == fields
      decreases fields, 1
    {
      entries := [];
      if fields != [] {
        var first := Store(fields[0].value);
        ghost var was := cells;
        var rest := StoreFields(fields[1..]);
        FreshCons(was, cells, first, SlotsOf(rest), |old(cells)|);
        ValueGrown(was, cells, first);
        entries := [Entry(fields[0].key, first)] + rest;
        assert entries[1..] == rest;
        assert SlotsOf(entries) == [first] + SlotsOf(rest);
        assert fields == [fields[0]] + fields[1..];
      }
    }
  }

  /** `embeddedVersionSchema`, lines 189 to 208: the worklist computes what the generator's recursion does. */
  method EmbeddedVersionSchema(w: Words, namespace: string, schema: seq<Field>) returns (copy: J)
    requires Tidy(Obj(schema))
    ensures copy == Embedded(w, namespace, schema)
  {
    var trimmed := Without(Without(schema, w.dialect), w.id);
    WithoutStaysTidy(schema, w.dialect);
    WithoutStaysTidy(Without(schema, w.dialect), w.id);
    var heap := new Heap();
    var root := heap.Store(Obj(trimmed));
    heap.RewriteInPlace(w, namespace, root);
    copy := Value(heap.cells, root);
  }

  lemma {:induction false} WithoutStaysTidy(fields: seq<Field>, key: string)
    requires Tidy(Obj(fields))
    ensures Tidy(Obj(Without(fields, key)))
    ensures forall f :: f in Without(fields, key) ==> f in fields
  {
    if fields != [] {
      assert Tidy(Obj(fields[1..])) by {
        forall i | 0 <= i < |fields[1..]|
          ensures Tidy(fields[1..][i].value)
        {
          assert fields[1..][i] == fields[i + 1];
        }
      }
      WithoutStaysTidy(fields[1..], key);
      var rest := Without(fields[1..], key);
      forall j | 0 <= j < |rest|
        ensures fields[0].key != rest[j].key
      {
        assert rest[j] in fields[1..];
      }
    }
  }

  /**
   * Visiting a cell twice would be wrong: a rewritten reference is again a reference into the
   * definitions, and rewriting it again changes it. So the tree shape of the copy matters.
   */
  lemma RewritingTwiceDiffers(w: Words, namespace: string, ref: string)
    requires w.Prefix() <= ref
    ensures w.Prefix() <= w.Rewritten(namespace, ref)
    ensures w.Rewritten(namespace, w.Rewritten(namespace, ref)) != w.Rewritten(namespace, ref)
  {
    var once := w.Rewritten(namespace, ref);
    assert once == w.Prefix() + (namespace + ['/'] + w.defs + ['/'] + ref[|w.Prefix()|..]);
    assert |w.Rewritten(namespace, once)| > |once|;
  }

  // -----------------------------------------------------------------------
  // Accepting a dispatcher
  // -----------------------------------------------------------------------

  /** The fixed properties of lines 235 to 241. */
  predicate HeaderHolds(dispatcher: seq<Field>, header: seq<Field>, absent: string) {
    (forall i :: 0 <= i < |header| ==> Property(dispatcher, header[i].key) == Some(header[i].value))
      && !Has(dispatcher, absent)
  }

  /** `JSON.stringify(definitions[key]) === JSON.stringify(expected)` */
  predicate SameText(definitions: seq<Field>, key: string, expected: J) {
    Property(definitions, key).Some? && Print(Property(definitions, key).value) == Print(expected)
  }

  predicate Accepted(w: Words, dispatcher: seq<Field>, v01: seq<Field>, v02: seq<Field>, header: seq<Field>,
                     absent: string) {
    && !NestedId(w, Obj(dispatcher), true)
    && HeaderHolds(dispatcher, header, absent)
    && Property(dispatcher, w.defs).Some? && Property(dispatcher, w.defs).value.Obj?
    && var definitions := Property(dispatcher, w.defs).value.fields;
      && |definitions| == 2
      && SameText(definitions, w.v01, Embedded(w, w.v01, v01))
      && SameText(definitions, w.v02, Embedded(w, w.v02, v02))
  }

  /** `validDispatcherSchema`, lines 232 to 246. */
  method ValidDispatcherSchema(w: Words, dispatcher: seq<Field>, v01: seq<Field>, v02: seq<Field>,
                               header: seq<Field>, absent: string)
    returns (ok: bool)
    requires Tidy(Obj(v01)) && Tidy(Obj(v02))
    ensures ok <==> Accepted(w, dispatcher, v01, v02, header, absent)
  {
    if NestedId(w, Obj(dispatcher), true) || !HeaderHolds(dispatcher, header, absent) {
      return false;
    }
    var found := Property(dispatcher, w.defs);
    if found.None? || !found.value.Obj? || |found.value.fields| != 2 {
      return false;
    }
    var first := EmbeddedVersionSchema(w, w.v01, v01);
    var second := EmbeddedVersionSchema(w, w.v02, v02);
    ok := SameText(found.value.fields, w.v01, first) && SameText(found.value.fields, w.v02, second);
  }

  lemma {:induction false} RebaseStaysWellFormed(w: Words, namespace: string, v: J)
    requires WellFormed(v)
    ensures WellFormed(Rebase(w, namespace, v))
    decreases v, 0
  {
    match v {
      case Arr(items) =>
        forall i | 0 <= i < |items|
          ensures WellFormed(RebaseItems(w, namespace, items)[i])
        {
          ItemRebased(w, namespace, items, i);
          RebaseStaysWellFormed(w, namespace, items[i]);
        }
      case Obj(fields) =>
        forall i | 0 <= i < |fields|
          ensures WellFormed(RebaseFields(w, namespace, fields)[i].value)
        {
          FieldRebased(w, namespace, fields, i);
          RebaseStaysWellFormed(w, namespace, fields[i].value);
        }
      case _ =>
    }
  }

  lemma {:induction false} FieldRebased(w: Words, namespace: string, fields: seq<Field>, i: nat)
    requires i < |fields|
    ensures RebaseFields(w, namespace, fields)[i] == RebaseField(w, namespace, fields[i])
  {
    if i > 0 {
      FieldRebased(w, namespace, fields[1..], i - 1);
    }
  }

  lemma {:induction false} LookupIsField(fields: seq<Field>, key: string)
    ensures Property(fields, key).Some? ==> Field(key, Property(fields, key).value) in fields
  {
    if fields != [] {
      LookupIsField(fields[1..], key);
    }
  }

  lemma {:induction false} WithoutIsPart(fields: seq<Field>, key: string)
    ensures forall f :: f in Without(fields, key) ==> f in fields
  {
    if fields != [] {
      WithoutIsPart(fields[1..], key);
    }
  }

  lemma EmbeddedIsWellFormed(w: Words, namespace: string, schema: seq<Field>)
    requires WellFormed(Obj(schema))
    ensures WellFormed(Embedded(w, namespace, schema))
  {
    var trimmed := Without(Without(schema, w.dialect), w.id);
    WithoutIsPart(schema, w.dialect);
    WithoutIsPart(Without(schema, w.dialect), w.id);
    forall i | 0 <= i < |trimmed|
      ensures WellFormed(trimmed[i].value)
    {
      assert trimmed[i] in schema;
    }
    RebaseStaysWellFormed(w, namespace, Obj(trimmed));
  }

  /** Equal text is equal value. */
  lemma SameTextSameValue(definitions: seq<Field>, key: string, expected: J)
    requires WellFormed(Obj(definitions)) && WellFormed(expected) && SameText(definitions, key, expected)
    ensures Property(definitions, key) == Some(expected)
  {
    LookupIsField(definitions, key);
    var value := Property(definitions, key).value;
    assert WellFormed(value);
    ParsePrint(value);
    ParsePrint(expected);
  }

  lemma AcceptedDefines(w: Words, dispatcher: seq<Field>, v01: seq<Field>, v02: seq<Field>, header: seq<Field>,
                        absent: string, second: bool)
    returns (definitions: seq<Field>)
    requires WellFormed(Obj(dispatcher)) && WellFormed(Obj(v01)) && WellFormed(Obj(v02))
    requires Accepted(w, dispatcher, v01, v02, header, absent)
    ensures Property(dispatcher, w.defs) == Some(Obj(definitions))
    ensures var namespace := if second then w.v02 else w.v01;
            Property(definitions, namespace) == Some(Embedded(w, namespace, if second then v02 else v01))
  {
    var namespace, schema := if second then w.v02 else w.v01, if second then v02 else v01;
    definitions := Property(dispatcher, w.defs).value.fields;
    LookupIsField(dispatcher, w.defs);
    assert WellFormed(Obj(definitions));
    EmbeddedIsWellFormed(w, namespace, schema);
    SameTextSameValue(definitions, namespace, Embedded(w, namespace, schema));
  }

  /**
   * In any dispatcher the checker accepts, a rewritten reference resolves to the image of what it resolved to
   * before.
   */
  lemma AcceptedKeepsMeaning(w: Words, dispatcher: seq<Field>, v01: seq<Field>, v02: seq<Field>, header: seq<Field>,
                             absent: string, second: bool, ref: string)
    requires w.Proper() && WellFormed(Obj(dispatcher)) && WellFormed(Obj(v01)) && WellFormed(Obj(v02))
    requires Accepted(w, dispatcher, v01, v02, header, absent) && w.Prefix() <= ref
    ensures var namespace, schema := if second then w.v02 else w.v01, if second then v02 else v01;
            var was := Target(Obj(schema), ref);
            var now := Target(Obj(dispatcher), w.Rewritten(namespace, ref));
      && (now.Some? <==> was.Some?)
      && (was.Some? && (was.value.Obj? || was.value.Arr?) ==> now == Some(Rebase(w, namespace, was.value)))
  {
    var namespace, schema := if second then w.v02 else w.v01, if second then v02 else v01;
    var definitions := AcceptedDefines(w, dispatcher, v01, v02, header, absent, second);
    var tokens := TargetsByTokens(w, namespace, Obj(schema), Obj(dispatcher), ref);
    ResolveThrough(w, dispatcher, definitions, namespace, Embedded(w, namespace, schema), [w.defs] + tokens);
    ResolveEmbedded(w, namespace, schema, [w.defs] + tokens);
  }

  /** In such a dispatcher every reference into the definitions of a version schema has been rewritten. */
  lemma AcceptedRewrites(w: Words, dispatcher: seq<Field>, v01: seq<Field>, v02: seq<Field>, header: seq<Field>,
                         absent: string, second: bool, path: seq<string>, ref: string)
    requires w.Proper() && WellFormed(Obj(dispatcher)) && WellFormed(Obj(v01)) && WellFormed(Obj(v02))
    requires Accepted(w, dispatcher, v01, v02, header, absent)
    requires (path != [] ==> path[0] != w.id && path[0] != w.dialect) && w.Prefix() <= ref
    requires Resolve(Obj(if second then v02 else v01), path + [w.ref]) == Some(Str(ref))
    ensures var namespace := if second then w.v02 else w.v01;
            Resolve(Obj(dispatcher), [w.defs, namespace] + (path + [w.ref])) == Some(Str(w.Rewritten(namespace, ref)))
  {
    var namespace, schema := if second then w.v02 else w.v01, if second then v02 else v01;
    var definitions := AcceptedDefines(w, dispatcher, v01, v02, header, absent, second);
    ResolveThrough(w, dispatcher, definitions, namespace, Embedded(w, namespace, schema), path + [w.ref]);
    ReferencesAreRewritten(w, namespace, schema, path, ref);
  }

  // -----------------------------------------------------------------------
  // What is accepted, by pointers
  // -----------------------------------------------------------------------

  ghost predicate IdAt(w: Words, v: J, tokens: seq<string>) {
    var found := Resolve(v, tokens);
    found.Some? && found.value.Obj? && exists f :: f in found.value.fields && f.key == w.id
  }

  lemma {:induction false} HasIsKey(fields: seq<Field>, key: string)
    ensures Has(fields, key) <==> exists f :: f in fields && f.key == key
  {
    if fields != [] {
      HasIsKey(fields[1..], key);
      forall f ensures f in fields <==> f == fields[0] || f in fields[1..] {}
    }
  }

  lemma {:induction false} AnyItem(w: Words, items: seq<J>)
    ensures AnyItemNested(w, items) <==> exists i :: 0 <= i < |items| && NestedId(w, items[i], false)
  {
    if items != [] {
      AnyItem(w, items[1..]);
      assert forall i :: 0 < i < |items| ==> items[i] == items[1..][i - 1];
    }
  }

  lemma {:induction false} AnyField(w: Words, fields: seq<Field>)
    ensures AnyFieldNested(w, fields) <==> exists i :: 0 <= i < |fields| && NestedId(w, fields[i].value, false)
  {
    if fields != [] {
      AnyField(w, fields[1..]);
      assert forall i :: 0 < i < |fields| ==> fields[i] == fields[1..][i - 1];
    }
  }

  lemma {:induction false} EachFieldIsFound(fields: seq<Field>, i: nat)
    requires forall i, j :: 0 <= i < j < |fields| ==> fields[i].key != fields[j].key
    requires i < |fields|
    ensures Property(fields, fields[i].key) == Some(fields[i].value)
  {
    if i > 0 {
      EachFieldIsFound(fields[1..], i - 1);
    }
  }

  /** Every child is entered by some token. */
  lemma ItemIsEntered(items: seq<J>, i: nat)
    requires i < |items|
    ensures Enter(Arr(items), Decimal.Digits(i)) == Some(items[i])
  {
    Decimal.ValueOfDigits(i);
    assert Decimal.Digits(i)[0] == '0' ==> i == 0 && |Decimal.Digits(i)| == 1;
  }

  lemma OneDeeper(v: J, token: string, tokens: seq<string>)
    ensures Resolve(v, [token] + tokens) ==
            if Enter(v, token).Some? then Resolve(Enter(v, token).value, tokens) else None
  {
    assert ([token] + tokens)[1..] == tokens;
  }

  /** Whatever is entered is a child. */
  lemma EnteredIsNested(w: Words, v: J, token: string, root: bool)
    requires Enter(v, token).Some? && NestedId(w, Enter(v, token).value, false)
    ensures NestedId(w, v, root)
  {
    match v {
      case Arr(items) => AnyItem(w, items);
      case Obj(fields) =>
        LookupIsField(fields, token);
        var i :| 0 <= i < |fields| && fields[i] == Field(token, Property(fields, token).value);
        AnyField(w, fields);
    }
  }

  lemma {:induction false} NestedIsAt(w: Words, v: J, root: bool) returns (tokens: seq<string>)
    requires Tidy(v) && NestedId(w, v, root)
    ensures IdAt(w, v, tokens) && (root ==> tokens != [])
    decreases v
  {
    match v {
      case Arr(items) =>
        AnyItem(w, items);
        var i :| 0 <= i < |items| && NestedId(w, items[i], false);
        var rest := NestedIsAt(w, items[i], false);
        ItemIsEntered(items, i);
        OneDeeper(v, Decimal.Digits(i), rest);
        tokens := [Decimal.Digits(i)] + rest;
      case Obj(fields) =>
        HasIsKey(fields, w.id);
        if !root && Has(fields, w.id) { return []; }
        AnyField(w, fields);
        var i :| 0 <= i < |fields| && NestedId(w, fields[i].value, false);
        var rest := NestedIsAt(w, fields[i].value, false);
        EachFieldIsFound(fields, i);
        OneDeeper(v, fields[i].key, rest);
        tokens := [fields[i].key] + rest;
    }
  }

  lemma {:induction false} AtIsNested(w: Words, v: J, root: bool, tokens: seq<string>)
    requires IdAt(w, v, tokens) && (root ==> tokens != [])
    ensures NestedId(w, v, root)
    decreases |tokens|
  {
    if tokens == [] {
      HasIsKey(v.fields, w.id);
    } else {
      AtIsNested(w, Enter(v, tokens[0]).value, false, tokens[1..]);
      EnteredIsNested(w, v, tokens[0], root);
    }
  }

  /** An identifier is nested exactly when some pointer below the root leads to an object that has one. */
  lemma NestedIdIsBelow(w: Words, v: J)
    requires Tidy(v)
    ensures NestedId(w, v, true) <==> exists tokens :: tokens != [] && IdAt(w, v, tokens)
  {
    if NestedId(w, v, true) {
      var tokens := NestedIsAt(w, v, true);
    }
    if exists tokens :: tokens != [] && IdAt(w, v, tokens) {
      var tokens :| tokens != [] && IdAt(w, v, tokens);
      AtIsNested(w, v, true, tokens);
    }
  }

  /**
   * What the checker accepts, of texts that parse: no identifier below the root, the fixed properties as they
   * must be, and exactly two definitions, the embedded schemas.
   */
  lemma AcceptedExactly(w: Words, dispatcher: seq<Field>, v01: seq<Field>, v02: seq<Field>, header: seq<Field>,
                        absent: string)
    requires Tidy(Obj(dispatcher)) && WellFormed(Obj(dispatcher)) && WellFormed(Obj(v01)) && WellFormed(Obj(v02))
    ensures var definitions := Resolve(Obj(dispatcher), [w.defs]);
      Accepted(w, dispatcher, v01, v02, header, absent) <==>
      && (forall tokens :: tokens != [] ==> !IdAt(w, Obj(dispatcher), tokens))
      && (forall i :: 0 <= i < |header| ==> Resolve(Obj(dispatcher), [header[i].key]) == Some(header[i].value))
      && Resolve(Obj(dispatcher), [absent]) == None
      && definitions.Some? && definitions.value.Obj? && |definitions.value.fields| == 2
      && Resolve(definitions.value, [w.v01]) == Some(Embedded(w, w.v01, v01))
      && Resolve(definitions.value, [w.v02]) == Some(Embedded(w, w.v02, v02))
  {
    NestedIdIsBelow(w, Obj(dispatcher));
    forall v: J, token ensures Resolve(v, [token]) == Enter(v, token) {
      OneDeeper(v, token, []);
    }
    if Accepted(w, dispatcher, v01, v02, header, absent) {
      var first := AcceptedDefines(w, dispatcher, v01, v02, header, absent, false);
      var second := AcceptedDefines(w, dispatcher, v01, v02, header, absent, true);
    }
  }

  /** The checker accepts what the generator makes, unless some schema carries an identifier below its root. */
  lemma GeneratedIsAccepted(w: Words, head: seq<Field>, v01: seq<Field>, v02: seq<Field>, header: seq<Field>,
                            absent: string)
    requires w.Proper() && forall i :: 0 <= i < |head| ==> head[i].key != w.defs
    requires forall i :: 0 <= i < |v01| && (v01[i].key == w.id || v01[i].key == w.dialect) ==> v01[i].value.Str?
    requires forall i :: 0 <= i < |v02| && (v02[i].key == w.id || v02[i].key == w.dialect) ==> v02[i].value.Str?
    requires HeaderHolds(Dispatcher(w, head, v01, v02).fields, header, absent) && !AnyFieldNested(w, head)
    requires w.v01 != w.id && w.v02 != w.id
    ensures Accepted(w, Dispatcher(w, head, v01, v02).fields, v01, v02, header, absent)
            <==> !NestedId(w, Obj(v01), true) && !NestedId(w, Obj(v02), true)
  {
    var definitions := DispatcherDefines(w, head, v01, v02, false);
    var _ := DispatcherDefines(w, head, v01, v02, true);
    NestedIdEmbedded(w, w.v01, v01);
    NestedIdEmbedded(w, w.v02, v02);
    AnyNestedLast(w, head, Field(w.defs, Obj(definitions)));
    NestedOfTwo(w, definitions);
  }

  lemma NestedOfTwo(w: Words, two: seq<Field>)
    requires |two| == 2 && two[0].key != w.id && two[1].key != w.id
    ensures NestedId(w, Obj(two), false) == (NestedId(w, two[0].value, false) || NestedId(w, two[1].value, false))
  {
    assert two[1..] == [two[1]] && [two[1]][1..] == [];
    assert AnyFieldNested(w, []) == false && Property([], w.id) == None;
    assert Property([two[1]], w.id) == None && Property(two, w.id) == None;
    assert AnyFieldNested(w, two[1..]) == NestedId(w, two[1].value, false);
  }

  lemma {:induction false} AnyNestedLast(w: Words, head: seq<Field>, last: Field)
    ensures AnyFieldNested(w, head + [last]) == (AnyFieldNested(w, head) || NestedId(w, last.value, false))
  {
    if head == [] {
      assert head + [last] == [last] && [last][1..] == [];
    } else {
      assert (head + [last])[1..] == head[1..] + [last];
      AnyNestedLast(w, head[1..], last);
    }
  }
}
