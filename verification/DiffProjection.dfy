/** Both documents can be read back from a diff: the left one from the lines with a left line
    number, the right one from the lines with a right line number. */
module DiffProjection {
  import opened JsonDoc
  import opened DiffLines

  /** The entries of one side, with the kind of change forgotten. */
  function Project(es: seq<Entry>, side: Side): seq<Entry> {
    if es == [] then []
    else (if On(side, es[0].change) then [es[0].(change := ChangeNil)] else []) + Project(es[1..], side)
  }

  lemma {:induction false} ProjectConcat(a: seq<Entry>, b: seq<Entry>, side: Side)
    ensures Project(a + b, side) == Project(a, side) + Project(b, side)
    decreases |a|
  {
    if a == [] {
      assert a + b == b;
    } else {
      assert (a + b)[0] == a[0] && (a + b)[1..] == a[1..] + b;
      ProjectConcat(a[1..], b, side);
    }
  }

  lemma ProjectNothing(side: Side)
    ensures Project([], side) == []
  {
  }

  lemma ProjectBracketed(opening: Entry, body: seq<Entry>, closing: Entry, side: Side)
    requires opening.change == closing.change
    ensures Project([opening] + body + [closing], side) ==
      if On(side, opening.change)
      then [opening.(change := ChangeNil)] + Project(body, side) + [closing.(change := ChangeNil)]
      else Project(body, side)
  {
    ProjectConcat([opening] + body, [closing], side);
    ProjectConcat([opening], body, side);
  }

  /** A value printed for one side is there in full and absent from the other. */
  ghost predicate ProjectsTo(es: seq<Entry>, change: Change, side: Side, plain: seq<Entry>) {
    Project(es, side) == if On(side, change) then plain else []
  }

  lemma {:induction false} ProjectPrint(name: string, d: Doc, change: Change, inArray: bool, depth: nat, comma: bool,
    side: Side)
    ensures ProjectsTo(Print(name, d, change, inArray, depth, comma), change, side,
      Print(name, d, ChangeNil, inArray, depth, comma))
    decreases d, 0
  {
    match d
    case DocLeaf(_) =>
    case DocObject(fields) =>
      ProjectFields(fields, change, depth + 1, side);
      ProjectBracketed(OpenLine(name, "{", change, inArray, depth), PrintFields(fields, change, depth + 1),
                       CloseLine("}", change, depth, comma), side);
    case DocArray(elements) =>
      ProjectElements(elements, change, depth + 1, side);
      ProjectBracketed(OpenLine(name, "[", change, inArray, depth), PrintElements(elements, change, depth + 1),
                       CloseLine("]", change, depth, comma), side);
  }

  lemma {:induction false} ProjectFields(fields: seq<Field>, change: Change, depth: nat, side: Side)
    ensures ProjectsTo(PrintFields(fields, change, depth), change, side, PrintFields(fields, ChangeNil, depth))
    decreases fields, 1
  {
    if fields != [] {
      var f := fields[0];
      ProjectPrint(f.key, f.doc, change, false, depth, |fields| > 1, side);
      ProjectFields(fields[1..], change, depth, side);
      ProjectConcat(Print(f.key, f.doc, change, false, depth, |fields| > 1), PrintFields(fields[1..], change, depth),
        side);
    }
  }

  lemma {:induction false} ProjectElements(elements: seq<Doc>, change: Change, depth: nat, side: Side)
    ensures ProjectsTo(PrintElements(elements, change, depth), change, side, PrintElements(elements, ChangeNil, depth))
    decreases elements, 1
  {
    if elements != [] {
      ProjectPrint("", elements[0], change, true, depth, |elements| > 1, side);
      ProjectElements(elements[1..], change, depth, side);
      ProjectConcat(Print("", elements[0], change, true, depth, |elements| > 1),
        PrintElements(elements[1..], change, depth), side);
    }
  }

  lemma {:induction false} AddedIsNotLeft(ds: seq<Delta>, inArray: bool, length: nat, depth: nat, size: int)
    ensures Project(AddedOut(ds, inArray, length, depth, size).lines, Left) == []
    decreases |ds|
  {
    if ds != [] {
      var printed := ds[0].Added? && !AlreadyMet(ds[0].at, inArray, length);
      AddedIsNotLeft(ds[1..], inArray, length, depth, if printed then size - 1 else size);
      if printed {
        var name, doc := PositionString(ds[0].at), Order(ds[0].added);
        ProjectPrint(name, doc, ChangeAdded, inArray, depth, size > 1, Left);
        ProjectConcat(Print(name, doc, ChangeAdded, inArray, depth, size > 1),
                      AddedOut(ds[1..], inArray, length, depth, size - 1).lines, Left);
      }
    }
  }

  // ---------- the left document

  /** What the deltas say about the left document is true of it: the old and deleted values
      are the values there, Object and Array deltas meet objects and arrays, and at every
      position there is at most one delta that is neither an Added nor a Moved. */
  ghost predicate Agrees(v: Json, ds: seq<Delta>)
    decreases v, 0
  {
    match v
    case Object(m) => forall k :: k in m ==> AgreesAt(m[k], Search(ds, Name(k)))
    case Array(items) => forall i :: 0 <= i < |items| ==> AgreesAt(items[i], Search(ds, Index(i)))
    case Leaf(_) => true
  }

  ghost predicate AgreesAt(v: Json, found: seq<Delta>)
    decreases v, 1, |found|
  {
    found == [] ||
    match found[0]
    case Added(_, _) => AgreesAt(v, found[1..])
    case ObjectDelta(_, sub) => v.Object? && Agrees(v, sub) && NewOnly(found[1..])
    case ArrayDelta(_, sub) => v.Array? && Agrees(v, sub) && NewOnly(found[1..])
    case Modified(_, x, _) => x == v && NewOnly(found[1..])
    case TextDiff(_, x, _) => x == v && NewOnly(found[1..])
    case Deleted(_, x) => x == v && NewOnly(found[1..])
    case Moved(_, _, _) => true
  }

  predicate AllAdded(found: seq<Delta>) {
    forall i :: 0 <= i < |found| ==> found[i].Added?
  }

  /** Deltas about the new document only. */
  predicate NewOnly(found: seq<Delta>) {
    forall i :: 0 <= i < |found| ==> found[i].Added? || found[i].Moved?
  }

  /** Every entry of the left document with a delta at its position has one there, before any
      Moved, that is not an Added. */
  ghost predicate Covers(v: Json, ds: seq<Delta>)
    decreases v, 0
  {
    match v
    case Object(m) => forall k :: k in m ==> CoversAt(m[k], Search(ds, Name(k)))
    case Array(items) => forall i :: 0 <= i < |items| ==> CoversAt(items[i], Search(ds, Index(i)))
    case Leaf(_) => true
  }

  ghost predicate CoversAt(v: Json, found: seq<Delta>)
    decreases v, 2
  {
    found == [] || MeetsLeft(v, found)
  }

  ghost predicate MeetsLeft(v: Json, found: seq<Delta>)
    decreases v, 1, |found|
  {
    found != [] &&
    match found[0]
    case Added(_, _) => MeetsLeft(v, found[1..])
    case ObjectDelta(_, sub) => Covers(v, sub)
    case ArrayDelta(_, sub) => Covers(v, sub)
    case Moved(_, _, _) => false
    case _ => true
  }

  lemma ProjectFound(v: Json, found: seq<Delta>, name: string, inArray: bool, depth: nat, size: int, side: Side)
    requires found != [] && Refusal(found[0], v).None?
    ensures var first := DeltaOut(v, found, name, inArray, depth, size);
      var rest := FoundOut(v, found[1..], name, inArray, depth, first.size);
      var out := FoundOut(v, found, name, inArray, depth, size);
      Project(out.lines, side) == Project(first.lines, side) + Project(rest.lines, side) && out.size == rest.size
  {
    hide DeltaOut, Project;
    var first := DeltaOut(v, found, name, inArray, depth, size);
    ProjectConcat(first.lines, FoundOut(v, found[1..], name, inArray, depth, first.size).lines, side);
  }

  lemma ProjectAddedDelta(v: Json, found: seq<Delta>, name: string, inArray: bool, depth: nat, size: int)
    requires found != [] && found[0].Added?
    ensures var first := DeltaOut(v, found, name, inArray, depth, size);
      Project(first.lines, Left) == [] && first.size == size
  {
    ProjectPrint(name, Order(found[0].added), ChangeAdded, inArray, depth, size > 1, Left);
  }

  lemma MovedStops(v: Json, found: seq<Delta>, name: string, inArray: bool, depth: nat, size: int)
    requires found != [] && found[0].Moved?
    ensures FoundOut(v, found, name, inArray, depth, size) == Out([], size)
  {
  }

  lemma {:induction false} AddedOnly(v: Json, found: seq<Delta>, name: string, inArray: bool, depth: nat, size: int)
    requires NewOnly(found)
    ensures var out := FoundOut(v, found, name, inArray, depth, size);
      Project(out.lines, Left) == [] && out.size == size
    decreases |found|
  {
    hide DeltaOut, Project;
    if found == [] {
      FoundEnds(v, found, name, inArray, depth, size);
      ProjectNothing(Left);
    } else if found[0].Moved? {
      MovedStops(v, found, name, inArray, depth, size);
      ProjectNothing(Left);
    } else {
      ProjectAddedDelta(v, found, name, inArray, depth, size);
      AddedOnly(v, found[1..], name, inArray, depth, size);
      ProjectFound(v, found, name, inArray, depth, size, Left);
    }
  }

  /** The one delta that is not an Added prints the left value, with the left comma. */
  lemma {:induction false} LeftDelta(v: Json, found: seq<Delta>, name: string, inArray: bool, depth: nat, size: int)
    requires AgreesAt(v, found) && MeetsLeft(v, found) && !found[0].Added?
    ensures Refusal(found[0], v).None?
    ensures var out := DeltaOut(v, found, name, inArray, depth, size);
      Project(out.lines, Left) == Print(name, Order(v), ChangeNil, inArray, depth, size > 1) && out.size == size - 1
    decreases v, 2
  {
    match found[0]
    case ObjectDelta(_, sub) => LeftNested(name, v, sub, inArray, depth, size > 1);
    case ArrayDelta(_, sub) => LeftNested(name, v, sub, inArray, depth, size > 1);
    case Modified(_, x, y) => LeftBoth(name, x, y, inArray, depth, size > 1);
    case TextDiff(_, x, y) => LeftBoth(name, x, y, inArray, depth, size > 1);
    case Deleted(_, x) => ProjectPrint(name, Order(x), ChangeDeleted, inArray, depth, size > 1, Left);
  }

  lemma LeftBoth(name: string, x: Json, y: Json, inArray: bool, depth: nat, comma: bool)
    ensures Project(Print(name, Order(x), ChangeOld, inArray, depth, comma)
      + Print(name, Order(y), ChangeNew, inArray, depth, comma), Left)
         == Print(name, Order(x), ChangeNil, inArray, depth, comma)
  {
    var old_, new_ :=
      Print(name, Order(x), ChangeOld, inArray, depth, comma), Print(name, Order(y), ChangeNew, inArray, depth, comma);
    ProjectPrint(name, Order(x), ChangeOld, inArray, depth, comma, Left);
    ProjectPrint(name, Order(y), ChangeNew, inArray, depth, comma, Left);
    hide Print, Order, Project;
    ProjectConcat(old_, new_, Left);
  }

  lemma {:induction false} LeftFound(v: Json, found: seq<Delta>, name: string, inArray: bool, depth: nat, size: int)
    requires AgreesAt(v, found) && MeetsLeft(v, found)
    ensures var out := FoundOut(v, found, name, inArray, depth, size);
      Project(out.lines, Left) == Print(name, Order(v), ChangeNil, inArray, depth, size > 1) && out.size == size - 1
    decreases v, 3, |found|
  {
    hide DeltaOut, FoundOut, Project, Print, Order;
    if found[0].Added? {
      ProjectAddedDelta(v, found, name, inArray, depth, size);
      LeftFound(v, found[1..], name, inArray, depth, size);
    } else {
      LeftDelta(v, found, name, inArray, depth, size);
      AddedOnly(v, found[1..], name, inArray, depth, size - 1);
    }
    ProjectFound(v, found, name, inArray, depth, size, Left);
  }

  lemma {:induction false} LeftItem(v: Json, ds: seq<Delta>, at: Position, inArray: bool, depth: nat, size: int)
    requires AgreesAt(v, Search(ds, at)) && CoversAt(v, Search(ds, at))
    ensures var out := ItemOut(v, ds, at, inArray, depth, size);
      Project(out.lines, Left) == Print(PositionString(at), Order(v), ChangeNil, inArray, depth, size > 1) &&
        out.size == size - 1
    decreases v, 4
  {
    if Search(ds, at) == [] {
      ProjectPrint(PositionString(at), Order(v), ChangeUnchanged, inArray, depth, size > 1, Left);
    } else {
      LeftFound(v, Search(ds, at), PositionString(at), inArray, depth, size);
    }
  }

  lemma {:induction false} LeftFields(v: Json, keys: seq<string>, ds: seq<Delta>, depth: nat)
    requires v.Object? && Agrees(v, ds) && Covers(v, ds) && forall k :: k in keys ==> k in v.members
    ensures Project(FieldsOut(v, keys, ds, depth, |keys|).lines, Left)
      == PrintFields(OrderFields(v, keys), ChangeNil, depth)
    decreases v, 0, |keys|
  {
    if keys != [] {
      var child, rest := v.members[keys[0]], keys[1..];
      LeftItem(child, ds, Name(keys[0]), false, depth, |keys|);
      LeftFields(v, rest, ds, depth);
      ProjectConcat(ItemOut(child, ds, Name(keys[0]), false, depth, |keys|).lines,
                    FieldsOut(v, rest, ds, depth, |keys| - 1).lines, Left);
      assert keys[0..] == keys;
      PrintFieldsStep(v, keys, 0, ChangeNil, depth);
    }
  }

  lemma {:induction false} LeftElements(v: Json, i: nat, ds: seq<Delta>, depth: nat)
    requires v.Array? && Agrees(v, ds) && Covers(v, ds) && i <= |v.items|
    ensures Project(ElementsOut(v.items, i, ds, depth, |v.items| - i).lines, Left)
      == PrintElements(OrderItems(v.items[i..]), ChangeNil, depth)
    decreases v, 0, |v.items| - i
  {
    hide Print, Order, ItemOut, Project;
    var n := |v.items|;
    if i < n {
      LeftItem(v.items[i], ds, Index(i), true, depth, n - i);
      LeftElements(v, i + 1, ds, depth);
      ProjectConcat(ItemOut(v.items[i], ds, Index(i), true, depth, n - i).lines,
                    ElementsOut(v.items, i + 1, ds, depth, n - i - 1).lines, Left);
      ArrayNames(PositionString(Index(i)), Order(v.items[i]), ChangeNil, depth, n - i > 1);
      PrintElementsStep(v.items, i, ChangeNil, depth);
    } else {
      assert v.items[i..] == [];
      ProjectNothing(Left);
    }
  }

  /** Inside an array a name is not printed. */
  lemma ArrayNames(name: string, d: Doc, change: Change, depth: nat, comma: bool)
    ensures Print(name, d, change, true, depth, comma) == Print("", d, change, true, depth, comma)
  {
  }

  lemma {:induction false} LeftNested(name: string, v: Json, ds: seq<Delta>, inArray: bool, depth: nat, comma: bool)
    requires !v.Leaf? && Agrees(v, ds) && Covers(v, ds)
    ensures Project(NestedOut(name, v, ds, inArray, depth, comma), Left)
      == Print(name, Order(v), ChangeNil, inArray, depth, comma)
    decreases v, 1
  {
    hide Print, Order, PrintFields, PrintElements, FieldsOut, ElementsOut, AddedOut, Project;
    PrintUnfolds(name, v, ChangeNil, inArray, depth, comma);
    match v
    case Object(m) =>
      var keys := SortedKeys(m);
      var walked := FieldsOut(v, keys, ds, depth + 1, |m|);
      LeftFields(v, keys, ds, depth + 1);
      AddedIsNotLeft(ds, false, 0, depth + 1, walked.size);
      ProjectConcat(walked.lines, AddedOut(ds, false, 0, depth + 1, walked.size).lines, Left);
      ProjectBracketed(OpenLine(name, "{", ChangeNil, inArray, depth), BodyOut(v, ds, depth + 1),
        CloseLine("}", ChangeNil, depth, comma), Left);
    case Array(items) =>
      var walked := ElementsOut(items, 0, ds, depth + 1, |items|);
      assert items[0..] == items;
      LeftElements(v, 0, ds, depth + 1);
      AddedIsNotLeft(ds, true, |items|, depth + 1, walked.size);
      ProjectConcat(walked.lines, AddedOut(ds, true, |items|, depth + 1, walked.size).lines, Left);
      ProjectBracketed(OpenLine(name, "[", ChangeNil, inArray, depth), BodyOut(v, ds, depth + 1),
        CloseLine("]", ChangeNil, depth, comma), Left);
  }

  // ---------- an entry that is not covered costs left lines

  function LineCount(d: Doc): (n: nat)
    ensures n >= 1
    decreases d, 0
  {
    match d
    case DocLeaf(_) => 1
    case DocObject(fields) => 2 + FieldLines(fields)
    case DocArray(elements) => 2 + ElementLines(elements)
  }

  function FieldLines(fields: seq<Field>): nat
    decreases fields, 1
  {
    if fields == [] then 0 else LineCount(fields[0].doc) + FieldLines(fields[1..])
  }

  function ElementLines(elements: seq<Doc>): nat
    decreases elements, 1
  {
    if elements == [] then 0 else LineCount(elements[0]) + ElementLines(elements[1..])
  }

  lemma {:induction false} PrintLength(name: string, d: Doc, change: Change, inArray: bool, depth: nat, comma: bool)
    ensures |Print(name, d, change, inArray, depth, comma)| == LineCount(d)
    decreases d, 0
  {
    match d
    case DocLeaf(_) =>
    case DocObject(fields) => PrintFieldsLength(fields, change, depth + 1);
    case DocArray(elements) => PrintElementsLength(elements, change, depth + 1);
  }

  lemma {:induction false} PrintFieldsLength(fields: seq<Field>, change: Change, depth: nat)
    ensures |PrintFields(fields, change, depth)| == FieldLines(fields)
    decreases fields, 1
  {
    if fields != [] {
      PrintLength(fields[0].key, fields[0].doc, change, false, depth, |fields| > 1);
      PrintFieldsLength(fields[1..], change, depth);
    }
  }

  lemma {:induction false} PrintElementsLength(elements: seq<Doc>, change: Change, depth: nat)
    ensures |PrintElements(elements, change, depth)| == ElementLines(elements)
    decreases elements, 1
  {
    if elements != [] {
      PrintLength("", elements[0], change, true, depth, |elements| > 1);
      PrintElementsLength(elements[1..], change, depth);
    }
  }

  /** Left lines never outnumber those of the document; where an entry is not covered there
      are fewer. */
  lemma {:induction false} ItemShort(v: Json, ds: seq<Delta>, at: Position, inArray: bool, depth: nat, size: int)
    requires AgreesAt(v, Search(ds, at))
    ensures var n := |Project(ItemOut(v, ds, at, inArray, depth, size).lines, Left)|;
      if CoversAt(v, Search(ds, at)) then n == LineCount(Order(v)) else n < LineCount(Order(v))
    decreases v, 4
  {
    hide Print, Order, LineCount, Project, FoundOut;
    if CoversAt(v, Search(ds, at)) {
      LeftItem(v, ds, at, inArray, depth, size);
      PrintLength(PositionString(at), Order(v), ChangeNil, inArray, depth, size > 1);
    } else {
      FoundShort(v, Search(ds, at), PositionString(at), inArray, depth, size);
    }
  }

  lemma {:induction false} FoundShort(v: Json, found: seq<Delta>, name: string, inArray: bool, depth: nat, size: int)
    requires AgreesAt(v, found) && !MeetsLeft(v, found)
    ensures |Project(FoundOut(v, found, name, inArray, depth, size).lines, Left)| < LineCount(Order(v))
    decreases v, 3, |found|
  {
    hide Print, Order, FoundOut, Project;
    if found == [] {
      FoundEnds(v, found, name, inArray, depth, size);
      ProjectNothing(Left);
    } else if found[0].Moved? {
      MovedStops(v, found, name, inArray, depth, size);
      ProjectNothing(Left);
    } else {
      ProjectFound(v, found, name, inArray, depth, size, Left);
      if found[0].Added? {
        ProjectAddedDelta(v, found, name, inArray, depth, size);
        FoundShort(v, found[1..], name, inArray, depth, size);
      } else {
        NestedShort(name, v, found[0].deltas, inArray, depth, size > 1);
        AddedOnly(v, found[1..], name, inArray, depth, size - 1);
      }
    }
  }

  lemma {:induction false} FieldsShort(v: Json, keys: seq<string>, ds: seq<Delta>, depth: nat, size: int)
    requires v.Object? && Agrees(v, ds) && forall k :: k in keys ==> k in v.members
    ensures var n := |Project(FieldsOut(v, keys, ds, depth, size).lines, Left)|;
      && n <= FieldLines(OrderFields(v, keys))
      && ((exists k :: k in keys && !CoversAt(v.members[k], Search(ds, Name(k)))) ==>
        n < FieldLines(OrderFields(v, keys)))
    decreases v, 0, |keys|
  {
    hide Print, Order, Project, ItemOut, Search, CoversAt, AgreesAt, LineCount;
    if keys == [] {
      ProjectNothing(Left);
    } else {
      var child, rest := v.members[keys[0]], keys[1..];
      var first := ItemOut(child, ds, Name(keys[0]), false, depth, size);
      ItemShort(child, ds, Name(keys[0]), false, depth, size);
      FieldsShort(v, rest, ds, depth, first.size);
      ProjectConcat(first.lines, FieldsOut(v, rest, ds, depth, first.size).lines, Left);
      assert OrderFields(v, keys)[1..] == OrderFields(v, rest);
      assert forall k :: k in keys <==> k == keys[0] || k in rest;
    }
  }

  lemma {:induction false} ElementsShort(v: Json, i: nat, ds: seq<Delta>, depth: nat, size: int)
    requires v.Array? && Agrees(v, ds) && i <= |v.items|
    ensures var n := |Project(ElementsOut(v.items, i, ds, depth, size).lines, Left)|;
      && n <= ElementLines(OrderItems(v.items[i..]))
      && ((exists j :: i <= j < |v.items| && !CoversAt(v.items[j], Search(ds, Index(j)))) ==>
        n < ElementLines(OrderItems(v.items[i..])))
    decreases v, 0, |v.items| - i
  {
    hide Print, Order, Project, ItemOut, Search, CoversAt, AgreesAt, LineCount;
    if i == |v.items| {
      ProjectNothing(Left);
    } else {
      var child := v.items[i];
      var first := ItemOut(child, ds, Index(i), true, depth, size);
      ItemShort(child, ds, Index(i), true, depth, size);
      ElementsShort(v, i + 1, ds, depth, first.size);
      ProjectConcat(first.lines, ElementsOut(v.items, i + 1, ds, depth, first.size).lines, Left);
      assert v.items[i..][1..] == v.items[i + 1..];
      assert OrderItems(v.items[i..])[1..] == OrderItems(v.items[i + 1..]);
    }
  }

  lemma {:induction false} NestedShort(name: string, v: Json, ds: seq<Delta>, inArray: bool, depth: nat, comma: bool)
    requires !v.Leaf? && Agrees(v, ds) && !Covers(v, ds)
    ensures |Project(NestedOut(name, v, ds, inArray, depth, comma), Left)| < LineCount(Order(v))
    decreases v, 1
  {
    hide Print, PrintFields, PrintElements, FieldsOut, ElementsOut, AddedOut, Project, Search, CoversAt, AgreesAt,
      FieldLines, ElementLines, OrderFields, OrderItems;
    match v
    case Object(m) =>
      var keys := SortedKeys(m);
      SortedKeysComplete(m);
      var walked := FieldsOut(v, keys, ds, depth + 1, |m|);
      FieldsShort(v, keys, ds, depth + 1, |m|);
      AddedIsNotLeft(ds, false, 0, depth + 1, walked.size);
      ProjectConcat(walked.lines, AddedOut(ds, false, 0, depth + 1, walked.size).lines, Left);
      ProjectBracketed(OpenLine(name, "{", ChangeNil, inArray, depth), BodyOut(v, ds, depth + 1),
        CloseLine("}", ChangeNil, depth, comma), Left);
    case Array(items) =>
      var walked := ElementsOut(items, 0, ds, depth + 1, |items|);
      assert items[0..] == items;
      ElementsShort(v, 0, ds, depth + 1, |items|);
      AddedIsNotLeft(ds, true, |items|, depth + 1, walked.size);
      ProjectConcat(walked.lines, AddedOut(ds, true, |items|, depth + 1, walked.size).lines, Left);
      ProjectBracketed(OpenLine(name, "[", ChangeNil, inArray, depth), BodyOut(v, ds, depth + 1),
        CloseLine("]", ChangeNil, depth, comma), Left);
  }

  /** For deltas that tell the truth about the left document, its lines are exactly its
      pretty-print - text, indentation and commas - if and only if every entry of it that has a
      delta is covered by something other than an Added, before any Moved. */
  lemma LeftProjection(left: Json, ds: seq<Delta>)
    requires !left.Leaf? && Agrees(left, ds)
    ensures Project(DiffEntries(left, ds), Left) == Print("", Order(left), ChangeNil, true, 0, false)
       <==> Covers(left, ds)
  {
    hide Agrees, Covers, Project, Print, Order, NestedOut;
    PrintLength("", Order(left), ChangeNil, true, 0, false);
    if Covers(left, ds) {
      LeftNested("", left, ds, true, 0, false);
    } else {
      NestedShort("", left, ds, true, 0, false);
    }
  }

  /** The failing case: an item inserted before the first one of an array is printed instead
      of it, and the old item is nowhere in the diff. */
  lemma InsertionHidesLeftItem(x: Scalar, y: Scalar)
    ensures var left, ds := Array([Leaf(x)]), [Added(Index(0), Leaf(y))];
      Agrees(left, ds) && !Covers(left, ds) && |Project(DiffEntries(left, ds), Left)| == 2
  {
    var left, ds := Array([Leaf(x)]), [Added(Index(0), Leaf(y))];
    assert Search(ds, Index(0)) == ds;
    assert AgreesAt(Leaf(x), ds);
    assert !MeetsLeft(Leaf(x), ds[1..]);
    assert !CoversAt(left.items[0], Search(ds, Index(0)));
    assert NewOnly(ds);
    AddedOnly(Leaf(x), ds, PositionString(Index(0)), true, 1, 1);
    var walked := ElementsOut(left.items, 0, ds, 1, 1);
    ElementsStep(left.items, 0, ds, 1, 1);
    WalkEnds(Object(map[]), left.items, ds, 1, ItemOut(Leaf(x), ds, Index(0), true, 1, 1).size);
    assert walked.lines == ItemOut(Leaf(x), ds, Index(0), true, 1, 1).lines;
    AddedIsNotLeft(ds, true, 1, 1, walked.size);
    ProjectConcat(walked.lines, AddedOut(ds, true, 1, 1, walked.size).lines, Left);
    ProjectBracketed(OpenLine("", "[", ChangeNil, true, 0), BodyOut(left, ds, 1), CloseLine("]", ChangeNil, 0, false),
      Left);
  }
}
