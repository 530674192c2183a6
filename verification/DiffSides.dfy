/** What the lines of one side print, commas aside: the document the walk over the left document
    makes of it for that side, whatever the deltas. */
module DiffSides {
  import opened Collections
  import opened JsonDoc
  import opened DiffLines
  import opened DiffProjection

  /** Lines with their commas forgotten. */
  function Bare(es: seq<Entry>): seq<Entry> {
    if es == [] then [] else [es[0].(comma := false)] + Bare(es[1..])
  }

  lemma {:induction false} BareConcat(a: seq<Entry>, b: seq<Entry>)
    ensures Bare(a + b) == Bare(a) + Bare(b)
    decreases |a|
  {
    if a == [] {
      assert a + b == b;
    } else {
      assert (a + b)[0] == a[0] && (a + b)[1..] == a[1..] + b;
      BareConcat(a[1..], b);
    }
  }

  lemma {:induction false} BareAt(es: seq<Entry>)
    ensures |Bare(es)| == |es| && forall i :: 0 <= i < |es| ==> Bare(es)[i] == es[i].(comma := false)
  {
    if es != [] {
      BareAt(es[1..]);
    }
  }

  lemma BareBracketed(opening: Entry, body: seq<Entry>, closing: Entry)
    ensures Bare([opening] + body + [closing]) == Bare([opening]) + Bare(body) + Bare([closing])
  {
    BareConcat([opening] + body, [closing]);
    BareConcat([opening], body);
  }

  /** The comma after a value is on its last line only. */
  lemma CommaIsLast(name: string, d: Doc, inArray: bool, depth: nat, comma: bool)
    ensures Bare(Print(name, d, ChangeNil, inArray, depth, comma))
      == Bare(Print(name, d, ChangeNil, inArray, depth, false))
  {
    match d
    case DocLeaf(_) =>
    case DocObject(fields) =>
      var body := PrintFields(fields, ChangeNil, depth + 1);
      BareBracketed(OpenLine(name, "{", ChangeNil, inArray, depth), body, CloseLine("}", ChangeNil, depth, comma));
      BareBracketed(OpenLine(name, "{", ChangeNil, inArray, depth), body, CloseLine("}", ChangeNil, depth, false));
    case DocArray(elements) =>
      var body := PrintElements(elements, ChangeNil, depth + 1);
      BareBracketed(OpenLine(name, "[", ChangeNil, inArray, depth), body, CloseLine("]", ChangeNil, depth, comma));
      BareBracketed(OpenLine(name, "[", ChangeNil, inArray, depth), body, CloseLine("]", ChangeNil, depth, false));
  }

  /** The lines of a side among es print what plain prints. */
  ghost predicate Shows(es: seq<Entry>, plain: seq<Entry>, side: Side) {
    Bare(Project(es, side)) == Bare(plain)
  }

  lemma ShowsConcat(a: seq<Entry>, pa: seq<Entry>, b: seq<Entry>, pb: seq<Entry>, side: Side)
    requires Shows(a, pa, side) && Shows(b, pb, side)
    ensures Shows(a + b, pa + pb, side)
  {
    ProjectConcat(a, b, side);
    BareConcat(Project(a, side), Project(b, side));
    BareConcat(pa, pb);
  }

  lemma ShowsPrint(name: string, d: Doc, change: Change, inArray: bool, depth: nat, comma: bool, side: Side)
    ensures Shows(Print(name, d, change, inArray, depth, comma),
                  if On(side, change) then Print(name, d, ChangeNil, inArray, depth, false) else [], side)
  {
    ProjectPrint(name, d, change, inArray, depth, comma, side);
    CommaIsLast(name, d, inArray, depth, comma);
  }

  // ---------- the document of a side

  /** What the walk leaves of the old entries, in key or index order, then, on the right, the
      added ones in the order of the deltas. */
  ghost function Printed(v: Json, ds: seq<Delta>, side: Side): Doc
    decreases v, 0
  {
    match v
    case Object(m) => DocObject(KeptFields(v, SortedKeys(m), ds, side) + NewFields(ds, side))
    case Array(items) => DocArray(KeptElements(v, 0, ds, side) + NewElements(ds, |items|, side))
    case Leaf(s) => DocLeaf(s)
  }

  ghost function KeptFields(v: Json, keys: seq<string>, ds: seq<Delta>, side: Side): seq<Field>
    requires v.Object? && forall k :: k in keys ==> k in v.members
    decreases v, 0, |keys|
  {
    if keys == [] then []
    else
      Named(keys[0], ItemDocs(v.members[keys[0]], Search(ds, Name(keys[0])), side))
      + KeptFields(v, keys[1..], ds, side)
  }

  ghost function KeptElements(v: Json, i: nat, ds: seq<Delta>, side: Side): seq<Doc>
    requires v.Array? && i <= |v.items|
    decreases v, 0, |v.items| - i
  {
    if i == |v.items| then []
    else ItemDocs(v.items[i], Search(ds, Index(i)), side) + KeptElements(v, i + 1, ds, side)
  }

  ghost function ItemDocs(v: Json, found: seq<Delta>, side: Side): seq<Doc>
    decreases v, 2
  {
    if found == [] then [Order(v)] else FoundDocs(v, found, side)
  }

  /** The loop over the matched deltas stops at the first one it refuses. */
  ghost function FoundDocs(v: Json, found: seq<Delta>, side: Side): seq<Doc>
    decreases v, 1, |found|
  {
    if found == [] || Refusal(found[0], v).Some? then []
    else DeltaDocs(v, found[0], side) + FoundDocs(v, found[1..], side)
  }

  /** What a delta shows in the place of the old value v. */
  ghost function DeltaDocs(v: Json, d: Delta, side: Side): seq<Doc>
    decreases v, 1, 0
  {
    match d
    case ObjectDelta(_, sub) => [Printed(v, sub, side)]
    case ArrayDelta(_, sub) => [Printed(v, sub, side)]
    case Added(_, x) => if side == Right then [Order(x)] else []
    case Modified(_, x, y) => [Order(if side == Right then y else x)]
    case TextDiff(_, x, y) => [Order(if side == Right then y else x)]
    case Deleted(_, x) => if side == Right then [] else [Order(x)]
    case Moved(_, _, _) => []
  }

  function Named(name: string, docs: seq<Doc>): seq<Field> {
    if docs == [] then [] else [Field(name, docs[0])] + Named(name, docs[1..])
  }

  ghost function NewFields(ds: seq<Delta>, side: Side): seq<Field> {
    if ds == [] || side == Left then []
    else (if ds[0].Added? then [Field(PositionString(ds[0].at), Order(ds[0].added))] else []) + NewFields(ds[1..], side)
  }

  ghost function NewElements(ds: seq<Delta>, length: nat, side: Side): seq<Doc> {
    if ds == [] || side == Left then []
    else
      (if ds[0].Added? && !AlreadyMet(ds[0].at, true, length) then [Order(ds[0].added)] else [])
      + NewElements(ds[1..], length, side)
  }

  // ---------- the lines of the side print it

  function PrintDocs(name: string, docs: seq<Doc>, inArray: bool, depth: nat): seq<Entry> {
    if docs == [] then []
    else Print(name, docs[0], ChangeNil, inArray, depth, false) + PrintDocs(name, docs[1..], inArray, depth)
  }

  lemma PrintDocsOne(name: string, d: Doc, inArray: bool, depth: nat)
    ensures PrintDocs(name, [d], inArray, depth) == Print(name, d, ChangeNil, inArray, depth, false)
  {
    assert [d][1..] == [];
  }

  lemma {:induction false} PrintDocsConcat(name: string, a: seq<Doc>, b: seq<Doc>, inArray: bool, depth: nat)
    ensures PrintDocs(name, a + b, inArray, depth)
      == PrintDocs(name, a, inArray, depth) + PrintDocs(name, b, inArray, depth)
    decreases |a|
  {
    if a == [] {
      assert a + b == b;
    } else {
      hide Print;
      assert (a + b)[0] == a[0] && (a + b)[1..] == a[1..] + b;
      PrintDocsConcat(name, a[1..], b, inArray, depth);
    }
  }

  lemma BareFieldsStep(fields: seq<Field>, depth: nat)
    requires fields != []
    ensures Bare(PrintFields(fields, ChangeNil, depth))
         == Bare(Print(fields[0].key, fields[0].doc, ChangeNil, false, depth, false))
           + Bare(PrintFields(fields[1..], ChangeNil, depth))
  {
    hide Print, Bare;
    var f, comma := fields[0], |fields| > 1;
    CommaIsLast(f.key, f.doc, false, depth, comma);
    BareConcat(Print(f.key, f.doc, ChangeNil, false, depth, comma), PrintFields(fields[1..], ChangeNil, depth));
  }

  lemma BareElementsStep(elements: seq<Doc>, depth: nat)
    requires elements != []
    ensures Bare(PrintElements(elements, ChangeNil, depth))
         == Bare(Print("", elements[0], ChangeNil, true, depth, false))
           + Bare(PrintElements(elements[1..], ChangeNil, depth))
  {
    hide Print, Bare;
    var comma := |elements| > 1;
    CommaIsLast("", elements[0], true, depth, comma);
    BareConcat(Print("", elements[0], ChangeNil, true, depth, comma), PrintElements(elements[1..], ChangeNil, depth));
  }

  lemma {:induction false} BareFieldsConcat(f: seq<Field>, g: seq<Field>, depth: nat)
    ensures Bare(PrintFields(f + g, ChangeNil, depth))
      == Bare(PrintFields(f, ChangeNil, depth)) + Bare(PrintFields(g, ChangeNil, depth))
    decreases |f|
  {
    if f == [] {
      assert f + g == g;
    } else {
      var all := f + g;
      assert all[0] == f[0] && all[1..] == f[1..] + g;
      BareFieldsStep(all, depth);
      BareFieldsStep(f, depth);
      BareFieldsConcat(f[1..], g, depth);
      hide Print, PrintFields, Bare;
      Regroup(Bare(Print(f[0].key, f[0].doc, ChangeNil, false, depth, false)),
        Bare(PrintFields(f[1..], ChangeNil, depth)), Bare(PrintFields(g, ChangeNil, depth)));
    }
  }

  lemma {:induction false} BareElementsConcat(f: seq<Doc>, g: seq<Doc>, depth: nat)
    ensures Bare(PrintElements(f + g, ChangeNil, depth))
      == Bare(PrintElements(f, ChangeNil, depth)) + Bare(PrintElements(g, ChangeNil, depth))
    decreases |f|
  {
    if f == [] {
      assert f + g == g;
    } else {
      var all := f + g;
      assert all[0] == f[0] && all[1..] == f[1..] + g;
      BareElementsStep(all, depth);
      BareElementsStep(f, depth);
      BareElementsConcat(f[1..], g, depth);
      hide Print, PrintElements, Bare;
      Regroup(Bare(Print("", f[0], ChangeNil, true, depth, false)), Bare(PrintElements(f[1..], ChangeNil, depth)),
        Bare(PrintElements(g, ChangeNil, depth)));
    }
  }

  lemma ShowsFields(a: seq<Entry>, f: seq<Field>, b: seq<Entry>, g: seq<Field>, depth: nat, side: Side)
    requires Shows(a, PrintFields(f, ChangeNil, depth), side) && Shows(b, PrintFields(g, ChangeNil, depth), side)
    ensures Shows(a + b, PrintFields(f + g, ChangeNil, depth), side)
  {
    hide PrintFields, Bare, Project;
    ShowsConcat(a, PrintFields(f, ChangeNil, depth), b, PrintFields(g, ChangeNil, depth), side);
    BareConcat(PrintFields(f, ChangeNil, depth), PrintFields(g, ChangeNil, depth));
    BareFieldsConcat(f, g, depth);
  }

  lemma ShowsElements(a: seq<Entry>, f: seq<Doc>, b: seq<Entry>, g: seq<Doc>, depth: nat, side: Side)
    requires Shows(a, PrintElements(f, ChangeNil, depth), side) && Shows(b, PrintElements(g, ChangeNil, depth), side)
    ensures Shows(a + b, PrintElements(f + g, ChangeNil, depth), side)
  {
    hide PrintElements, Bare, Project;
    ShowsConcat(a, PrintElements(f, ChangeNil, depth), b, PrintElements(g, ChangeNil, depth), side);
    BareConcat(PrintElements(f, ChangeNil, depth), PrintElements(g, ChangeNil, depth));
    BareElementsConcat(f, g, depth);
  }

  /** Documents printed one after the other are printed as entries of their container. */
  lemma {:induction false} BareDocs(name: string, docs: seq<Doc>, depth: nat)
    ensures Bare(PrintDocs(name, docs, false, depth)) == Bare(PrintFields(Named(name, docs), ChangeNil, depth))
    ensures Bare(PrintDocs(name, docs, true, depth)) == Bare(PrintElements(docs, ChangeNil, depth))
    decreases |docs|
  {
    if docs != [] {
      var d, rest := docs[0], docs[1..];
      ArrayNames(name, d, ChangeNil, depth, false);
      hide Print, PrintFields, PrintElements;
      var fields := Named(name, docs);
      assert fields[0] == Field(name, d) && fields[1..] == Named(name, rest);
      BareDocs(name, rest, depth);
      BareFieldsStep(fields, depth);
      BareElementsStep(docs, depth);
      BareConcat(Print(name, d, ChangeNil, false, depth, false), PrintDocs(name, rest, false, depth));
      BareConcat(Print(name, d, ChangeNil, true, depth, false), PrintDocs(name, rest, true, depth));
    }
  }

  lemma {:induction false} SideDelta(v: Json, found: seq<Delta>, name: string, inArray: bool, depth: nat, size: int,
    side: Side)
    requires found != [] && Refusal(found[0], v).None?
    ensures Shows(DeltaOut(v, found, name, inArray, depth, size).lines,
      PrintDocs(name, DeltaDocs(v, found[0], side), inArray, depth), side)
    decreases v, 3
  {
    hide Print, Order, Shows, NestedOut, Printed, Bare, Project;
    var docs := DeltaDocs(v, found[0], side);
    if docs != [] {
      PrintDocsOne(name, docs[0], inArray, depth);
    }
    match found[0]
    case ObjectDelta(_, sub) => SideNested(name, v, sub, inArray, depth, size > 1, side);
    case ArrayDelta(_, sub) => SideNested(name, v, sub, inArray, depth, size > 1, side);
    case Added(_, x) => ShowsPrint(name, Order(x), ChangeAdded, inArray, depth, size > 1, side);
    case Modified(_, x, y) => SideBoth(name, x, y, inArray, depth, size > 1, side);
    case TextDiff(_, x, y) => SideBoth(name, x, y, inArray, depth, size > 1, side);
    case Deleted(_, x) => ShowsPrint(name, Order(x), ChangeDeleted, inArray, depth, size > 1, side);
  }

  lemma SideBoth(name: string, x: Json, y: Json, inArray: bool, depth: nat, comma: bool, side: Side)
    ensures Shows(Print(name, Order(x), ChangeOld, inArray, depth, comma)
      + Print(name, Order(y), ChangeNew, inArray, depth, comma),
                  Print(name, Order(if side == Right then y else x), ChangeNil, inArray, depth, false), side)
  {
    hide Print, Order, Shows;
    var old_ := Print(name, Order(x), ChangeNil, inArray, depth, false);
    var new_ := Print(name, Order(y), ChangeNil, inArray, depth, false);
    ShowsPrint(name, Order(x), ChangeOld, inArray, depth, comma, side);
    ShowsPrint(name, Order(y), ChangeNew, inArray, depth, comma, side);
    ShowsConcat(Print(name, Order(x), ChangeOld, inArray, depth, comma), if side == Left then old_ else [],
                Print(name, Order(y), ChangeNew, inArray, depth, comma), if side == Right then new_ else [], side);
    assert [] + new_ == new_ && old_ + [] == old_;
  }

  lemma {:induction false} SideFound(v: Json, found: seq<Delta>, name: string, inArray: bool, depth: nat, size: int,
    side: Side)
    ensures Shows(FoundOut(v, found, name, inArray, depth, size).lines,
      PrintDocs(name, FoundDocs(v, found, side), inArray, depth), side)
    decreases v, 4, |found|
  {
    if found == [] || Refusal(found[0], v).Some? {
      ProjectNothing(side);
      assert FoundOut(v, found, name, inArray, depth, size).lines == [];
    } else {
      hide DeltaOut, Shows, PrintDocs, DeltaDocs;
      var first := DeltaOut(v, found, name, inArray, depth, size);
      var rest := FoundOut(v, found[1..], name, inArray, depth, first.size);
      SideDelta(v, found, name, inArray, depth, size, side);
      SideFound(v, found[1..], name, inArray, depth, first.size, side);
      ShowsConcat(first.lines, PrintDocs(name, DeltaDocs(v, found[0], side), inArray, depth),
                  rest.lines, PrintDocs(name, FoundDocs(v, found[1..], side), inArray, depth), side);
      PrintDocsConcat(name, DeltaDocs(v, found[0], side), FoundDocs(v, found[1..], side), inArray, depth);
    }
  }

  lemma {:induction false} SideItem(v: Json, ds: seq<Delta>, at: Position, inArray: bool, depth: nat, size: int,
    side: Side)
    ensures Shows(ItemOut(v, ds, at, inArray, depth, size).lines,
      PrintDocs(PositionString(at), ItemDocs(v, Search(ds, at), side), inArray, depth), side)
    decreases v, 5
  {
    hide Print, Order, Shows, FoundOut, PrintDocs;
    if Search(ds, at) == [] {
      ShowsPrint(PositionString(at), Order(v), ChangeUnchanged, inArray, depth, size > 1, side);
      PrintDocsOne(PositionString(at), Order(v), inArray, depth);
    } else {
      SideFound(v, Search(ds, at), PositionString(at), inArray, depth, size, side);
    }
  }

  lemma {:induction false} SideFields(v: Json, keys: seq<string>, ds: seq<Delta>, depth: nat, size: int, side: Side)
    requires v.Object? && forall k :: k in keys ==> k in v.members
    ensures Shows(FieldsOut(v, keys, ds, depth, size).lines,
      PrintFields(KeptFields(v, keys, ds, side), ChangeNil, depth), side)
    decreases v, 0, |keys|
  {
    if keys != [] {
      hide ItemOut, PrintFields, PrintDocs, ItemDocs, Search, Bare, Project;
      var child, rest := v.members[keys[0]], keys[1..];
      var first := ItemOut(child, ds, Name(keys[0]), false, depth, size);
      var docs := ItemDocs(child, Search(ds, Name(keys[0])), side);
      SideItem(child, ds, Name(keys[0]), false, depth, size, side);
      SideFields(v, rest, ds, depth, first.size, side);
      BareDocs(keys[0], docs, depth);
      ShowsFields(first.lines, Named(keys[0], docs), FieldsOut(v, rest, ds, depth, first.size).lines,
        KeptFields(v, rest, ds, side), depth, side);
    }
  }

  lemma {:induction false} SideElements(v: Json, i: nat, ds: seq<Delta>, depth: nat, size: int, side: Side)
    requires v.Array? && i <= |v.items|
    ensures Shows(ElementsOut(v.items, i, ds, depth, size).lines,
      PrintElements(KeptElements(v, i, ds, side), ChangeNil, depth), side)
    decreases v, 0, |v.items| - i
  {
    if i < |v.items| {
      hide ItemOut, PrintElements, PrintDocs, ItemDocs, Search, Bare, Project;
      var name := PositionString(Index(i));
      var first := ItemOut(v.items[i], ds, Index(i), true, depth, size);
      var docs := ItemDocs(v.items[i], Search(ds, Index(i)), side);
      SideItem(v.items[i], ds, Index(i), true, depth, size, side);
      SideElements(v, i + 1, ds, depth, first.size, side);
      BareDocs(name, docs, depth);
      ShowsElements(first.lines, docs, ElementsOut(v.items, i + 1, ds, depth, first.size).lines,
        KeptElements(v, i + 1, ds, side), depth, side);
    }
  }

  lemma ShowsOne(name: string, doc: Doc, es: seq<Entry>, inArray: bool, depth: nat, side: Side)
    requires Shows(es, Print(name, doc, ChangeNil, inArray, depth, false), side)
    ensures if inArray then Shows(es, PrintElements([doc], ChangeNil, depth), side)
      else Shows(es, PrintFields([Field(name, doc)], ChangeNil, depth), side)
  {
    PrintDocsOne(name, doc, inArray, depth);
    BareDocs(name, [doc], depth);
    assert [doc][1..] == [];
    assert Named(name, [doc]) == [Field(name, doc)];
  }

  lemma {:induction false} SideNewFields(ds: seq<Delta>, depth: nat, size: int, side: Side)
    ensures Shows(AddedOut(ds, false, 0, depth, size).lines, PrintFields(NewFields(ds, side), ChangeNil, depth), side)
    decreases |ds|
  {
    if side == Left {
      AddedIsNotLeft(ds, false, 0, depth, size);
    } else if ds != [] {
      hide Print, Order, PrintFields;
      if ds[0].Added? {
        var name, doc := PositionString(ds[0].at), Order(ds[0].added);
        SideNewFields(ds[1..], depth, size - 1, side);
        ShowsPrint(name, doc, ChangeAdded, false, depth, size > 1, side);
        ShowsOne(name, doc, Print(name, doc, ChangeAdded, false, depth, size > 1), false, depth, side);
        ShowsFields(Print(name, doc, ChangeAdded, false, depth, size > 1), [Field(name, doc)],
                    AddedOut(ds[1..], false, 0, depth, size - 1).lines, NewFields(ds[1..], side), depth, side);
      } else {
        SideNewFields(ds[1..], depth, size, side);
        assert NewFields(ds, side) == NewFields(ds[1..], side);
      }
    }
  }

  lemma {:induction false} SideNewElements(ds: seq<Delta>, length: nat, depth: nat, size: int, side: Side)
    ensures Shows(AddedOut(ds, true, length, depth, size).lines,
      PrintElements(NewElements(ds, length, side), ChangeNil, depth), side)
    decreases |ds|
  {
    if side == Left {
      AddedIsNotLeft(ds, true, length, depth, size);
    } else if ds != [] {
      hide Print, Order, PrintElements;
      if ds[0].Added? && !AlreadyMet(ds[0].at, true, length) {
        var name, doc := PositionString(ds[0].at), Order(ds[0].added);
        SideNewElements(ds[1..], length, depth, size - 1, side);
        ShowsPrint(name, doc, ChangeAdded, true, depth, size > 1, side);
        ShowsOne(name, doc, Print(name, doc, ChangeAdded, true, depth, size > 1), true, depth, side);
        ShowsElements(Print(name, doc, ChangeAdded, true, depth, size > 1), [doc],
                      AddedOut(ds[1..], true, length, depth, size - 1).lines, NewElements(ds[1..], length, side),
                      depth, side);
      } else {
        SideNewElements(ds[1..], length, depth, size, side);
        assert NewElements(ds, length, side) == NewElements(ds[1..], length, side);
      }
    }
  }

  lemma {:induction false} SideNested(name: string, v: Json, ds: seq<Delta>, inArray: bool, depth: nat, comma: bool,
    side: Side)
    requires !v.Leaf?
    ensures Shows(NestedOut(name, v, ds, inArray, depth, comma),
      Print(name, Printed(v, ds, side), ChangeNil, inArray, depth, false), side)
    decreases v, 2
  {
    SideBody(v, ds, depth, side);
    hide BodyOut, PrintFields, PrintElements, Shows;
    ShowsBracketed(OpenLine(name, if v.Object? then "{" else "[", ChangeNil, inArray, depth),
                   BodyOut(v, ds, depth + 1), PrintedBody(v, ds, depth, side),
                   CloseLine(if v.Object? then "}" else "]", ChangeNil, depth, comma), side);
  }

  lemma ShowsBracketed(opening: Entry, body: seq<Entry>, plain: seq<Entry>, closing: Entry, side: Side)
    requires Shows(body, plain, side) && opening.change == closing.change == ChangeNil
    ensures Shows([opening] + body + [closing], [opening] + plain + [closing.(comma := false)], side)
  {
    ProjectBracketed(opening, body, closing, side);
    BareBracketed(opening, Project(body, side), closing);
    BareBracketed(opening, plain, closing.(comma := false));
  }

  ghost function PrintedBody(v: Json, ds: seq<Delta>, depth: nat, side: Side): seq<Entry>
    requires !v.Leaf?
  {
    match Printed(v, ds, side)
    case DocObject(fields) => PrintFields(fields, ChangeNil, depth + 1)
    case DocArray(elements) => PrintElements(elements, ChangeNil, depth + 1)
    case DocLeaf(_) => []
  }

  lemma {:induction false} SideBody(v: Json, ds: seq<Delta>, depth: nat, side: Side)
    requires !v.Leaf?
    ensures Shows(BodyOut(v, ds, depth + 1), PrintedBody(v, ds, depth, side), side)
    ensures v.Object? <==> Printed(v, ds, side).DocObject?
    ensures v.Array? <==> Printed(v, ds, side).DocArray?
    decreases v, 1
  {
    hide FieldsOut, ElementsOut, AddedOut, KeptFields, KeptElements, PrintFields, PrintElements, Bare, Project;
    match v
    case Object(m) =>
      var walked := FieldsOut(v, SortedKeys(m), ds, depth + 1, |m|);
      var kept := KeptFields(v, SortedKeys(m), ds, side);
      SideFields(v, SortedKeys(m), ds, depth + 1, |m|, side);
      SideNewFields(ds, depth + 1, walked.size, side);
      ShowsFields(walked.lines, kept, AddedOut(ds, false, 0, depth + 1, walked.size).lines, NewFields(ds, side), depth
        + 1, side);
    case Array(items) =>
      var walked := ElementsOut(items, 0, ds, depth + 1, |items|);
      var kept := KeptElements(v, 0, ds, side);
      SideElements(v, 0, ds, depth + 1, |items|, side);
      SideNewElements(ds, |items|, depth + 1, walked.size, side);
      ShowsElements(walked.lines, kept, AddedOut(ds, true, |items|, depth + 1, walked.size).lines,
        NewElements(ds, |items|, side), depth + 1, side);
  }

  /** The lines of either side of a diff, commas aside, are the pretty-print of the document the walk
      makes for that side: for all deltas, those it refuses included. */
  lemma SideProjection(left: Json, ds: seq<Delta>, side: Side)
    requires !left.Leaf?
    ensures Shows(DiffEntries(left, ds), Print("", Printed(left, ds, side), ChangeNil, true, 0, false), side)
  {
    SideNested("", left, ds, true, 0, false, side);
  }
}
