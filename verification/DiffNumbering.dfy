/** Line numbers and indentation of a diff, for any deltas at all, and what the numbers are
    for: picking the lines of one document out of the diff. */
module DiffNumbering {
  import opened Options
  import opened JsonDoc
  import opened DiffLines
  import opened DiffProjection
  import opened DiffSides

  function SideNumber(line: JsonLine, side: Side): nat {
    if side == Left then line.leftLine else line.rightLine
  }

  /** The lines a reader of one side sees: those with a number in its column. */
  function Pick(lines: seq<JsonLine>, side: Side): seq<JsonLine> {
    if lines == [] then []
    else Pick(lines[..|lines| - 1], side)
         + if SideNumber(lines[|lines| - 1], side) != 0 then [lines[|lines| - 1]] else []
  }

  lemma {:induction false} NumberAllAt(es: seq<Entry>, i: nat)
    requires i < |es|
    ensures NumberAll(es)[i] == Numbered(es[..i + 1])
  {
    if i == |es| - 1 {
      assert es[..i + 1] == es;
    } else {
      NumberAllAt(es[..|es| - 1], i);
      assert es[..|es| - 1][..i + 1] == es[..i + 1];
    }
  }

  /** Lines are numbered 1, 2, 3, ... */
  lemma LineNumbers(es: seq<Entry>, i: nat)
    requires i < |es|
    ensures NumberAll(es)[i].lineNum == i + 1
  {
    NumberAllAt(es, i);
  }

  /** The lines picked for a side carry the numbers 1, 2, 3, ... without a gap, and they are
      the entries of that side, in order, with their indentation and text. */
  lemma {:induction false} PickProjects(es: seq<Entry>, side: Side)
    ensures var picked, projected := Pick(NumberAll(es), side), Project(es, side);
      && |picked| == |projected| == Count(es, side)
      && forall i :: 0 <= i < |picked| ==>
           && SideNumber(picked[i], side) == i + 1
           && picked[i].indent == projected[i].indent
           && picked[i].text == projected[i].Text()
    decreases |es|
  {
    if es != [] {
      var init, last := es[..|es| - 1], es[|es| - 1];
      assert es == init + [last];
      PickProjects(init, side);
      ProjectConcat(init, [last], side);
      CountBounds(init, side);
      assert NumberAll(es) == NumberAll(init) + [Numbered(es)];
      assert NumberAll(es)[..|es| - 1] == NumberAll(init);
    }
  }

  lemma {:induction false} CountBounds(es: seq<Entry>, side: Side)
    ensures Count(es, side) <= |es|
  {
    if es != [] {
      CountBounds(es[..|es| - 1], side);
    }
  }

  /** The lines picked are those of a printed document, commas included. */
  ghost predicate Reads(picked: seq<JsonLine>, plain: seq<Entry>, side: Side) {
    && |picked| == |plain|
    && forall i :: 0 <= i < |plain| ==>
         && SideNumber(picked[i], side) == i + 1
         && picked[i].indent == plain[i].indent
         && picked[i].text == plain[i].Text()
  }

  /** For deltas that tell the truth about the left document, it is read back exactly from the lines
      with a left number if and only if every entry with a delta is covered. */
  lemma ReadBackLeft(left: Json, ds: seq<Delta>)
    requires !left.Leaf? && Agrees(left, ds)
    ensures Reads(Pick(NumberAll(DiffEntries(left, ds)), Left), Print("", Order(left), ChangeNil, true, 0, false), Left)
       <==> Covers(left, ds)
  {
    hide Pick, NumberAll, Agrees, Covers, Project, Print, Order;
    LeftProjection(left, ds);
    PickProjects(DiffEntries(left, ds), Left);
    if !Covers(left, ds) {
      NestedShort("", left, ds, true, 0, false);
      PrintLength("", Order(left), ChangeNil, true, 0, false);
    }
  }

  /** The document of either side is read back, up to a comma at the end of a line, from the lines
      with a number in its column. */
  lemma ReadBackSide(left: Json, ds: seq<Delta>, side: Side)
    requires !left.Leaf?
    ensures var picked, plain :=
      Pick(NumberAll(DiffEntries(left, ds)), side), Print("", Printed(left, ds, side), ChangeNil, true, 0, false);
      && |picked| == |plain|
      && forall i :: 0 <= i < |plain| ==>
           && SideNumber(picked[i], side) == i + 1
           && picked[i].indent == plain[i].indent
           && (picked[i].text == plain[i].body || picked[i].text == plain[i].body + ",")
  {
    hide Pick, NumberAll, Project, Print, Printed, Bare, DiffEntries;
    SideProjection(left, ds, side);
    PickProjects(DiffEntries(left, ds), side);
    BareAt(Project(DiffEntries(left, ds), side));
    BareAt(Print("", Printed(left, ds, side), ChangeNil, true, 0, false));
  }

  // ---------- indentation is nesting depth

  /** The text of a line is its key, if it has one, and x. */
  predicate Says(e: Entry, x: string) {
    (e.key == "" && e.body == x) || e.body == "\"" + e.key + "\": " + x
  }

  /** A line is a bracket, or the value it records behind the key it records. */
  predicate Worded(e: Entry) {
    match e.kind
    case Open => e.val == None && !e.comma && (Says(e, "{") || Says(e, "["))
    case Close => e.val == None && e.key == "" && (e.body == "}" || e.body == "]")
    case Plain =>
      match e.val
      case Some(Text(chars)) => Says(e, "\"" + chars + "\"") || (chars == "null" && Says(e, "null"))
      case Some(Other(goSyntax)) => Says(e, goSyntax)
      case _ => false
  }

  /** Walks the lines from nesting depth d; None as soon as an indentation is not the number
      of brackets open around the line, or a line does not say what it records. */
  function DepthAfter(es: seq<Entry>, d: nat): Option<nat> {
    if es == [] then Some(d)
    else if !Worded(es[0]) then None
    else
      match es[0].kind
      case Open => if es[0].indent == d then DepthAfter(es[1..], d + 1) else None
      case Close => if es[0].indent + 1 == d then DepthAfter(es[1..], d - 1) else None
      case Plain => if es[0].indent == d then DepthAfter(es[1..], d) else None
  }

  ghost predicate Balanced(es: seq<Entry>, d: nat) {
    DepthAfter(es, d) == Some(d)
  }

  lemma {:induction false} DepthConcat(a: seq<Entry>, b: seq<Entry>, d: nat)
    requires DepthAfter(a, d).Some?
    ensures DepthAfter(a + b, d) == DepthAfter(b, DepthAfter(a, d).value)
    decreases |a|
  {
    if a == [] {
      assert a + b == b;
    } else {
      assert (a + b)[0] == a[0] && (a + b)[1..] == a[1..] + b;
      var d' := match a[0].kind case Open => d + 1 case Close => d - 1 case Plain => d;
      DepthConcat(a[1..], b, d');
    }
  }

  lemma BalancedConcat(a: seq<Entry>, b: seq<Entry>, d: nat)
    requires Balanced(a, d) && Balanced(b, d)
    ensures Balanced(a + b, d)
  {
    DepthConcat(a, b, d);
  }

  lemma BalancedBracketed(opening: Entry, body: seq<Entry>, closing: Entry, d: nat)
    requires opening.kind == Open && closing.kind == Close && opening.indent == closing.indent == d
    requires Worded(opening) && Worded(closing)
    requires Balanced(body, d + 1)
    ensures Balanced([opening] + body + [closing], d)
  {
    assert DepthAfter([opening], d) == Some(d + 1) by { assert [opening][1..] == []; }
    assert DepthAfter([closing], d + 1) == Some(d) by { assert [closing][1..] == []; }
    DepthConcat([opening], body, d);
    DepthConcat([opening] + body, [closing], d);
  }

  lemma LinesWorded(name: string, change: Change, inArray: bool, d: nat, comma: bool)
    ensures Worded(OpenLine(name, "{", change, inArray, d)) && Worded(OpenLine(name, "[", change, inArray, d))
    ensures Worded(CloseLine("}", change, d, comma)) && Worded(CloseLine("]", change, d, comma))
  {
  }

  lemma OneBalanced(e: Entry, d: nat)
    requires e.kind == Plain && e.indent == d && Worded(e)
    ensures Balanced([e], d)
  {
    var rest := [e][1..];
    assert rest == [] && [e][0] == e;
    assert DepthAfter(rest, d) == Some(d);
  }

  lemma LeafWorded(name: string, s: Scalar, change: Change, inArray: bool, d: nat, comma: bool)
    ensures var e := LeafLine(name, s, change, inArray, d, comma); Worded(e) && e.kind == Plain && e.indent == d
  {
  }

  lemma {:induction false} PrintBalanced(name: string, doc: Doc, change: Change, inArray: bool, d: nat, comma: bool)
    ensures Balanced(Print(name, doc, change, inArray, d, comma), d)
    decreases doc, 0
  {
    hide Worded;
    LinesWorded(name, change, inArray, d, comma);
    match doc
    case DocLeaf(s) =>
      LeafWorded(name, s, change, inArray, d, comma);
      assert Print(name, doc, change, inArray, d, comma) == [LeafLine(name, s, change, inArray, d, comma)];
      OneBalanced(LeafLine(name, s, change, inArray, d, comma), d);
    case DocObject(fields) =>
      FieldsBalanced(fields, change, d + 1);
      BalancedBracketed(OpenLine(name, "{", change, inArray, d), PrintFields(fields, change, d + 1),
        CloseLine("}", change, d, comma), d);
    case DocArray(elements) =>
      ElementsBalanced(elements, change, d + 1);
      BalancedBracketed(OpenLine(name, "[", change, inArray, d), PrintElements(elements, change, d + 1),
        CloseLine("]", change, d, comma), d);
  }

  lemma {:induction false} FieldsBalanced(fields: seq<Field>, change: Change, d: nat)
    ensures Balanced(PrintFields(fields, change, d), d)
    decreases fields, 1
  {
    if fields != [] {
      PrintBalanced(fields[0].key, fields[0].doc, change, false, d, |fields| > 1);
      FieldsBalanced(fields[1..], change, d);
      BalancedConcat(Print(fields[0].key, fields[0].doc, change, false, d, |fields| > 1),
        PrintFields(fields[1..], change, d), d);
    }
  }

  lemma {:induction false} ElementsBalanced(elements: seq<Doc>, change: Change, d: nat)
    ensures Balanced(PrintElements(elements, change, d), d)
    decreases elements, 1
  {
    if elements != [] {
      PrintBalanced("", elements[0], change, true, d, |elements| > 1);
      ElementsBalanced(elements[1..], change, d);
      BalancedConcat(Print("", elements[0], change, true, d, |elements| > 1), PrintElements(elements[1..], change, d),
        d);
    }
  }

  lemma {:induction false} ItemBalanced(v: Json, ds: seq<Delta>, at: Position, inArray: bool, d: nat, size: int)
    ensures Balanced(ItemOut(v, ds, at, inArray, d, size).lines, d)
    decreases Weight(ds), 1, 0
  {
    if Search(ds, at) == [] {
      PrintBalanced(PositionString(at), Order(v), ChangeUnchanged, inArray, d, size > 1);
    } else {
      FoundBalanced(v, Search(ds, at), PositionString(at), inArray, d, size);
    }
  }

  lemma {:induction false} FoundBalanced(v: Json, found: seq<Delta>, name: string, inArray: bool, d: nat, size: int)
    ensures Balanced(FoundOut(v, found, name, inArray, d, size).lines, d)
    decreases Weight(found), 0, |found|
  {
    if found != [] && Refusal(found[0], v).None? {
      var first := DeltaOut(v, found, name, inArray, d, size);
      DeltaBalanced(v, found, name, inArray, d, size);
      FoundBalanced(v, found[1..], name, inArray, d, first.size);
      hide DeltaOut, DepthAfter;
      BalancedConcat(first.lines, FoundOut(v, found[1..], name, inArray, d, first.size).lines, d);
    }
  }

  lemma {:induction false} DeltaBalanced(v: Json, found: seq<Delta>, name: string, inArray: bool, d: nat, size: int)
    requires found != [] && Refusal(found[0], v).None?
    ensures Balanced(DeltaOut(v, found, name, inArray, d, size).lines, d)
    decreases Weight(found), 0, 0
  {
    hide Print, Order, NestedOut, Balanced;
    var comma := size > 1;
    match found[0]
    case ObjectDelta(_, sub) => NestedBalanced(name, v, sub, inArray, d, comma);
    case ArrayDelta(_, sub) => NestedBalanced(name, v, sub, inArray, d, comma);
    case Added(_, x) => PrintBalanced(name, Order(x), ChangeAdded, inArray, d, comma);
    case Modified(_, x, y) => BothBalanced(name, x, y, inArray, d, comma);
    case TextDiff(_, x, y) => BothBalanced(name, x, y, inArray, d, comma);
    case Deleted(_, x) => PrintBalanced(name, Order(x), ChangeDeleted, inArray, d, comma);
  }

  lemma BothBalanced(name: string, x: Json, y: Json, inArray: bool, d: nat, comma: bool)
    ensures Balanced(Print(name, Order(x), ChangeOld, inArray, d, comma)
      + Print(name, Order(y), ChangeNew, inArray, d, comma), d)
  {
    hide Print, Order, DepthAfter;
    PrintBalanced(name, Order(x), ChangeOld, inArray, d, comma);
    PrintBalanced(name, Order(y), ChangeNew, inArray, d, comma);
    BalancedConcat(Print(name, Order(x), ChangeOld, inArray, d, comma),
      Print(name, Order(y), ChangeNew, inArray, d, comma), d);
  }

  lemma {:induction false} WalkBalanced(v: Json, keys: seq<string>, ds: seq<Delta>, d: nat, size: int)
    requires v.Object? && forall k :: k in keys ==> k in v.members
    ensures Balanced(FieldsOut(v, keys, ds, d, size).lines, d)
    decreases Weight(ds), 2, |keys|
  {
    if keys != [] {
      hide ItemOut, DepthAfter;
      var first := ItemOut(v.members[keys[0]], ds, Name(keys[0]), false, d, size);
      ItemBalanced(v.members[keys[0]], ds, Name(keys[0]), false, d, size);
      WalkBalanced(v, keys[1..], ds, d, first.size);
      BalancedConcat(first.lines, FieldsOut(v, keys[1..], ds, d, first.size).lines, d);
    }
  }

  lemma {:induction false} WalkItemsBalanced(items: seq<Json>, i: nat, ds: seq<Delta>, d: nat, size: int)
    requires i <= |items|
    ensures Balanced(ElementsOut(items, i, ds, d, size).lines, d)
    decreases Weight(ds), 2, |items| - i
  {
    if i < |items| {
      hide ItemOut, DepthAfter;
      var first := ItemOut(items[i], ds, Index(i), true, d, size);
      ItemBalanced(items[i], ds, Index(i), true, d, size);
      WalkItemsBalanced(items, i + 1, ds, d, first.size);
      BalancedConcat(first.lines, ElementsOut(items, i + 1, ds, d, first.size).lines, d);
    }
  }

  lemma {:induction false} AddedBalanced(ds: seq<Delta>, inArray: bool, length: nat, d: nat, size: int)
    ensures Balanced(AddedOut(ds, inArray, length, d, size).lines, d)
    decreases |ds|
  {
    if ds != [] {
      hide Print, Order, DepthAfter;
      if ds[0].Added? && !AlreadyMet(ds[0].at, inArray, length) {
        var name, doc := PositionString(ds[0].at), Order(ds[0].added);
        PrintBalanced(name, doc, ChangeAdded, inArray, d, size > 1);
        AddedBalanced(ds[1..], inArray, length, d, size - 1);
        BalancedConcat(Print(name, doc, ChangeAdded, inArray, d, size > 1),
          AddedOut(ds[1..], inArray, length, d, size - 1).lines, d);
      } else {
        AddedBalanced(ds[1..], inArray, length, d, size);
      }
    }
  }

  lemma {:induction false} NestedBalanced(name: string, v: Json, ds: seq<Delta>, inArray: bool, d: nat, comma: bool)
    requires !v.Leaf?
    ensures Balanced(NestedOut(name, v, ds, inArray, d, comma), d)
    decreases Weight(ds), 4, 0
  {
    hide FieldsOut, ElementsOut, AddedOut, DepthAfter, Worded;
    LinesWorded(name, ChangeNil, inArray, d, comma);
    match v {
      case Object(m) =>
        var walked := FieldsOut(v, SortedKeys(m), ds, d + 1, |m|);
        WalkBalanced(v, SortedKeys(m), ds, d + 1, |m|);
        AddedBalanced(ds, false, 0, d + 1, walked.size);
        BalancedConcat(walked.lines, AddedOut(ds, false, 0, d + 1, walked.size).lines, d + 1);
      case Array(items) =>
        var walked := ElementsOut(items, 0, ds, d + 1, |items|);
        WalkItemsBalanced(items, 0, ds, d + 1, |items|);
        AddedBalanced(ds, true, |items|, d + 1, walked.size);
        BalancedConcat(walked.lines, AddedOut(ds, true, |items|, d + 1, walked.size).lines, d + 1);
    }
    BalancedBracketed(OpenLine(name, if v.Object? then "{" else "[", ChangeNil, inArray, d), BodyOut(v, ds, d + 1),
                      CloseLine(if v.Object? then "}" else "]", ChangeNil, d, comma), d);
  }

  /** Whatever the deltas, brackets balance, every indentation is the nesting depth, and every line says
      the key and the value it records. */
  lemma IndentIsDepth(left: Json, ds: seq<Delta>)
    requires !left.Leaf?
    ensures Balanced(DiffEntries(left, ds), 0)
  {
    NestedBalanced("", left, ds, true, 0, false);
  }
}
