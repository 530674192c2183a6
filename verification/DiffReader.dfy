/** Reading the lines of a diff back by the grammar of JSON: the documents they were printed from. */
module DiffReader {
  import opened Options
  import opened JsonDoc
  import opened JsonText
  import opened DiffLines
  import opened DiffProjection
  import opened DiffSides
  import opened DiffApply
  import opened DiffMeaning
  import opened DiffNumbering

  /** A line with an entry's indentation and text; if not strict, a comma more or less at its end. */
  predicate Bears(l: Line, e: Entry, strict: bool) {
    && l.indent == e.indent
    && (l.text == e.Text() || (!strict && (l.text == e.body || l.text == e.body + ",")))
  }

  predicate BearsAll(lines: seq<Line>, es: seq<Entry>, strict: bool) {
    |lines| == |es| && forall i :: 0 <= i < |es| ==> Bears(lines[i], es[i], strict)
  }

  lemma BearsSplit(lines: seq<Line>, a: seq<Entry>, b: seq<Entry>, strict: bool)
    requires BearsAll(lines, a + b, strict)
    ensures |a| <= |lines| && lines == lines[..|a|] + lines[|a|..]
    ensures BearsAll(lines[..|a|], a, strict) && BearsAll(lines[|a|..], b, strict)
  {
    var es := a + b;
    assert forall i :: 0 <= i < |a| ==> es[i] == a[i];
    forall i | 0 <= i < |b| ensures Bears(lines[|a|..][i], b[i], strict) {
      assert es[|a| + i] == b[i];
    }
  }

  lemma BearsOne(lines: seq<Line>, e: Entry, strict: bool)
    requires BearsAll(lines, [e], strict)
    ensures |lines| == 1 && lines == [lines[0]] && Bears(lines[0], e, strict)
  {
    assert Bears(lines[0], [e][0], strict);
  }

  /** What is left of a text without its comma. */
  lemma Plain(l: Line, e: Entry, strict: bool)
    requires Bears(l, e, strict) && !HasComma(e.body)
    ensures Uncomma(l.text) == e.body && (strict ==> HasComma(l.text) == e.comma)
  {
    var with := e.body + ",";
    assert with[..|with| - 1] == e.body;
  }

  /** The key and the rest of a line of an object, or the whole of a line of an array. */
  lemma Parted(name: string, body: string, inArray: bool)
    requires inArray || LegibleKey(name)
    ensures var text := KeyText(name, inArray) + body;
      if inArray then text == body else SplitKey(text) == Some((name, body)) && text[0] == '"'
    ensures HasComma(KeyText(name, inArray) + body) <==> HasComma(body)
  {
    if inArray {
      assert KeyText(name, inArray) + body == body;
    } else {
      CutAt(name, body);
      Quoting("\"", name, "\": ", body);
      hide Cut, LegibleKey;
      var key := "\"" + name + "\": ";
      assert key[|key| - 1] == ' ';
      CommaBehind(key, body);
    }
  }

  lemma Quoting<T>(q: seq<T>, a: seq<T>, b: seq<T>, c: seq<T>)
    requires |q| == 1
    ensures var text := q + a + b + c; text[0] == q[0] && text[1..] == a + b + c
  {
  }

  lemma CommaBehind(a: string, b: string)
    requires !HasComma(a)
    ensures HasComma(a + b) <==> HasComma(b)
  {
    if b == "" { assert a + b == a; }
  }

  lemma RenderRead(s: Scalar)
    requires LegibleScalar(s)
    ensures ReadScalar(Render(s)) == s && !HasComma(Render(s)) && Render(s) !in ["{", "}", "[", "]"]
  {
    if s.Text? {
      var r := Render(s);
      assert r[0] == '"' && r[|r| - 1] == '"' && r[1..|r| - 1] == s.chars;
    }
  }

  /** The line an opening bracket or a leaf is on. */
  lemma Opens(l: Line, name: string, body: string, e: Entry, inArray: bool, strict: bool)
    requires Bears(l, e, strict) && e.body == KeyText(name, inArray) + body
    requires !HasComma(body) && (inArray || LegibleKey(name))
    ensures var plain := Uncomma(l.text);
      && (strict ==> HasComma(l.text) == e.comma)
      && (if inArray then plain == body else SplitKey(plain) == Some((name, body)) && plain != "}")
  {
    Parted(name, body, inArray);
    Plain(l, e, strict);
  }

  lemma FinishRead(key: string, doc: Doc, l: Line, bracket: string, change: Change, depth: nat, comma: bool,
    strict: bool, rest: seq<Line>)
    requires Bears(l, CloseLine(bracket, change, depth, comma), strict) && !HasComma(bracket)
    ensures var r := Finish(key, doc, bracket, depth, [l] + rest);
      r.Some? && r.value.key == key && r.value.doc == doc && r.value.rest == rest && (strict ==> r.value.comma == comma)
    ensures Uncomma(l.text) == bracket
  {
    Plain(l, CloseLine(bracket, change, depth, comma), strict);
    assert ([l] + rest)[1..] == rest;
  }

  /** What reading one printed value gives. */
  predicate ReadsAs(r: Option<Item>, name: string, d: Doc, inArray: bool, comma: bool, strict: bool, rest: seq<Line>) {
    && r.Some? && r.value.doc == d && r.value.rest == rest
    && r.value.key == (if inArray then "" else name) && (strict ==> r.value.comma == comma)
  }

  /** Reading a bracketed value goes on behind its opening bracket. */
  lemma ItemOpens(l: Line, more: seq<Line>, keyed: bool, depth: nat, strict: bool, key: string)
    requires l.indent == depth && !(strict && HasComma(l.text))
    ensures var split := if keyed then SplitKey(Uncomma(l.text)) else Some(("", Uncomma(l.text)));
      && (split == Some((key, "{")) && ReadMembers(more, depth + 1, strict).Some? ==>
            var inner := ReadMembers(more, depth + 1, strict).value;
            ReadItem([l] + more, keyed, depth, strict)
            == Finish(key, DocObject(inner.entries), "}", depth, inner.rest))
      && (split == Some((key, "[")) && ReadElements(more, depth + 1, strict).Some? ==>
            var inner := ReadElements(more, depth + 1, strict).value;
            ReadItem([l] + more, keyed, depth, strict) == Finish(key, DocArray(inner.entries), "]", depth, inner.rest))
  {
    hide ReadMembers, ReadElements, Finish, SplitKey, Uncomma;
    assert ([l] + more)[0] == l && ([l] + more)[1..] == more;
  }

  lemma OpeningIs(name: string, bracket: string, change: Change, inArray: bool, depth: nat)
    ensures var e := OpenLine(name, bracket, change, inArray, depth);
      e.body == KeyText(name, inArray) + bracket && !e.comma && e.indent == depth
    ensures !HasComma("{") && !HasComma("[") && !HasComma("}") && !HasComma("]")
  {
  }

  lemma LegibleParts(d: Doc)
    requires Legible(d)
    ensures d.DocObject? ==> LegibleFields(d.fields)
    ensures d.DocArray? ==> LegibleElements(d.elements)
    ensures d.DocLeaf? ==> LegibleScalar(d.value)
  {
  }

  lemma PrintParts(name: string, d: Doc, change: Change, inArray: bool, depth: nat, comma: bool)
    ensures d.DocLeaf? ==>
      Print(name, d, change, inArray, depth, comma) == [LeafLine(name, d.value, change, inArray, depth, comma)]
    ensures d.DocObject? ==>
      Print(name, d, change, inArray, depth, comma) ==
      [OpenLine(name, "{", change, inArray, depth)] + PrintFields(d.fields, change, depth + 1)
      + [CloseLine("}", change, depth, comma)]
    ensures d.DocArray? ==>
      Print(name, d, change, inArray, depth, comma) ==
      [OpenLine(name, "[", change, inArray, depth)] + PrintElements(d.elements, change, depth + 1)
      + [CloseLine("]", change, depth, comma)]
  {
  }

  lemma IndentOf(l: Line, e: Entry, strict: bool)
    requires Bears(l, e, strict)
    ensures l.indent == e.indent
  {
  }

  lemma Around<T>(a: seq<T>, first: T, inner: seq<T>, last: T, rest: seq<T>)
    requires a == [first] + inner + [last]
    ensures a + rest == [first] + (inner + ([last] + rest)) && a != [] && a[0] == first
    ensures [last] + rest != [] && ([last] + rest)[0] == last
  {
  }

  lemma ReadsAsIs(r: Option<Item>, name: string, d: Doc, inArray: bool, comma: bool, strict: bool, rest: seq<Line>)
    requires r.Some? && r.value.doc == d && r.value.rest == rest
    requires r.value.key == (if inArray then "" else name) && (strict ==> r.value.comma == comma)
    ensures ReadsAs(r, name, d, inArray, comma, strict, rest)
  {
  }

  /** A printed value is read back, whatever follows it. */
  lemma {:induction false} ReadsItem(lines: seq<Line>, rest: seq<Line>, name: string, d: Doc, change: Change,
    inArray: bool, depth: nat, comma: bool, strict: bool)
    requires Legible(d) && (inArray || LegibleKey(name))
    requires BearsAll(lines, Print(name, d, change, inArray, depth, comma), strict)
    ensures ReadsAs(ReadItem(lines + rest, !inArray, depth, strict), name, d, inArray, comma, strict, rest)
    ensures lines != [] && Uncomma(lines[0].text) != if inArray then "]" else "}"
    decreases d, 0
  {
    hide *;
    PrintParts(name, d, change, inArray, depth, comma);
    LegibleParts(d);
    if d.DocLeaf? {
      ReadsLeaf(lines, rest, name, d.value, change, inArray, depth, comma, strict);
    } else {
      var bracket, end := if d.DocObject? then "{" else "[", if d.DocObject? then "}" else "]";
      var key := if inArray then "" else name;
      var opening, closing := OpenLine(name, bracket, change, inArray, depth), CloseLine(end, change, depth, comma);
      OpeningIs(name, bracket, change, inArray, depth);
      var body := if d.DocObject? then PrintFields(d.fields, change, depth + 1)
        else PrintElements(d.elements, change, depth + 1);
      var inner, l := Apart(lines, opening, body, closing, strict);
      Around(lines, lines[0], inner, l, rest);
      IndentOf(lines[0], opening, strict);
      Opens(lines[0], name, bracket, opening, inArray, strict);
      FinishRead(key, d, l, end, change, depth, comma, strict, rest);
      if d.DocObject? {
        ReadsFields(inner, [l] + rest, d.fields, change, depth + 1, strict);
      } else {
        ReadsElements(inner, [l] + rest, d.elements, change, depth + 1, strict);
      }
      ItemOpens(lines[0], inner + ([l] + rest), !inArray, depth, strict, key);
      ReadsAsIs(ReadItem(lines + rest, !inArray, depth, strict), name, d, inArray, comma, strict, rest);
    }
  }

  lemma ReadsLeaf(lines: seq<Line>, rest: seq<Line>, name: string, s: Scalar, change: Change,
    inArray: bool, depth: nat, comma: bool, strict: bool)
    requires LegibleScalar(s) && (inArray || LegibleKey(name))
    requires BearsAll(lines, [LeafLine(name, s, change, inArray, depth, comma)], strict)
    ensures ReadsAs(ReadItem(lines + rest, !inArray, depth, strict), name, DocLeaf(s), inArray, comma, strict, rest)
    ensures lines != [] && Uncomma(lines[0].text) != if inArray then "]" else "}"
  {
    var e := LeafLine(name, s, change, inArray, depth, comma);
    hide *;
    LeafIs(name, s, change, inArray, depth, comma);
    BearsOne(lines, e, strict);
    RenderRead(s);
    IndentOf(lines[0], e, strict);
    Opens(lines[0], name, Render(s), e, inArray, strict);
    ItemLeaf(lines[0], rest, !inArray, depth, strict, if inArray then "" else name, Render(s));
    ReadsAsIs(ReadItem(lines + rest, !inArray, depth, strict), name, DocLeaf(s), inArray, comma, strict, rest);
  }

  lemma LeafIs(name: string, s: Scalar, change: Change, inArray: bool, depth: nat, comma: bool)
    ensures var e := LeafLine(name, s, change, inArray, depth, comma);
      e.body == KeyText(name, inArray) + Render(s) && e.indent == depth && e.comma == comma
  {
  }

  lemma ItemLeaf(l: Line, rest: seq<Line>, keyed: bool, depth: nat, strict: bool, key: string, body: string)
    requires l.indent == depth && body !in ["{", "}", "[", "]"]
    requires (if keyed then SplitKey(Uncomma(l.text)) else Some(("", Uncomma(l.text)))) == Some((key, body))
    ensures ReadItem([l] + rest, keyed, depth, strict)
         == Some(Item(key, DocLeaf(ReadScalar(body)), HasComma(l.text), rest))
  {
    hide SplitKey, Uncomma, ReadScalar, HasComma;
    assert ([l] + rest)[0] == l && ([l] + rest)[1..] == rest;
  }

  /** The lines of a bracketed value: the first, those between, the last. */
  lemma Apart(lines: seq<Line>, opening: Entry, body: seq<Entry>, closing: Entry, strict: bool)
    returns (inner: seq<Line>, l: Line)
    requires BearsAll(lines, [opening] + body + [closing], strict)
    ensures lines != [] && lines == [lines[0]] + inner + [l]
    ensures Bears(lines[0], opening, strict) && BearsAll(inner, body, strict) && Bears(l, closing, strict)
  {
    BearsSplit(lines, [opening] + body, [closing], strict);
    var front, back := lines[..|body| + 1], lines[|body| + 1..];
    assert |[opening] + body| == |body| + 1;
    BearsOne(back, closing, strict);
    BearsSplit(front, [opening], body, strict);
    BearsOne(front[..1], opening, strict);
    inner, l := front[1..], back[0];
  }

  lemma MembersNext(lines: seq<Line>, depth: nat, strict: bool, first: Item, more: Body<Field>)
    requires lines != [] && Uncomma(lines[0].text) != "}" && ReadItem(lines, true, depth, strict) == Some(first)
    requires ReadMembers(first.rest, depth, strict) == Some(more) && (strict ==> first.comma == (more.entries != []))
    ensures ReadMembers(lines, depth, strict) == Some(Body([Field(first.key, first.doc)] + more.entries, more.rest))
  {
    hide ReadItem, Uncomma;
  }

  lemma ElementsNext(lines: seq<Line>, depth: nat, strict: bool, first: Item, more: Body<Doc>)
    requires lines != [] && Uncomma(lines[0].text) != "]" && ReadItem(lines, false, depth, strict) == Some(first)
    requires ReadElements(first.rest, depth, strict) == Some(more) && (strict ==> first.comma == (more.entries != []))
    ensures ReadElements(lines, depth, strict) == Some(Body([first.doc] + more.entries, more.rest))
  {
    hide ReadItem, Uncomma;
  }

  lemma ReadsAsMeans(r: Option<Item>, name: string, d: Doc, inArray: bool, comma: bool, strict: bool, rest: seq<Line>)
    requires ReadsAs(r, name, d, inArray, comma, strict, rest)
    ensures r.Some? && r.value.doc == d && r.value.rest == rest
    ensures r.value.key == (if inArray then "" else name) && (strict ==> r.value.comma == comma)
  {
  }

  lemma FieldsFirst(fields: seq<Field>, change: Change, depth: nat)
    requires fields != [] && LegibleFields(fields)
    ensures LegibleKey(fields[0].key) && Legible(fields[0].doc) && LegibleFields(fields[1..])
    ensures PrintFields(fields, change, depth)
         == Print(fields[0].key, fields[0].doc, change, false, depth, |fields| > 1)
            + PrintFields(fields[1..], change, depth)
    ensures fields == [fields[0]] + fields[1..] && Field(fields[0].key, fields[0].doc) == fields[0]
  {
  }

  lemma ElementsFirst(elements: seq<Doc>, change: Change, depth: nat)
    requires elements != [] && LegibleElements(elements)
    ensures Legible(elements[0]) && LegibleElements(elements[1..])
    ensures PrintElements(elements, change, depth)
         == Print("", elements[0], change, true, depth, |elements| > 1) + PrintElements(elements[1..], change, depth)
    ensures elements == [elements[0]] + elements[1..]
  {
  }

  lemma NoneLeft(lines: seq<Line>, rest: seq<Line>, change: Change, depth: nat, strict: bool)
    ensures BearsAll(lines, PrintFields([], change, depth), strict) ==> lines + rest == rest
    ensures BearsAll(lines, PrintElements([], change, depth), strict) ==> lines + rest == rest
    ensures rest != [] && Uncomma(rest[0].text) == "}" ==> ReadMembers(rest, depth, strict) == Some(Body([], rest))
    ensures rest != [] && Uncomma(rest[0].text) == "]" ==> ReadElements(rest, depth, strict) == Some(Body([], rest))
  {
  }

  lemma Regrouped(lines: seq<Line>, a: seq<Line>, b: seq<Line>, rest: seq<Line>)
    requires lines == a + b && a != []
    ensures lines + rest == a + (b + rest) && lines + rest != [] && (lines + rest)[0] == a[0]
  {
  }

  lemma {:induction false} ReadsFields(lines: seq<Line>, rest: seq<Line>, fields: seq<Field>, change: Change,
    depth: nat, strict: bool)
    requires LegibleFields(fields) && BearsAll(lines, PrintFields(fields, change, depth), strict)
    requires rest != [] && Uncomma(rest[0].text) == "}"
    ensures ReadMembers(lines + rest, depth, strict) == Some(Body(fields, rest))
    decreases fields, 1
  {
    hide *;
    if fields == [] {
      NoneLeft(lines, rest, change, depth, strict);
    } else {
      var f := fields[0];
      var first := Print(f.key, f.doc, change, false, depth, |fields| > 1);
      FieldsFirst(fields, change, depth);
      BearsSplit(lines, first, PrintFields(fields[1..], change, depth), strict);
      var a, b := lines[..|first|], lines[|first|..];
      ReadsItem(a, b + rest, f.key, f.doc, change, false, depth, |fields| > 1, strict);
      ReadsFields(b, rest, fields[1..], change, depth, strict);
      Regrouped(lines, a, b, rest);
      ReadsAsMeans(ReadItem(lines + rest, true, depth, strict), f.key, f.doc, false, |fields| > 1, strict, b + rest);
      MembersNext(lines + rest, depth, strict, ReadItem(lines + rest, true, depth, strict).value,
        Body(fields[1..], rest));
    }
  }

  lemma {:induction false} ReadsElements(lines: seq<Line>, rest: seq<Line>, elements: seq<Doc>, change: Change,
    depth: nat, strict: bool)
    requires LegibleElements(elements) && BearsAll(lines, PrintElements(elements, change, depth), strict)
    requires rest != [] && Uncomma(rest[0].text) == "]"
    ensures ReadElements(lines + rest, depth, strict) == Some(Body(elements, rest))
    decreases elements, 1
  {
    hide *;
    if elements == [] {
      NoneLeft(lines, rest, change, depth, strict);
    } else {
      var d := elements[0];
      var first := Print("", d, change, true, depth, |elements| > 1);
      ElementsFirst(elements, change, depth);
      BearsSplit(lines, first, PrintElements(elements[1..], change, depth), strict);
      var a, b := lines[..|first|], lines[|first|..];
      ReadsItem(a, b + rest, "", d, change, true, depth, |elements| > 1, strict);
      ReadsElements(b, rest, elements[1..], change, depth, strict);
      Regrouped(lines, a, b, rest);
      ReadsAsMeans(ReadItem(lines + rest, false, depth, strict), "", d, true, |elements| > 1, strict, b + rest);
      ElementsNext(lines + rest, depth, strict, ReadItem(lines + rest, false, depth, strict).value,
        Body(elements[1..], rest));
    }
  }

  /** The lines of a pretty-print determine the document: its keys, its leaves and its order are read
      back from the texts, and if the commas are right they are where they belong. */
  lemma PrintIsRead(lines: seq<Line>, d: Doc, change: Change, strict: bool)
    requires Legible(d) && BearsAll(lines, Print("", d, change, true, 0, false), strict)
    ensures Read(lines, strict) == Some(d)
  {
    ReadsItem(lines, [], "", d, change, true, 0, false, strict);
    assert lines + [] == lines;
  }

  // ---------- as many lines as the document has

  lemma {:induction false} ItemTakes(lines: seq<Line>, keyed: bool, depth: nat, strict: bool)
    requires ReadItem(lines, keyed, depth, strict).Some?
    ensures var r := ReadItem(lines, keyed, depth, strict).value; |lines| == LineCount(r.doc) + |r.rest|
    decreases |lines|, 0
  {
    var plain := Uncomma(lines[0].text);
    var split := if keyed then SplitKey(plain) else Some(("", plain));
    if split.value.1 == "{" {
      MembersTake(lines[1..], depth + 1, strict);
    } else if split.value.1 == "[" {
      ElementsTake(lines[1..], depth + 1, strict);
    }
  }

  lemma {:induction false} MembersTake(lines: seq<Line>, depth: nat, strict: bool)
    requires ReadMembers(lines, depth, strict).Some?
    ensures var r := ReadMembers(lines, depth, strict).value; |lines| == FieldLines(r.entries) + |r.rest|
    decreases |lines|, 1
  {
    if Uncomma(lines[0].text) != "}" {
      ItemTakes(lines, true, depth, strict);
      var first := ReadItem(lines, true, depth, strict).value;
      MembersTake(first.rest, depth, strict);
      var r, more := ReadMembers(lines, depth, strict).value, ReadMembers(first.rest, depth, strict).value;
      assert r.entries[0] == Field(first.key, first.doc) && r.entries[1..] == more.entries;
    }
  }

  lemma {:induction false} ElementsTake(lines: seq<Line>, depth: nat, strict: bool)
    requires ReadElements(lines, depth, strict).Some?
    ensures var r := ReadElements(lines, depth, strict).value; |lines| == ElementLines(r.entries) + |r.rest|
    decreases |lines|, 1
  {
    if Uncomma(lines[0].text) != "]" {
      ItemTakes(lines, false, depth, strict);
      var first := ReadItem(lines, false, depth, strict).value;
      ElementsTake(first.rest, depth, strict);
      var r, more := ReadElements(lines, depth, strict).value, ReadElements(first.rest, depth, strict).value;
      assert r.entries[0] == first.doc && r.entries[1..] == more.entries;
    }
  }

  lemma ReadTakes(lines: seq<Line>, strict: bool)
    requires Read(lines, strict).Some?
    ensures |lines| == LineCount(Read(lines, strict).value)
  {
    ItemTakes(lines, false, 0, strict);
  }

  // ---------- the two documents of a diff

  /** What a reader sees of the lines with a number in one column. */
  function TextsOf(picked: seq<JsonLine>): (lines: seq<Line>)
    ensures |lines| == |picked|
    ensures forall i :: 0 <= i < |picked| ==> lines[i] == Line(picked[i].indent, picked[i].text)
  {
    seq(|picked|, i requires 0 <= i < |picked| => Line(picked[i].indent, picked[i].text))
  }

  function SideTexts(es: seq<Entry>, side: Side): seq<Line> {
    TextsOf(Pick(NumberAll(es), side))
  }

  /** For deltas that tell the truth about the left document, the lines with a left number are read
      as that document, every comma where it belongs, if and only if every entry with a delta is
      covered. */
  lemma LeftIsRead(left: Json, ds: seq<Delta>, strict: bool)
    requires !left.Leaf? && Agrees(left, ds) && Legible(Order(left))
    ensures Read(SideTexts(DiffEntries(left, ds), Left), strict) == Some(Order(left)) <==> Covers(left, ds)
    ensures Meaning(Order(left)) == left
  {
    hide *;
    var es, plain := DiffEntries(left, ds), Print("", Order(left), ChangeNil, true, 0, false);
    MeaningOfOrder(left);
    ReadBackLeft(left, ds);
    if Covers(left, ds) {
      ReadsBears(es, plain, Left, strict);
      PrintIsRead(SideTexts(es, Left), Order(left), ChangeNil, strict);
    } else {
      LeftIsShort(left, ds);
      if Read(SideTexts(es, Left), strict) == Some(Order(left)) {
        ReadTakes(SideTexts(es, Left), strict);
      }
    }
  }

  lemma LeftIsShort(left: Json, ds: seq<Delta>)
    requires !left.Leaf? && Agrees(left, ds) && !Covers(left, ds)
    ensures |SideTexts(DiffEntries(left, ds), Left)| < LineCount(Order(left))
  {
    PickProjects(DiffEntries(left, ds), Left);
    NestedShort("", left, ds, true, 0, false);
  }

  lemma ReadsBears(es: seq<Entry>, plain: seq<Entry>, side: Side, strict: bool)
    requires Reads(Pick(NumberAll(es), side), plain, side)
    ensures BearsAll(SideTexts(es, side), plain, strict)
  {
  }

  /** For all deltas, the lines with a number in one column are read as the document the walk makes for
      that side, commas aside. */
  lemma SideIsRead(left: Json, ds: seq<Delta>, side: Side)
    requires !left.Leaf? && Legible(Printed(left, ds, side))
    ensures Read(SideTexts(DiffEntries(left, ds), side), false) == Some(Printed(left, ds, side))
  {
    var es, plain := DiffEntries(left, ds), Print("", Printed(left, ds, side), ChangeNil, true, 0, false);
    ReadBackSide(left, ds, side);
    hide *;
    SideBears(left, ds, side);
    PrintIsRead(SideTexts(es, side), Printed(left, ds, side), ChangeNil, false);
  }

  lemma SideBears(left: Json, ds: seq<Delta>, side: Side)
    requires !left.Leaf?
    ensures BearsAll(SideTexts(DiffEntries(left, ds), side),
              Print("", Printed(left, ds, side), ChangeNil, true, 0, false), false)
  {
    ReadBackSide(left, ds, side);
  }

  /** Where the formatter and the library agree, the lines with a right number are read as the document
      the library makes. */
  lemma RightIsRead(left: Json, ds: seq<Delta>)
    requires !left.Leaf? && Agreed(left, ds) && Legible(Printed(left, ds, Right))
    ensures var read := Read(SideTexts(DiffEntries(left, ds), Right), false);
      read.Some? && Meaning(read.value) == ApplyDeltas(left, ds)
  {
    SideIsRead(left, ds, Right);
    PatchedMeaning(left, ds);
  }

  /** Why keys have to be legible: a key with a quote, colon and space in it, and a string with them,
      print the same line. */
  lemma KeyLooksLikeValue(x: string, y: string, z: string, change: Change, depth: nat, comma: bool)
    requires LegibleKey(x)
    ensures var key, s := x + "\": " + ("\"" + y), Text(y + "\": \"" + z);
      && !LegibleKey(key) && LegibleScalar(s)
      && LeafLine(key, Text(z), change, false, depth, comma).Text()
         == LeafLine(x, s, change, false, depth, comma).Text()
  {
    CutAt(x, "\"" + y);
    hide Cut;
    assert "\": " + "\"" == "\": \"";
    Shuffled("\"", x, "\": ", y, z);
  }

  lemma Shuffled<T>(q: seq<T>, x: seq<T>, s: seq<T>, y: seq<T>, z: seq<T>)
    ensures q + (x + s + (q + y)) + s + (q + z + q) == q + x + s + (q + (y + (s + q) + z) + q)
  {
  }
}
