/** The grammar of pretty-printed JSON, one leaf or bracket to a line, read from the texts and the
    indentation alone. */
module JsonText {
  import opened Options
  import opened JsonDoc

  datatype Line = Line(indent: nat, text: string)

  // ---------- one line

  /** The text before the first quote, colon and space, and the text behind it. */
  function Cut(s: string): (parts: Option<(string, string)>)
    ensures parts.Some? ==> s == parts.value.0 + "\": " + parts.value.1
  {
    if |s| < 3 then None
    else if s[..3] == "\": " then Some(("", s[3..]))
    else
      var parts := Cut(s[1..]);
      if parts.None? then None else Some(([s[0]] + parts.value.0, parts.value.1))
  }

  /** A key in quotes, a colon, a space, and the rest of the line. */
  function SplitKey(text: string): Option<(string, string)> {
    if text == "" || text[0] != '"' then None else Cut(text[1..])
  }

  predicate HasComma(text: string) {
    text != "" && text[|text| - 1] == ','
  }

  function Uncomma(text: string): string {
    if HasComma(text) then text[..|text| - 1] else text
  }

  predicate Quoted(s: string) {
    |s| >= 2 && s[0] == '"' && s[|s| - 1] == '"'
  }

  function ReadScalar(s: string): Scalar {
    if Quoted(s) then Text(s[1..|s| - 1]) else if s == "null" then Null else Other(s)
  }

  // ---------- values

  datatype Item = Item(key: string, doc: Doc, comma: bool, rest: seq<Line>)

  datatype Body<T> = Body(entries: seq<T>, rest: seq<Line>)

  /** One value, on a line with a key if it is a member of an object. If strict, a comma stands behind
      every entry of a container but the last; otherwise a comma may stand at the end of any line or be
      missing there. */
  function ReadItem(lines: seq<Line>, keyed: bool, depth: nat, strict: bool): (r: Option<Item>)
    ensures r.Some? ==> |r.value.rest| < |lines|
    decreases |lines|, 0
  {
    if lines == [] || lines[0].indent != depth then None
    else
      var plain, comma := Uncomma(lines[0].text), HasComma(lines[0].text);
      var split := if keyed then SplitKey(plain) else Some(("", plain));
      if split.None? then None
      else if split.value.1 == "{" then
        var inner := ReadMembers(lines[1..], depth + 1, strict);
        if inner.None? || (strict && comma) then None
        else Finish(split.value.0, DocObject(inner.value.entries), "}", depth, inner.value.rest)
      else if split.value.1 == "[" then
        var inner := ReadElements(lines[1..], depth + 1, strict);
        if inner.None? || (strict && comma) then None
        else Finish(split.value.0, DocArray(inner.value.entries), "]", depth, inner.value.rest)
      else Some(Item(split.value.0, DocLeaf(ReadScalar(split.value.1)), comma, lines[1..]))
  }

  /** The line that closes a bracket. */
  function Finish(key: string, doc: Doc, bracket: string, depth: nat, lines: seq<Line>): (r: Option<Item>)
    ensures r.Some? ==> |r.value.rest| < |lines|
  {
    if lines == [] || lines[0].indent != depth || Uncomma(lines[0].text) != bracket then None
    else Some(Item(key, doc, HasComma(lines[0].text), lines[1..]))
  }

  function ReadMembers(lines: seq<Line>, depth: nat, strict: bool): (r: Option<Body<Field>>)
    ensures r.Some? ==> |r.value.rest| <= |lines|
    decreases |lines|, 1
  {
    if lines == [] then None
    else if Uncomma(lines[0].text) == "}" then Some(Body([], lines))
    else
      var first := ReadItem(lines, true, depth, strict);
      if first.None? then None
      else
        var more := ReadMembers(first.value.rest, depth, strict);
        if more.None? || (strict && first.value.comma != (more.value.entries != [])) then None
        else Some(Body([Field(first.value.key, first.value.doc)] + more.value.entries, more.value.rest))
  }

  function ReadElements(lines: seq<Line>, depth: nat, strict: bool): (r: Option<Body<Doc>>)
    ensures r.Some? ==> |r.value.rest| <= |lines|
    decreases |lines|, 1
  {
    if lines == [] then None
    else if Uncomma(lines[0].text) == "]" then Some(Body([], lines))
    else
      var first := ReadItem(lines, false, depth, strict);
      if first.None? then None
      else
        var more := ReadElements(first.value.rest, depth, strict);
        if more.None? || (strict && first.value.comma != (more.value.entries != [])) then None
        else Some(Body([first.value.doc] + more.value.entries, more.value.rest))
  }

  /** A whole document. */
  function Read(lines: seq<Line>, strict: bool): Option<Doc> {
    var r := ReadItem(lines, false, 0, strict);
    if r.None? || r.value.rest != [] || (strict && r.value.comma) then None else Some(r.value.doc)
  }

  // ---------- what the grammar can tell apart

  /** Keys without a quote, colon and space in a row; strings of any characters; and other leaves
      rendered as neither a string, null nor a bracket, and not with a comma at the end. */
  predicate Legible(d: Doc)
    decreases d, 0
  {
    match d
    case DocLeaf(s) => LegibleScalar(s)
    case DocObject(fields) => LegibleFields(fields)
    case DocArray(elements) => LegibleElements(elements)
  }

  predicate LegibleFields(fields: seq<Field>)
    decreases fields, 1
  {
    fields == [] || (LegibleKey(fields[0].key) && Legible(fields[0].doc) && LegibleFields(fields[1..]))
  }

  predicate LegibleElements(elements: seq<Doc>)
    decreases elements, 1
  {
    elements == [] || (Legible(elements[0]) && LegibleElements(elements[1..]))
  }

  predicate LegibleKey(key: string) {
    Cut(key).None?
  }

  predicate LegibleScalar(s: Scalar) {
    s.Other? ==> !Quoted(s.goSyntax) && !HasComma(s.goSyntax) && s.goSyntax !in ["null", "{", "}", "[", "]"]
  }

  /** The key of a line is read whole. */
  lemma {:induction false} CutAt(key: string, more: string)
    requires LegibleKey(key)
    ensures Cut(key + "\": " + more) == Some((key, more))
  {
    var s := key + "\": " + more;
    if key == "" {
      assert s[..3] == "\": " && s[3..] == more;
    } else {
      assert s[1..] == key[1..] + "\": " + more;
      if |key| < 3 {
        assert s[2] == '"' || s[1] == '"';
        assert Cut(key[1..]).None?;
      } else {
        assert s[..3] == key[..3];
      }
      CutAt(key[1..], more);
      assert [s[0]] + key[1..] == key;
    }
  }
}
