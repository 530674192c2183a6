/** Reading tags from strings and writing them back. */
module Tags {

  datatype Tag = Tag(key: string, value: string)

  // ---------- strings

  /** The position of the first colon, or the length. */
  function Colon(s: string): (r: nat)
    ensures r <= |s| && ':' !in s[..r] && (r < |s| ==> s[r] == ':')
  {
    if s == "" || s[0] == ':' then 0 else
      var r := 1 + Colon(s[1..]);
      assert s[..r] == [s[0]] + s[1..][..r - 1];
      r
  }

  /** The parts between the colons. */
  function Split(s: string): (parts: seq<string>)
    ensures parts != [] && forall i :: 0 <= i < |parts| ==> ':' !in parts[i]
    ensures |parts| > 1 <==> ':' in s
    ensures parts[0] == s[..Colon(s)]
    ensures |parts| > 1 ==> var rest := s[Colon(s) + 1..]; parts[1] == rest[..Colon(rest)]
    decreases |s|
  {
    var c := Colon(s);
    if c == |s| then
      assert s[..c] == s;
      [s]
    else [s[..c]] + Split(s[c + 1..])
  }

  function TrimLeft(s: string): string {
    if s != "" && s[0] == ' ' then TrimLeft(s[1..]) else s
  }

  function TrimRight(s: string): string {
    if s != "" && s[|s| - 1] == ' ' then TrimRight(s[..|s| - 1]) else s
  }

  function Trim(s: string): string {
    TrimRight(TrimLeft(s))
  }

  predicate Trimmed(s: string) {
    s == "" || (s[0] != ' ' && s[|s| - 1] != ' ')
  }

  predicate Blank(s: string) {
    forall i :: 0 <= i < |s| ==> s[i] == ' '
  }

  lemma {:induction false} TrimLeftSplits(s: string) returns (k: nat)
    ensures k <= |s| && Blank(s[..k]) && TrimLeft(s) == s[k..]
    ensures k < |s| ==> s[k] != ' '
  {
    if s != "" && s[0] == ' ' {
      k := TrimLeftSplits(s[1..]);
      assert s[..k + 1] == [' '] + s[1..][..k];
      assert s[1..][k..] == s[k + 1..];
      k := k + 1;
    } else {
      k := 0;
    }
  }

  lemma {:induction false} TrimRightSplits(s: string) returns (k: nat)
    ensures k <= |s| && Blank(s[k..]) && TrimRight(s) == s[..k]
    ensures k > 0 ==> s[k - 1] != ' '
  {
    if s != "" && s[|s| - 1] == ' ' {
      var front := s[..|s| - 1];
      k := TrimRightSplits(front);
      assert s[k..] == front[k..] + [' '];
      assert front[..k] == s[..k];
    } else {
      k := |s|;
    }
  }

  /** Trimming takes blanks off both ends and nothing else. */
  lemma TrimSplits(s: string) returns (i: nat, j: nat)
    ensures i <= j <= |s| && Trim(s) == s[i..j] && Trimmed(Trim(s))
    ensures Blank(s[..i]) && Blank(s[j..])
  {
    i := TrimLeftSplits(s);
    var left := s[i..];
    var k := TrimRightSplits(left);
    j := i + k;
    assert left[..k] == s[i..j] && left[k..] == s[j..];
  }

  lemma TrimTrimmed(s: string)
    requires Trimmed(s)
    ensures Trim(s) == s
  {
  }

  // ---------- tags

  function ParseTag(pair: string): Tag {
    if ':' in pair then Tag(Trim(Split(pair)[0]), Trim(Split(pair)[1])) else Tag(Trim(pair), "")
  }

  function Parsed(pairs: seq<string>): seq<Tag> {
    if pairs == [] then []
    else
      var front, tag := Parsed(pairs[..|pairs| - 1]), ParseTag(pairs[|pairs| - 1]);
      if tag.key == "" || tag in front then front else front + [tag]
  }

  function JoinTag(tag: Tag): string {
    if tag.value != "" then tag.key + ":" + tag.value else tag.key
  }

  function Joined(tags: seq<Tag>): seq<string> {
    if tags == [] then [] else Joined(tags[..|tags| - 1]) + [JoinTag(tags[|tags| - 1])]
  }

  predicate Clean(s: string) {
    Trimmed(s) && ':' !in s
  }

  predicate NormalTag(tag: Tag) {
    tag.key != "" && Clean(tag.key) && Clean(tag.value)
  }

  /** Trimmed, non-empty keys, no colons, no tag twice. */
  predicate Normal(tags: seq<Tag>) {
    && (forall i :: 0 <= i < |tags| ==> NormalTag(tags[i]))
    && (forall i, j :: 0 <= i < j < |tags| ==> tags[i] != tags[j])
  }

  lemma CleanTrim(s: string)
    requires ':' !in s
    ensures Clean(Trim(s))
  {
    var i, j := TrimSplits(s);
  }

  lemma ParseTagClean(pair: string)
    ensures Clean(ParseTag(pair).key) && Clean(ParseTag(pair).value)
  {
    if ':' in pair {
      CleanTrim(Split(pair)[0]);
      CleanTrim(Split(pair)[1]);
    } else {
      CleanTrim(pair);
    }
  }

  lemma {:induction false} ParsedNormal(pairs: seq<string>)
    ensures Normal(Parsed(pairs))
  {
    if pairs != [] {
      ParsedNormal(pairs[..|pairs| - 1]);
      ParseTagClean(pairs[|pairs| - 1]);
    }
  }

  /** What is parsed: the tag of every string whose key is not empty. */
  lemma {:induction false} ParsedExactly(pairs: seq<string>, tag: Tag)
    ensures tag in Parsed(pairs) <==> tag.key != "" && exists i :: 0 <= i < |pairs| && ParseTag(pairs[i]) == tag
  {
    if pairs != [] {
      var n := |pairs| - 1;
      ParsedExactly(pairs[..n], tag);
      if i :| 0 <= i < |pairs| && ParseTag(pairs[i]) == tag && tag.key != "" {
        if i < n { assert pairs[..n][i] == pairs[i]; }
      }
    }
  }

  /** The tags come in the order of the first strings they are parsed from. */
  lemma {:induction false} ParsedInOrder(pairs: seq<string>, i: nat, j: nat, q: nat)
    requires i < j < |Parsed(pairs)| && q < |pairs| && ParseTag(pairs[q]) == Parsed(pairs)[j]
    ensures exists p :: 0 <= p < q && ParseTag(pairs[p]) == Parsed(pairs)[i]
    decreases |pairs|
  {
    var n := |pairs| - 1;
    var before, front, tag := pairs[..n], Parsed(pairs[..n]), ParseTag(pairs[n]);
    assert forall p :: 0 <= p < n ==> before[p] == pairs[p];
    hide ParseTag;
    if q < n && j < |front| {
      ParsedInOrder(before, i, j, q);
      var p :| 0 <= p < q && ParseTag(before[p]) == front[i];
      assert ParseTag(pairs[p]) == Parsed(pairs)[i];
    } else {
      ParsedExactly(before, tag);
      assert forall k :: 0 <= k < n ==> ParseTag(before[k]) == ParseTag(pairs[k]);
      assert q == n;
      assert front[i] in front;
      ParsedExactly(before, front[i]);
      var p :| 0 <= p < |before| && ParseTag(before[p]) == front[i];
      assert ParseTag(pairs[p]) == Parsed(pairs)[i];
    }
  }

  /** A text with nothing but blanks before and after it. */
  ghost predicate Within(whole: string, part: string) {
    && Trimmed(part)
    && exists i, j :: 0 <= i <= j <= |whole| && part == whole[i..j] && Blank(whole[..i]) && Blank(whole[j..])
  }

  /** The text from a colon to the next one, or to the end. */
  predicate UpToColon(s: string, from: nat, to: nat) {
    from <= to <= |s| && ':' !in s[from..to] && (to == |s| || s[to] == ':')
  }

  ghost predicate KeyAndValue(pair: string, c: nat, e: nat, tag: Tag) {
    && c < |pair| && pair[c] == ':' && UpToColon(pair, 0, c) && UpToColon(pair, c + 1, e)
    && Within(pair[..c], tag.key) && Within(pair[c + 1..e], tag.value)
  }

  /** What one string says: its key is the text before the first colon and its value that between the
      first and the second, without the blanks around them. */
  lemma ParseTagExactly(pair: string)
    ensures var tag := ParseTag(pair);
      if ':' !in pair then Within(pair, tag.key) && tag.value == ""
      else exists c, e :: KeyAndValue(pair, c, e, tag)
  {
    if ':' in pair {
      var c, e := ParseParts(pair);
    } else {
      TrimWithin(pair);
    }
  }

  lemma ParseParts(pair: string) returns (c: nat, e: nat)
    requires ':' in pair
    ensures KeyAndValue(pair, c, e, ParseTag(pair))
  {
    hide *;
    c := Colon(pair);
    var rest := pair[c + 1..];
    e := c + 1 + Colon(rest);
    SplitTwo(pair);
    ColonAt(pair);
    ColonAt(rest);
    TrimWithin(pair[..c]);
    TrimWithin(rest[..e - c - 1]);
    ParsedKeyed(pair);
    KeyAndValueIs(pair, c, e, ParseTag(pair));
  }

  lemma ColonAt(s: string)
    ensures Colon(s) <= |s| && ':' !in s[..Colon(s)] && (Colon(s) < |s| ==> s[Colon(s)] == ':')
  {
  }

  lemma ParsedKeyed(pair: string)
    requires ':' in pair
    ensures |Split(pair)| > 1 && ParseTag(pair) == Tag(Trim(Split(pair)[0]), Trim(Split(pair)[1]))
  {
  }

  lemma KeyAndValueIs(pair: string, c: nat, e: nat, tag: Tag)
    requires c < e <= |pair| && pair[c] == ':' && ':' !in pair[..c] && ':' !in pair[c + 1..][..e - c - 1]
    requires e < |pair| ==> pair[c + 1..][e - c - 1] == ':'
    requires Within(pair[..c], tag.key) && Within(pair[c + 1..][..e - c - 1], tag.value)
    ensures KeyAndValue(pair, c, e, tag)
  {
    hide Within;
    assert pair[0..c] == pair[..c] && pair[c + 1..e] == pair[c + 1..][..e - c - 1];
  }

  lemma TrimWithin(s: string)
    ensures Within(s, Trim(s))
  {
    var i, j := TrimSplits(s);
  }

  lemma SplitTwo(s: string)
    requires ':' in s
    ensures var c := Colon(s);
      c < |s| && |Split(s)| >= 2 && Split(s)[0] == s[..c] && Split(s)[1] == s[c + 1..][..Colon(s[c + 1..])]
  {
    hide Split, Colon;
    assert s[..|s|] == s;
  }

  lemma FirstColon(s: string, k: nat)
    requires k < |s| && s[k] == ':' && forall i :: 0 <= i < k ==> s[i] != ':'
    ensures Colon(s) == k
  {
    var before := s[..Colon(s)];
    assert forall i :: 0 <= i < |before| ==> before[i] == s[i] && before[i] in before;
  }

  lemma SplitJoined(a: string, b: string)
    requires ':' !in a && ':' !in b
    ensures Split(a + ":" + b) == [a, b]
  {
    var s := a + ":" + b;
    assert s[|a|] == ':';
    var c := Colon(s);
    FirstColon(s, |a|);
    assert s[..c] == a && s[c + 1..] == b;
    assert Split(b) == [b] by {
      assert Colon(b) == |b|;
    }
  }

  lemma ParseJoinTag(tag: Tag)
    requires NormalTag(tag)
    ensures ParseTag(JoinTag(tag)) == tag
  {
    TrimTrimmed(tag.key);
    TrimTrimmed(tag.value);
    if tag.value != "" {
      SplitJoined(tag.key, tag.value);
      assert JoinTag(tag)[|tag.key|] == ':';
    }
  }

  lemma {:induction false} ParseJoin(tags: seq<Tag>)
    requires Normal(tags)
    ensures Parsed(Joined(tags)) == tags
  {
    if tags != [] {
      var n := |tags| - 1;
      NormalFront(tags);
      ParseJoin(tags[..n]);
      ParseJoinTag(tags[n]);
      ParsedMore(Joined(tags[..n]), JoinTag(tags[n]));
      hide Normal, NormalTag, ParseTag, JoinTag, Parsed;
      assert tags == tags[..n] + [tags[n]];
    }
  }

  lemma ParsedMore(pairs: seq<string>, pair: string)
    ensures var front, tag := Parsed(pairs), ParseTag(pair);
      Parsed(pairs + [pair]) == if tag.key == "" || tag in front then front else front + [tag]
  {
    assert (pairs + [pair])[..|pairs|] == pairs;
  }

  lemma NormalFront(tags: seq<Tag>)
    requires Normal(tags) && tags != []
    ensures var n := |tags| - 1; Normal(tags[..n]) && NormalTag(tags[n]) && tags[n].key != "" && tags[n] !in tags[..n]
  {
  }

  /** Tags come back from their strings exactly when they are normal. */
  lemma RoundTripExactly(tags: seq<Tag>)
    ensures Parsed(Joined(tags)) == tags <==> Normal(tags)
  {
    if Normal(tags) { ParseJoin(tags); }
    ParsedNormal(Joined(tags));
  }

  /** Parsing again what was parsed and joined changes nothing. */
  lemma ParseAgain(pairs: seq<string>)
    ensures Parsed(Joined(Parsed(pairs))) == Parsed(pairs)
  {
    ParsedNormal(pairs);
    ParseJoin(Parsed(pairs));
  }

  // ---------- the program

  method ContainsTag(existingTags: seq<Tag>, tag: Tag) returns (found: bool)
    ensures found <==> tag in existingTags
  {
    for i := 0 to |existingTags|
      invariant tag !in existingTags[..i]
    {
      if existingTags[i].key == tag.key && existingTags[i].value == tag.value {
        return true;
      }
    }
    return false;
  }

  method ParseTagPairs(tagPairs: seq<string>) returns (tags: seq<Tag>)
    ensures tags == Parsed(tagPairs) && Normal(tags)
  {
    tags := [];
    for i := 0 to |tagPairs|
      invariant tags == Parsed(tagPairs[..i])
    {
      assert tagPairs[..i + 1][..i] == tagPairs[..i];
      hide Trim, Split;
      var tagPair := tagPairs[i];
      var key, value := "", "";
      if ':' in tagPair {
        var keyValue := Split(tagPair);
        key := Trim(keyValue[0]);
        value := Trim(keyValue[1]);
      } else {
        key := Trim(tagPair);
      }
      if key == "" {
        continue;
      }
      var found := ContainsTag(tags, Tag(key, value));
      if found {
        continue;
      }
      tags := tags + [Tag(key, value)];
    }
    assert tagPairs[..|tagPairs|] == tagPairs;
    ParsedNormal(tagPairs);
  }

  method JoinTagPairs(tags: seq<Tag>) returns (tagPairs: seq<string>)
    ensures tagPairs == Joined(tags)
    ensures |tagPairs| == |tags| && forall i :: 0 <= i < |tags| ==>
      tagPairs[i] == tags[i].key + if tags[i].value == "" then "" else ":" + tags[i].value
    ensures Normal(tags) ==> Parsed(tagPairs) == tags
  {
    tagPairs := [];
    for i := 0 to |tags|
      invariant tagPairs == Joined(tags[..i]) && |tagPairs| == i
      invariant forall k :: 0 <= k < i ==>
        tagPairs[k] == tags[k].key + if tags[k].value == "" then "" else ":" + tags[k].value
    {
      assert tags[..i + 1][..i] == tags[..i];
      if tags[i].value != "" {
        tagPairs := tagPairs + [tags[i].key + ":" + tags[i].value];
      } else {
        tagPairs := tagPairs + [tags[i].key];
      }
    }
    assert tags[..|tags|] == tags;
    RoundTripExactly(tags);
  }
}
