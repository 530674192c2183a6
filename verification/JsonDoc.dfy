/** JSON documents, and the same documents with the entries of every object listed in a
    definite order, which is what a printer walks over. */
module JsonDoc {
  import opened Sorting

  /** Leaves. Go prints anything that is neither a string nor nil through %#v; that
      rendering is kept opaque as `goSyntax`. */
  datatype Scalar = Text(chars: string) | Null | Other(goSyntax: string)

  datatype Json =
    | Object(members: map<string, Json>)
    | Array(items: seq<Json>)
    | Leaf(scalar: Scalar)

  datatype Doc =
    | DocObject(fields: seq<Field>)
    | DocArray(elements: seq<Doc>)
    | DocLeaf(value: Scalar)

  datatype Field = Field(key: string, doc: Doc)

  /** sortKeys: the keys of a map in byte order. */
  ghost function SortedKeys(m: map<string, Json>): (keys: seq<string>)
    ensures |keys| == |m| && forall k :: k in keys ==> k in m
  {
    StringOrderTotal();
    SortOf(m.Keys, StringLess)
  }

  lemma SortedKeysComplete(m: map<string, Json>)
    ensures forall k :: k in SortedKeys(m) <==> k in m
    ensures Ascending(SortedKeys(m), StringLess)
  {
    StringOrderTotal();
  }

  /** The document with every object's entries in key order. */
  ghost function Order(v: Json): Doc
    decreases v, 1
  {
    match v
    case Object(m) => DocObject(OrderFields(v, SortedKeys(m)))
    case Array(items) => DocArray(OrderItems(items))
    case Leaf(s) => DocLeaf(s)
  }

  ghost function OrderFields(v: Json, keys: seq<string>): (fields: seq<Field>)
    requires v.Object? && forall k :: k in keys ==> k in v.members
    ensures |fields| == |keys|
    decreases v, 0, |keys|
  {
    if keys == [] then []
    else [Field(keys[0], Order(v.members[keys[0]]))] + OrderFields(v, keys[1..])
  }

  ghost function OrderItems(items: seq<Json>): (docs: seq<Doc>)
    ensures |docs| == |items|
    decreases items, 0
  {
    if items == [] then [] else [Order(items[0])] + OrderItems(items[1..])
  }

  /** The unordered document an ordered one stands for; a later entry for a key wins. */
  ghost function Meaning(d: Doc): Json
    decreases d, 0
  {
    match d
    case DocObject(fields) => Object(FieldsMeaning(fields))
    case DocArray(elements) => Array(ElementsMeaning(elements))
    case DocLeaf(s) => Leaf(s)
  }

  ghost function FieldsMeaning(fields: seq<Field>): map<string, Json>
    decreases fields, 1
  {
    if fields == [] then map[]
    else map[fields[0].key := Meaning(fields[0].doc)] + FieldsMeaning(fields[1..])
  }

  ghost function ElementsMeaning(elements: seq<Doc>): seq<Json>
    decreases elements, 1
  {
    if elements == [] then [] else [Meaning(elements[0])] + ElementsMeaning(elements[1..])
  }

  lemma MapPlusAssociative<K, V>(a: map<K, V>, b: map<K, V>, c: map<K, V>)
    ensures (a + b) + c == a + (b + c)
  {
  }

  lemma {:induction false} FieldsMeaningConcat(f: seq<Field>, g: seq<Field>)
    ensures FieldsMeaning(f + g) == FieldsMeaning(f) + FieldsMeaning(g)
    decreases |f|
  {
    if f == [] {
      assert f + g == g;
    } else {
      assert (f + g)[0] == f[0] && (f + g)[1..] == f[1..] + g;
      FieldsMeaningConcat(f[1..], g);
      var head := map[f[0].key := Meaning(f[0].doc)];
      MapPlusAssociative(head, FieldsMeaning(f[1..]), FieldsMeaning(g));
    }
  }

  lemma {:induction false} ElementsMeaningConcat(f: seq<Doc>, g: seq<Doc>)
    ensures ElementsMeaning(f + g) == ElementsMeaning(f) + ElementsMeaning(g)
    decreases |f|
  {
    if f == [] {
      assert f + g == g;
    } else {
      assert (f + g)[0] == f[0] && (f + g)[1..] == f[1..] + g;
      ElementsMeaningConcat(f[1..], g);
    }
  }

  /** Ordering a document loses nothing. */
  lemma {:induction false} MeaningOfOrder(v: Json)
    ensures Meaning(Order(v)) == v
    decreases v, 1
  {
    match v
    case Object(m) =>
      MeaningOfOrderedFields(v, SortedKeys(m));
    case Array(items) =>
      MeaningOfOrderedItems(items);
    case Leaf(_) =>
  }

  lemma {:induction false} MeaningOfOrderedFields(v: Json, keys: seq<string>)
    requires v.Object? && forall k :: k in keys ==> k in v.members
    ensures FieldsMeaning(OrderFields(v, keys)) == map k | k in keys :: v.members[k]
    decreases v, 0, |keys|
  {
    if keys != [] {
      MeaningOfOrder(v.members[keys[0]]);
      MeaningOfOrderedFields(v, keys[1..]);
      var f := OrderFields(v, keys);
      assert f[0] == Field(keys[0], Order(v.members[keys[0]])) && f[1..] == OrderFields(v, keys[1..]);
      assert forall k :: k in keys <==> k == keys[0] || k in keys[1..];
    }
  }

  lemma {:induction false} MeaningOfOrderedItems(items: seq<Json>)
    ensures ElementsMeaning(OrderItems(items)) == items
    decreases items, 0
  {
    if items != [] {
      MeaningOfOrder(items[0]);
      MeaningOfOrderedItems(items[1..]);
      var d := OrderItems(items);
      assert d[0] == Order(items[0]) && d[1..] == OrderItems(items[1..]);
    }
  }
}
