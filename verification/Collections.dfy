/** Elements that witness a fact about whole sets and maps, and small facts about sequences. */
module Collections {

  /** Some element of a non-empty set, as a range over a map yields one. */
  method Pick<T>(s: set<T>) returns (x: T)
    requires s != {}
    ensures x in s
  {
    x :| x in s;
  }

  /** A key on which two different maps disagree. */
  lemma MapsDiffer<K, V>(a: map<K, V>, b: map<K, V>) returns (k: K)
    requires a != b
    ensures k in a || k in b
    ensures !(k in a && k in b && a[k] == b[k])
  {
    if a.Keys != b.Keys {
      if x :| x in a && x !in b {
        k := x;
      } else {
        k :| k in b && k !in a;
      }
    } else {
      k :| k in a && a[k] != b[k];
    }
  }

  function Last<T>(s: seq<T>): T
    requires s != []
  {
    s[|s| - 1]
  }

  lemma Regroup<T>(a: seq<T>, b: seq<T>, c: seq<T>)
    ensures (a + b) + c == a + (b + c)
  {
  }
}
