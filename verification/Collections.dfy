/**
  What several modules say about values and sequences.
 */
module Collections {

  datatype Option<T> = None | Some(value: T)

  predicate NoDuplicates<T(==)>(s: seq<T>) {
    forall i, j :: 0 <= i < j < |s| ==> s[i] != s[j]
  }

  function Elements<T(==)>(s: seq<T>): set<T> {
    set x | x in s
  }

  // The map that takes every element of s to v
  ghost function Everywhere<K, V>(s: set<K>, v: V): (m: map<K, V>)
    ensures m.Keys == s && forall k :: k in s ==> m[k] == v
  {
    if s == {} then map[]
    else
      var k :| k in s;
      Everywhere(s - {k}, v)[k := v]
  }
}
