/** Small datatypes and facts about sequences and finite sets that several modules share. */
module Common {

  datatype Option<+T> = None | Some(value: T)

  /** No value occurs at two different positions. */
  ghost predicate NoDup<T>(s: seq<T>) {
    forall i, j :: 0 <= i < j < |s| ==> s[i] != s[j]
  }

  /** A subset is no larger than the set it is taken from. */
  lemma {:induction false} SubsetSize<T>(a: set<T>, b: set<T>)
    requires a <= b
    ensures |a| <= |b|
  {
    if a != {} {
      var x :| x in a;
      SubsetSize(a - {x}, b - {x});
    }
  }

  /** A set whose members are all covered by a map's values is no larger than the map's domain. */
  lemma {:induction false} CoveredSize<K, V>(vs: set<V>, m: map<K, V>)
    requires vs <= m.Values
    ensures |vs| <= |m.Keys|
  {
    if vs != {} {
      var v :| v in vs;
      var k :| k in m && m[k] == v;
      var rest := m - {k};
      forall w | w in vs - {v} ensures w in rest.Values {
        var j :| j in m && m[j] == w;
        assert j in rest && rest[j] == w;
      }
      CoveredSize(vs - {v}, rest);
      assert m.Keys == rest.Keys + {k};
    }
  }

  /** The numbers below n. */
  function Below(n: nat): (r: set<nat>)
    ensures |r| == n
    ensures forall i: nat :: i in r <==> i < n
  {
    if n == 0 then {} else Below(n - 1) + {n - 1}
  }
}
