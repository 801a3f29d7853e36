/** Stock notions shared by the other modules. */
module Collections {

  datatype Option<+T> = None | Some(value: T)

  predicate Distinct<T(==)>(s: seq<T>) {
    forall i, j :: 0 <= i < j < |s| ==> s[i] != s[j]
  }

  lemma DistinctInsert<T>(a: seq<T>, b: seq<T>, x: T)
    requires Distinct(a + b) && x !in a + b
    ensures Distinct(a + [x] + b)
  {
    forall i, j | 0 <= i < j < |a| + 1 + |b|
      ensures (a + [x] + b)[i] != (a + [x] + b)[j]
    {
      var i', j' := if i < |a| then i else i - 1, if j < |a| then j else j - 1;
      assert i != |a| ==> (a + [x] + b)[i] == (a + b)[i'];
      assert j != |a| ==> (a + [x] + b)[j] == (a + b)[j'];
    }
  }
}
