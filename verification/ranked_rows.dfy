/** `SELECT ... ORDER BY ... LIMIT n`: the first rows of a table in a preorder, ties broken any way. */
module RankedRows {
  import opened Common

  ghost predicate Preorder<V(!new)>(before: (V, V) -> bool) {
    && (forall a, b :: before(a, b) || before(b, a))
    && (forall a, b, c :: before(a, b) && before(b, c) ==> before(a, c))
  }

  /** `first` is a possible result: as many keys as the limit allows, none of them behind a key left out. */
  ghost predicate FirstRows<K(!new), V>(rows: map<K, V>, before: (V, V) -> bool, n: nat, first: set<K>) {
    && first <= rows.Keys
    && |first| == Min(n, |rows|)
    && forall a, b :: a in first && b in rows && b !in first ==> before(rows[a], rows[b])
  }

  /** A key of `rest` that no key of `rest` precedes strictly. */
  lemma {:induction false} Foremost<K, V(!new)>(rows: map<K, V>, before: (V, V) -> bool, rest: set<K>) returns (k: K)
    requires Preorder(before) && rest != {} && rest <= rows.Keys
    ensures k in rest && forall m :: m in rest ==> before(rows[k], rows[m])
    decreases |rest|
  {
    k :| k in rest;
    var others := rest - {k};
    assert forall m :: m in rest ==> m == k || m in others;
    assert before(rows[k], rows[k]);
    if others != {} {
      var m := Foremost(rows, before, others);
      if before(rows[m], rows[k]) { k := m; }
    }
  }

  lemma {:induction false} FirstRowsExist<K(!new), V(!new)>(rows: map<K, V>, before: (V, V) -> bool, n: nat)
    returns (first: set<K>)
    requires Preorder(before)
    ensures FirstRows(rows, before, n, first)
  {
    if n == 0 {
      first := {};
    } else {
      var some := FirstRowsExist(rows, before, n - 1);
      if |some| == |rows| {
        first := some;
      } else {
        var rest := rows.Keys - some;
        assert |rows.Keys| == |rows| && |rest| > 0;
        var k := Foremost(rows, before, rest);
        first := some + {k};
      }
    }
  }

  method PickForemost<K(==, !new), V(!new)>(rows: map<K, V>, before: (V, V) -> bool, rest: set<K>) returns (k: K)
    requires Preorder(before) && rest != {} && rest <= rows.Keys
    ensures k in rest && forall m :: m in rest ==> before(rows[k], rows[m])
  {
    k :| k in rest;
    var others := rest - {k};
    while others != {}
      invariant others <= rest && k in rest && k !in others
      invariant forall m :: m in rest && m !in others ==> before(rows[k], rows[m])
      decreases others
    {
      var m :| m in others;
      others := others - {m};
      if !before(rows[k], rows[m]) {
        assert before(rows[m], rows[k]) && before(rows[m], rows[m]);
        k := m;
      }
    }
  }

  /** The query: repeatedly takes a foremost row of what is left. */
  method SelectFirst<K(==, !new), V(!new)>(rows: map<K, V>, before: (V, V) -> bool, n: nat) returns (first: set<K>)
    requires Preorder(before)
    ensures FirstRows(rows, before, n, first)
  {
    first := {};
    var rest := rows.Keys;
    assert |rest| == |rows|;
    while rest != {} && |first| < n
      invariant rest == rows.Keys - first && first <= rows.Keys && |first| <= n
      invariant |first| + |rest| == |rows|
      invariant forall a, b :: a in first && b in rest ==> before(rows[a], rows[b])
      decreases |rest|
    {
      var k := PickForemost(rows, before, rest);
      first := first + {k};
      rest := rest - {k};
    }
  }

  // ---------- nullable time stamps ----------

  /** Ascending, nulls first. */
  predicate NoLater(a: Option<int>, b: Option<int>) {
    a.None? || (b.Some? && a.value <= b.value)
  }
}
