/** Vocabulary shared by every module: optional values, Go's integer division,
    the int64 range, and sums over finite tables. */
module Base {

  datatype Option<+T> = None | Some(value: T)

  const MAX_INT64: int := 0x7FFF_FFFF_FFFF_FFFF

  predicate InInt64(x: int) {
    -MAX_INT64 - 1 <= x <= MAX_INT64
  }

  function Min(a: int, b: int): int {
    if a < b then a else b
  }

  /** Go's `/` on int64: the quotient is truncated toward zero, so the remainder has the
      sign of the dividend. */
  function TruncDiv(a: int, b: int): (q: int)
    requires b > 0
    ensures a >= 0 ==> q >= 0 && 0 <= a - q * b < b
    ensures a <= 0 ==> q <= 0 && -b < a - q * b <= 0
  {
    if a >= 0 then a / b else -((-a) / b)
  }

  /** The sum of `f` over the rows of a table. */
  ghost function Total<K(!new), V(!new)>(m: map<K, V>, f: V -> int): int
    decreases |m|
  {
    if m == map[] then 0 else
      var k :| k in m;
      f(m[k]) + Total(m - {k}, f)
  }

  lemma {:induction false} TotalRemove<K(!new), V(!new)>(m: map<K, V>, f: V -> int, k: K)
    requires k in m
    ensures Total(m, f) == f(m[k]) + Total(m - {k}, f)
    decreases |m|
  {
    var c :| c in m && Total(m, f) == f(m[c]) + Total(m - {c}, f);
    if c != k {
      TotalRemove(m - {c}, f, k);
      TotalRemove(m - {k}, f, c);
      assert m - {c} - {k} == m - {k} - {c};
    }
  }

  /** Writing one row changes the sum by exactly that row's change. */
  lemma TotalUpdate<K(!new), V(!new)>(m: map<K, V>, f: V -> int, k: K, v: V)
    ensures Total(m[k := v], f) == Total(m, f) + f(v) - (if k in m then f(m[k]) else 0)
  {
    TotalRemove(m[k := v], f, k);
    if k in m {
      TotalRemove(m, f, k);
      assert m[k := v] - {k} == m - {k};
    } else {
      assert m[k := v] - {k} == m;
    }
  }

  /** With non-negative rows, no row exceeds the sum. */
  lemma {:induction false} TotalBounds<K(!new), V(!new)>(m: map<K, V>, f: V -> int, k: K)
    requires forall j :: j in m ==> f(m[j]) >= 0
    requires k in m
    ensures 0 <= f(m[k]) <= Total(m, f)
  {
    TotalRemove(m, f, k);
    TotalNonNegative(m - {k}, f);
  }

  lemma {:induction false} TotalNonNegative<K(!new), V(!new)>(m: map<K, V>, f: V -> int)
    requires forall j :: j in m ==> f(m[j]) >= 0
    ensures Total(m, f) >= 0
    decreases |m|
  {
    if m != map[] {
      var c :| c in m && Total(m, f) == f(m[c]) + Total(m - {c}, f);
      TotalNonNegative(m - {c}, f);
    }
  }
}
