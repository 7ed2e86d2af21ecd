/** Abelian groups and multiples, as far as the scalar ladders of both curves need them. */
module Groups {

  /** An abelian group, as far as the ladder needs one. */
  ghost predicate AbelianGroup<G(!new)>(op: (G, G) -> G, zero: G)
  {
    && (forall x, y, z :: op(op(x, y), z) == op(x, op(y, z)))
    && (forall x, y :: op(x, y) == op(y, x))
    && (forall x :: op(zero, x) == x)
  }

  /** n-fold addition. */
  ghost function Multiple<G(!new)>(op: (G, G) -> G, zero: G, n: nat, x: G): G
  {
    if n == 0 then zero else op(x, Multiple(op, zero, n - 1, x))
  }

  lemma {:induction false} MultipleAdds<G(!new)>(op: (G, G) -> G, zero: G, m: nat, n: nat, x: G)
    requires AbelianGroup(op, zero)
    ensures op(Multiple(op, zero, m, x), Multiple(op, zero, n, x)) == Multiple(op, zero, m + n, x)
  {
    if m > 0 {
      MultipleAdds(op, zero, m - 1, n, x);
      assert op(op(x, Multiple(op, zero, m - 1, x)), Multiple(op, zero, n, x))
          == op(x, op(Multiple(op, zero, m - 1, x), Multiple(op, zero, n, x)));
    }
  }

  lemma OneMultiple<G(!new)>(op: (G, G) -> G, zero: G, x: G)
    requires AbelianGroup(op, zero)
    ensures Multiple(op, zero, 0, x) == zero && Multiple(op, zero, 1, x) == x
  {
    assert Multiple(op, zero, 1, x) == op(x, Multiple(op, zero, 0, x));
    assert op(x, zero) == op(zero, x);
  }

  /** The sums a ladder round forms for either bit. */
  lemma RoundSums<G(!new)>(op: (G, G) -> G, zero: G, n: nat, b: int, x: G)
    requires AbelianGroup(op, zero) && 0 <= b <= 1
    ensures var u, v := Multiple(op, zero, n, x), Multiple(op, zero, n + 1, x);
            && (if b == 1 then op(u, v) else op(u, u)) == Multiple(op, zero, 2 * n + b, x)
            && (if b == 1 then op(v, v) else op(v, u)) == Multiple(op, zero, 2 * n + b + 1, x)
  {
    MultipleAdds(op, zero, n, n + b, x);
    MultipleAdds(op, zero, n + 1, n + b, x);
  }
}
