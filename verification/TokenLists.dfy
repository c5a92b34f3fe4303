/** Parts of token lists, found at a position. */
module TokenLists {

  /** The positions of a part. */
  datatype Span = Span(from: nat, to: nat)

  /** The tokens `x` are found in the list from `pos` on. */
  ghost predicate Stands<T>(ts: seq<T>, pos: nat, x: seq<T>) {
    match Span(pos, pos + |x|)
    case Span(from, to) => to <= |ts| && forall i {:trigger x[i]} :: 0 <= i < |x| ==> ts[from + i] == x[i]
  }

  lemma StandsSplit<T>(ts: seq<T>, pos: nat, x: seq<T>, y: seq<T>)
    requires Stands(ts, pos, x + y)
    ensures Stands(ts, pos, x) && Stands(ts, pos + |x|, y)
  {
    forall i | 0 <= i < |x|
      ensures ts[pos + i] == x[i]
    {
      assert (x + y)[i] == x[i];
    }
    forall i | 0 <= i < |y|
      ensures ts[pos + |x| + i] == y[i]
    {
      assert (x + y)[|x| + i] == y[i];
    }
  }

  lemma StandsOne<T>(ts: seq<T>, pos: nat, t: T)
    requires Stands(ts, pos, [t])
    ensures pos < |ts| && ts[pos] == t
  {
    assert [t][0] == t;
  }

  lemma StandsTwo<T>(ts: seq<T>, pos: nat, t: T, u: T)
    requires Stands(ts, pos, [t, u])
    ensures pos + 1 < |ts| && ts[pos] == t && ts[pos + 1] == u
  {
    assert [t, u] == [t] + [u];
    StandsSplit(ts, pos, [t], [u]);
    StandsOne(ts, pos, t);
    StandsOne(ts, pos + 1, u);
  }
}
