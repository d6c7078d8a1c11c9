/** Table slices: the batches of rows that the exporter receives from the
    archive (or from a continuous ingestion stream), filters, buffers and
    ships to its sink, together with the selections that filter them.

    A slice is an ordered sequence of rows with one layout (schema).  The row
    contents play no role in the coordination logic, so a row is an opaque
    integer handle.  A selection is the set of row offsets, counted from the
    start of the slice, that a checker approved. */
module Slices {

  /** A row of a table slice; only its identity and position matter here. */
  type Row = int

  /** The layout (record type) shared by all rows of a slice; it keys the
      exporter's checker cache. */
  type Layout = string

  datatype Slice = Slice(layout: Layout, rows: seq<Row>)

  /** Row offsets within one slice, as produced by evaluating a checker. */
  type Selection = set<nat>

  /** `slice.rows()`. */
  function Rows(s: Slice): nat {
    |s.rows|
  }

  /** `split(s, k)`: the first `k` rows and the remaining rows, both with the
      layout of `s`; together they are `s` again, in order. */
  function Split(s: Slice, k: nat): (r: (Slice, Slice))
    requires k <= Rows(s)
    ensures r.0.layout == s.layout && r.1.layout == s.layout
    ensures Rows(r.0) == k && Rows(r.1) == Rows(s) - k
    ensures r.0.rows + r.1.rows == s.rows
  {
    (Slice(s.layout, s.rows[..k]), Slice(s.layout, s.rows[k..]))
  }

  /** All rows of a sequence of slices, concatenated in order. */
  function Flatten(ss: seq<Slice>): seq<Row> {
    if ss == [] then [] else ss[0].rows + Flatten(ss[1..])
  }

  /** The number of rows in a sequence of slices; it is the length of their
      concatenation. */
  function TotalRows(ss: seq<Slice>): nat
  {
    if ss == [] then 0 else Rows(ss[0]) + TotalRows(ss[1..])
  }

  lemma {:induction false} FlattenAppend(a: seq<Slice>, b: seq<Slice>)
    ensures Flatten(a + b) == Flatten(a) + Flatten(b)
  {
    if a == [] {
      assert a + b == b;
    } else {
      assert (a + b)[0] == a[0];
      assert (a + b)[1..] == a[1..] + b;
      FlattenAppend(a[1..], b);
    }
  }

  lemma {:induction false} TotalRowsAppend(a: seq<Slice>, b: seq<Slice>)
    ensures TotalRows(a + b) == TotalRows(a) + TotalRows(b)
  {
    if a == [] {
      assert a + b == b;
    } else {
      assert (a + b)[0] == a[0];
      assert (a + b)[1..] == a[1..] + b;
      TotalRowsAppend(a[1..], b);
    }
  }

  /** The number of rows of a sequence of slices is the length of their
      concatenation. */
  lemma {:induction false} TotalRowsIsLength(ss: seq<Slice>)
    ensures TotalRows(ss) == |Flatten(ss)|
  {
    if ss != [] {
      TotalRowsIsLength(ss[1..]);
    }
  }

  /** Every slice of a sequence holds at most as many rows as the whole
      sequence. */
  lemma {:induction false} RowsAtMostTotal(ss: seq<Slice>, i: nat)
    requires i < |ss|
    ensures Rows(ss[i]) <= TotalRows(ss)
  {
    if i > 0 {
      RowsAtMostTotal(ss[1..], i - 1);
    }
  }

  /** `rank`: how many offsets in `[0, n)` the selection contains. */
  function Rank(sel: Selection, n: nat): (k: nat)
    ensures k <= n
  {
    if n == 0 then 0 else Rank(sel, n - 1) + (if n - 1 in sel then 1 else 0)
  }

  /** The rows of `rows` whose offsets, counted from `base`, are selected,
      in their original order. */
  function Selected(rows: seq<Row>, sel: Selection, base: nat): seq<Row>
    decreases |rows|
  {
    if rows == [] then []
    else (if base in sel then [rows[0]] else []) + Selected(rows[1..], sel, base + 1)
  }

  /** `select`: the sub-slice of the selected rows, keeping the layout. */
  function Select(s: Slice, sel: Selection): Slice {
    Slice(s.layout, Selected(s.rows, sel, 0))
  }

  lemma {:induction false} RankStep(sel: Selection, base: nat, n: nat)
    ensures Rank(sel, base + n + 1) == Rank(sel, base + n) + (if base + n in sel then 1 else 0)
  {
  }

  lemma {:induction false} SelectedCount(rows: seq<Row>, sel: Selection, base: nat)
    ensures |Selected(rows, sel, base)| + Rank(sel, base) == Rank(sel, base + |rows|)
    decreases |rows|
  {
    if rows != [] {
      SelectedCount(rows[1..], sel, base + 1);
      RankStep(sel, base, 0);
    }
  }

  /** The selected sub-slice holds exactly `rank(selection)` rows: the
      selected offsets that lie inside the slice. */
  lemma SelectRows(s: Slice, sel: Selection)
    ensures Rows(Select(s, sel)) == Rank(sel, Rows(s))
    ensures Select(s, sel).layout == s.layout
  {
    SelectedCount(s.rows, sel, 0);
  }

  lemma {:induction false} SelectedAll(rows: seq<Row>, sel: Selection, base: nat)
    requires forall i :: base <= i < base + |rows| ==> i in sel
    ensures Selected(rows, sel, base) == rows
    decreases |rows|
  {
    if rows != [] {
      SelectedAll(rows[1..], sel, base + 1);
    }
  }

  /** Selecting every offset of a slice reproduces the slice. */
  lemma SelectEverything(s: Slice, sel: Selection)
    requires forall i :: 0 <= i < Rows(s) ==> i in sel
    ensures Select(s, sel) == s
  {
    SelectedAll(s.rows, sel, 0);
  }

  /** A set of event ids (the index's hits). */
  type Ids = set<nat>

  /** The union of a sequence of id sets. */
  function UnionAll(parts: seq<Ids>): Ids {
    if parts == [] then {} else parts[0] + UnionAll(parts[1..])
  }

  /** The sum of the ranks of a sequence of id sets. */
  function SumRanks(parts: seq<Ids>): nat {
    if parts == [] then 0 else |parts[0]| + SumRanks(parts[1..])
  }

  /** No two id sets of the sequence overlap. */
  ghost predicate PairwiseDisjoint(parts: seq<Ids>) {
    forall i, j :: 0 <= i < j < |parts| ==> parts[i] !! parts[j]
  }

  lemma {:induction false} UnionAllAppend(parts: seq<Ids>, x: Ids)
    ensures UnionAll(parts + [x]) == UnionAll(parts) + x
    ensures SumRanks(parts + [x]) == SumRanks(parts) + |x|
  {
    if parts != [] {
      assert (parts + [x])[0] == parts[0];
      assert (parts + [x])[1..] == parts[1..] + [x];
      UnionAllAppend(parts[1..], x);
    } else {
      assert parts + [x] == [x];
    }
  }

  lemma {:induction false} DisjointFromUnion(parts: seq<Ids>, x: Ids)
    requires forall i :: 0 <= i < |parts| ==> parts[i] !! x
    ensures UnionAll(parts) !! x
  {
    if parts != [] {
      DisjointFromUnion(parts[1..], x);
    }
  }

  /** Every id set of the sequence is part of the union. */
  lemma {:induction false} PartWithinUnion(parts: seq<Ids>, i: nat)
    requires i < |parts|
    ensures parts[i] <= UnionAll(parts)
  {
    if i > 0 {
      PartWithinUnion(parts[1..], i - 1);
    }
  }

  /** Appending an id set disjoint from the union keeps the sets pairwise
      disjoint. */
  lemma AppendDisjoint(parts: seq<Ids>, x: Ids)
    requires PairwiseDisjoint(parts) && x !! UnionAll(parts)
    ensures PairwiseDisjoint(parts + [x])
  {
    var ps := parts + [x];
    forall i, j | 0 <= i < j < |ps| ensures ps[i] !! ps[j] {
      if j == |parts| {
        PartWithinUnion(parts, i);
      }
    }
  }

  /** The rank of the union of pairwise disjoint id sets is the sum of their
      ranks: no hit is counted twice. */
  lemma {:induction false} UnionRank(parts: seq<Ids>)
    requires PairwiseDisjoint(parts)
    ensures |UnionAll(parts)| == SumRanks(parts)
  {
    if parts != [] {
      assert PairwiseDisjoint(parts[1..]) by {
        forall i, j | 0 <= i < j < |parts[1..]|
          ensures parts[1..][i] !! parts[1..][j]
        {
          assert parts[1..][i] == parts[i + 1] && parts[1..][j] == parts[j + 1];
        }
      }
      UnionRank(parts[1..]);
      DisjointFromUnion(parts[1..], parts[0]);
    }
  }
}
