/**
 The partition fan-out of a flush: one group of rows per distinct partition tuple.

 `Grouped` is the per-row definition, in terms of each row's own tuple. `PartitionGroups` is the
 algorithm: distinct tuples by first occurrence, then one mask per tuple, and-ed field by field
 with Arrow's null semantics.
 */
module PartitionFanout {
  import opened Wrappers
  import opened Lake
  import opened Catalog

  type Tuple = seq<Option<string>>
  type Transform = (Field, Option<string>) -> Option<string>

  function ValueOf(row: Row, column: string): Option<string> {
    if column in row.values then Some(row.values[column]) else None
  }

  /** A row's own partition tuple under `spec`. */
  function TupleOf(transform: Transform, spec: seq<Field>, row: Row): (t: Tuple)
    ensures |t| == |spec|
  {
    seq(|spec|, i requires 0 <= i < |spec| => transform(spec[i], ValueOf(row, spec[i].column)))
  }

  /** Field by field, `t` is the transform of the row's value in that field's own column, null if the row has
      none. */
  ghost predicate Fits(transform: Transform, spec: seq<Field>, row: Row, t: Tuple) {
    && |t| == |spec|
    && forall i :: 0 <= i < |spec| ==>
         var c := spec[i].column;
         t[i] == transform(spec[i], if c in row.values then Some(row.values[c]) else None)
  }

  /** How a row is to be registered: under a tuple that fits it, without a spec under none. */
  ghost predicate Under(transform: Transform, spec: seq<Field>, row: Row, t: Option<Tuple>) {
    if spec == [] then t.None? else t.Some? && Fits(transform, spec, row, t.value)
  }

  /** The row's tuple fits it, and no other does. */
  lemma TupleFits(transform: Transform, spec: seq<Field>, row: Row, t: Tuple)
    ensures Fits(transform, spec, row, t) <==> t == TupleOf(transform, spec, row)
  {
    forall i | 0 <= i < |spec|
      ensures ValueOf(row, spec[i].column)
              == if spec[i].column in row.values then Some(row.values[spec[i].column]) else None
    {
    }
    if Fits(transform, spec, row, t) {
      assert forall i :: 0 <= i < |spec| ==> t[i] == TupleOf(transform, spec, row)[i];
    }
  }

  function Tuples(transform: Transform, spec: seq<Field>, rows: seq<Row>): (ts: seq<Tuple>)
    ensures |ts| == |rows|
    ensures forall r :: 0 <= r < |rows| ==> ts[r] == TupleOf(transform, spec, rows[r])
  {
    seq(|rows|, r requires 0 <= r < |rows| => TupleOf(transform, spec, rows[r]))
  }

  /** The distinct elements of `ts`, in order of first occurrence. */
  function Distinct(ts: seq<Tuple>): seq<Tuple> {
    if ts == [] then []
    else
      var before, last := Distinct(ts[..|ts| - 1]), ts[|ts| - 1];
      if last in before then before else before + [last]
  }

  /** The rows whose tuple is `t`, in input order. */
  function RowsAt(rows: seq<Row>, ts: seq<Tuple>, t: Tuple): seq<Row>
    requires |rows| == |ts|
  {
    if rows == [] then []
    else
      var n := |rows| - 1;
      RowsAt(rows[..n], ts[..n], t) + (if ts[n] == t then [rows[n]] else [])
  }

  function Grouped(rows: seq<Row>, ts: seq<Tuple>): (gs: seq<Group>)
    requires |rows| == |ts|
    ensures |gs| == |Distinct(ts)|
  {
    var ds := Distinct(ts);
    seq(|ds|, i requires 0 <= i < |ds| => (Some(ds[i]), RowsAt(rows, ts, ds[i])))
  }

  /** What the fan-out of `rows` under `spec` is: a table without a spec is one group without a tuple. */
  function Fanout(transform: Transform, spec: seq<Field>, rows: seq<Row>): seq<Group> {
    if spec == [] then [(None, rows)] else Grouped(rows, Tuples(transform, spec, rows))
  }

  // ------------------------------------------------------------------------------------------
  // What the definition promises
  // ------------------------------------------------------------------------------------------

  lemma {:induction false} DistinctElements(ts: seq<Tuple>)
    ensures forall t :: t in Distinct(ts) <==> t in ts
    ensures forall i, j :: 0 <= i < j < |Distinct(ts)| ==> Distinct(ts)[i] != Distinct(ts)[j]
  {
    if ts != [] {
      var n := |ts| - 1;
      DistinctElements(ts[..n]);
      assert ts == ts[..n] + [ts[n]];
    }
  }

  function FirstIndex(ts: seq<Tuple>, t: Tuple): (k: nat)
    requires t in ts
    ensures k < |ts| && ts[k] == t && t !in ts[..k]
  {
    if ts[0] == t then 0
    else
      assert ts == [ts[0]] + ts[1..];
      var k := 1 + FirstIndex(ts[1..], t);
      assert ts[..k] == [ts[0]] + ts[1..][..k - 1];
      k
  }

  /** Groups come out in the order in which their tuples first occur. */
  lemma {:induction false} DistinctByFirstOccurrence(ts: seq<Tuple>, i: nat, j: nat)
    requires i < j < |Distinct(ts)|
    ensures Distinct(ts)[i] in ts && Distinct(ts)[j] in ts
    ensures FirstIndex(ts, Distinct(ts)[i]) < FirstIndex(ts, Distinct(ts)[j])
  {
    DistinctElements(ts);
    var n := |ts| - 1;
    var t, u := Distinct(ts)[i], Distinct(ts)[j];
    DistinctElements(ts[..n]);
    FirstIndexOfPrefix(ts, n, t);
    if j < |Distinct(ts[..n])| {
      DistinctByFirstOccurrence(ts[..n], i, j);
      FirstIndexOfPrefix(ts, n, u);
    } else {
      assert u !in ts[..n];
      forall x | 0 <= x < n ensures ts[x] != u {
        assert ts[..n][x] == ts[x];
      }
    }
  }

  lemma FirstIndexOfPrefix(ts: seq<Tuple>, n: nat, t: Tuple)
    requires n <= |ts| && t in ts[..n]
    ensures t in ts && FirstIndex(ts, t) == FirstIndex(ts[..n], t) < n
  {
    var k := FirstIndex(ts[..n], t);
    assert ts[k] == t;
    var m := FirstIndex(ts, t);
    forall x | 0 <= x < k ensures ts[x] != t {
      assert ts[..n][..k][x] == ts[x];
    }
    forall x | 0 <= x < m ensures ts[x] != t {
      assert ts[..m][x] == ts[x];
    }
  }

  /** A group holds each row of its tuple as often as the batch does, and no other row. */
  lemma {:induction false} GroupHoldsItsRows(transform: Transform, spec: seq<Field>, rows: seq<Row>, t: Tuple, row: Row)
    ensures multiset(RowsAt(rows, Tuples(transform, spec, rows), t))[row]
            == if TupleOf(transform, spec, row) == t then multiset(rows)[row] else 0
    decreases |rows|
  {
    if rows != [] {
      var n := |rows| - 1;
      GroupHoldsItsRows(transform, spec, rows[..n], t, row);
      assert rows == rows[..n] + [rows[n]];
      assert Tuples(transform, spec, rows)[..n] == Tuples(transform, spec, rows[..n]);
    }
  }

  /** Where the rows of the tuple `t` stand in the batch. */
  function Positions(ts: seq<Tuple>, t: Tuple): (ps: seq<nat>) {
    if ts == [] then []
    else
      var n := |ts| - 1;
      Positions(ts[..n], t) + (if ts[n] == t then [n] else [])
  }

  lemma {:induction false} PositionsAscend(ts: seq<Tuple>, t: Tuple)
    ensures forall i :: 0 <= i < |Positions(ts, t)| ==> Positions(ts, t)[i] < |ts| && ts[Positions(ts, t)[i]] == t
    ensures forall i, j :: 0 <= i < j < |Positions(ts, t)| ==> Positions(ts, t)[i] < Positions(ts, t)[j]
  {
    if ts != [] {
      PositionsAscend(ts[..|ts| - 1], t);
    }
  }

  /** The i-th row of a group is the batch's row at the i-th of its ascending positions: row order is kept. */
  lemma {:induction false} GroupKeepsRowOrder(rows: seq<Row>, ts: seq<Tuple>, t: Tuple, i: nat)
    requires |rows| == |ts| && i < |RowsAt(rows, ts, t)|
    ensures |Positions(ts, t)| == |RowsAt(rows, ts, t)|
    ensures Positions(ts, t)[i] < |rows| && RowsAt(rows, ts, t)[i] == rows[Positions(ts, t)[i]]
    decreases |rows|
  {
    var n := |rows| - 1;
    SameLength(rows[..n], ts[..n], t);
    PositionsAscend(ts, t);
    if i < |RowsAt(rows[..n], ts[..n], t)| {
      GroupKeepsRowOrder(rows[..n], ts[..n], t, i);
    }
  }

  lemma {:induction false} SameLength(rows: seq<Row>, ts: seq<Tuple>, t: Tuple)
    requires |rows| == |ts|
    ensures |Positions(ts, t)| == |RowsAt(rows, ts, t)|
    decreases |rows|
  {
    if rows != [] {
      var n := |rows| - 1;
      SameLength(rows[..n], ts[..n], t);
    }
  }

  function AllRows(groups: seq<Group>): seq<Row> {
    if groups == [] then [] else AllRows(groups[..|groups| - 1]) + groups[|groups| - 1].1
  }

  /** The fan-out loses no row and invents none. */
  lemma FanoutConservesRows(transform: Transform, spec: seq<Field>, rows: seq<Row>)
    ensures multiset(AllRows(Fanout(transform, spec, rows))) == multiset(rows)
  {
    var groups := Fanout(transform, spec, rows);
    if spec == [] {
      assert AllRows(groups) == AllRows([]) + rows;
    } else {
      var ts := Tuples(transform, spec, rows);
      assert groups[..|groups|] == groups && Distinct(ts)[..|groups|] == Distinct(ts);
      DistinctElements(ts);
      forall row ensures multiset(AllRows(groups))[row] == multiset(rows)[row] {
        FirstGroupsHold(transform, spec, rows, |groups|, row);
        if row in rows {
          var r :| 0 <= r < |rows| && rows[r] == row;
          assert ts[r] in ts;
        }
      }
    }
  }

  /** The first `k` groups hold a row as often as the batch does if its tuple is among theirs, else never. */
  lemma {:induction false} FirstGroupsHold(transform: Transform, spec: seq<Field>, rows: seq<Row>, k: nat, row: Row)
    requires k <= |Distinct(Tuples(transform, spec, rows))|
    ensures var ts := Tuples(transform, spec, rows);
      multiset(AllRows(Grouped(rows, ts)[..k]))[row]
      == if TupleOf(transform, spec, row) in Distinct(ts)[..k] then multiset(rows)[row] else 0
    decreases k
  {
    if k > 0 {
      var ts := Tuples(transform, spec, rows);
      FirstGroupsHold(transform, spec, rows, k - 1, row);
      GroupHoldsItsRows(transform, spec, rows, Distinct(ts)[k - 1], row);
      NextGroup(rows, ts, k);
    }
  }

  lemma NextGroup(rows: seq<Row>, ts: seq<Tuple>, k: nat)
    requires |rows| == |ts| && 0 < k <= |Distinct(ts)|
    ensures AllRows(Grouped(rows, ts)[..k])
            == AllRows(Grouped(rows, ts)[..k - 1]) + RowsAt(rows, ts, Distinct(ts)[k - 1])
    ensures Distinct(ts)[..k] == Distinct(ts)[..k - 1] + [Distinct(ts)[k - 1]]
    ensures Distinct(ts)[k - 1] !in Distinct(ts)[..k - 1]
  {
    var groups := Grouped(rows, ts)[..k];
    assert groups[..k - 1] == Grouped(rows, ts)[..k - 1];
    DistinctElements(ts);
  }

  /** Every group of a partitioned fan-out is non-empty and holds the subsequence of rows of its tuple. */
  lemma FanoutGroup(transform: Transform, spec: seq<Field>, rows: seq<Row>, i: nat)
    requires spec != [] && i < |Fanout(transform, spec, rows)|
    ensures var g := Fanout(transform, spec, rows)[i];
      && g.0.Some? && g.1 != []
      && (forall row :: row in g.1 ==> row in rows && TupleOf(transform, spec, row) == g.0.value)
  {
    var ts := Tuples(transform, spec, rows);
    var t := Distinct(ts)[i];
    DistinctElements(ts);
    RowsAtOnly(transform, spec, rows, t);
    assert t in Distinct(ts);
    var r :| 0 <= r < |ts| && ts[r] == t;
    RowsAtHas(rows, ts, t, r);
  }

  lemma {:induction false} RowsAtOnly(transform: Transform, spec: seq<Field>, rows: seq<Row>, t: Tuple)
    ensures forall row :: row in RowsAt(rows, Tuples(transform, spec, rows), t)
                          ==> row in rows && TupleOf(transform, spec, row) == t
    decreases |rows|
  {
    if rows != [] {
      var n := |rows| - 1;
      RowsAtOnly(transform, spec, rows[..n], t);
      assert Tuples(transform, spec, rows)[..n] == Tuples(transform, spec, rows[..n]);
    }
  }

  lemma {:induction false} RowsAtHas(rows: seq<Row>, ts: seq<Tuple>, t: Tuple, r: nat)
    requires |rows| == |ts| && r < |rows| && ts[r] == t
    ensures rows[r] in RowsAt(rows, ts, t)
    decreases |rows|
  {
    var n := |rows| - 1;
    if r < n { RowsAtHas(rows[..n], ts[..n], t, r); }
  }

  // ------------------------------------------------------------------------------------------
  // The algorithm
  // ------------------------------------------------------------------------------------------

  /** Arrow's `equal`: null when the operand is null. */
  function ArrowEqual(x: Option<string>, v: string): Option<bool> {
    match x
    case None => None
    case Some(s) => Some(s == v)
  }

  function FillNull(x: Option<bool>, v: bool): bool {
    match x
    case None => v
    case Some(b) => b
  }

  /** `group_by(keys).aggregate(min row).sort_by(min row)`. */
  method Combos(ts: seq<Tuple>) returns (combos: seq<Tuple>)
    ensures combos == Distinct(ts)
  {
    combos := [];
    for i := 0 to |ts|
      invariant combos == Distinct(ts[..i])
    {
      assert ts[..i + 1][..i] == ts[..i];
      if ts[i] !in combos {
        combos := combos + [ts[i]];
      }
    }
    assert ts[..|ts|] == ts;
  }

  /** The group stands under a tuple that fits each of its rows; without a spec under none. */
  ghost predicate GroupFits(transform: Transform, spec: seq<Field>, g: Group) {
    && (g.0.None? <==> spec == [])
    && (g.0.Some? ==> forall row :: row in g.1 ==> Fits(transform, spec, row, g.0.value))
  }

  lemma FanoutFits(transform: Transform, spec: seq<Field>, rows: seq<Row>)
    ensures forall g :: g in Fanout(transform, spec, rows) ==> GroupFits(transform, spec, g)
  {
    if spec != [] {
      var groups := Fanout(transform, spec, rows);
      forall i | 0 <= i < |groups| ensures GroupFits(transform, spec, groups[i]) {
        FanoutGroup(transform, spec, rows, i);
        forall row | row in groups[i].1 ensures Fits(transform, spec, row, groups[i].0.value) {
          TupleFits(transform, spec, row, groups[i].0.value);
        }
      }
    }
  }

  method PartitionGroups(transform: Transform, spec: seq<Field>, rows: seq<Row>) returns (out: seq<Group>)
    ensures out == Fanout(transform, spec, rows)
    ensures forall g :: g in out ==> GroupFits(transform, spec, g)
    ensures multiset(AllRows(out)) == multiset(rows)
  {
    FanoutFits(transform, spec, rows);
    FanoutConservesRows(transform, spec, rows);
    if spec == [] {
      return [(None, rows)];
    }
    var ts := Tuples(transform, spec, rows);
    var combos := Combos(ts);
    DistinctElements(ts);
    out := [];
    for i := 0 to |combos|
      invariant out == Grouped(rows, ts)[..i]
    {
      assert |combos[i]| == |spec| by { assert combos[i] in ts; }
      var mask := Mask(ts, combos[i], |spec|);
      var part := Filter(rows, ts, combos[i], mask);
      out := out + [(Some(combos[i]), part)];
    }
  }

  /** One mask per tuple: the and, over the key columns, of a null test or a null-filled comparison. */
  method Mask(ts: seq<Tuple>, values: Tuple, arity: nat) returns (mask: seq<bool>)
    requires |values| == arity > 0 && forall r :: 0 <= r < |ts| ==> |ts[r]| == arity
    ensures |mask| == |ts|
    ensures forall r :: 0 <= r < |ts| ==> mask[r] == (ts[r] == values)
  {
    mask := seq(|ts|, _ => true);
    for f := 0 to arity
      invariant |mask| == |ts|
      invariant forall r :: 0 <= r < |ts| ==> (mask[r] <==> ts[r][..f] == values[..f])
    {
      var fieldMask := seq(|ts|, r requires 0 <= r < |ts| =>
        match values[f]
        case None => ts[r][f].None?
        case Some(v) => FillNull(ArrowEqual(ts[r][f], v), false));
      var next := seq(|ts|, r requires 0 <= r < |ts| => mask[r] && fieldMask[r]);
      forall r | 0 <= r < |ts| ensures next[r] <==> ts[r][..f + 1] == values[..f + 1] {
        assert ts[r][..f + 1] == ts[r][..f] + [ts[r][f]];
        assert values[..f + 1] == values[..f] + [values[f]];
      }
      mask := next;
    }
    forall r | 0 <= r < |ts| ensures mask[r] == (ts[r] == values) {
      assert ts[r][..arity] == ts[r] && values[..arity] == values;
    }
  }

  method Filter(rows: seq<Row>, ts: seq<Tuple>, values: Tuple, mask: seq<bool>) returns (part: seq<Row>)
    requires |rows| == |ts| == |mask| && forall r :: 0 <= r < |ts| ==> mask[r] == (ts[r] == values)
    ensures part == RowsAt(rows, ts, values)
  {
    part := [];
    for r := 0 to |rows|
      invariant part == RowsAt(rows[..r], ts[..r], values)
    {
      assert rows[..r + 1][..r] == rows[..r] && ts[..r + 1][..r] == ts[..r];
      if mask[r] {
        part := part + [rows[r]];
      }
    }
    assert rows[..|rows|] == rows && ts[..|ts|] == ts;
  }
}
