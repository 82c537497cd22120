/**
 * The part of a pandas DataFrame the pipeline relies on: a sequence of column
 * labels and rows of cells, where a cell is a string or missing (NaN). Each
 * operation below is one pandas call as the pipeline uses it; tables are
 * values, so an `inplace=True` call becomes a reassignment by the caller.
 */
module Tables {
  import opened Wrappers
  import opened Seqs

  /** A column label: a string, an integer (`range`/`np.arange` labels), or NaN from an empty header cell. */
  datatype Label = Name(name: string) | Index(index: int) | Unlabelled

  /** A cell: a string, or None for a missing value. */
  type Cell = Option<string>

  type Row = seq<Cell>

  datatype Table = Table(labels: seq<Label>, rows: seq<Row>)

  /** Every row has one cell per column, as in any DataFrame. */
  predicate Rectangular(t: Table) {
    forall i :: 0 <= i < |t.rows| ==> |t.rows[i]| == |t.labels|
  }

  /** A row without missing cells. */
  predicate Complete(row: Row) {
    forall j :: 0 <= j < |row| ==> row[j].Some?
  }

  /** The cell at position `j`, or missing when the row is too short. */
  function CellAt(row: Row, j: nat): Cell {
    if j < |row| then row[j] else None
  }

  /** The cells of column `j`, top to bottom. */
  function Column(t: Table, j: nat): (c: seq<Cell>)
    ensures |c| == |t.rows|
    ensures forall i :: 0 <= i < |t.rows| ==> c[i] == CellAt(t.rows[i], j)
  {
    MapSeq(t.rows, (row: Row) => CellAt(row, j))
  }

  /** `columns.get_loc(l)` for a label that occurs once: the position of its first occurrence. */
  function Find(labels: seq<Label>, l: Label): (r: Option<nat>)
    ensures r.None? <==> l !in labels
    ensures r.Some? ==> r.value < |labels| && labels[r.value] == l && l !in labels[..r.value]
  {
    if labels == [] then None
    else if labels[0] == l then Some(0)
    else
      var r := Find(labels[1..], l);
      if r.None? then None
      else
        assert labels[..r.value + 1] == [labels[0]] + labels[1..][..r.value];
        Some(r.value + 1)
  }

  /** 0, 1, ..., n - 1 */
  function Range(n: nat): (r: seq<nat>)
    ensures |r| == n
    ensures forall i :: 0 <= i < n ==> r[i] == i
  {
    if n == 0 then [] else Range(n - 1) + [n - 1]
  }

  /** lo, lo + 1, ..., hi - 1 */
  function Span(lo: nat, hi: nat): (r: seq<nat>)
    requires lo <= hi
    ensures |r| == hi - lo
    ensures forall i :: 0 <= i < |r| ==> r[i] == lo + i
  {
    if lo == hi then [] else Span(lo, hi - 1) + [hi - 1]
  }

  /** The elements at the given positions (a default where a position is out of range). */
  function Select<T>(s: seq<T>, ps: seq<nat>, default: T): (r: seq<T>)
    ensures |r| == |ps|
    ensures forall k :: 0 <= k < |ps| ==> r[k] == if ps[k] < |s| then s[ps[k]] else default
  {
    if ps == [] then []
    else
      var init := Select(s, ps[..|ps| - 1], default);
      var last := ps[|ps| - 1];
      init + [if last < |s| then s[last] else default]
  }

  /** Selecting one position and then a whole suffix gives that element followed by the suffix. */
  lemma SelectPositionAndSuffix<T>(s: seq<T>, p: nat, u: nat, default: T)
    requires p < |s| && u <= |s|
    ensures Select(s, [p] + Span(u, |s|), default) == [s[p]] + s[u..]
  {
    var r := Select(s, [p] + Span(u, |s|), default);
    assert forall k :: 0 <= k < |r| ==> r[k] == ([s[p]] + s[u..])[k];
  }

  /** The columns at the given positions, in the given order (`df.iloc[:, ps]`). */
  function Project(t: Table, ps: seq<nat>): Table {
    Table(Select(t.labels, ps, Unlabelled), MapSeq(t.rows, (row: Row) => Select(row, ps, None)))
  }

  /**
   * Projecting keeps every row and gives each the chosen cells: position `k`
   * of the result is column `ps[k]` of the input.
   */
  lemma ProjectSpec(t: Table, ps: seq<nat>)
    requires Rectangular(t)
    requires forall k :: 0 <= k < |ps| ==> ps[k] < |t.labels|
    ensures var r := Project(t, ps);
            && Rectangular(r)
            && |r.labels| == |ps| && |r.rows| == |t.rows|
            && (forall k :: 0 <= k < |ps| ==> r.labels[k] == t.labels[ps[k]])
            && (forall i, k :: 0 <= i < |t.rows| && 0 <= k < |ps| ==> r.rows[i][k] == t.rows[i][ps[k]])
  {
  }

  /** The positions below `n` that satisfy `keep`, in increasing order. */
  function Kept(n: nat, keep: nat -> bool): seq<nat> {
    Filter(Range(n), keep)
  }

  lemma {:induction false} FilterIncreasing(s: seq<nat>, p: nat -> bool)
    requires Increasing(s)
    ensures Increasing(Filter(s, p))
  {
    if s != [] {
      var tail := s[1..];
      IncreasingTail(s, tail);
      FilterIncreasing(tail, p);
      HeadBelow(s, tail, Filter(tail, p));
      IncreasingCons(s[0], Filter(tail, p));
    }
  }

  lemma IncreasingTail(s: seq<nat>, tail: seq<nat>)
    requires Increasing(s) && s != [] && tail == s[1..]
    ensures Increasing(tail) && forall i :: 0 <= i < |tail| ==> s[0] < tail[i]
  {
    forall i, j | 0 <= i < j < |tail| ensures tail[i] < tail[j] {
      assert tail[i] == s[i + 1] && tail[j] == s[j + 1];
    }
    forall i | 0 <= i < |tail| ensures s[0] < tail[i] {
      assert tail[i] == s[i + 1];
    }
  }

  lemma HeadBelow(s: seq<nat>, tail: seq<nat>, rest: seq<nat>)
    requires s != [] && forall i :: 0 <= i < |tail| ==> s[0] < tail[i]
    requires forall i :: 0 <= i < |rest| ==> rest[i] in tail
    ensures forall i :: 0 <= i < |rest| ==> s[0] < rest[i]
  {
    forall i | 0 <= i < |rest| ensures s[0] < rest[i] {
      var m :| 0 <= m < |tail| && tail[m] == rest[i];
    }
  }

  lemma IncreasingCons(x: nat, rest: seq<nat>)
    requires Increasing(rest) && forall i :: 0 <= i < |rest| ==> x < rest[i]
    ensures Increasing([x] + rest)
  {
    var c := [x] + rest;
    forall i, j | 0 <= i < j < |c| ensures c[i] < c[j] {
      assert c[j] == rest[j - 1];
      if i > 0 {
        assert c[i] == rest[i - 1];
      }
    }
  }

  /** The kept positions are exactly those that satisfy `keep`, each once, in order. */
  lemma KeptSpec(n: nat, keep: nat -> bool)
    ensures Increasing(Kept(n, keep))
    ensures forall j: nat :: j in Kept(n, keep) <==> j < n && keep(j)
  {
    FilterIncreasing(Range(n), keep);
    forall j: nat | j < n && keep(j) ensures j in Kept(n, keep) {
      assert Range(n)[j] == j;
    }
  }

  /** The columns that satisfy `keep`, in their order. */
  function KeepColumns(t: Table, keep: nat -> bool): Table {
    Project(t, Kept(|t.labels|, keep))
  }

  /** Some row has a value in column `j`. */
  predicate HasValue(t: Table, j: nat) {
    exists i :: 0 <= i < |t.rows| && CellAt(t.rows[i], j).Some?
  }

  /** `dropna(axis='columns', how='all')` */
  function DropEmptyColumns(t: Table): Table {
    KeepColumns(t, (j: nat) => HasValue(t, j))
  }

  /** A label that is not among `ls`. */
  function NotIn(ls: seq<Label>): Label -> bool {
    (l: Label) => l !in ls
  }

  /** `drop(columns=ls)`: a label that is not a column raises KeyError. */
  function DropColumns(t: Table, ls: seq<Label>): (r: Result<Table>)
    ensures r.Err? <==> exists l :: l in ls && l !in t.labels
    ensures r.Err? ==> r.failure.KeyError?
  {
    if forall l :: l in ls ==> l in t.labels then
      Ok(Project(t, Where(t.labels, NotIn(ls))))
    else Err(KeyError(""))
  }

  /**
   * Dropping columns keeps every row and exactly the columns whose label is
   * not dropped, in their order: the labels and each row are read at the
   * same increasing positions, those whose label is not in `ls`.
   */
  lemma DropColumnsSpec(t: Table, ls: seq<Label>)
    requires Rectangular(t) && DropColumns(t, ls).Ok?
    ensures var r := DropColumns(t, ls).value;
            var ps := Where(t.labels, NotIn(ls));
            && (forall j :: 0 <= j < |t.labels| ==> (j in ps <==> t.labels[j] !in ls))
            && ReadAt(r.labels, t.labels, ps)
            && |r.rows| == |t.rows|
            && (forall i :: 0 <= i < |t.rows| ==> ReadAt(r.rows[i], t.rows[i], ps))
            && Rectangular(r)
            && (forall l :: l in r.labels <==> l in t.labels && l !in ls)
  {
    var r := DropColumns(t, ls).value;
    var ps := Where(t.labels, NotIn(ls));
    ProjectSpec(t, ps);
    forall l | l in t.labels && l !in ls ensures l in r.labels {
      var j :| 0 <= j < |t.labels| && t.labels[j] == l;
      assert j in ps;
      var k :| 0 <= k < |ps| && ps[k] == j;
      assert r.labels[k] == l;
    }
  }

  /** Keeps the rows that satisfy `p`, in order (boolean indexing, `dropna(subset=...)`). */
  function FilterRows(t: Table, p: Row -> bool): Table {
    Table(t.labels, Filter(t.rows, p))
  }

  /** `dropna()`: the rows without missing cells. */
  function DropIncompleteRows(t: Table): Table {
    FilterRows(t, Complete)
  }

  /** `drop_duplicates()`: the first of each group of equal rows, in order. */
  function DropDuplicateRows(t: Table): Table {
    Table(t.labels, FirstOccurrences(t.rows))
  }

  /** `drop_duplicates(subset=[column j])`: the first row of each value of column `j` (missing counts as one value). */
  function DropDuplicatesOn(t: Table, j: nat): Table {
    Table(t.labels, DedupBy(t.rows, (row: Row) => CellAt(row, j)))
  }

  /**
   * Deduplicating on a column keeps a rectangular table rectangular, never
   * adds a row, and leaves no two rows with the same cell in that column;
   * every value of the column survives, carried by the first row that has
   * it, and the kept rows stay in their order.
   */
  lemma DropDuplicatesOnSpec(t: Table, j: nat)
    requires Rectangular(t)
    ensures Rectangular(DropDuplicatesOn(t, j))
    ensures |DropDuplicatesOn(t, j).rows| <= |t.rows|
    ensures DistinctBy(DropDuplicatesOn(t, j).rows, (row: Row) => CellAt(row, j))
    ensures forall c :: c in Column(DropDuplicatesOn(t, j), j) <==> c in Column(t, j)
    ensures ReadAt(DropDuplicatesOn(t, j).rows, t.rows, FirstPositions(Column(t, j)))
  {
    DropDuplicatesOnShape(t, j);
    DropDuplicatesOnKeeps(t, j);
  }

  lemma DropDuplicatesOnKeeps(t: Table, j: nat)
    ensures forall c :: c in Column(DropDuplicatesOn(t, j), j) <==> c in Column(t, j)
    ensures ReadAt(DropDuplicatesOn(t, j).rows, t.rows, FirstPositions(Column(t, j)))
  {
    var key := (row: Row) => CellAt(row, j);
    var d := DedupBy(t.rows, key);
    DedupBySpec(t.rows, key);
    assert Column(t, j) == MapSeq(t.rows, key);
    assert Column(DropDuplicatesOn(t, j), j) == MapSeq(d, key);
  }

  lemma DropDuplicatesOnShape(t: Table, j: nat)
    requires Rectangular(t)
    ensures Rectangular(DropDuplicatesOn(t, j))
    ensures |DropDuplicatesOn(t, j).rows| <= |t.rows|
    ensures DistinctBy(DropDuplicatesOn(t, j).rows, (row: Row) => CellAt(row, j))
  {
    var key := (row: Row) => CellAt(row, j);
    var d := DedupBy(t.rows, key);
    DedupByKeys(t.rows, key);
    DedupByMembers(t.rows, key);
    forall i | 0 <= i < |d| ensures |d[i]| == |t.labels| {
      assert d[i] in t.rows;
    }
  }

  /** Filtering rows keeps a rectangular table rectangular. */
  lemma FilterRowsRectangular(t: Table, p: Row -> bool)
    requires Rectangular(t)
    ensures Rectangular(FilterRows(t, p))
  {
    var f := Filter(t.rows, p);
    forall i | 0 <= i < |f| ensures |f[i]| == |t.labels| {
      var m :| 0 <= m < |t.rows| && t.rows[m] == f[i];
    }
  }

  /** Replaces each cell of column `j` by `f` of it (`df[col] = df[col].map(...)`). */
  function MapColumn(t: Table, j: nat, f: Cell -> Cell): Table {
    Table(t.labels, MapSeq(t.rows, (row: Row) => if j < |row| then row[j := f(row[j])] else row))
  }

  /** `insert(pos, l, values)`: a label that is already a column raises ValueError. */
  function InsertColumn(t: Table, pos: nat, l: Label, f: Row -> Cell): (r: Result<Table>)
    requires pos <= |t.labels|
    ensures r.Err? <==> l in t.labels
    ensures r.Ok? ==> r.value.labels == t.labels[..pos] + [l] + t.labels[pos..]
    ensures r.Ok? ==> |r.value.rows| == |t.rows|
    ensures r.Ok? && Rectangular(t) ==> Rectangular(r.value)
    ensures r.Ok? && Rectangular(t) ==>
              forall i :: 0 <= i < |t.rows| ==> r.value.rows[i] == t.rows[i][..pos] + [f(t.rows[i])] + t.rows[i][pos..]
  {
    if l in t.labels then Err(ValueError)
    else
      Ok(Table(t.labels[..pos] + [l] + t.labels[pos..],
               MapSeq(t.rows, (row: Row) => if pos <= |row| then row[..pos] + [f(row)] + row[pos..] else row + [f(row)])))
  }

  /** `df[l] = v` for a new label: a last column holding `v` in every row. */
  function AppendConstantColumn(t: Table, l: Label, v: string): (r: Table)
    ensures r.labels == t.labels + [l]
    ensures |r.rows| == |t.rows|
    ensures forall i :: 0 <= i < |t.rows| ==> r.rows[i] == t.rows[i] + [Some(v)]
  {
    Table(t.labels + [l], MapSeq(t.rows, (row: Row) => row + [Some(v)]))
  }

  /** Replaces every label `from` by `to` (`rename(columns={from: to})`); the cells stay. */
  function RenameLabel(t: Table, from: Label, to: Label): (r: Table)
    ensures r.rows == t.rows && |r.labels| == |t.labels|
    ensures forall j :: 0 <= j < |t.labels| ==> r.labels[j] == if t.labels[j] == from then to else t.labels[j]
    ensures from != to ==> from !in r.labels
  {
    Table(MapSeq(t.labels, (l: Label) => if l == from then to else l), t.rows)
  }

  /** 0, 1, ..., n - 1 as labels (`np.arange(n)`). */
  function IndexLabels(n: nat): (ls: seq<Label>)
    ensures |ls| == n
    ensures forall j :: 0 <= j < n ==> ls[j] == Index(j)
  {
    MapSeq(Range(n), (j: nat) => Index(j))
  }

  /** A row of `t` laid out on the columns `union`: missing where `t` has no such column. */
  function Align(t: Table, row: Row, union: seq<Label>): (r: Row)
    ensures |r| == |union|
  {
    MapSeq(union, (l: Label) => match Find(t.labels, l) case Some(j) => CellAt(row, j) case None => None)
  }

  function AlignRows(t: Table, union: seq<Label>): seq<Row> {
    MapSeq(t.rows, (row: Row) => Align(t, row, union))
  }

  function AllLabels(ts: seq<Table>): seq<Label> {
    if ts == [] then [] else AllLabels(ts[..|ts| - 1]) + ts[|ts| - 1].labels
  }

  function ConcatRows(ts: seq<Table>, union: seq<Label>): seq<Row> {
    if ts == [] then [] else ConcatRows(ts[..|ts| - 1], union) + AlignRows(ts[|ts| - 1], union)
  }

  /**
   * `pd.concat(ts, axis='index')`: the columns are every label in order of
   * first appearance, and the rows are those of each table in turn, missing
   * where a table lacks a column.
   */
  function Concat(ts: seq<Table>): Table {
    var union := FirstOccurrences(AllLabels(ts));
    Table(union, ConcatRows(ts, union))
  }

  function TotalRows(ts: seq<Table>): nat {
    if ts == [] then 0 else TotalRows(ts[..|ts| - 1]) + |ts[|ts| - 1].rows|
  }

  /** Concatenation keeps every row: the length is the sum of the lengths. */
  lemma {:induction false} ConcatRowsLength(ts: seq<Table>, union: seq<Label>)
    ensures |ConcatRows(ts, union)| == TotalRows(ts)
  {
    if ts != [] {
      ConcatRowsLength(ts[..|ts| - 1], union);
    }
  }

  /** With distinct labels, laying a row out on the table's own columns leaves it as it is. */
  lemma AlignOwnColumns(t: Table, row: Row)
    requires Distinct(t.labels) && |row| == |t.labels|
    ensures Align(t, row, t.labels) == row
  {
    forall j | 0 <= j < |row| ensures Align(t, row, t.labels)[j] == row[j] {
      var k := Find(t.labels, t.labels[j]).value;
      assert t.labels[k] == t.labels[j];
    }
  }

  /** Tables with the same distinct columns concatenate row after row, without any new missing cell. */
  lemma {:induction false} ConcatSameColumns(ts: seq<Table>, labels: seq<Label>)
    requires Distinct(labels)
    requires forall k :: 0 <= k < |ts| ==> ts[k].labels == labels && Rectangular(ts[k])
    ensures ConcatRows(ts, labels) == SameColumnRows(ts)
  {
    if ts != [] {
      var init := ts[..|ts| - 1];
      assert forall k :: 0 <= k < |init| ==> init[k] == ts[k];
      ConcatSameColumns(init, labels);
      AlignRowsOwn(ts[|ts| - 1]);
    }
  }

  /** A table with distinct labels, aligned on its own labels, keeps its rows. */
  lemma AlignRowsOwn(t: Table)
    requires Distinct(t.labels) && Rectangular(t)
    ensures AlignRows(t, t.labels) == t.rows
  {
    forall i | 0 <= i < |t.rows| ensures AlignRows(t, t.labels)[i] == t.rows[i] {
      AlignOwnColumns(t, t.rows[i]);
    }
  }

  function SameColumnRows(ts: seq<Table>): seq<Row> {
    if ts == [] then [] else SameColumnRows(ts[..|ts| - 1]) + ts[|ts| - 1].rows
  }

  lemma {:induction false} AllLabelsSame(ts: seq<Table>, labels: seq<Label>)
    requires ts != []
    requires forall k :: 0 <= k < |ts| ==> ts[k].labels == labels
    ensures forall l :: l in AllLabels(ts) <==> l in labels
  {
    if |ts| > 1 {
      AllLabelsSame(ts[..|ts| - 1], labels);
    } else {
      assert ts[..|ts| - 1] == [];
      assert AllLabels(ts) == [] + labels;
    }
  }

  /** Concatenating tables with the same distinct columns keeps those columns. */
  lemma ConcatSameLabels(ts: seq<Table>, labels: seq<Label>)
    requires ts != [] && Distinct(labels)
    requires forall k :: 0 <= k < |ts| ==> ts[k].labels == labels && Rectangular(ts[k])
    ensures Concat(ts) == Table(labels, SameColumnRows(ts))
  {
    AllLabelsSame(ts, labels);
    ConcatSameColumns(ts, labels);
    FirstOccurrencesOfSameLabels(ts, labels);
  }

  lemma {:induction false} FirstOccurrencesOfSameLabels(ts: seq<Table>, labels: seq<Label>)
    requires ts != [] && Distinct(labels)
    requires forall k :: 0 <= k < |ts| ==> ts[k].labels == labels
    ensures FirstOccurrences(AllLabels(ts)) == labels
  {
    if |ts| == 1 {
      assert ts[..|ts| - 1] == [];
      assert ts[|ts| - 1].labels == labels;
      assert AllLabels(ts) == [] + labels;
      assert [] + labels == labels;
      FirstOccurrencesDistinct(labels);
    } else {
      var init := ts[..|ts| - 1];
      FirstOccurrencesOfSameLabels(init, labels);
      FirstOccurrencesAppendSeen(AllLabels(init), labels);
    }
  }
}
