/**
 * The keypress decoder shared by the two decoder pages: the columns are put
 * in flow order, the user's choices for each question column are collected
 * into a plan, and the plan is applied to the table, followed by the final
 * counts and rates.
 */
module Decoder {
  import opened Wrappers
  import opened Seqs
  import opened OrderedMaps
  import opened Tables
  import opened Sorting
  import opened Income
  import opened StructuredScript

  // ---------------------------------------------------------------------------
  // Column order

  function LabelAt(t: Table, p: nat): Label {
    if p < |t.labels| then t.labels[p] else Unlabelled
  }

  function ColumnKeyAt(t: Table, p: nat): Result<Key> {
    ColumnKey(LabelAt(t, p))
  }

  function ColumnKeyOf(t: Table): nat -> Result<Key> {
    (p: nat) => ColumnKeyAt(t, p)
  }

  /** The sort key of a position once every key is known to be computable. */
  function PositionKey(t: Table): nat -> Key {
    OrLastOf<nat>(ColumnKeyOf(t))
  }

  /** `sorted(df.columns, key=custom_sort)` as positions. */
  function SortedPositions(t: Table): Result<seq<nat>> {
    SortWith(Range(|t.labels|), ColumnKeyOf(t))
  }

  /** `df[sorted(df.columns, key=custom_sort)]` */
  function SortColumns(t: Table): Result<Table> {
    var ps :- SortedPositions(t);
    Ok(Project(t, ps))
  }

  /** The key custom_sort gives a label (Last for a label it cannot read). */
  function LabelKey(l: Label): Key {
    OrLast(ColumnKey(l))
  }

  /** Reordering fails exactly when some label is not a string, which custom_sort cannot read. */
  lemma SortColumnsFails(t: Table)
    ensures SortColumns(t).Err? <==> exists j :: 0 <= j < |t.labels| && !t.labels[j].Name?
  {
    var n := |t.labels|;
    var f := ColumnKeyOf(t);
    if SortColumns(t).Err? {
      var i :| 0 <= i < n && f(Range(n)[i]).Err?;
      assert !t.labels[i].Name?;
    } else {
      forall j | 0 <= j < n ensures t.labels[j].Name? {
        assert f(Range(n)[j]).Ok?;
      }
    }
  }

  /**
   * Otherwise the new column order is a permutation of the positions that
   * puts the keys in order and keeps the columns of any one key in their
   * original order.
   */
  lemma SortedPositionsSpec(t: Table)
    requires SortedPositions(t).Ok?
    ensures var ps := SortedPositions(t).value;
            && multiset(ps) == multiset(Range(|t.labels|))
            && (forall k :: 0 <= k < |ps| ==> ps[k] < |t.labels|)
            && SortedBy(ps, PositionKey(t))
            && (forall k :: Filter(ps, HasKey(PositionKey(t), k)) == Filter(Range(|t.labels|), HasKey(PositionKey(t), k)))
  {
    var n := |t.labels|;
    var key := PositionKey(t);
    SortedPositionsOrder(t);
    forall k {
      SortByStable(Range(n), key, k);
    }
  }

  lemma SortedPositionsOrder(t: Table)
    requires SortedPositions(t).Ok?
    ensures var ps := SortedPositions(t).value;
            && |ps| == |t.labels|
            && (forall k :: 0 <= k < |ps| ==> ps[k] < |t.labels|)
            && SortedBy(ps, PositionKey(t))
            && ps == SortBy(Range(|t.labels|), PositionKey(t))
  {
    var n := |t.labels|;
    var ps := SortedPositions(t).value;
    var key := PositionKey(t);
    assert ps == SortBy(Range(n), key);
    assert |multiset(ps)| == |multiset(Range(n))|;
    forall k | 0 <= k < |ps| ensures ps[k] < n {
      assert ps[k] in multiset(Range(n));
    }
    SortBySorted(Range(n), key);
  }

  /** The reordered table keeps every row and moves whole columns. */
  lemma SortColumnsSpec(t: Table)
    requires Rectangular(t) && SortColumns(t).Ok?
    ensures var ps := SortedPositions(t).value;
            var r := SortColumns(t).value;
            && Rectangular(r) && |r.rows| == |t.rows| && |r.labels| == |t.labels| == |ps|
            && (forall k :: 0 <= k < |ps| ==> ps[k] < |t.labels| && r.labels[k] == t.labels[ps[k]])
            && (forall i, k :: 0 <= i < |t.rows| && 0 <= k < |ps| ==> r.rows[i][k] == t.rows[i][ps[k]])
  {
    SortedPositionsOrder(t);
    ProjectSpec(t, SortedPositions(t).value);
  }

  /** The reordered labels are in custom_sort order. */
  lemma SortColumnsInKeyOrder(t: Table)
    requires SortColumns(t).Ok?
    ensures var r := SortColumns(t).value;
            forall a, b :: 0 <= a < b < |r.labels| ==> KeyLe(LabelKey(r.labels[a]), LabelKey(r.labels[b]))
  {
    var ps := SortedPositions(t).value;
    SortedPositionsOrder(t);
    SortColumnsLabels(t);
    LabelsInKeyOrder(t, ps, SortColumns(t).value.labels);
  }

  lemma SortColumnsLabels(t: Table)
    requires SortColumns(t).Ok?
    ensures SortColumns(t).value.labels == Select(t.labels, SortedPositions(t).value, Unlabelled)
  {
  }

  /** Labels read at positions sorted by their key are in key order. */
  lemma LabelsInKeyOrder(t: Table, ps: seq<nat>, labels: seq<Label>)
    requires SortedBy(ps, PositionKey(t))
    requires |labels| == |ps| && forall k :: 0 <= k < |ps| ==> ps[k] < |t.labels| && labels[k] == t.labels[ps[k]]
    ensures forall a, b :: 0 <= a < b < |labels| ==> KeyLe(LabelKey(labels[a]), LabelKey(labels[b]))
  {
    forall a, b | 0 <= a < b < |labels| ensures KeyLe(LabelKey(labels[a]), LabelKey(labels[b])) {
      PositionKeyAt(t, ps[a]);
      PositionKeyAt(t, ps[b]);
    }
  }

  lemma PositionKeyAt(t: Table, p: nat)
    requires p < |t.labels|
    ensures PositionKey(t)(p) == LabelKey(t.labels[p])
  {
  }

  /** Columns already in key order, such as columns none of which is a flow key, are left where they are. */
  lemma SortColumnsInOrder(t: Table)
    requires Rectangular(t)
    requires forall j :: 0 <= j < |t.labels| ==> t.labels[j].Name?
    requires forall a, b :: 0 <= a < b < |t.labels| ==> KeyLe(LabelKey(t.labels[a]), LabelKey(t.labels[b]))
    ensures SortColumns(t) == Ok(t)
  {
    SortedPositionsInOrder(t);
    ProjectAll(t);
  }

  /** Labels already in key order sort to the positions in their own order. */
  lemma SortedPositionsInOrder(t: Table)
    requires forall j :: 0 <= j < |t.labels| ==> t.labels[j].Name?
    requires forall a, b :: 0 <= a < b < |t.labels| ==> KeyLe(LabelKey(t.labels[a]), LabelKey(t.labels[b]))
    ensures SortedPositions(t) == Ok(Range(|t.labels|))
  {
    var n := |t.labels|;
    var f := ColumnKeyOf(t);
    var key := PositionKey(t);
    assert FirstFailure(Range(n), f).None?;
    assert SortedBy(Range(n), key) by {
      forall a, b | 0 <= a < b < n ensures KeyLe(key(Range(n)[a]), key(Range(n)[b])) {
        assert key(a) == LabelKey(t.labels[a]);
        assert key(b) == LabelKey(t.labels[b]);
      }
    }
    SortBySortedInput(Range(n), key);
  }

  /** Projecting every position in order gives the table back. */
  lemma ProjectAll(t: Table)
    requires Rectangular(t)
    ensures Project(t, Range(|t.labels|)) == t
  {
    var n := |t.labels|;
    var r := Project(t, Range(n));
    assert r.labels == t.labels;
    forall i | 0 <= i < |t.rows| ensures r.rows[i] == t.rows[i] {
      assert Select(t.rows[i], Range(n), None) == t.rows[i];
    }
    assert r.rows == t.rows;
  }

  /** A table none of whose labels is a flow key keeps its column order. */
  lemma SortColumnsNoFlowKeys(t: Table)
    requires Rectangular(t)
    requires forall j :: 0 <= j < |t.labels| ==> t.labels[j].Name? && ColumnKey(t.labels[j]) == Ok(Last)
    ensures SortColumns(t) == Ok(t)
  {
    SortColumnsInOrder(t);
  }

  /** `columns[1:-1]`: every position but the first and the last. */
  function QuestionPositions(n: nat): seq<nat> {
    if n < 2 then [] else Span(1, n - 1)
  }

  lemma QuestionPositionsSpec(n: nat)
    ensures Increasing(QuestionPositions(n))
    ensures forall p: nat :: p in QuestionPositions(n) <==> 0 < p < n - 1
  {
    var ps := QuestionPositions(n);
    forall p: nat | 0 < p < n - 1 ensures p in ps {
      assert ps[p - 1] == p;
    }
  }

  // ---------------------------------------------------------------------------
  // The values of a question column

  /** A cell that holds a value. */
  predicate Present(c: Cell) {
    c.Some?
  }

  /** The values of the present cells, top to bottom. */
  function PresentValues(cells: seq<Cell>): (vs: seq<string>)
    ensures forall v :: v in vs <==> Some(v) in cells
    ensures |vs| == |Filter(cells, Present)|
    ensures forall k :: 0 <= k < |vs| ==> Filter(cells, Present)[k] == Some(vs[k])
  {
    if cells == [] then []
    else (if cells[0].Some? then [cells[0].value] else []) + PresentValues(cells[1..])
  }

  /** `[v for v in df[col].unique() if pd.notna(v)]` */
  function UniqueValues(t: Table, p: nat): (vs: seq<string>)
    ensures Distinct(vs)
    ensures forall v :: v in vs <==> exists i :: 0 <= i < |t.rows| && CellAt(t.rows[i], p) == Some(v)
  {
    var c := Column(t, p);
    FirstOccurrencesSpec(PresentValues(c));
    assert forall v :: Some(v) in c <==> exists i :: 0 <= i < |t.rows| && CellAt(t.rows[i], p) == Some(v);
    FirstOccurrences(PresentValues(c))
  }

  /**
   * The unique values come in the order of their first appearance down the
   * column: they are the present values read at the positions where a value
   * is seen for the first time.
   */
  lemma UniqueValuesOrder(t: Table, p: nat)
    ensures var present := PresentValues(Column(t, p));
            ReadAt(UniqueValues(t, p), present, FirstPositions(present))
  {
    FirstOccurrencesSpec(PresentValues(Column(t, p)));
  }

  /** The values in the order they are offered; a value with a non-numeric second field raises ValueError. */
  function SortedValues(t: Table, p: nat): Result<seq<string>> {
    SortWith(UniqueValues(t, p), ValueKey)
  }

  // ---------------------------------------------------------------------------
  // The user's choices and the plan they make

  /** What the user ticks and types on the page. */
  datatype Choices = Choices(
    dropQuestion: Label -> bool,               // "Drop entire Question"
    dropValue: (Label, string) -> bool,        // "Drop '<value>'"
    edit: (Label, string) -> Option<string>)   // the rename box, None when left as prefilled

  /** `simple_mappings.get(val, "")` as the box shows it. */
  function Autofill(simple: Assoc<string, Json>, v: string): (s: string)
    ensures Get(simple, v).Some? && Get(simple, v).value.JStr? ==> s == Get(simple, v).value.s
    ensures Get(simple, v).None? ==> s == ""
    ensures Get(simple, v).Some? && !Get(simple, v).value.JStr? ==> s == ""
  {
    var found: Option<Json> := Get(simple, v);
    if found.Some? && found.value.JStr? then found.value.s else ""
  }

  /** The text in the rename box of value `v` of column `col`. */
  function Readable(ch: Choices, simple: Assoc<string, Json>, col: Label, v: string): string {
    match ch.edit(col, v)
    case Some(s) => s
    case None => Autofill(simple, v)
  }

  /** One question column's share of the plan: its value renames and its dropped values. */
  datatype ColumnPlan = ColumnPlan(mappings: Assoc<string, string>, excluded: seq<string>)

  /** The value loop of one column, over the values in the order offered. */
  function ColumnChoices(ch: Choices, simple: Assoc<string, Json>, col: Label, vals: seq<string>): ColumnPlan {
    if vals == [] then ColumnPlan([], [])
    else
      var prev := ColumnChoices(ch, simple, col, vals[..|vals| - 1]);
      var v := vals[|vals| - 1];
      if ch.dropValue(col, v) then prev.(excluded := prev.excluded + [v])
      else
        var text := Readable(ch, simple, col, v);
        if text != "" then prev.(mappings := Put(prev.mappings, v, text)) else prev
  }

  /**
   * The dropped values are exactly the ticked ones; the renames are exactly
   * the other values with non-empty text, each to its text. So a dropped
   * value is never renamed.
   */
  lemma {:induction false} ColumnChoicesSpec(ch: Choices, simple: Assoc<string, Json>, col: Label, vals: seq<string>)
    ensures var cp := ColumnChoices(ch, simple, col, vals);
            && (forall v :: v in cp.excluded <==> v in vals && ch.dropValue(col, v))
            && (forall v :: v in Keys(cp.mappings) <==> v in vals && !ch.dropValue(col, v) && Readable(ch, simple, col, v) != "")
            && (forall v :: v in Keys(cp.mappings) ==> Get(cp.mappings, v) == Some(Readable(ch, simple, col, v)))
            && Distinct(Keys(cp.mappings))
            && (forall v :: v in cp.excluded ==> v !in Keys(cp.mappings))
  {
    if vals != [] {
      var init := vals[..|vals| - 1];
      var v := vals[|vals| - 1];
      ColumnChoicesSpec(ch, simple, col, init);
      assert forall x :: x in vals <==> x in init || x == v;
      var prev := ColumnChoices(ch, simple, col, init);
      if !ch.dropValue(col, v) {
        var text := Readable(ch, simple, col, v);
        if text != "" {
          PutKeys(prev.mappings, v, text);
          PutDistinct(prev.mappings, v, text);
          forall x | x in Keys(Put(prev.mappings, v, text))
            ensures Get(Put(prev.mappings, v, text), x) == Some(Readable(ch, simple, col, x))
          {
            GetPut(prev.mappings, v, text, x);
          }
        }
      }
    }
  }

  /** The inner loop of the page: offer each value, in order. */
  method CollectValueChoices(ch: Choices, simple: Assoc<string, Json>, col: Label, vals: seq<string>) returns (cp: ColumnPlan)
    ensures cp == ColumnChoices(ch, simple, col, vals)
  {
    var mappings: Assoc<string, string> := [];
    var excluded: seq<string> := [];
    var i := 0;
    while i < |vals|
      invariant i <= |vals|
      invariant ColumnPlan(mappings, excluded) == ColumnChoices(ch, simple, col, vals[..i])
    {
      var v := vals[i];
      assert vals[..i + 1][..i] == vals[..i];
      if ch.dropValue(col, v) {
        excluded := excluded + [v];
      } else {
        var text := Readable(ch, simple, col, v);
        if text != "" {
          mappings := Put(mappings, v, text);
        }
      }
      i := i + 1;
    }
    assert vals[..i] == vals;
    cp := ColumnPlan(mappings, excluded);
  }

  /** `drop_cols`, `keypress_mappings` and `excluded_flow_nos`. */
  datatype Plan = Plan(dropCols: seq<Label>, mappings: Assoc<Label, Assoc<string, string>>, excluded: Assoc<Label, seq<string>>)

  /** The outer loop body for one question column whose values are offered in the order `vals`. */
  function AddColumn(plan: Plan, ch: Choices, simple: Assoc<string, Json>, col: Label, vals: seq<string>): Plan {
    if ch.dropQuestion(col) then plan.(dropCols := plan.dropCols + [col])
    else
      var cp := ColumnChoices(ch, simple, col, vals);
      Plan(plan.dropCols,
           if cp.mappings != [] then Put(plan.mappings, col, cp.mappings) else plan.mappings,
           Put(plan.excluded, col, cp.excluded))
  }

  /** One pass of the outer loop: sort the values of column `p`, then add its choices. */
  function PlanStep(prev: Result<Plan>, t: Table, ch: Choices, simple: Assoc<string, Json>, p: nat): Result<Plan> {
    var plan :- prev;
    var vals :- SortedValues(t, p);
    Ok(AddColumn(plan, ch, simple, LabelAt(t, p), vals))
  }

  /** The outer loop over the given positions; the first column whose values cannot be sorted stops it. */
  function PlanFrom(t: Table, ch: Choices, simple: Assoc<string, Json>, ps: seq<nat>): Result<Plan> {
    if ps == [] then Ok(Plan([], [], []))
    else PlanStep(PlanFrom(t, ch, simple, ps[..|ps| - 1]), t, ch, simple, ps[|ps| - 1])
  }

  /** The plan the page builds from the question columns. */
  function PlanOf(t: Table, ch: Choices, simple: Assoc<string, Json>): Result<Plan> {
    PlanFrom(t, ch, simple, QuestionPositions(|t.labels|))
  }

  /** The loop's plan after `i + 1` positions is one step from its plan after `i`. */
  lemma PlanFromPrefix(t: Table, ch: Choices, simple: Assoc<string, Json>, ps: seq<nat>, i: nat)
    requires i < |ps|
    ensures PlanFrom(t, ch, simple, ps[..i + 1]) == PlanStep(PlanFrom(t, ch, simple, ps[..i]), t, ch, simple, ps[i])
  {
    assert ps[..i + 1][..i] == ps[..i];
  }

  /** Once a prefix of the positions fails, the whole loop fails the same way. */
  lemma {:induction false} PlanFailurePersists(t: Table, ch: Choices, simple: Assoc<string, Json>, ps: seq<nat>, i: nat)
    requires i <= |ps| && PlanFrom(t, ch, simple, ps[..i]).Err?
    ensures PlanFrom(t, ch, simple, ps) == PlanFrom(t, ch, simple, ps[..i])
  {
    if i < |ps| {
      var init := ps[..|ps| - 1];
      assert init[..i] == ps[..i];
      PlanFailurePersists(t, ch, simple, init, i);
      var failed := PlanFrom(t, ch, simple, init);
      assert PlanFrom(t, ch, simple, ps) == PlanStep(failed, t, ch, simple, ps[|ps| - 1]);
    } else {
      assert ps[..i] == ps;
    }
  }

  /**
   * The collection loops of the page (values are sorted before the drop
   * box is read, so a column that is dropped can still raise ValueError).
   */
  method CollectPlan(t: Table, ch: Choices, simple: Assoc<string, Json>) returns (r: Result<Plan>)
    ensures r == PlanOf(t, ch, simple)
  {
    var ps := QuestionPositions(|t.labels|);
    var plan := Plan([], [], []);
    var i := 0;
    while i < |ps|
      invariant i <= |ps|
      invariant PlanFrom(t, ch, simple, ps[..i]) == Ok(plan)
    {
      var p := ps[i];
      var col := LabelAt(t, p);
      PlanFromPrefix(t, ch, simple, ps, i);
      var sorted := SortedValues(t, p);
      if sorted.Err? {
        PlanFailurePersists(t, ch, simple, ps, i + 1);
        return Err(sorted.failure);
      }
      if ch.dropQuestion(col) {
        plan := plan.(dropCols := plan.dropCols + [col]);
      } else {
        var cp := CollectValueChoices(ch, simple, col, sorted.value);
        if cp.mappings != [] {
          plan := plan.(mappings := Put(plan.mappings, col, cp.mappings));
        }
        plan := plan.(excluded := Put(plan.excluded, col, cp.excluded));
      }
      i := i + 1;
    }
    assert ps[..i] == ps;
    r := Ok(plan);
  }

  /**
   * What the decode step relies on: a column with renames has its list of
   * dropped values, none of which it renames, and its renames are not empty.
   */
  ghost predicate PlanSound(plan: Plan) {
    forall col :: Get(plan.mappings, col).Some? ==>
      && Get(plan.mappings, col).value != []
      && Get(plan.excluded, col).Some?
      && forall v :: v in Get(plan.excluded, col).value ==> v !in Keys(Get(plan.mappings, col).value)
  }

  /** Every column in the plan's dictionaries is the label of one of the positions visited. */
  ghost predicate PlanFromPositions(t: Table, plan: Plan, ps: seq<nat>) {
    && (forall col :: col in Keys(plan.mappings) ==> exists k :: 0 <= k < |ps| && LabelAt(t, ps[k]) == col)
    && (forall col :: col in Keys(plan.excluded) ==> exists k :: 0 <= k < |ps| && LabelAt(t, ps[k]) == col)
  }

  lemma {:induction false} PlanFromSound(t: Table, ch: Choices, simple: Assoc<string, Json>, ps: seq<nat>)
    requires Distinct(t.labels) && Increasing(ps)
    requires forall k :: 0 <= k < |ps| ==> ps[k] < |t.labels|
    requires PlanFrom(t, ch, simple, ps).Ok?
    ensures PlanSound(PlanFrom(t, ch, simple, ps).value)
    ensures PlanFromPositions(t, PlanFrom(t, ch, simple, ps).value, ps)
  {
    if ps != [] {
      var init := ps[..|ps| - 1];
      var p := ps[|ps| - 1];
      var col := LabelAt(t, p);
      PlanFromSound(t, ch, simple, init);
      var prev := PlanFrom(t, ch, simple, init).value;
      FreshColumn(t, prev, ps);
      var vals := SortedValues(t, p).value;
      if !ch.dropQuestion(col) {
        var cp := ColumnChoices(ch, simple, col, vals);
        ColumnChoicesSpec(ch, simple, col, vals);
        AddColumnSound(prev, col, cp);
      }
      AddColumnPositions(t, prev, ch, simple, vals, ps);
    }
  }

  /** The label of the last position is none of the columns the earlier positions put in the plan. */
  lemma FreshColumn(t: Table, prev: Plan, ps: seq<nat>)
    requires Distinct(t.labels) && Increasing(ps) && ps != []
    requires forall k :: 0 <= k < |ps| ==> ps[k] < |t.labels|
    requires PlanFromPositions(t, prev, ps[..|ps| - 1])
    ensures LabelAt(t, ps[|ps| - 1]) !in Keys(prev.mappings) && LabelAt(t, ps[|ps| - 1]) !in Keys(prev.excluded)
  {
    var init := ps[..|ps| - 1];
    var p := ps[|ps| - 1];
    forall k | 0 <= k < |init| ensures LabelAt(t, init[k]) != LabelAt(t, p) {
      assert init[k] == ps[k];
      assert ps[k] < p;
      assert t.labels[ps[k]] != t.labels[p];
    }
  }

  /** Adding the column of the last position keeps every planned column the label of a visited position. */
  lemma AddColumnPositions(t: Table, prev: Plan, ch: Choices, simple: Assoc<string, Json>, vals: seq<string>, ps: seq<nat>)
    requires ps != [] && PlanFromPositions(t, prev, ps[..|ps| - 1])
    ensures PlanFromPositions(t, AddColumn(prev, ch, simple, LabelAt(t, ps[|ps| - 1]), vals), ps)
  {
    var init := ps[..|ps| - 1];
    var col := LabelAt(t, ps[|ps| - 1]);
    AddColumnKeys(prev, ch, simple, col, vals);
    forall c | c in Keys(prev.mappings) || c in Keys(prev.excluded)
      ensures exists k :: 0 <= k < |ps| && LabelAt(t, ps[k]) == c
    {
      var k :| 0 <= k < |init| && LabelAt(t, init[k]) == c;
      assert ps[k] == init[k];
    }
    assert LabelAt(t, ps[|ps| - 1]) == col;
  }

  /** Adding a column puts no column but that one into the plan's dictionaries. */
  lemma AddColumnKeys(prev: Plan, ch: Choices, simple: Assoc<string, Json>, col: Label, vals: seq<string>)
    ensures var plan := AddColumn(prev, ch, simple, col, vals);
            && (forall c :: c in Keys(plan.mappings) ==> c in Keys(prev.mappings) || c == col)
            && (forall c :: c in Keys(plan.excluded) ==> c in Keys(prev.excluded) || c == col)
  {
    var cp := ColumnChoices(ch, simple, col, vals);
    PutKeys(prev.excluded, col, cp.excluded);
    PutKeys(prev.mappings, col, cp.mappings);
  }

  /** Adding a fresh column keeps the plan sound. */
  lemma AddColumnSound(prev: Plan, col: Label, cp: ColumnPlan)
    requires PlanSound(prev) && col !in Keys(prev.mappings)
    requires forall v :: v in cp.excluded ==> v !in Keys(cp.mappings)
    ensures PlanSound(Plan(prev.dropCols,
                           if cp.mappings != [] then Put(prev.mappings, col, cp.mappings) else prev.mappings,
                           Put(prev.excluded, col, cp.excluded)))
  {
    var mappings := if cp.mappings != [] then Put(prev.mappings, col, cp.mappings) else prev.mappings;
    var excluded := Put(prev.excluded, col, cp.excluded);
    forall c | Get(mappings, c).Some?
      ensures Get(mappings, c).value != [] && Get(excluded, c).Some?
      ensures forall v :: v in Get(excluded, c).value ==> v !in Keys(Get(mappings, c).value)
    {
      GetPut(prev.excluded, col, cp.excluded, c);
      if cp.mappings != [] {
        GetPut(prev.mappings, col, cp.mappings, c);
      }
    }
  }

  /**
   * With distinct labels the plan the page builds never renames a value the
   * user dropped in the same column, and holds only non-empty rename maps.
   */
  lemma PlanOfSound(t: Table, ch: Choices, simple: Assoc<string, Json>)
    requires Distinct(t.labels) && PlanOf(t, ch, simple).Ok?
    ensures PlanSound(PlanOf(t, ch, simple).value)
  {
    var ps := QuestionPositions(|t.labels|);
    forall k | 0 <= k < |ps| ensures ps[k] < |t.labels| {
      assert ps[k] in ps;
    }
    PlanFromSound(t, ch, simple, ps);
  }

  /** Sorting happens before the drop box is read: any value that cannot be keyed fails the plan. */
  lemma PlanOfFails(t: Table, ch: Choices, simple: Assoc<string, Json>, p: nat)
    requires 0 < p < |t.labels| - 1 && SortedValues(t, p).Err?
    ensures PlanOf(t, ch, simple).Err?
  {
    var ps := QuestionPositions(|t.labels|);
    var k := p - 1;
    assert ps[k] == p;
    PlanFromPrefix(t, ch, simple, ps, k);
    if PlanFrom(t, ch, simple, ps[..k]).Err? {
      PlanFailurePersists(t, ch, simple, ps, k);
    } else {
      PlanFailurePersists(t, ch, simple, ps, k + 1);
    }
  }

  // ---------------------------------------------------------------------------
  // Applying the plan

  /** `map(renames).fillna(original)`: a renamed value becomes its text; other values and missing cells stay. */
  function DecodeCell(m: Assoc<string, string>, c: Cell): (r: Cell)
    ensures r.None? <==> c.None?
    ensures c.Some? && Get(m, c.value).Some? ==> r == Get(m, c.value)
    ensures c.Some? && Get(m, c.value).None? ==> r == c
  {
    match c
    case None => None
    case Some(v) => if Get(m, v).Some? then Get(m, v) else c
  }

  function Decoding(m: Assoc<string, string>): Cell -> Cell {
    (c: Cell) => DecodeCell(m, c)
  }

  /** `df[df[col] != v]`: a missing cell is not equal to anything and stays. */
  function Keeps(j: nat, v: string): Row -> bool {
    (row: Row) => CellAt(row, j) != Some(v)
  }

  /** What the whole exclusion loop keeps: a row none of whose column-`j` cell is an excluded value. */
  function KeepsAll(j: nat, vs: seq<string>): Row -> bool {
    (row: Row) => forall v :: v in vs ==> CellAt(row, j) != Some(v)
  }

  /** The exclusion loop of one column. */
  function Exclude(t: Table, j: nat, vs: seq<string>): Table {
    if vs == [] then t else FilterRows(Exclude(t, j, vs[..|vs| - 1]), Keeps(j, vs[|vs| - 1]))
  }

  function ExcludedOf(excluded: Assoc<Label, seq<string>>, col: Label): seq<string> {
    match Get(excluded, col)
    case Some(vs) => vs
    case None => []
  }

  /** One column of `keypress_mappings`: rename its values, then drop the rows holding an excluded value. */
  function DecodeColumn(t: Table, col: Label, m: Assoc<string, string>, excluded: Assoc<Label, seq<string>>): Table {
    match Find(t.labels, col)
    case None => t
    case Some(j) => Exclude(MapColumn(t, j, Decoding(m)), j, ExcludedOf(excluded, col))
  }

  /** The loop over `keypress_mappings`, in its order. */
  function DecodeAll(t: Table, km: Assoc<Label, Assoc<string, string>>, excluded: Assoc<Label, seq<string>>): Table {
    if km == [] then t
    else
      var last := km[|km| - 1];
      DecodeColumn(DecodeAll(t, km[..|km| - 1], excluded), last.0, last.1, excluded)
  }

  /** `drop(columns=drop_cols)` when there is something to drop. */
  function DropStep(t: Table, dropCols: seq<Label>): Result<Table> {
    if dropCols != [] then DropColumns(t, dropCols) else Ok(t)
  }

  function IncomeOf(j: nat): Row -> Cell {
    (row: Row) => ClassifyIncome(CellAt(row, j))
  }

  /** `insert(get_loc('IncomeRange') + 1, 'IncomeGroup', ...)` when there is an IncomeRange column. */
  function AddIncomeGroup(t: Table): Result<Table> {
    match Find(t.labels, Name("IncomeRange"))
    case None => Ok(t)
    case Some(j) => InsertColumn(t, j + 1, Name("IncomeGroup"), IncomeOf(j))
  }

  /** `(count / denominator) * 100 if denominator > 0 else 0` */
  function Rate(count: nat, denominator: nat): (r: real)
    ensures denominator == 0 ==> r == 0.0
    ensures 0.0 <= r
    ensures count <= denominator ==> r <= 100.0
    ensures denominator > 0 ==> r * denominator as real == count as real * 100.0
  {
    if denominator > 0 then (count as real / denominator as real) * 100.0 else 0.0
  }

  /** The decoded table and the final statistics. */
  datatype Decoded = Decoded(table: Table, totalCRs: nat, pickUpRate: real, crRate: real)

  /**
   * The "Decode Keypresses" step: drop the dropped questions, decode and
   * filter each mapped column, add IncomeGroup, drop repeated rows (reading
   * the Set column raises KeyError when there is none), drop rows with a
   * missing cell, and count.
   */
  function Decode(t: Table, plan: Plan, totalCalls: nat, totalPickups: nat): Result<Decoded> {
    var kept :- DropStep(t, plan.dropCols);
    var grouped :- AddIncomeGroup(DecodeAll(kept, plan.mappings, plan.excluded));
    Finish(grouped, totalCalls, totalPickups)
  }

  /** The clean-up after IncomeGroup: drop repeated rows, check for Set, drop incomplete rows, count. */
  function Finish(grouped: Table, totalCalls: nat, totalPickups: nat): Result<Decoded> {
    var unique := DropDuplicateRows(grouped);
    if Name("Set") !in unique.labels then Err(KeyError("Set"))
    else
      var final := DropIncompleteRows(unique);
      Ok(Decoded(final, |final.rows|, Rate(totalPickups, totalCalls), Rate(|final.rows|, totalPickups)))
  }

  /** The decode step as the page runs it, updating the table in place. */
  method DecodeKeypresses(t: Table, plan: Plan, totalCalls: nat, totalPickups: nat) returns (r: Result<Decoded>)
    ensures r == Decode(t, plan, totalCalls, totalPickups)
  {
    var data := t;
    if plan.dropCols != [] {
      var dropped := DropColumns(data, plan.dropCols);
      if dropped.Err? {
        return Err(dropped.failure);
      }
      data := dropped.value;
    }
    data := ApplyMappings(data, plan.mappings, plan.excluded);
    var grouped := AddIncomeGroup(data);
    if grouped.Err? {
      return Err(grouped.failure);
    }
    data := DropDuplicateRows(grouped.value);
    if Name("Set") !in data.labels {
      return Err(KeyError("Set"));
    }
    data := DropIncompleteRows(data);
    r := Ok(Decoded(data, |data.rows|, Rate(totalPickups, totalCalls), Rate(|data.rows|, totalPickups)));
  }

  /** The loop over `keypress_mappings`: decode each column that is still there, then drop its excluded values. */
  method ApplyMappings(t: Table, km: Assoc<Label, Assoc<string, string>>, excluded: Assoc<Label, seq<string>>) returns (data: Table)
    ensures data == DecodeAll(t, km, excluded)
  {
    data := t;
    var i := 0;
    while i < |km|
      invariant i <= |km|
      invariant data == DecodeAll(t, km[..i], excluded)
    {
      var col := km[i].0;
      assert km[..i + 1][..i] == km[..i];
      var found := Find(data.labels, col);
      if found.Some? {
        var j := found.value;
        data := MapColumn(data, j, Decoding(km[i].1));
        data := ExcludeValues(data, j, ExcludedOf(excluded, col));
      }
      i := i + 1;
    }
    assert km[..i] == km;
  }

  /** `for v in excluded: df = df[df[col] != v]` */
  method ExcludeValues(t: Table, j: nat, vs: seq<string>) returns (data: Table)
    ensures data == Exclude(t, j, vs)
  {
    data := t;
    var k := 0;
    while k < |vs|
      invariant k <= |vs|
      invariant data == Exclude(t, j, vs[..k])
    {
      assert vs[..k + 1][..k] == vs[..k];
      data := FilterRows(data, Keeps(j, vs[k]));
      k := k + 1;
    }
    assert vs[..k] == vs;
  }

  // ---------------------------------------------------------------------------
  // What decoding guarantees

  /**
   * Excluding keeps the labels, drops exactly the rows holding an excluded
   * value, and keeps the order of the remaining rows: they are the rows at
   * the positions where no excluded value sits, read in increasing order.
   */
  lemma ExcludeSpec(t: Table, j: nat, vs: seq<string>)
    ensures Exclude(t, j, vs).labels == t.labels
    ensures |Exclude(t, j, vs).rows| <= |t.rows|
    ensures forall row :: row in Exclude(t, j, vs).rows <==> row in t.rows && forall v :: v in vs ==> CellAt(row, j) != Some(v)
    ensures ReadAt(Exclude(t, j, vs).rows, t.rows, Where(t.rows, KeepsAll(j, vs)))
  {
    ExcludeRows(t, j, vs);
    ExcludeIsFilter(t, j, vs);
    FilterAt(t.rows, KeepsAll(j, vs));
  }

  lemma {:induction false} ExcludeRows(t: Table, j: nat, vs: seq<string>)
    ensures Exclude(t, j, vs).labels == t.labels
    ensures |Exclude(t, j, vs).rows| <= |t.rows|
    ensures forall row :: row in Exclude(t, j, vs).rows <==> row in t.rows && forall v :: v in vs ==> CellAt(row, j) != Some(v)
  {
    if vs != [] {
      var init := vs[..|vs| - 1];
      ExcludeRows(t, j, init);
      assert forall v :: v in vs <==> v in init || v == vs[|vs| - 1];
    }
  }

  /** The exclusion loop filters once, by all the excluded values together. */
  lemma {:induction false} ExcludeIsFilter(t: Table, j: nat, vs: seq<string>)
    ensures Exclude(t, j, vs).rows == Filter(t.rows, KeepsAll(j, vs))
  {
    if vs == [] {
      FilterAll(t.rows, KeepsAll(j, vs));
    } else {
      var init := vs[..|vs| - 1];
      var last := vs[|vs| - 1];
      ExcludeIsFilter(t, j, init);
      assert forall v :: v in vs <==> v in init || v == last;
      FilterFilter(t.rows, KeepsAll(j, init), Keeps(j, last), KeepsAll(j, vs));
    }
  }

  /** Renaming a column changes no other column and keeps every row's length. */
  lemma MapColumnSpec(t: Table, j: nat, f: Cell -> Cell)
    ensures MapColumn(t, j, f).labels == t.labels && |MapColumn(t, j, f).rows| == |t.rows|
    ensures forall i :: 0 <= i < |t.rows| ==>
              |MapColumn(t, j, f).rows[i]| == |t.rows[i]|
              && CellAt(MapColumn(t, j, f).rows[i], j) == (if j < |t.rows[i]| then f(t.rows[i][j]) else None)
              && forall j' :: j' != j ==> CellAt(MapColumn(t, j, f).rows[i], j') == CellAt(t.rows[i], j')
  {
  }

  /** A row whose cell in column `j` has no excluded value left stays that way when another column is decoded. */
  lemma DecodeColumnKeeps(t: Table, col: Label, m: Assoc<string, string>, excluded: Assoc<Label, seq<string>>, j: nat, v: string)
    requires j < |t.labels| && t.labels[j] != col
    requires forall row :: row in t.rows ==> CellAt(row, j) != Some(v)
    ensures DecodeColumn(t, col, m, excluded).labels == t.labels
    ensures forall row :: row in DecodeColumn(t, col, m, excluded).rows ==> CellAt(row, j) != Some(v)
  {
    match Find(t.labels, col)
    case None =>
    case Some(j') =>
      var mapped := MapColumn(t, j', Decoding(m));
      MapColumnSpec(t, j', Decoding(m));
      ExcludeRows(mapped, j', ExcludedOf(excluded, col));
      forall row | row in mapped.rows ensures CellAt(row, j) != Some(v) {
        var i :| 0 <= i < |mapped.rows| && mapped.rows[i] == row;
        assert t.rows[i] in t.rows;
      }
  }

  /** Decoding a column leaves none of its excluded values in it. */
  lemma DecodeColumnExcludes(t: Table, col: Label, m: Assoc<string, string>, excluded: Assoc<Label, seq<string>>, v: string)
    requires col in t.labels && v in ExcludedOf(excluded, col)
    ensures DecodeColumn(t, col, m, excluded).labels == t.labels
    ensures forall row :: row in DecodeColumn(t, col, m, excluded).rows ==> CellAt(row, Find(t.labels, col).value) != Some(v)
  {
    var j := Find(t.labels, col).value;
    MapColumnSpec(t, j, Decoding(m));
    ExcludeRows(MapColumn(t, j, Decoding(m)), j, ExcludedOf(excluded, col));
  }

  lemma {:induction false} DecodeAllLabels(t: Table, km: Assoc<Label, Assoc<string, string>>, excluded: Assoc<Label, seq<string>>)
    ensures DecodeAll(t, km, excluded).labels == t.labels
    ensures |DecodeAll(t, km, excluded).rows| <= |t.rows|
    ensures Rectangular(t) ==> Rectangular(DecodeAll(t, km, excluded))
  {
    if km != [] {
      var prev := DecodeAll(t, km[..|km| - 1], excluded);
      DecodeAllLabels(t, km[..|km| - 1], excluded);
      var col := km[|km| - 1].0;
      match Find(prev.labels, col)
      case None =>
      case Some(j) =>
        var mapped := MapColumn(prev, j, Decoding(km[|km| - 1].1));
        MapColumnSpec(prev, j, Decoding(km[|km| - 1].1));
        ExcludeRows(mapped, j, ExcludedOf(excluded, col));
        if Rectangular(t) {
          forall row | row in DecodeAll(t, km, excluded).rows ensures |row| == |t.labels| {
            var i :| 0 <= i < |mapped.rows| && mapped.rows[i] == row;
          }
        }
    }
  }

  /**
   * After decoding, no column of `keypress_mappings` holds any of its
   * excluded values (compared after renaming), whatever the other columns
   * did.
   */
  lemma {:induction false} DecodeAllExcludes(t: Table, km: Assoc<Label, Assoc<string, string>>, excluded: Assoc<Label, seq<string>>, i: nat, v: string)
    requires Distinct(Keys(km)) && i < |km|
    requires km[i].0 in t.labels && v in ExcludedOf(excluded, km[i].0)
    ensures forall row :: row in DecodeAll(t, km, excluded).rows ==> CellAt(row, Find(t.labels, km[i].0).value) != Some(v)
  {
    var init := km[..|km| - 1];
    var col := km[i].0;
    var j := Find(t.labels, col).value;
    var prev := DecodeAll(t, init, excluded);
    DecodeAllLabels(t, init, excluded);
    assert Keys(init) == Keys(km)[..|km| - 1];
    if i == |km| - 1 {
      DecodeColumnExcludes(prev, col, km[i].1, excluded, v);
    } else {
      DecodeAllExcludes(t, init, excluded, i, v);
      assert km[|km| - 1].0 != col by {
        assert Keys(km)[i] == col;
      }
      DecodeColumnKeeps(prev, km[|km| - 1].0, km[|km| - 1].1, excluded, j, v);
    }
  }

  /** A row with a missing cell in the column is never dropped by its exclusion. */
  lemma ExcludeKeepsMissing(t: Table, j: nat, vs: seq<string>)
    ensures forall row :: row in t.rows && CellAt(row, j).None? ==> row in Exclude(t, j, vs).rows
  {
    ExcludeRows(t, j, vs);
  }

  /**
   * The outcome of decoding: it fails when a dropped question is not a
   * column, when IncomeGroup already exists next to IncomeRange, or when
   * there is no Set column; otherwise no dropped question is left (only
   * IncomeGroup can come back, next to IncomeRange), every row is complete
   * and unique, the rows never outnumber the input's, and the counts are
   * those rows.
   */
  lemma DecodeSpec(t: Table, plan: Plan, totalCalls: nat, totalPickups: nat)
    requires Rectangular(t)
    ensures var d := Decode(t, plan, totalCalls, totalPickups);
            var kept := DropStep(t, plan.dropCols);
            && (d.Err? <==> kept.Err? || Name("Set") !in kept.value.labels
                            || (Name("IncomeRange") in kept.value.labels && Name("IncomeGroup") in kept.value.labels))
            && (d.Ok? ==>
                  && Name("Set") in d.value.table.labels
                  && (forall l :: l in plan.dropCols && l != Name("IncomeGroup") ==> l !in d.value.table.labels)
                  && Rectangular(d.value.table)
                  && (forall i :: 0 <= i < |d.value.table.rows| ==> Complete(d.value.table.rows[i]))
                  && Distinct(d.value.table.rows)
                  && |d.value.table.rows| <= |t.rows|
                  && d.value.totalCRs == |d.value.table.rows|
                  && d.value.pickUpRate == Rate(totalPickups, totalCalls)
                  && d.value.crRate == Rate(d.value.totalCRs, totalPickups))
  {
    var kept := DropStep(t, plan.dropCols);
    if kept.Ok? {
      var k := kept.value;
      KeptShape(t, plan.dropCols);
      var decoded := DecodeAll(k, plan.mappings, plan.excluded);
      DecodeAllLabels(k, plan.mappings, plan.excluded);
      var grouped := AddIncomeGroup(decoded);
      AddIncomeGroupSpec(decoded, Name("Set"));
      if grouped.Ok? {
        FinishSpec(grouped.value, totalCalls, totalPickups);
        DropStepLabels(t, plan.dropCols);
        forall l | l in plan.dropCols && l != Name("IncomeGroup") ensures l !in grouped.value.labels {
          AddIncomeGroupSpec(decoded, l);
        }
      }
    }
  }

  /**
   * Inserting IncomeGroup fails exactly when both IncomeRange and
   * IncomeGroup are already columns; otherwise every other label is still
   * there and no new row appears.
   */
  lemma AddIncomeGroupSpec(d: Table, l: Label)
    requires l != Name("IncomeGroup")
    ensures AddIncomeGroup(d).Err? <==> Name("IncomeRange") in d.labels && Name("IncomeGroup") in d.labels
    ensures AddIncomeGroup(d).Ok? ==> (l in AddIncomeGroup(d).value.labels <==> l in d.labels)
    ensures AddIncomeGroup(d).Ok? ==> |AddIncomeGroup(d).value.rows| == |d.rows|
    ensures AddIncomeGroup(d).Ok? && Rectangular(d) ==> Rectangular(AddIncomeGroup(d).value)
  {
    match Find(d.labels, Name("IncomeRange"))
    case None =>
    case Some(j) =>
      var ls := d.labels;
      assert ls == ls[..j + 1] + ls[j + 1..];
      assert l in ls[..j + 1] + [Name("IncomeGroup")] + ls[j + 1..] <==> l in ls[..j + 1] + ls[j + 1..];
  }

  /** The clean-up fails only for want of a Set column, and otherwise leaves complete, distinct rows. */
  lemma FinishSpec(g: Table, totalCalls: nat, totalPickups: nat)
    requires Rectangular(g)
    ensures var d := Finish(g, totalCalls, totalPickups);
            && (d.Err? <==> Name("Set") !in g.labels)
            && (d.Ok? ==>
                  && d.value.table.labels == g.labels
                  && Rectangular(d.value.table)
                  && (forall i :: 0 <= i < |d.value.table.rows| ==> Complete(d.value.table.rows[i]))
                  && Distinct(d.value.table.rows)
                  && |d.value.table.rows| <= |g.rows|
                  && d.value.totalCRs == |d.value.table.rows|
                  && d.value.pickUpRate == Rate(totalPickups, totalCalls)
                  && d.value.crRate == Rate(d.value.totalCRs, totalPickups))
  {
    var unique := DropDuplicateRows(g);
    FirstOccurrencesSpec(g.rows);
    var final := DropIncompleteRows(unique);
    FilterDistinct(unique.rows, Complete);
    forall i | 0 <= i < |final.rows| ensures |final.rows[i]| == |final.labels| {
      assert final.rows[i] in unique.rows;
    }
  }

  /** Dropping columns keeps every row and a rectangular shape. */
  lemma KeptShape(t: Table, dropCols: seq<Label>)
    requires Rectangular(t) && DropStep(t, dropCols).Ok?
    ensures Rectangular(DropStep(t, dropCols).value) && |DropStep(t, dropCols).value.rows| == |t.rows|
  {
    if dropCols != [] {
      DropColumnsSpec(t, dropCols);
    }
  }

  /** After the drop step no dropped question is a column, and every other column is still there. */
  lemma DropStepLabels(t: Table, dropCols: seq<Label>)
    requires Rectangular(t) && DropStep(t, dropCols).Ok?
    ensures forall l :: l in DropStep(t, dropCols).value.labels <==> l in t.labels && l !in dropCols
  {
    if dropCols != [] {
      DropColumnsSpec(t, dropCols);
    }
  }

  /** The steps of a successful decode. */
  lemma DecodeSteps(t: Table, plan: Plan, totalCalls: nat, totalPickups: nat)
    requires Decode(t, plan, totalCalls, totalPickups).Ok?
    ensures DropStep(t, plan.dropCols).Ok?
    ensures var decoded := DecodeAll(DropStep(t, plan.dropCols).value, plan.mappings, plan.excluded);
            && AddIncomeGroup(decoded).Ok?
            && Decode(t, plan, totalCalls, totalPickups).value.table
                 == DropIncompleteRows(DropDuplicateRows(AddIncomeGroup(decoded).value))
  {
  }

  /** Every row after the insertion holds the group of its own income band right after it. */
  lemma IncomeGroupRows(d: Table, j: nat)
    requires Rectangular(d) && Find(d.labels, Name("IncomeRange")) == Some(j) && AddIncomeGroup(d).Ok?
    ensures var g := AddIncomeGroup(d).value;
            && g.labels == d.labels[..j + 1] + [Name("IncomeGroup")] + d.labels[j + 1..]
            && forall row :: row in g.rows ==> |row| == |g.labels| && row[j + 1] == ClassifyIncome(row[j])
  {
    var g := AddIncomeGroup(d).value;
    assert g == InsertColumn(d, j + 1, Name("IncomeGroup"), IncomeOf(j)).value;
    forall row | row in g.rows ensures |row| == |g.labels| && row[j + 1] == ClassifyIncome(row[j]) {
      var i :| 0 <= i < |g.rows| && g.rows[i] == row;
      var old_row := d.rows[i];
      assert row == old_row[..j + 1] + [IncomeOf(j)(old_row)] + old_row[j + 1..];
      assert row[j] == old_row[j];
    }
  }

  /** Each row has an income band at `j` and its group right after it. */
  predicate IncomeGrouped(t: Table, j: nat) {
    forall i :: 0 <= i < |t.rows| ==>
      && j + 1 < |t.rows[i]|
      && t.rows[i][j] in {Some(Band1), Some(Band2), Some(Band3), Some(Band4)}
      && t.rows[i][j + 1] == ClassifyIncome(t.rows[i][j])
      && t.rows[i][j + 1] in {Some("B40"), Some("M40"), Some("T20")}
  }

  /** Once the rows with a missing cell are gone, only classified incomes remain. */
  lemma CleanupKeepsGroups(g: Table, j: nat)
    requires forall row :: row in g.rows ==> j + 1 < |row| && row[j + 1] == ClassifyIncome(row[j])
    ensures IncomeGrouped(DropIncompleteRows(DropDuplicateRows(g)), j)
  {
    var unique := DropDuplicateRows(g);
    var final := DropIncompleteRows(unique);
    FirstOccurrencesSpec(g.rows);
    forall i | 0 <= i < |final.rows|
      ensures j + 1 < |final.rows[i]| && final.rows[i][j + 1] == ClassifyIncome(final.rows[i][j])
      ensures final.rows[i][j + 1].Some?
    {
      var row := final.rows[i];
      assert row in unique.rows && Complete(row);
      assert row in g.rows;
    }
  }

  /**
   * IncomeGroup sits right after IncomeRange and no other column moves;
   * in every decoded row it is the group of that row's income band, so
   * the rows whose income is not one of the four bands are gone.
   */
  lemma DecodeIncome(t: Table, plan: Plan, totalCalls: nat, totalPickups: nat)
    requires Rectangular(t)
    requires Decode(t, plan, totalCalls, totalPickups).Ok?
    requires Name("IncomeRange") in DropStep(t, plan.dropCols).value.labels
    ensures var labels := DropStep(t, plan.dropCols).value.labels;
            var j := Find(labels, Name("IncomeRange")).value;
            var final := Decode(t, plan, totalCalls, totalPickups).value.table;
            && final.labels == labels[..j + 1] + [Name("IncomeGroup")] + labels[j + 1..]
            && IncomeGrouped(final, j)
  {
    DecodeSteps(t, plan, totalCalls, totalPickups);
    var k := DropStep(t, plan.dropCols).value;
    KeptShape(t, plan.dropCols);
    var decoded := DecodeAll(k, plan.mappings, plan.excluded);
    DecodeAllLabels(k, plan.mappings, plan.excluded);
    var j := Find(k.labels, Name("IncomeRange")).value;
    IncomeGroupRows(decoded, j);
    var g := AddIncomeGroup(decoded).value;
    CleanupKeepsGroups(g, j);
    var final := DropIncompleteRows(DropDuplicateRows(g));
    assert final.labels == g.labels;
    assert Decode(t, plan, totalCalls, totalPickups).value.table == final;
  }

  /** Filtering keeps a sequence free of repeats. */
  lemma FilterDistinct<T>(s: seq<T>, p: T -> bool)
    requires Distinct(s)
    ensures Distinct(Filter(s, p))
  {
    FilterDistinctBy(s, p, (x: T) => x);
  }
}
