/**
 * The per-file record normaliser of the data cleaner (`process_file`) and the
 * concatenation of its outputs (`merger`). The CSV has already been read into
 * a table of up to 100 unnamed columns, one row per line after the first.
 */
module Normaliser {
  import opened Wrappers
  import opened Seqs
  import opened Tables

  const PhoneNo: Label := Name("PhoneNo")
  const UserKeyPress: Label := Name("UserKeyPress")

  /** A header cell as a column label: an empty cell gives a NaN label. */
  function HeaderLabel(c: Cell): Label {
    if c.Some? then Name(c.value) else Unlabelled
  }

  /**
   * `df.columns = df.iloc[0]`: the first row becomes the labels and stays in
   * the data. A table without rows raises IndexError.
   */
  function PromoteHeader(df: Table): (r: Result<Table>)
    ensures r.Err? <==> df.rows == []
    ensures r == Err(IndexError) || r.Ok?
    ensures r.Ok? ==> r.value.rows == df.rows
    ensures r.Ok? ==> |r.value.labels| == |df.rows[0]|
    ensures r.Ok? ==> forall j :: 0 <= j < |df.rows[0]| ==>
                        r.value.labels[j] == (if df.rows[0][j].Some? then Name(df.rows[0][j].value) else Unlabelled)
  {
    if df.rows == [] then Err(IndexError) else Ok(Table(MapSeq(df.rows[0], HeaderLabel), df.rows))
  }

  /**
   * `pd.concat([df[['PhoneNo']], df.loc[:, 'UserKeyPress':]], axis='columns')`:
   * the PhoneNo column, then every column from UserKeyPress to the end. A
   * missing label raises KeyError, PhoneNo first.
   */
  function SelectResponses(df: Table): (r: Result<Table>)
    requires Rectangular(df)
    ensures PhoneNo !in df.labels ==> r == Err(KeyError("PhoneNo"))
    ensures PhoneNo in df.labels && UserKeyPress !in df.labels ==> r == Err(KeyError("UserKeyPress"))
    ensures r.Ok? <==> PhoneNo in df.labels && UserKeyPress in df.labels
    ensures r.Ok? ==>
              var p := Find(df.labels, PhoneNo).value;
              var u := Find(df.labels, UserKeyPress).value;
              && Rectangular(r.value)
              && r.value.labels == [PhoneNo] + df.labels[u..]
              && |r.value.rows| == |df.rows|
              && forall i :: 0 <= i < |df.rows| ==> r.value.rows[i] == [df.rows[i][p]] + df.rows[i][u..]
  {
    match Find(df.labels, PhoneNo)
    case None => Err(KeyError("PhoneNo"))
    case Some(p) =>
      match Find(df.labels, UserKeyPress)
      case None => Err(KeyError("UserKeyPress"))
      case Some(u) =>
        SelectedColumns(df, p, u);
        Ok(Project(df, [p] + Span(u, |df.labels|)))
  }

  /** Projecting column `p` followed by every column from `u` on, row by row. */
  lemma SelectedColumns(df: Table, p: nat, u: nat)
    requires Rectangular(df) && p < |df.labels| && u <= |df.labels|
    ensures var r := Project(df, [p] + Span(u, |df.labels|));
            && Rectangular(r)
            && r.labels == [df.labels[p]] + df.labels[u..]
            && |r.rows| == |df.rows|
            && forall i :: 0 <= i < |df.rows| ==> r.rows[i] == [df.rows[i][p]] + df.rows[i][u..]
  {
    var ps := [p] + Span(u, |df.labels|);
    ProjectSpec(df, ps);
    SelectPositionAndSuffix(df.labels, p, u, Unlabelled);
    forall i | 0 <= i < |df.rows| ensures Project(df, ps).rows[i] == [df.rows[i][p]] + df.rows[i][u..] {
      SelectPositionAndSuffix(df.rows[i], p, u, None);
    }
  }

  /** Both outputs of `merger`. */
  datatype Merged = Merged(merged: Table, phonenums: Table)

  /**
   * `merger`: concatenates each list (an empty list gives the empty table
   * instead) and renames PhoneNo to phonenum in the phone-number table.
   */
  function Merger(dfs: seq<Table>, phones: seq<Table>): (r: Merged)
    ensures dfs == [] ==> r.merged == Table([], [])
    ensures phones == [] ==> r.phonenums == Table([], [])
    ensures phones != [] ==> PhoneNo !in r.phonenums.labels
  {
    Merged(if dfs == [] then Table([], []) else Concat(dfs),
           if phones == [] then Table([], []) else RenameLabel(Concat(phones), PhoneNo, Name("phonenum")))
  }

  /** Every row of every input is kept, in order: the lengths add up. */
  lemma MergerLength(dfs: seq<Table>, phones: seq<Table>)
    ensures |Merger(dfs, phones).merged.rows| == TotalRows(dfs)
    ensures |Merger(dfs, phones).phonenums.rows| == TotalRows(phones)
  {
    ConcatRowsLength(dfs, FirstOccurrences(AllLabels(dfs)));
    ConcatRowsLength(phones, FirstOccurrences(AllLabels(phones)));
  }

  /** One table with distinct labels passes through unchanged, apart from the relabelling. */
  lemma MergerSingle(df: Table, phones: Table)
    requires Rectangular(df) && Distinct(df.labels)
    requires Rectangular(phones) && Distinct(phones.labels)
    ensures Merger([df], [phones]) == Merged(df, RenameLabel(phones, PhoneNo, Name("phonenum")))
  {
    ConcatSingle(df);
    ConcatSingle(phones);
  }

  lemma ConcatSingle(t: Table)
    requires Rectangular(t) && Distinct(t.labels)
    ensures Concat([t]) == t
  {
    ConcatSameLabels([t], t.labels);
    assert SameColumnRows([t]) == [] + t.rows;
  }

  /** The labels of `process_file`'s complete table: 0 .. n-1, then Set. */
  function CompleteLabels(n: nat): seq<Label> {
    IndexLabels(n) + [Name("Set")]
  }

  /** The cell has a text of exactly `n` characters (`.str.len() == n`; a missing cell has none). */
  predicate LengthIs(c: Cell, n: nat) {
    c.Some? && |c.value| == n
  }

  /** The filter of the complete table: the third cell is 10 characters long. */
  predicate ThirdCellOfTen(row: Row) {
    LengthIs(CellAt(row, 2), 10)
  }

  /** `dropna(subset=['UserKeyPress'])` on the selected columns, where UserKeyPress is second. */
  predicate Answered(row: Row) {
    CellAt(row, 1).Some?
  }

  /** What `process_file` returns, apart from the `pd.DataFrame` class it also hands back. */
  datatype FileResult = FileResult(complete: Table, phonenums: Table, totalCalls: nat, totalPickups: nat, merged: Table)

  /** The labels after the header row is promoted, before anything is selected. */
  function PromotedHeader(raw: Table): seq<Label>
    requires raw.rows != []
  {
    MapSeq(DropEmptyColumns(raw).rows[0], HeaderLabel)
  }

  /**
   * What `process_file` promises of a successful result: pick-ups never
   * exceed calls and complete records never exceed pick-ups; the merged
   * table is the complete table; every complete record has all its cells,
   * ends with Set = IVR and has a 10-character third cell; the
   * phone-number list has one column, phonenum, and no number twice. The
   * header row is still part of the data: it is the first call and
   * "PhoneNo" is the first entry of the phone-number list.
   */
  predicate Normalised(f: FileResult) {
    && CompleteRecords(f.complete, f.totalPickups, f.totalCalls)
    && f.merged == f.complete
    && PhoneList(f.phonenums, f.totalCalls)
  }

  /** The complete-record half of `Normalised`. */
  predicate CompleteRecords(complete: Table, pickups: nat, calls: nat) {
    && pickups <= calls
    && |complete.rows| <= pickups
    && |complete.labels| >= 3
    && complete.labels == CompleteLabels(|complete.labels| - 1)
    && Rectangular(complete)
    && forall i :: 0 <= i < |complete.rows| ==>
         var row := complete.rows[i];
         Complete(row) && row[|row| - 1] == Some("IVR") && LengthIs(row[2], 10)
  }

  /** The phone-number half of `Normalised`. */
  predicate PhoneList(phonenums: Table, calls: nat) {
    && phonenums.labels == [Name("phonenum")]
    && |phonenums.rows| <= calls
    && Distinct(phonenums.rows)
    && calls >= 1
    && phonenums.rows != [] && phonenums.rows[0] == [Some("PhoneNo")]
  }

  /** The complete-record table `process_file` builds from the selected columns. */
  function CompleteOf(selected: Table): Table {
    var full := DropIncompleteRows(DropDuplicatesOn(selected, 0));
    FilterRows(AppendConstantColumn(Table(IndexLabels(|full.labels|), full.rows), Name("Set"), "IVR"), ThirdCellOfTen)
  }

  /** The phone numbers of the calls that were answered, before the relabelling. */
  function PhonesOf(selected: Table): Table {
    Project(FilterRows(DropDuplicatesOn(selected, 0), Answered), [0])
  }

  /** The steps of `process_file` that follow the column selection. */
  function AfterSelection(selected: Table): FileResult {
    var results := DropDuplicatesOn(selected, 0);
    var m := Merger([CompleteOf(selected)], [PhonesOf(selected)]);
    FileResult(CompleteOf(selected), m.phonenums, |results.rows|, |DropIncompleteRows(results).rows|, m.merged)
  }

  /** A kept call with the Set column appended. */
  function WithSet(row: Row): Row {
    row + [Some("IVR")]
  }

  /** A call that enters the complete table: every cell present and a 10-character third cell. */
  predicate CompleteOfTen(row: Row) {
    Complete(row) && LengthIs(CellAt(row, 2), 10)
  }

  /** The one-cell row of the phone-number list. */
  function PhoneCell(row: Row): Row {
    [CellAt(row, 0)]
  }

  /**
   * What `process_file` computes from the selected columns, in terms of the
   * calls left after deduplicating on PhoneNo (the first row of each phone
   * number, in file order): the number of calls is the number of distinct
   * phone numbers; the pick-ups are the calls with every cell present; the
   * complete table holds, in order, the complete calls with a 10-character
   * third cell, each followed by Set = IVR; the phone-number list holds, in
   * order, the phone number of every call that has a UserKeyPress; the
   * merged table is the complete table.
   */
  predicate FromSelection(f: FileResult, selected: Table) {
    var calls := DropDuplicatesOn(selected, 0).rows;
    && f.totalCalls == |FirstOccurrences(Column(selected, 0))|
    && f.totalPickups == |Filter(calls, Complete)|
    && f.complete.labels == CompleteLabels(|selected.labels|)
    && f.complete.rows == MapSeq(Filter(calls, CompleteOfTen), WithSet)
    && f.phonenums.rows == MapSeq(Filter(calls, Answered), PhoneCell)
    && f.merged == f.complete
  }

  /** The steps after the selection compute what `FromSelection` describes. */
  lemma AfterSelectionContents(selected: Table)
    requires Rectangular(selected) && |selected.labels| >= 2
    ensures FromSelection(AfterSelection(selected), selected)
  {
    CallCount(selected);
    CompleteRows(selected);
    PhoneRows(selected);
    CompletePart(selected);
    PhonesShape(selected);
    MergerSingle(CompleteOf(selected), PhonesOf(selected));
  }

  /** `total_calls_made` is the number of distinct phone numbers (a missing one counts once). */
  lemma CallCount(selected: Table)
    ensures |DropDuplicatesOn(selected, 0).rows| == |FirstOccurrences(Column(selected, 0))|
  {
    var key := (row: Row) => CellAt(row, 0);
    DedupByKeys(selected.rows, key);
    assert Column(selected, 0) == MapSeq(selected.rows, key);
    assert |MapSeq(DedupBy(selected.rows, key), key)| == |DedupBy(selected.rows, key)|;
  }

  /** The complete table's rows: the complete calls with a 10-character third cell, with Set appended. */
  lemma CompleteRows(selected: Table)
    ensures CompleteOf(selected).rows == MapSeq(Filter(DropDuplicatesOn(selected, 0).rows, CompleteOfTen), WithSet)
  {
    var calls := DropDuplicatesOn(selected, 0).rows;
    var full := DropIncompleteRows(DropDuplicatesOn(selected, 0));
    var withSet := AppendConstantColumn(Table(IndexLabels(|full.labels|), full.rows), Name("Set"), "IVR");
    assert withSet.rows == MapSeq(full.rows, WithSet);
    forall x | x in full.rows ensures CompleteOfTen(x) == ThirdCellOfTen(WithSet(x)) {
      assert CellAt(WithSet(x), 2) == if |x| == 2 then Some("IVR") else CellAt(x, 2);
    }
    FilterMap(full.rows, WithSet, ThirdCellOfTen, CompleteOfTen);
    FilterFilter(calls, Complete, CompleteOfTen, CompleteOfTen);
  }

  /** The phone-number list's rows: the phone number of every answered call, in order. */
  lemma PhoneRows(selected: Table)
    ensures PhonesOf(selected).rows == MapSeq(Filter(DropDuplicatesOn(selected, 0).rows, Answered), PhoneCell)
  {
    var kept := Filter(DropDuplicatesOn(selected, 0).rows, Answered);
    assert forall i :: 0 <= i < |kept| ==> Select(kept[i], [0], None) == PhoneCell(kept[i]);
  }

  /** The phone numbers before the relabelling form one column. */
  lemma PhonesShape(selected: Table)
    requires Rectangular(selected) && selected.labels != []
    ensures Rectangular(PhonesOf(selected)) && Distinct(PhonesOf(selected).labels)
  {
    var deduped := DropDuplicatesOn(selected, 0);
    DropDuplicatesOnShape(selected, 0);
    FilterRowsRectangular(deduped, Answered);
    ProjectSpec(FilterRows(deduped, Answered), [0]);
  }

  /**
   * From a selection headed by the promoted header row, the steps give a
   * normalised result holding what `FromSelection` describes.
   */
  lemma AfterSelectionNormalised(selected: Table)
    requires Rectangular(selected) && selected.rows != []
    requires selected.labels != [] && selected.labels[0] == PhoneNo
    requires |selected.rows[0]| >= 2
    requires selected.rows[0][0] == Some("PhoneNo") && selected.rows[0][1] == Some("UserKeyPress")
    ensures Normalised(AfterSelection(selected))
    ensures FromSelection(AfterSelection(selected), selected)
  {
    AfterSelectionContents(selected);
    CompletePart(selected);
    PhonePart(selected);
    MergerSingle(CompleteOf(selected), PhonesOf(selected));
  }

  /** The complete-record table satisfies its half of `Normalised`. */
  lemma CompletePart(selected: Table)
    requires Rectangular(selected) && |selected.labels| >= 2
    ensures var results := DropDuplicatesOn(selected, 0);
            CompleteRecords(CompleteOf(selected), |DropIncompleteRows(results).rows|, |results.rows|)
    ensures Rectangular(CompleteOf(selected)) && Distinct(CompleteOf(selected).labels)
  {
    NormalisedProperties(selected);
    var results := DropDuplicatesOn(selected, 0);
    CompleteRecordsOf(CompleteOf(selected), |DropIncompleteRows(results).rows|, |results.rows|, |selected.labels|);
  }

  lemma CompleteRecordsOf(complete: Table, pickups: nat, calls: nat, n: nat)
    requires |complete.rows| <= pickups <= calls
    requires n >= 2 && complete.labels == CompleteLabels(n) && Rectangular(complete)
    requires forall i :: 0 <= i < |complete.rows| ==>
               var row := complete.rows[i];
               Complete(row) && row[|row| - 1] == Some("IVR") && LengthIs(row[2], 10)
    ensures CompleteRecords(complete, pickups, calls)
  {
    assert |complete.labels| == n + 1;
  }

  /** The renamed phone-number list satisfies its half of `Normalised`. */
  lemma PhonePart(selected: Table)
    requires Rectangular(selected) && selected.rows != []
    requires selected.labels != [] && selected.labels[0] == PhoneNo
    requires |selected.rows[0]| >= 2
    requires selected.rows[0][0] == Some("PhoneNo") && selected.rows[0][1] == Some("UserKeyPress")
    ensures PhoneList(RenameLabel(PhonesOf(selected), PhoneNo, Name("phonenum")), |DropDuplicatesOn(selected, 0).rows|)
    ensures Rectangular(PhonesOf(selected)) && Distinct(PhonesOf(selected).labels)
  {
    PhoneListProperties(selected);
  }

  /**
   * The columns `process_file` works on: the all-empty columns dropped, the
   * header row promoted, then PhoneNo and every column from UserKeyPress on.
   */
  function Selection(raw: Table): (r: Result<Table>)
    requires Rectangular(raw)
    ensures r.Ok? ==> Rectangular(r.value) && |r.value.labels| >= 2
  {
    DropEmptyColumnsRectangular(raw);
    var df :- PromoteHeader(DropEmptyColumns(raw));
    SelectResponses(df)
  }

  /**
   * `process_file`, after `read_csv`. Fails exactly when the file has no
   * rows or its header lacks PhoneNo or UserKeyPress; otherwise the result
   * is what the steps after the selection compute from the file's selected
   * columns, and it is normalised.
   */
  method ProcessFile(raw: Table) returns (r: Result<FileResult>)
    requires Rectangular(raw)
    ensures raw.rows == [] ==> r == Err(IndexError)
    ensures r.Ok? <==> raw.rows != [] && PhoneNo in PromotedHeader(raw) && UserKeyPress in PromotedHeader(raw)
    ensures r.Ok? ==> Selection(raw).Ok? && r.value == AfterSelection(Selection(raw).value)
    ensures r.Ok? ==> FromSelection(r.value, Selection(raw).value)
    ensures r.Ok? ==> Normalised(r.value)
  {
    var df := DropEmptyColumns(raw);
    DropEmptyColumnsRectangular(raw);
    var promoted := PromoteHeader(df);
    if promoted.Err? {
      return Err(IndexError);
    }
    df := promoted.value;
    var selected := SelectResponses(df);
    if selected.Err? {
      return Err(selected.failure);
    }
    var results := selected.value;
    HeaderRowSelected(df, results);
    AfterSelectionNormalised(results);
    AfterSelectionContents(results);
    results := DropDuplicatesOn(results, 0);
    var totalCalls := |results.rows|;

    var recycle := FilterRows(results, Answered);
    var phonenums := Project(recycle, [0]);

    var complete := DropIncompleteRows(results);
    var totalPickups := |complete.rows|;
    complete := Table(IndexLabels(|complete.labels|), complete.rows);
    complete := AppendConstantColumn(complete, Name("Set"), "IVR");
    complete := FilterRows(complete, ThirdCellOfTen);

    var m := Merger([complete], [phonenums]);
    r := Ok(FileResult(complete, m.phonenums, totalCalls, totalPickups, m.merged));
    assert r.value == AfterSelection(selected.value);
  }

  lemma DropEmptyColumnsRectangular(raw: Table)
    requires Rectangular(raw)
    ensures Rectangular(DropEmptyColumns(raw))
    ensures |DropEmptyColumns(raw).rows| == |raw.rows|
  {
    var ps := Kept(|raw.labels|, (j: nat) => HasValue(raw, j));
    KeptSpec(|raw.labels|, (j: nat) => HasValue(raw, j));
    ProjectSpec(raw, ps);
  }

  /** The promoted header row is the first selected row, and it has PhoneNo and UserKeyPress cells. */
  lemma HeaderRowSelected(df: Table, results: Table)
    requires Rectangular(df) && df.rows != []
    requires df.labels == MapSeq(df.rows[0], HeaderLabel)
    requires SelectResponses(df) == Ok(results)
    ensures results.rows != []
    ensures |results.rows[0]| >= 2
    ensures results.rows[0][0] == Some("PhoneNo") && results.rows[0][1] == Some("UserKeyPress")
    ensures results.labels != [] && results.labels[0] == PhoneNo
  {
    var p := Find(df.labels, PhoneNo).value;
    var u := Find(df.labels, UserKeyPress).value;
    assert HeaderLabel(df.rows[0][p]) == PhoneNo;
    assert HeaderLabel(df.rows[0][u]) == UserKeyPress;
    assert results.rows[0] == [df.rows[0][p]] + df.rows[0][u..];
  }

  /** The complete-record table, from the selected rows onwards. */
  lemma NormalisedProperties(selected: Table)
    requires Rectangular(selected) && |selected.labels| >= 2
    ensures var complete := CompleteOf(selected);
            && |complete.rows| <= |DropIncompleteRows(DropDuplicatesOn(selected, 0)).rows| <= |DropDuplicatesOn(selected, 0).rows|
            && complete.labels == CompleteLabels(|selected.labels|)
            && Rectangular(complete) && Distinct(complete.labels)
            && forall i :: 0 <= i < |complete.rows| ==>
                 var row := complete.rows[i];
                 Complete(row) && row[|row| - 1] == Some("IVR") && LengthIs(row[2], 10)
  {
    var deduped := DropDuplicatesOn(selected, 0);
    DropDuplicatesOnShape(selected, 0);
    var full := DropIncompleteRows(deduped);
    FilterRowsRectangular(deduped, Complete);
    SetColumn(full, CompleteOf(selected));
  }

  lemma SetColumn(full: Table, complete: Table)
    requires Rectangular(full) && |full.labels| >= 2
    requires forall i :: 0 <= i < |full.rows| ==> Complete(full.rows[i])
    requires complete == FilterRows(AppendConstantColumn(Table(IndexLabels(|full.labels|), full.rows), Name("Set"), "IVR"),
                                    ThirdCellOfTen)
    ensures |complete.rows| <= |full.rows|
    ensures complete.labels == CompleteLabels(|full.labels|)
    ensures Rectangular(complete) && Distinct(complete.labels)
    ensures forall i :: 0 <= i < |complete.rows| ==>
              var row := complete.rows[i];
              Complete(row) && row[|row| - 1] == Some("IVR") && LengthIs(row[2], 10)
  {
    var withSet := AppendConstantColumn(Table(IndexLabels(|full.labels|), full.rows), Name("Set"), "IVR");
    assert forall i :: 0 <= i < |withSet.rows| ==>
             Complete(withSet.rows[i]) && |withSet.rows[i]| == |full.labels| + 1
             && withSet.rows[i][|full.labels|] == Some("IVR");
    forall i | 0 <= i < |complete.rows|
      ensures var row := complete.rows[i];
              |row| == |full.labels| + 1 && Complete(row) && row[|row| - 1] == Some("IVR") && LengthIs(row[2], 10)
    {
      var m :| 0 <= m < |withSet.rows| && withSet.rows[m] == complete.rows[i];
    }
  }

  /** The phone-number list: one column, no number twice, and the header row's "PhoneNo" first. */
  lemma PhoneListProperties(selected: Table)
    requires Rectangular(selected) && selected.rows != []
    requires selected.labels != [] && selected.labels[0] == PhoneNo
    requires |selected.rows[0]| >= 2
    requires selected.rows[0][0] == Some("PhoneNo") && selected.rows[0][1] == Some("UserKeyPress")
    ensures var phonenums := PhonesOf(selected);
            && phonenums.labels == [PhoneNo]
            && Rectangular(phonenums) && Distinct(phonenums.labels)
            && |phonenums.rows| <= |DropDuplicatesOn(selected, 0).rows|
            && Distinct(phonenums.rows)
            && phonenums.rows != [] && phonenums.rows[0] == [Some("PhoneNo")]
  {
    var phonenums := PhonesOf(selected);
    var key := (row: Row) => CellAt(row, 0);
    var deduped := DropDuplicatesOn(selected, 0);
    DropDuplicatesOnShape(selected, 0);
    FilterDistinctBy(deduped.rows, Answered, key);
    var kept := Filter(deduped.rows, Answered);
    assert forall i :: 0 <= i < |kept| ==> phonenums.rows[i] == [CellAt(kept[i], 0)];
    forall i, j | 0 <= i < j < |kept| ensures phonenums.rows[i] != phonenums.rows[j] {
      assert key(kept[i]) != key(kept[j]);
      assert phonenums.rows[i][0] == key(kept[i]);
    }
    HeaderRowKept(selected);
  }

  /** The header row survives deduplication and the UserKeyPress filter, as the first row. */
  lemma HeaderRowKept(selected: Table)
    requires selected.rows != [] && |selected.rows[0]| >= 2
    requires selected.rows[0][1] == Some("UserKeyPress")
    ensures var kept := Filter(DropDuplicatesOn(selected, 0).rows, Answered);
            kept != [] && kept[0] == selected.rows[0]
  {
    DedupByFirst(selected.rows, (row: Row) => CellAt(row, 0));
  }
}
