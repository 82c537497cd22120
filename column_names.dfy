/**
 * Naming the columns of the cleaned table: the name proposed for each
 * column before the user edits it, and `rename_columns`, which applies the
 * edited names.
 */
module ColumnNames {
  import opened Wrappers
  import opened Seqs
  import opened Text
  import opened OrderedMaps
  import opened Tables
  import opened ScriptParser
  import opened StructuredScript

  /** What a name box is prefilled with. */
  datatype Proposal =
    | Fixed(text: string)        // "phonenum" or "Set"
    | QuestionText(question: Json) // the question of the script entry `Q<idx>`
    | Original(current: Label)   // the column's current label

  /** `f"Q{idx}"` */
  function QuestionKey(idx: nat): string {
    "Q" + NatToString(idx)
  }

  /**
   * The proposal loop of both naming pages: one proposal per column, in
   * column order. The first column is `phonenum` even when it is also the
   * last, the last is `Set`, and a column in between shows the question of
   * `Q<idx>` when a script was parsed in this run and has that key.
   */
  method ProposeColumnNames(labels: seq<Label>, questions: Option<Assoc<string, Json>>) returns (names: seq<Proposal>)
    ensures |names| == |labels|
    ensures |labels| > 0 ==> names[0] == Fixed("phonenum")
    ensures |labels| > 1 ==> names[|labels| - 1] == Fixed("Set")
    ensures forall i :: 0 < i < |labels| - 1 && questions.Some? && Get(questions.value, QuestionKey(i)).Some? ==>
              names[i] == QuestionText(Get(questions.value, QuestionKey(i)).value)
    ensures forall i :: 0 < i < |labels| - 1 && (questions.None? || Get(questions.value, QuestionKey(i)).None?) ==>
              names[i] == Original(labels[i])
  {
    names := [];
    var idx := 0;
    while idx < |labels|
      invariant idx <= |labels| && |names| == idx
      invariant forall i :: 0 <= i < idx ==> ProposedAt(labels, questions, i, names[i])
    {
      var proposal := ProposeAt(labels, questions, idx);
      names := names + [proposal];
      idx := idx + 1;
    }
  }

  /** What the proposal loop puts at position `i`. */
  predicate ProposedAt(labels: seq<Label>, questions: Option<Assoc<string, Json>>, i: nat, p: Proposal)
    requires i < |labels|
  {
    && (i == 0 ==> p == Fixed("phonenum"))
    && (0 < i && i == |labels| - 1 ==> p == Fixed("Set"))
    && (0 < i < |labels| - 1 && questions.Some? && Get(questions.value, QuestionKey(i)).Some? ==>
          p == QuestionText(Get(questions.value, QuestionKey(i)).value))
    && (0 < i < |labels| - 1 && (questions.None? || Get(questions.value, QuestionKey(i)).None?) ==>
          p == Original(labels[i]))
  }

  /** One turn of the proposal loop. */
  method ProposeAt(labels: seq<Label>, questions: Option<Assoc<string, Json>>, idx: nat) returns (proposal: Proposal)
    requires idx < |labels|
    ensures ProposedAt(labels, questions, idx, proposal)
  {
    if idx == 0 {
      proposal := Fixed("phonenum");
    } else if idx == |labels| - 1 {
      proposal := Fixed("Set");
    } else if questions.Some? {
      match Get(questions.value, QuestionKey(idx))
      case Some(q) => proposal := QuestionText(q);
      case None => proposal := Original(labels[idx]);
    } else {
      proposal := Original(labels[idx]);
    }
  }

  /**
   * For a text script, the question proposed for column `idx` is the text
   * of the line numbered exactly `idx`, as written (a line `01.` is `Q01`
   * and never names column 1).
   */
  lemma TextScriptQuestion(f: Flow, idx: nat)
    ensures Get(QuestionsOfFlow(f), QuestionKey(idx)) ==
              if Get(f, QuestionKey(idx)).Some? then Some(JStr(Get(f, QuestionKey(idx)).value.question)) else None
  {
    GetMapValues(f, (e: Entry) => JStr(e.question), QuestionKey(idx));
  }

  // ---------------------------------------------------------------------------
  // rename_columns

  predicate NonEmptyName(p: (Label, string)) {
    p.1 != ""
  }

  /** `{old: new for old, new in zip(labels, names) if new}`: a later position wins for a repeated label. */
  function RenameMapping(labels: seq<Label>, names: seq<string>): Assoc<Label, string> {
    PutAll([], Filter(Zip(labels, names), NonEmptyName))
  }

  /** `df.rename(columns=mapping, inplace=False)`: a new table; the input is a value and stays as it was. */
  function RenameColumns(t: Table, names: seq<string>): (r: Table)
    ensures r.rows == t.rows && |r.labels| == |t.labels|
  {
    var mapping := RenameMapping(t.labels, names);
    Table(MapSeq(t.labels, (l: Label) => match Get(mapping, l) case Some(n) => Name(n) case None => l), t.rows)
  }

  /**
   * With distinct labels the renaming is positional: a column takes the
   * name at its position when that name is non-empty, and otherwise, or
   * when the list of names is shorter, keeps its label.
   */
  lemma RenameColumnsPositional(t: Table, names: seq<string>, i: nat)
    requires Distinct(t.labels) && i < |t.labels|
    ensures i < |names| && names[i] != "" ==> RenameColumns(t, names).labels[i] == Name(names[i])
    ensures i >= |names| || names[i] == "" ==> RenameColumns(t, names).labels[i] == t.labels[i]
  {
    MappingAt(t.labels, names, i);
  }

  /** With distinct labels, the mapping sends the label at `i` to the name at `i` when that name is non-empty, and has no entry for it otherwise. */
  lemma MappingAt(labels: seq<Label>, names: seq<string>, i: nat)
    requires Distinct(labels) && i < |labels|
    ensures Get(RenameMapping(labels, names), labels[i])
         == if i < |names| && names[i] != "" then Some(names[i]) else None
  {
    var l := labels[i];
    var ps := Filter(Zip(labels, names), NonEmptyName);
    GetPutAll([], ps, l);
    PairsFor(labels, names, ps, i);
    if i < |names| && names[i] != "" {
      PairKept(labels, names, ps, i);
      LastValueOfAgreeing(ps, l, names[i]);
    }
  }

  /** Every kept pair for the label at `i` comes from position `i`. */
  lemma PairsFor(labels: seq<Label>, names: seq<string>, ps: seq<(Label, string)>, i: nat)
    requires Distinct(labels) && i < |labels| && ps == Filter(Zip(labels, names), NonEmptyName)
    ensures forall m :: 0 <= m < |ps| && ps[m].0 == labels[i] ==>
              i < |names| && ps[m] == (labels[i], names[i]) && names[i] != ""
  {
    var z := Zip(labels, names);
    forall m | 0 <= m < |ps| && ps[m].0 == labels[i]
      ensures i < |names| && ps[m] == (labels[i], names[i]) && names[i] != ""
    {
      var q :| 0 <= q < |z| && z[q] == ps[m];
      assert labels[q] == labels[i];
    }
  }

  /** A non-empty name keeps its pair. */
  lemma PairKept(labels: seq<Label>, names: seq<string>, ps: seq<(Label, string)>, i: nat)
    requires i < |labels| && i < |names| && names[i] != "" && ps == Filter(Zip(labels, names), NonEmptyName)
    ensures labels[i] in Keys(ps)
  {
    var z := Zip(labels, names);
    assert z[i] == (labels[i], names[i]) && NonEmptyName(z[i]);
    var m :| 0 <= m < |ps| && ps[m] == z[i];
    assert Keys(ps)[m] == labels[i];
  }
}
