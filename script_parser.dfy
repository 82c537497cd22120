/**
 * The text form of a flow script: a line `<digits>.<text>` opens a question,
 * a line `-<text>` (spaces allowed around the dash) adds an answer to the
 * question opened last, and every other line is ignored. The result is an
 * ordered dictionary from `Q<digits>` to the question text and its answers,
 * each answer keyed `FlowNo_<int(digits)+1>=<rank>`.
 */
module ScriptParser {
  import opened Wrappers
  import opened Text
  import opened OrderedMaps
  import opened Seqs

  /** How a line of the script reads. */
  datatype Line =
    | QuestionLine(number: string, text: string)  // matches ^(\d+)\.\s*(.*)
    | AnswerLine(text: string)                    // matches ^\s*-\s*(.*)
    | OtherLine

  /** One question of a parsed script: its text and its answers keyed by flow key. */
  datatype Entry = Entry(question: string, answers: Assoc<string, string>)

  /** A parsed script: question key `Q<digits>` to its entry, in first-seen order. */
  type Flow = Assoc<string, Entry>

  /** The parser's variables: the dictionary built so far and the digits of the question being filled. */
  datatype State = State(data: Flow, current: Option<string>)

  /** Reads one line. The question pattern is tried first. */
  function Classify(line: string): Line {
    var d := LeadingDigits(line);
    if 0 < d < |line| && line[d] == '.' then QuestionLine(line[..d], Captured(line[d + 1..]))
    else AnswerOrOther(line)
  }

  /** Reads a line that is not a question: the answer pattern, or nothing. */
  function AnswerOrOther(line: string): Line {
    var w := LeadingSpaces(line);
    if w < |line| && line[w] == '-' then AnswerLine(Captured(line[w + 1..])) else OtherLine
  }

  /** What `\s*(.*)` captures after the marker: the leading whitespace skipped, up to the line feed. */
  function Captured(rest: string): string {
    if rest != [] && IsSpace(rest[0]) then Captured(rest[1..]) else RestOfLine(rest)
  }

  /** Reference reading of `^\d+\.`: some run of digits at the start is followed by a dot. */
  ghost predicate MatchesQuestion(line: string) {
    exists d :: 0 < d < |line| && AllDigits(line[..d]) && line[d] == '.'
  }

  /** Reference reading of `^\s*-`: some run of whitespace at the start is followed by a dash. */
  ghost predicate MatchesAnswer(line: string) {
    exists w :: 0 <= w < |line| && AllSpaces(line[..w]) && line[w] == '-'
  }

  /**
   * Classify agrees with the two patterns, and no line matches both (a
   * question line starts with a digit, an answer line with whitespace or a
   * dash), so testing the question pattern first never hides an answer.
   */
  lemma ClassifyMatchesPatterns(line: string)
    ensures Classify(line).QuestionLine? <==> MatchesQuestion(line)
    ensures Classify(line).AnswerLine? <==> MatchesAnswer(line)
    ensures !(MatchesQuestion(line) && MatchesAnswer(line))
  {
    QuestionIff(line);
    AnswerIff(line);
  }

  lemma QuestionIff(line: string)
    ensures Classify(line).QuestionLine? <==> MatchesQuestion(line)
  {
    var n := LeadingDigits(line);
    if MatchesQuestion(line) {
      var d :| 0 < d < |line| && AllDigits(line[..d]) && line[d] == '.';
      DigitRunEnds(line, d);
    } else {
      assert !(0 < n < |line| && line[n] == '.');
    }
  }

  /** A run of digits at the start that a non-digit ends is the leading run. */
  lemma DigitRunEnds(line: string, d: nat)
    requires d < |line| && AllDigits(line[..d]) && !IsDigit(line[d])
    ensures LeadingDigits(line) == d
  {
  }

  /** A run of whitespace at the start that a non-space ends is the leading run. */
  lemma SpaceRunEnds(line: string, w: nat)
    requires w < |line| && AllSpaces(line[..w]) && !IsSpace(line[w])
    ensures LeadingSpaces(line) == w
  {
  }

  /** An answer line starts with whitespace or a dash, so it is never read as a question. */
  lemma AnswerIff(line: string)
    ensures Classify(line).AnswerLine? <==> MatchesAnswer(line)
    ensures !(MatchesQuestion(line) && MatchesAnswer(line))
  {
    if MatchesAnswer(line) {
      var w :| 0 <= w < |line| && AllSpaces(line[..w]) && line[w] == '-';
      SpaceRunEnds(line, w);
      assert !IsDigit(line[0]) by {
        if w > 0 {
          assert line[..w][0] == line[0];
        }
      }
      NoLeadingDigit(line);
      NotQuestion(line);
    } else {
      var w := LeadingSpaces(line);
      assert !(w < |line| && line[w] == '-');
    }
    QuestionIff(line);
  }

  lemma NoLeadingDigit(line: string)
    requires line != [] && !IsDigit(line[0])
    ensures LeadingDigits(line) == 0
  {
  }

  /** `f"FlowNo_{n}={k}"` */
  function FlowKey(n: nat, k: nat): string {
    "FlowNo_" + NatToString(n) + "=" + NatToString(k)
  }

  /** `int(q_number) + 1` for the digits of a question line. */
  function FlowNumber(digits: string): nat {
    if AllDigits(digits) then DigitsValue(digits) + 1 else 0
  }

  /** One turn of the parsing loop, on a line already classified. */
  function Step(s: State, line: Line): State {
    match line
    case QuestionLine(digits, text) =>
      State(Put(s.data, "Q" + digits, Entry(text, [])), Some(digits))
    case AnswerLine(text) =>
      if s.current.None? then s
      else
        var key := "Q" + s.current.value;
        (match Get(s.data, key)
         case None => s
         case Some(e) =>
           var flowKey := FlowKey(FlowNumber(s.current.value), |e.answers| + 1);
           State(Put(s.data, key, Entry(e.question, Put(e.answers, flowKey, text))), s.current))
    case OtherLine => s
  }

  /** The parser's state after the given classified lines. */
  function Run(ls: seq<Line>): State {
    if ls == [] then State([], None)
    else Step(Run(ls[..|ls| - 1]), ls[|ls| - 1])
  }

  /** Running one more line is one more step. */
  lemma RunSnoc(ls: seq<Line>, i: nat)
    requires i < |ls|
    ensures Run(ls[..i + 1]) == Step(Run(ls[..i]), ls[i])
  {
    assert ls[..i + 1][..i] == ls[..i];
  }

  function ClassifyAll(lines: seq<string>): (ls: seq<Line>)
    ensures |ls| == |lines|
    ensures forall i :: 0 <= i < |lines| ==> ls[i] == Classify(lines[i])
  {
    seq(|lines|, i requires 0 <= i < |lines| => Classify(lines[i]))
  }

  /** The dictionary `parse_text_to_json` returns for a script given as its lines. */
  function ParseLines(lines: seq<string>): Flow {
    Run(ClassifyAll(lines)).data
  }

  /**
   * `parse_text_to_json` of rows_definer_utils.py, over the script's lines.
   * The loop keeps the question being filled in `current`.
   */
  method ParseText(lines: seq<string>) returns (data: Flow)
    ensures data == ParseLines(lines)
  {
    data := [];
    var current: Option<string> := None;
    ghost var ls := ClassifyAll(lines);
    var i := 0;
    while i < |lines|
      invariant 0 <= i <= |lines|
      invariant State(data, current) == Run(ls[..i])
    {
      ParseInvariant(ls[..i]);
      RunSnoc(ls, i);
      var line := Classify(lines[i]);
      assert line == ls[i];
      data, current := ParseStep(data, current, line);
      i := i + 1;
    }
    assert ls[..i] == ls;
  }

  /** One turn of the loop of `parse_text_to_json`, on a line already classified. */
  method ParseStep(data: Flow, current: Option<string>, line: Line) returns (data': Flow, current': Option<string>)
    requires CurrentPresent(State(data, current))
    ensures State(data', current') == Step(State(data, current), line)
  {
    data', current' := data, current;
    match line {
      case QuestionLine(digits, text) =>
        current' := Some(digits);
        data' := Put(data, "Q" + digits, Entry(text, []));
      case AnswerLine(text) =>
        if current.Some? {
          StepAnswer(State(data, current), text);
          var key := "Q" + current.value;
          var entry := Get(data, key).value;
          var flowKey := FlowKey(FlowNumber(current.value), |entry.answers| + 1);
          data' := Put(data, key, Entry(entry.question, Put(entry.answers, flowKey, text)));
        }
      case OtherLine =>
    }
  }

  /**
   * The copy of `parse_text_to_json` in columns_definer_utils.py: it marks
   * "no question yet" with an empty key instead of None. It builds the same
   * dictionary as ParseText for every script.
   */
  method ParseTextCopy(lines: seq<string>) returns (data: Flow)
    ensures data == ParseLines(lines)
  {
    data := [];
    var currentKey := "";
    var number := "";
    ghost var ls := ClassifyAll(lines);
    var i := 0;
    while i < |lines|
      invariant 0 <= i <= |lines|
      invariant Mirrors(data, currentKey, number, Run(ls[..i]))
    {
      ParseInvariant(ls[..i]);
      RunSnoc(ls, i);
      var line := Classify(lines[i]);
      assert line == ls[i];
      data, currentKey, number := CopyStep(data, currentKey, number, line, Run(ls[..i]));
      i := i + 1;
    }
    assert ls[..i] == ls;
  }

  /** One turn of the copy's loop, on a line already classified. */
  method CopyStep(data: Flow, currentKey: string, number: string, line: Line, ghost s: State)
    returns (data': Flow, currentKey': string, number': string)
    requires Mirrors(data, currentKey, number, s) && CurrentPresent(s)
    ensures Mirrors(data', currentKey', number', Step(s, line))
  {
    data', currentKey', number' := data, currentKey, number;
    match line {
      case QuestionLine(digits, text) =>
        number' := digits;
        currentKey' := "Q" + digits;
        data' := Put(data, currentKey', Entry(text, []));
        assert currentKey' != "";
      case AnswerLine(text) =>
        if currentKey != "" {
          StepAnswer(s, text);
          var entry := Get(data, currentKey).value;
          var flowKey := FlowKey(FlowNumber(number), |entry.answers| + 1);
          data' := Put(data, currentKey, Entry(entry.question, Put(entry.answers, flowKey, text)));
        }
      case OtherLine =>
    }
  }

  /** The copy's three variables stand for the parser state `s`; the empty key means no question yet. */
  ghost predicate Mirrors(data: Flow, currentKey: string, number: string, s: State) {
    && data == s.data
    && (currentKey == "" <==> s.current.None?)
    && (currentKey != "" ==> s.current == Some(number) && currentKey == "Q" + number)
  }

  /** An answer line with a question open adds the next flow key to that question. */
  lemma StepAnswer(s: State, text: string)
    requires s.current.Some? && CurrentPresent(s)
    ensures var key := "Q" + s.current.value;
            var e := Get(s.data, key).value;
            Step(s, AnswerLine(text))
              == State(Put(s.data, key, Entry(e.question, Put(e.answers, FlowKey(FlowNumber(s.current.value), |e.answers| + 1), text))),
                       s.current)
  {
  }

  /** Both copies of the text parser return the same dictionary. */
  method ParseBothCopies(lines: seq<string>) returns (a: Flow, b: Flow)
    ensures a == b
  {
    a := ParseText(lines);
    b := ParseTextCopy(lines);
  }

  /** The lines a parse can be in the middle of: every question number is a numeral. */
  ghost predicate Classified(ls: seq<Line>) {
    forall i :: 0 <= i < |ls| && ls[i].QuestionLine? ==> IsNumeral(ls[i].number)
  }

  lemma ClassifyAllClassified(lines: seq<string>)
    ensures Classified(ClassifyAll(lines))
  {
  }

  /** The key of the question being filled is always in the dictionary. */
  ghost predicate CurrentPresent(s: State) {
    s.current.Some? ==> "Q" + s.current.value in Keys(s.data)
  }

  lemma {:induction false} ParseInvariant(ls: seq<Line>)
    ensures CurrentPresent(Run(ls))
  {
    if ls != [] {
      var p := ls[..|ls| - 1];
      ParseInvariant(p);
      var s := Run(p);
      match ls[|ls| - 1]
      case QuestionLine(digits, text) =>
        PutKeys(s.data, "Q" + digits, Entry(text, []));
      case AnswerLine(text) =>
        if s.current.Some? {
          var key := "Q" + s.current.value;
          var e := Get(s.data, key).value;
          PutKeys(s.data, key, Entry(e.question, Put(e.answers, FlowKey(FlowNumber(s.current.value), |e.answers| + 1), text)));
        }
      case OtherLine =>
    }
  }

  // ---------------------------------------------------------------------------
  // Which questions the dictionary holds, and in what order

  /** The keys `Q<digits>` of the question lines, in script order, repeats included. */
  function QuestionKeys(ls: seq<Line>): seq<string> {
    if ls == [] then []
    else
      var p := QuestionKeys(ls[..|ls| - 1]);
      if ls[|ls| - 1].QuestionLine? then p + ["Q" + ls[|ls| - 1].number] else p
  }

  /**
   * The dictionary's keys are the question keys in order of first appearance:
   * a repeated question number lands on the key of its first appearance.
   */
  lemma {:induction false} ParsedKeys(ls: seq<Line>)
    ensures Keys(Run(ls).data) == FirstOccurrences(QuestionKeys(ls))
  {
    if ls != [] {
      var p := ls[..|ls| - 1];
      ParsedKeys(p);
      ParseInvariant(p);
      var s := Run(p);
      match ls[|ls| - 1]
      case QuestionLine(digits, text) =>
        PutKeys(s.data, "Q" + digits, Entry(text, []));
      case AnswerLine(text) =>
        if s.current.Some? {
          var key := "Q" + s.current.value;
          var e := Get(s.data, key).value;
          PutKeys(s.data, key, Entry(e.question, Put(e.answers, FlowKey(FlowNumber(s.current.value), |e.answers| + 1), text)));
        }
      case OtherLine =>
    }
  }

  // ---------------------------------------------------------------------------
  // What each question holds

  /** Answers numbered 1.. under flow number `n`. */
  function Numbered(n: nat, texts: seq<string>): (a: Assoc<string, string>)
    ensures |a| == |texts|
    ensures forall i :: 0 <= i < |a| ==> a[i] == (FlowKey(n, i + 1), texts[i])
  {
    seq(|texts|, i requires 0 <= i < |texts| => (FlowKey(n, i + 1), texts[i]))
  }

  /** The texts of the answer lines among `ls`, in order. */
  function AnswerTexts(ls: seq<Line>): seq<string> {
    if ls == [] then []
    else
      var p := AnswerTexts(ls[..|ls| - 1]);
      if ls[|ls| - 1].AnswerLine? then p + [ls[|ls| - 1].text] else p
  }

  lemma AnswerTextsSnoc(ls: seq<Line>, a: nat, b: nat)
    requires a <= b < |ls|
    ensures AnswerTexts(ls[a..b + 1])
         == AnswerTexts(ls[a..b]) + (if ls[b].AnswerLine? then [ls[b].text] else [])
  {
    var seg := ls[a..b + 1];
    assert seg[..|seg| - 1] == ls[a..b];
  }

  /** Index of the first question line at or after `from`, or |ls|. */
  function NextQuestion(ls: seq<Line>, from: nat): (k: nat)
    requires from <= |ls|
    ensures from <= k <= |ls|
    ensures k < |ls| ==> ls[k].QuestionLine?
    ensures forall i :: from <= i < k ==> !ls[i].QuestionLine?
    decreases |ls| - from
  {
    if from == |ls| then from
    else if ls[from].QuestionLine? then from
    else NextQuestion(ls, from + 1)
  }

  /** The line opens question number `digits` (again). */
  predicate Opens(l: Line, digits: string) {
    l.QuestionLine? && l.number == digits
  }

  lemma FlowKeyRankInjective(n: nat, a: nat, b: nat)
    requires FlowKey(n, a) == FlowKey(n, b)
    ensures a == b
  {
    var p := "FlowNo_" + NatToString(n) + "=";
    assert FlowKey(n, a)[|p|..] == NatToString(a);
    assert FlowKey(n, b)[|p|..] == NatToString(b);
    NatToStringInjective(a, b);
  }

  /** Distinct answers of one question never share a key, so none overwrites another. */
  lemma NumberedKeysDistinct(n: nat, texts: seq<string>)
    ensures Distinct(Keys(Numbered(n, texts)))
  {
    var a := Numbered(n, texts);
    forall i, j | 0 <= i < j < |a|
      ensures a[i].0 != a[j].0
    {
      FlowKeyRanksDiffer(n, i + 1, j + 1);
    }
    DistinctKeys(a);
  }

  lemma FlowKeyRanksDiffer(n: nat, a: nat, b: nat)
    requires a != b
    ensures FlowKey(n, a) != FlowKey(n, b)
  {
    if FlowKey(n, a) == FlowKey(n, b) {
      FlowKeyRankInjective(n, a, b);
    }
  }

  lemma {:induction false} PutNew<K, V>(m: Assoc<K, V>, k: K, v: V)
    requires k !in Keys(m)
    ensures Put(m, k, v) == m + [(k, v)]
  {
    if m != [] {
      assert Keys(m) == [m[0].0] + Keys(m[1..]);
      PutNew(m[1..], k, v);
    }
  }

  /** Adding the next answer to a numbered list appends it with the next rank. */
  lemma AppendNumbered(n: nat, texts: seq<string>, text: string)
    ensures Put(Numbered(n, texts), FlowKey(n, |texts| + 1), text) == Numbered(n, texts + [text])
  {
    var a := Numbered(n, texts);
    var k := FlowKey(n, |texts| + 1);
    NextKeyNew(n, texts, a, k);
    PutNew(a, k, text);
    NumberedSnoc(n, texts, text);
  }

  lemma NextKeyNew(n: nat, texts: seq<string>, a: Assoc<string, string>, k: string)
    requires a == Numbered(n, texts) && k == FlowKey(n, |texts| + 1)
    ensures k !in Keys(a)
  {
    var ks := Keys(a);
    forall i | 0 <= i < |ks| ensures ks[i] != k {
      if ks[i] == k {
        FlowKeyRankInjective(n, i + 1, |texts| + 1);
      }
    }
  }

  lemma NumberedSnoc(n: nat, texts: seq<string>, text: string)
    ensures Numbered(n, texts) + [(FlowKey(n, |texts| + 1), text)] == Numbered(n, texts + [text])
  {
    var a, b := Numbered(n, texts) + [(FlowKey(n, |texts| + 1), text)], Numbered(n, texts + [text]);
    assert |a| == |b|;
    forall i | 0 <= i < |a| ensures a[i] == b[i] {}
  }

  lemma QuestionKeyInjective(a: string, b: string)
    requires a != b
    ensures "Q" + a != "Q" + b
  {
    assert ("Q" + a)[1..] == a;
    assert ("Q" + b)[1..] == b;
  }

  /** From a question line up to the next question line, that question collects the answers. */
  lemma {:induction false} FillsCurrent(ls: seq<Line>, j: nat, m: nat)
    requires j < m <= |ls|
    requires ls[j].QuestionLine?
    requires forall i :: j < i < m ==> !ls[i].QuestionLine?
    ensures Filling(Run(ls[..m]), ls[j].number, ls[j].text, AnswerTexts(ls[j + 1..m]))
  {
    if m == j + 1 {
      FillsFirst(ls, j);
    } else {
      FillsCurrent(ls, j, m - 1);
      FillsNext(ls, j, m, ls[j].number, ls[j].text);
    }
  }

  lemma FillsFirst(ls: seq<Line>, j: nat)
    requires j < |ls| && ls[j].QuestionLine?
    ensures Filling(Run(ls[..j + 1]), ls[j].number, ls[j].text, AnswerTexts(ls[j + 1..j + 1]))
  {
    RunSnoc(ls, j);
    FillsOpen(Run(ls[..j]), ls[j].number, ls[j].text);
    assert ls[j + 1..j + 1] == [];
  }

  lemma FillsNext(ls: seq<Line>, j: nat, m: nat, digits: string, text: string)
    requires j + 1 < m <= |ls| && !ls[m - 1].QuestionLine?
    requires Filling(Run(ls[..m - 1]), digits, text, AnswerTexts(ls[j + 1..m - 1]))
    ensures Filling(Run(ls[..m]), digits, text, AnswerTexts(ls[j + 1..m]))
  {
    RunSnoc(ls, m - 1);
    AnswerTextsSnoc(ls, j + 1, m - 1);
    FillsAfter(Run(ls[..m - 1]), Run(ls[..m]), ls[m - 1], digits, text,
               AnswerTexts(ls[j + 1..m - 1]), AnswerTexts(ls[j + 1..m]));
  }

  /** `FillsStep`, with the state after the step and the answers after it named. */
  lemma FillsAfter(prev: State, post: State, l: Line, digits: string, text: string,
                   before: seq<string>, after: seq<string>)
    requires !l.QuestionLine? && Filling(prev, digits, text, before)
    requires post == Step(prev, l)
    requires after == before + (if l.AnswerLine? then [l.text] else [])
    ensures Filling(post, digits, text, after)
  {
    FillsStep(prev, l, digits, text, before);
  }

  /** Question `digits` is current and its entry has the given text and the given answers, numbered. */
  predicate Filling(s: State, digits: string, text: string, answers: seq<string>) {
    && s.current == Some(digits)
    && Get(s.data, "Q" + digits) == Some(Entry(text, Numbered(FlowNumber(digits), answers)))
  }

  /** A question line makes its question current with no answers yet. */
  lemma FillsOpen(prev: State, digits: string, text: string)
    ensures Filling(Step(prev, QuestionLine(digits, text)), digits, text, [])
  {
    GetPut(prev.data, "Q" + digits, Entry(text, []), "Q" + digits);
  }

  /** A line that opens no question keeps the current question and adds its answer, if any, with the next rank. */
  lemma FillsStep(prev: State, l: Line, digits: string, text: string, before: seq<string>)
    requires !l.QuestionLine? && Filling(prev, digits, text, before)
    ensures Filling(Step(prev, l), digits, text, before + (if l.AnswerLine? then [l.text] else []))
  {
    var key := "Q" + digits;
    var n := FlowNumber(digits);
    if l.AnswerLine? {
      AppendNumbered(n, before, l.text);
      var e' := Entry(text, Put(Numbered(n, before), FlowKey(n, |before| + 1), l.text));
      assert Step(prev, l) == State(Put(prev.data, key, e'), prev.current);
      GetPut(prev.data, key, e', key);
    } else {
      assert before + [] == before;
    }
  }


  /** Lines that do not reopen question `digits` leave its entry alone while another question is current. */
  lemma {:induction false} LeavesOthers(ls: seq<Line>, a: nat, b: nat, digits: string)
    requires a <= b <= |ls|
    requires Run(ls[..a]).current != Some(digits)
    requires forall i :: a <= i < b ==> !Opens(ls[i], digits)
    ensures Run(ls[..b]).current != Some(digits)
    ensures Get(Run(ls[..b]).data, "Q" + digits) == Get(Run(ls[..a]).data, "Q" + digits)
  {
    if a < b {
      LeavesOthers(ls, a, b - 1, digits);
      RunSnoc(ls, b - 1);
      LeavesOtherStep(Run(ls[..b - 1]), ls[b - 1], digits);
    }
  }

  /** One line that does not open `Q<digits>` leaves that entry, and does not make it current. */
  lemma LeavesOtherStep(prev: State, l: Line, digits: string)
    requires prev.current != Some(digits) && !Opens(l, digits)
    ensures Step(prev, l).current != Some(digits)
    ensures Get(Step(prev, l).data, "Q" + digits) == Get(prev.data, "Q" + digits)
  {
    match l
    case QuestionLine(d, t) =>
      QuestionKeyInjective(d, digits);
      GetPut(prev.data, "Q" + d, Entry(t, []), "Q" + digits);
    case AnswerLine(t) =>
      if prev.current.Some? {
        var key := "Q" + prev.current.value;
        QuestionKeyInjective(prev.current.value, digits);
        match Get(prev.data, key)
        case None =>
        case Some(e) =>
          GetPut(prev.data, key, Entry(e.question, Put(e.answers, FlowKey(FlowNumber(prev.current.value), |e.answers| + 1), t)), "Q" + digits);
      }
    case OtherLine =>
  }

  /**
   * The entry of question `Q<digits>` holds the text of the LAST line opening
   * that number and, numbered 1, 2, ... under `FlowNo_<int(digits)+1>`, the
   * answer lines that directly follow it up to the next question line.
   * Whatever an earlier line with the same number collected is discarded.
   */
  lemma EntryOfLastQuestion(ls: seq<Line>, j: nat)
    requires j < |ls| && ls[j].QuestionLine?
    requires forall i :: j < i < |ls| ==> !Opens(ls[i], ls[j].number)
    ensures Get(Run(ls).data, "Q" + ls[j].number)
         == Some(Entry(ls[j].text, Numbered(FlowNumber(ls[j].number), AnswerTexts(ls[j + 1..NextQuestion(ls, j + 1)]))))
  {
    var k := NextQuestion(ls, j + 1);
    FillsCurrent(ls, j, k);
    if k < |ls| {
      assert !Opens(ls[k], ls[j].number);
      OtherQuestionThenRest(ls, k, ls[j].number);
    } else {
      assert ls[..k] == ls;
    }
  }

  /** A line opening another question, then lines not reopening `digits`, leave `Q<digits>` as it was. */
  lemma OtherQuestionThenRest(ls: seq<Line>, k: nat, digits: string)
    requires k < |ls| && ls[k].QuestionLine? && ls[k].number != digits
    requires forall i :: k < i < |ls| ==> !Opens(ls[i], digits)
    ensures Get(Run(ls).data, "Q" + digits) == Get(Run(ls[..k]).data, "Q" + digits)
  {
    var d := ls[k].number;
    RunSnoc(ls, k);
    var prev := Run(ls[..k]);
    QuestionKeyInjective(d, digits);
    GetPut(prev.data, "Q" + d, Entry(ls[k].text, []), "Q" + digits);
    LeavesOthers(ls, k + 1, |ls|, digits);
    assert ls[..|ls|] == ls;
  }

  /** On a line without a line feed, `.*` captures everything. */
  lemma RestOfLineNoBreak(s: string)
    requires '\n' !in s
    ensures RestOfLine(s) == s
  {
  }

  /** What follows the marker of a rendered line: spaces, then the text `.*` captures. */
  lemma {:induction false} CapturedText(sp: string, t: string)
    requires AllSpaces(sp)
    requires '\n' !in t && (t == [] || !IsSpace(t[0]))
    ensures Captured(sp + t) == t
  {
    if sp == [] {
      assert sp + t == t;
      RestOfLineNoBreak(t);
    } else {
      assert (sp + t)[1..] == sp[1..] + t;
      assert IsSpace((sp + t)[0]);
      CapturedText(sp[1..], t);
    }
  }

  /** A rendered question line `<digits>.<spaces><text>` reads back as that question. */
  lemma ClassifyQuestionLine(d: string, sp: string, t: string)
    requires IsNumeral(d) && AllSpaces(sp)
    requires '\n' !in t && (t == [] || !IsSpace(t[0]))
    ensures Classify(d + "." + sp + t) == QuestionLine(d, t)
  {
    var rest := sp + t;
    var tail := "." + rest;
    var line := d + tail;
    assert d + "." + sp + t == line;
    LeadingDigitsOf(d, tail);
    assert line[|d|] == '.' && line[..|d|] == d && line[|d| + 1..] == rest;
    QuestionAt(line, |d|);
    CapturedText(sp, t);
  }

  lemma QuestionAt(line: string, n: nat)
    requires 0 < n < |line| && LeadingDigits(line) == n && line[n] == '.'
    ensures Classify(line) == QuestionLine(line[..n], Captured(line[n + 1..]))
  {
  }

  /** A rendered answer line `<spaces>-<spaces><text>` reads back as that answer. */
  lemma ClassifyAnswerLine(sp1: string, sp2: string, t: string)
    requires AllSpaces(sp1) && AllSpaces(sp2)
    requires '\n' !in t && (t == [] || !IsSpace(t[0]))
    ensures Classify(sp1 + "-" + sp2 + t) == AnswerLine(t)
  {
    var rest := sp2 + t;
    var tail := "-" + rest;
    var line := sp1 + tail;
    assert sp1 + "-" + sp2 + t == line;
    assert tail[0] == '-';
    assert line[0] == if sp1 == [] then '-' else sp1[0];
    assert !IsDigit(line[0]);
    assert LeadingDigits(line) == 0;
    LeadingSpacesOf(sp1, tail);
    assert line[|sp1|] == '-';
    assert line[|sp1| + 1..] == rest;
    ClassifyAnswerAt(line, |sp1|);
    CapturedText(sp2, t);
  }

  /** A line with no leading digits whose leading whitespace ends at a dash is an answer. */
  lemma ClassifyAnswerAt(line: string, w: nat)
    requires w < |line| && LeadingDigits(line) == 0 && LeadingSpaces(line) == w && line[w] == '-'
    ensures Classify(line) == AnswerLine(Captured(line[w + 1..]))
  {
    NotQuestion(line);
    AnswerAt(line, w);
  }

  lemma NotQuestion(line: string)
    requires LeadingDigits(line) == 0
    ensures Classify(line) == AnswerOrOther(line)
  {
  }

  lemma AnswerAt(line: string, w: nat)
    requires w < |line| && LeadingSpaces(line) == w && line[w] == '-'
    ensures AnswerOrOther(line) == AnswerLine(Captured(line[w + 1..]))
  {
  }

  /** A text `.*` captures whole and `\s*` does not eat into. */
  predicate PlainText(t: string) {
    '\n' !in t && (t == [] || !IsSpace(t[0]))
  }

  /**
   * A script of two questions, each followed by one answer, as the format
   * intends: each question collects its own answer under its own flow number.
   */
  lemma TwoQuestionScript(d1: string, t1: string, a1: string, d2: string, t2: string, a2: string)
    requires IsNumeral(d1) && IsNumeral(d2) && d1 != d2
    requires PlainText(t1) && PlainText(a1) && PlainText(t2) && PlainText(a2)
    ensures ParseLines([d1 + ". " + t1, "- " + a1, d2 + ". " + t2, "- " + a2])
         == [("Q" + d1, Entry(t1, [(FlowKey(FlowNumber(d1), 1), a1)])),
             ("Q" + d2, Entry(t2, [(FlowKey(FlowNumber(d2), 1), a2)]))]
  {
    var lines := [d1 + ". " + t1, "- " + a1, d2 + ". " + t2, "- " + a2];
    var ls := [QuestionLine(d1, t1), AnswerLine(a1), QuestionLine(d2, t2), AnswerLine(a2)];
    ClassifyRenderedQuestion(d1, t1);
    ClassifyRenderedAnswer(a1);
    ClassifyRenderedQuestion(d2, t2);
    ClassifyRenderedAnswer(a2);
    var cs := ClassifyAll(lines);
    assert cs[0] == ls[0] && cs[1] == ls[1] && cs[2] == ls[2] && cs[3] == ls[3];
    assert cs == ls;
    TwoQuestionRun(d1, t1, a1, d2, t2, a2);
  }

  lemma ClassifyRenderedQuestion(d: string, t: string)
    requires IsNumeral(d) && PlainText(t)
    ensures Classify(d + ". " + t) == QuestionLine(d, t)
  {
    assert d + ". " + t == d + "." + " " + t;
    assert AllSpaces(" ");
    ClassifyQuestionLine(d, " ", t);
  }

  lemma ClassifyRenderedAnswer(t: string)
    requires PlainText(t)
    ensures Classify("- " + t) == AnswerLine(t)
  {
    assert "- " + t == "" + "-" + " " + t;
    assert AllSpaces(" ");
    ClassifyAnswerLine("", " ", t);
  }

  lemma TwoQuestionRun(d1: string, t1: string, a1: string, d2: string, t2: string, a2: string)
    requires d1 != d2
    ensures Run([QuestionLine(d1, t1), AnswerLine(a1), QuestionLine(d2, t2), AnswerLine(a2)]).data
         == [("Q" + d1, Entry(t1, [(FlowKey(FlowNumber(d1), 1), a1)])),
             ("Q" + d2, Entry(t2, [(FlowKey(FlowNumber(d2), 1), a2)]))]
  {
    var ls := [QuestionLine(d1, t1), AnswerLine(a1), QuestionLine(d2, t2), AnswerLine(a2)];
    RunFour(ls);
    var q1' := ("Q" + d1, Entry(t1, [(FlowKey(FlowNumber(d1), 1), a1)]));
    FirstQuestion(d1, t1);
    AnswerToOnly(d1, t1, a1);
    QuestionKeyInjective(d1, d2);
    SecondQuestion(q1', d1, d2, t2);
    AnswerToSecond(q1', d2, t2, a2);
  }

  lemma RunFour(ls: seq<Line>)
    requires |ls| == 4
    ensures Run(ls) == Step(Step(Step(Step(State([], None), ls[0]), ls[1]), ls[2]), ls[3])
  {
    RunSnoc(ls, 0);
    RunSnoc(ls, 1);
    RunSnoc(ls, 2);
    RunSnoc(ls, 3);
    assert ls[..0] == [] && ls[..4] == ls;
  }

  lemma FirstQuestion(d: string, t: string)
    ensures Step(State([], None), QuestionLine(d, t)) == State([("Q" + d, Entry(t, []))], Some(d))
  {}

  lemma AnswerToOnly(d: string, t: string, a: string)
    ensures Step(State([("Q" + d, Entry(t, []))], Some(d)), AnswerLine(a))
         == State([("Q" + d, Entry(t, [(FlowKey(FlowNumber(d), 1), a)]))], Some(d))
  {}

  lemma AnswerToSecond(q: (string, Entry), d: string, t: string, a: string)
    requires q.0 != "Q" + d
    ensures Step(State([q, ("Q" + d, Entry(t, []))], Some(d)), AnswerLine(a))
         == State([q, ("Q" + d, Entry(t, [(FlowKey(FlowNumber(d), 1), a)]))], Some(d))
  {
    var k, e := "Q" + d, Entry(t, []);
    var e' := Entry(t, [(FlowKey(FlowNumber(d), 1), a)]);
    var two: Flow := [q, (k, e)];
    assert two[1..] == [(k, e)];
    assert Get(two, k) == Get([(k, e)], k) == Some(e);
    assert Put(e.answers, FlowKey(FlowNumber(d), 1), a) == e'.answers;
    assert Put(two, k, e') == [q] + Put([(k, e)], k, e') == [q, (k, e')];
  }

  lemma SecondQuestion(q: (string, Entry), d1: string, d2: string, t2: string)
    requires q.0 == "Q" + d1 && "Q" + d1 != "Q" + d2
    ensures Step(State([q], Some(d1)), QuestionLine(d2, t2))
         == State([q, ("Q" + d2, Entry(t2, []))], Some(d2))
  {
    var one: Flow := [q];
    var e := Entry(t2, []);
    assert one[1..] == [];
    assert Put(one, "Q" + d2, e) == [q] + Put(one[1..], "Q" + d2, e);
  }
}
