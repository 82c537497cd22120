/**
 * Structured (JSON) flow scripts: an object from question key to an object
 * with a "question" and an "answers" object from flow key to answer text.
 * Covers the republishing of such a script with answer lists, the flat
 * flow-key lookup built from it, the embedding of a parsed text script, and
 * how each page loads an upload.
 */
module StructuredScript {
  import opened Wrappers
  import opened Seqs
  import opened OrderedMaps
  import opened ScriptParser

  /** A value as json.loads returns it (numbers are integers here). */
  datatype Json =
    | JNull
    | JBool(b: bool)
    | JNum(n: int)
    | JStr(s: string)
    | JArr(items: seq<Json>)
    | JObj(members: Assoc<string, Json>)

  /** Python truthiness of a decoded value. */
  predicate Truthy(j: Json) {
    match j
    case JNull => false
    case JBool(b) => b
    case JNum(n) => n != 0
    case JStr(s) => s != ""
    case JArr(a) => a != []
    case JObj(m) => m != []
  }

  /** `v[key]`: only an object can be indexed by a string; a missing key raises KeyError. */
  function Subscript(v: Json, key: string): (r: Result<Json>)
    ensures r.Ok? <==> v.JObj? && key in Keys(v.members)
    ensures !v.JObj? ==> r == Err(TypeError)
    ensures v.JObj? && key !in Keys(v.members) ==> r == Err(KeyError(key))
    ensures r.Ok? ==> Get(v.members, key) == Some(r.value)
  {
    if !v.JObj? then Err(TypeError)
    else
      match Get(v.members, key)
      case None => Err(KeyError(key))
      case Some(x) => Ok(x)
  }

  /** `v.items()`: only an object has it. */
  function Items(v: Json): Result<Assoc<string, Json>> {
    if v.JObj? then Ok(v.members) else Err(AttributeError)
  }

  /** `v.values()`: only an object has it. */
  function ValuesOf(v: Json): Result<seq<Json>> {
    if v.JObj? then Ok(Values(v.members)) else Err(AttributeError)
  }

  // ---------------------------------------------------------------------------
  // parse_questions_and_answers

  /** A republished question: its text as given and its answers as a list. */
  datatype QA = QA(question: Json, answers: seq<Json>)

  /** One turn of the republishing loop, for the value of one question key. */
  function EntryQA(v: Json): Result<QA> {
    var q :- Subscript(v, "question");
    var a :- Subscript(v, "answers");
    var items :- Items(a);
    Ok(QA(q, Values(items)))
  }

  /**
   * A question value republishes when it is an object with a "question" and an
   * object "answers"; the question is copied and the answers become the list
   * of their texts. Otherwise the first failed lookup decides the error.
   */
  lemma EntryQASpec(v: Json)
    ensures EntryQA(v).Ok? <==> v.JObj? && "question" in Keys(v.members) && "answers" in Keys(v.members)
                                && Get(v.members, "answers").value.JObj?
    ensures !v.JObj? ==> EntryQA(v) == Err(TypeError)
    ensures v.JObj? && "question" !in Keys(v.members) ==> EntryQA(v) == Err(KeyError("question"))
    ensures v.JObj? && "question" in Keys(v.members) && "answers" !in Keys(v.members) ==> EntryQA(v) == Err(KeyError("answers"))
    ensures (v.JObj? && "question" in Keys(v.members) && "answers" in Keys(v.members)
             && !Get(v.members, "answers").value.JObj?) ==> EntryQA(v) == Err(AttributeError)
    ensures EntryQA(v).Ok? ==> Some(EntryQA(v).value.question) == Get(v.members, "question")
    ensures EntryQA(v).Ok? ==> EntryQA(v).value.answers == Values(Get(v.members, "answers").value.members)
  {
  }

  /** The republished dictionary of the first questions, or the error of the first bad one. */
  function RepublishFrom(ms: Assoc<string, Json>): Result<Assoc<string, QA>> {
    if ms == [] then Ok([])
    else
      var acc :- RepublishFrom(ms[..|ms| - 1]);
      var qa :- EntryQA(ms[|ms| - 1].1);
      Ok(Put(acc, ms[|ms| - 1].0, qa))
  }

  function Republish(j: Json): Result<Assoc<string, QA>> {
    var ms :- Items(j);
    RepublishFrom(ms)
  }

  /** `parse_questions_and_answers` of columns_definer_utils.py. */
  method ParseQuestionsAndAnswers(j: Json) returns (r: Result<Assoc<string, QA>>)
    ensures r == Republish(j)
  {
    if !j.JObj? {
      return Err(AttributeError);
    }
    var ms := j.members;
    var out: Assoc<string, QA> := [];
    var i := 0;
    while i < |ms|
      invariant 0 <= i <= |ms|
      invariant RepublishFrom(ms[..i]) == Ok(out)
    {
      RepublishStep(ms, i);
      var entry := EntryQA(ms[i].1);
      if entry.Err? {
        RepublishFailurePersists(ms, i + 1);
        return Err(entry.failure);
      }
      out := Put(out, ms[i].0, entry.value);
      i := i + 1;
    }
    assert ms[..i] == ms;
    r := Ok(out);
  }

  lemma RepublishStep(ms: Assoc<string, Json>, i: nat)
    requires i < |ms|
    ensures RepublishFrom(ms[..i + 1])
         == match RepublishFrom(ms[..i])
            case Err(e) => Err(e)
            case Ok(acc) =>
              (match EntryQA(ms[i].1)
               case Err(e) => Err(e)
               case Ok(qa) => Ok(Put(acc, ms[i].0, qa)))
  {
    assert ms[..i + 1][..i] == ms[..i];
  }

  /** Once a question fails, the whole call fails with that question's error. */
  lemma {:induction false} RepublishFailurePersists(ms: Assoc<string, Json>, i: nat)
    requires i <= |ms|
    requires RepublishFrom(ms[..i]).Err?
    ensures RepublishFrom(ms) == RepublishFrom(ms[..i])
    decreases |ms| - i
  {
    if i < |ms| {
      assert ms[..i + 1][..i] == ms[..i];
      RepublishFailurePersists(ms, i + 1);
    } else {
      assert ms[..i] == ms;
    }
  }

  /** Republishing succeeds exactly when every question value is an object with a "question" and an object "answers". */
  lemma RepublishOk(ms: Assoc<string, Json>)
    ensures RepublishFrom(ms).Ok? <==> forall i :: 0 <= i < |ms| ==> EntryQA(ms[i].1).Ok?
  {
    assert ms[..|ms|] == ms;
    if RepublishFrom(ms).Ok? {
      forall i | 0 <= i < |ms| ensures EntryQA(ms[i].1).Ok? {
        RepublishOkEach(ms, |ms|, i);
      }
    } else if forall i :: 0 <= i < |ms| ==> EntryQA(ms[i].1).Ok? {
      RepublishPrefixOk(ms, |ms|);
    }
  }

  lemma {:induction false} RepublishOkEach(ms: Assoc<string, Json>, j: nat, i: nat)
    requires i < j <= |ms|
    requires RepublishFrom(ms[..j]).Ok?
    ensures EntryQA(ms[i].1).Ok?
  {
    RepublishStep(ms, j - 1);
    if i < j - 1 {
      RepublishOkEach(ms, j - 1, i);
    }
  }

  /**
   * For a dictionary (keys distinct), a successful republish keeps the
   * question keys in order, copies each question as it is and turns each
   * answers object into the list of its values.
   */
  lemma {:induction false} RepublishContents(ms: Assoc<string, Json>)
    requires Distinct(Keys(ms))
    requires RepublishFrom(ms).Ok?
    ensures var r := RepublishFrom(ms).value;
            |r| == |ms| && forall i :: 0 <= i < |ms| ==> r[i].0 == ms[i].0 && EntryQA(ms[i].1) == Ok(r[i].1)
  {
    if ms != [] {
      var init, last := ms[..|ms| - 1], ms[|ms| - 1];
      KeysSplit(ms, init);
      RepublishSnoc(ms, init);
      RepublishContents(init);
      var acc, qa := RepublishFrom(init).value, EntryQA(last.1).value;
      SameKeys(init, acc);
      PutNew(acc, last.0, qa);
      ContentsSnoc(ms, init, acc, qa, RepublishFrom(ms).value, EntryQA);
    }
  }

  /** Distinct keys stay distinct in the first entries and the last key is new to them. */
  lemma KeysSplit<V>(ms: Assoc<string, V>, init: Assoc<string, V>)
    requires ms != [] && init == ms[..|ms| - 1] && Distinct(Keys(ms))
    ensures Distinct(Keys(init)) && ms[|ms| - 1].0 !in Keys(init)
  {
    var ks, ki := Keys(ms), Keys(init);
    forall i | 0 <= i < |ki| ensures ki[i] == ks[i] {}
    forall i | 0 <= i < |ki| ensures ki[i] != ms[|ms| - 1].0 {
      assert ks[i] != ks[|ms| - 1];
    }
  }

  lemma RepublishSnoc(ms: Assoc<string, Json>, init: Assoc<string, Json>)
    requires ms != [] && init == ms[..|ms| - 1] && RepublishFrom(ms).Ok?
    ensures RepublishFrom(init).Ok? && EntryQA(ms[|ms| - 1].1).Ok?
    ensures RepublishFrom(ms).value
         == Put(RepublishFrom(init).value, ms[|ms| - 1].0, EntryQA(ms[|ms| - 1].1).value)
  {
  }

  /** Entries whose keys agree position by position have the same key list. */
  lemma SameKeys<V, W>(a: Assoc<string, V>, b: Assoc<string, W>)
    requires |a| == |b| && forall i :: 0 <= i < |a| ==> a[i].0 == b[i].0
    ensures Keys(a) == Keys(b)
  {
    var ka, kb := Keys(a), Keys(b);
    assert forall i :: 0 <= i < |ka| ==> ka[i] == kb[i];
  }

  /** Entries that correspond position by position, with one more pair appended to each side. */
  lemma ContentsSnoc<V, W>(ms: Assoc<string, V>, init: Assoc<string, V>, acc: Assoc<string, W>, w: W,
                           r: Assoc<string, W>, f: V -> Result<W>)
    requires ms != [] && init == ms[..|ms| - 1]
    requires |acc| == |init| && forall i :: 0 <= i < |init| ==> acc[i].0 == init[i].0 && f(init[i].1) == Ok(acc[i].1)
    requires f(ms[|ms| - 1].1) == Ok(w) && r == acc + [(ms[|ms| - 1].0, w)]
    ensures |r| == |ms| && forall i :: 0 <= i < |ms| ==> r[i].0 == ms[i].0 && f(ms[i].1) == Ok(r[i].1)
  {
    forall i | 0 <= i < |ms| ensures r[i].0 == ms[i].0 && f(ms[i].1) == Ok(r[i].1) {
      if i < |init| {
        assert ms[i] == init[i] && r[i] == acc[i];
      }
    }
  }

  /** The first question that does not have the expected shape decides the error. */
  lemma RepublishFirstError(ms: Assoc<string, Json>, i: nat)
    requires i < |ms|
    requires forall k :: 0 <= k < i ==> EntryQA(ms[k].1).Ok?
    requires EntryQA(ms[i].1).Err?
    ensures RepublishFrom(ms) == Err(EntryQA(ms[i].1).failure)
  {
    RepublishPrefixOk(ms, i);
    RepublishStep(ms, i);
    RepublishFailurePersists(ms, i + 1);
  }

  lemma {:induction false} RepublishPrefixOk(ms: Assoc<string, Json>, i: nat)
    requires i <= |ms|
    requires forall k :: 0 <= k < i ==> EntryQA(ms[k].1).Ok?
    ensures RepublishFrom(ms[..i]).Ok?
  {
    if i > 0 {
      RepublishPrefixOk(ms, i - 1);
      RepublishStep(ms, i - 1);
    }
  }

  // ---------------------------------------------------------------------------
  // flatten_json_structure and simple_mappings

  /** The (flow key, answer text) pairs of the given question values, question by question. */
  function AnswerPairs(qs: seq<Json>): Result<seq<(string, Json)>> {
    if qs == [] then Ok([])
    else
      var init :- AnswerPairs(qs[..|qs| - 1]);
      var a :- Subscript(qs[|qs| - 1], "answers");
      var items :- Items(a);
      Ok(init + items)
  }

  /**
   * `{k: v for question in m.values() for k, v in question["answers"].items()}`:
   * later pairs overwrite earlier ones with the same key.
   */
  function MappingsComprehension(j: Json): Result<Assoc<string, Json>> {
    var qs :- ValuesOf(j);
    var ps :- AnswerPairs(qs);
    Ok(PutAll([], ps))
  }

  /** `flatten_json_structure`: a falsy value gives an empty lookup before anything is indexed. */
  function FlattenJsonStructure(j: Json): Result<Assoc<string, Json>> {
    if !Truthy(j) then Ok([]) else MappingsComprehension(j)
  }

  /**
   * The flat lookup has each flow key once and maps it to its text in the
   * LAST question that has that key.
   */
  lemma FlattenLastWins(j: Json, k: string)
    requires FlattenJsonStructure(j).Ok? && Truthy(j)
    ensures var ps := AnswerPairs(Values(j.members)).value;
            var d := FlattenJsonStructure(j).value;
            Distinct(Keys(d)) && Get(d, k) == LastValue(ps, k)
  {
    var ps := AnswerPairs(Values(j.members)).value;
    GetPutAll([], ps, k);
    PutAllDistinct([], ps);
  }

  /** On a dictionary the guard changes nothing; on a falsy non-dictionary only the guard avoids the error. */
  lemma FlattenGuard(j: Json)
    ensures j.JObj? ==> FlattenJsonStructure(j) == MappingsComprehension(j)
    ensures !j.JObj? && !Truthy(j) ==> FlattenJsonStructure(j) == Ok([]) && MappingsComprehension(j) == Err(AttributeError)
    ensures !j.JObj? && Truthy(j) ==> FlattenJsonStructure(j) == Err(AttributeError)
  {
  }

  lemma AnswerPairsStep(qs: seq<Json>, i: nat)
    requires i < |qs|
    ensures AnswerPairs(qs[..i + 1])
         == match AnswerPairs(qs[..i])
            case Err(e) => Err(e)
            case Ok(init) =>
              (match Subscript(qs[i], "answers")
               case Err(e) => Err(e)
               case Ok(a) =>
                 (match Items(a)
                  case Err(e) => Err(e)
                  case Ok(items) => Ok(init + items)))
  {
    assert qs[..i + 1][..i] == qs[..i];
  }

  /** When the pairs of all questions can be collected, so can those of every first few. */
  lemma {:induction false} AnswerPairsPrefix(qs: seq<Json>, j: nat, i: nat)
    requires i <= j <= |qs|
    requires AnswerPairs(qs[..j]).Ok?
    ensures AnswerPairs(qs[..i]).Ok?
    decreases j
  {
    if i < j {
      AnswerPairsStep(qs, j - 1);
      AnswerPairsPrefix(qs, j - 1, i);
    }
  }

  /** `for k, v in pairs: d[k] = v` */
  method AssignPairs(m: Assoc<string, Json>, ps: seq<(string, Json)>) returns (r: Assoc<string, Json>)
    ensures r == PutAll(m, ps)
  {
    r := m;
    var n := 0;
    while n < |ps|
      invariant 0 <= n <= |ps|
      invariant r == PutAll(m, ps[..n])
    {
      assert ps[..n + 1] == ps[..n] + [ps[n]];
      PutAllSnoc(m, ps[..n], ps[n]);
      r := Put(r, ps[n].0, ps[n].1);
      n := n + 1;
    }
    assert ps[..n] == ps;
  }

  /**
   * The decoder's `simple_mappings`: the comprehension, then a loop that
   * assigns every pair again. The loop leaves the comprehension's result
   * unchanged.
   */
  method SimpleMappings(j: Json) returns (r: Result<Assoc<string, Json>>)
    ensures r == MappingsComprehension(j)
  {
    r := MappingsComprehension(j);
    if r.Err? {
      return;
    }
    var qs := Values(j.members);
    assert qs[..|qs|] == qs;
    var ps := AnswerPairs(qs).value;
    var d := r.value;
    assert d == PutAll([], ps);
    var m := d;
    var i := 0;
    while i < |qs|
      invariant 0 <= i <= |qs|
      invariant AnswerPairs(qs[..i]).Ok?
      invariant m == PutAll(d, AnswerPairs(qs[..i]).value)
    {
      AnswerPairsPrefix(qs, |qs|, i + 1);
      AnswerPairsStep(qs, i);
      var items := Items(Subscript(qs[i], "answers").value).value;
      var before := AnswerPairs(qs[..i]).value;
      assert AnswerPairs(qs[..i + 1]).value == before + items;
      m := AssignPairs(m, items);
      PutAllAppend(d, before, items);
      i := i + 1;
    }
    PutAllTwice([], ps);
    r := Ok(m);
  }

  // ---------------------------------------------------------------------------
  // A parsed text script as a decoded value

  function AnswersJson(a: Assoc<string, string>): Assoc<string, Json> {
    MapValues(a, (t: string) => JStr(t))
  }

  function EntryJson(e: Entry): Json {
    JObj([("question", JStr(e.question)), ("answers", JObj(AnswersJson(e.answers)))])
  }

  /** The dictionary the text parser returns, seen as the same structure a JSON upload decodes to. */
  function ToJson(f: Flow): Json {
    JObj(MapValues(f, EntryJson))
  }

  /** All answer pairs of a parsed text script, question by question. */
  function FlowPairs(f: Flow): seq<(string, Json)> {
    if f == [] then [] else FlowPairs(f[..|f| - 1]) + AnswersJson(f[|f| - 1].1.answers)
  }

  /** A parsed text script always flattens, to the lookup built from its answers in order. */
  lemma {:induction false} FlowPairsOfJson(f: Flow)
    ensures AnswerPairs(Values(MapValues(f, EntryJson))) == Ok(FlowPairs(f))
  {
    if f != [] {
      var init, e := f[..|f| - 1], f[|f| - 1].1;
      FlowPairsOfJson(init);
      var qs := Values(MapValues(f, EntryJson));
      JsonValuesSnoc(f, init, qs);
      EntryAnswers(e);
      AnswerPairsSnocOk(qs, FlowPairs(init), AnswersJson(e.answers));
    }
  }

  /** The decoded values of a parsed script, split before its last question. */
  lemma JsonValuesSnoc(f: Flow, init: Flow, qs: seq<Json>)
    requires f != [] && init == f[..|f| - 1] && qs == Values(MapValues(f, EntryJson))
    ensures qs != [] && qs[..|qs| - 1] == Values(MapValues(init, EntryJson))
    ensures qs[|qs| - 1] == EntryJson(f[|f| - 1].1)
  {
    var q0 := Values(MapValues(init, EntryJson));
    assert |q0| == |qs| - 1;
    forall i | 0 <= i < |q0| ensures q0[i] == qs[i] {}
  }

  lemma EntryAnswers(e: Entry)
    ensures Subscript(EntryJson(e), "answers") == Ok(JObj(AnswersJson(e.answers)))
  {
    assert Get(EntryJson(e).members, "answers") == Some(JObj(AnswersJson(e.answers)));
  }

  /** One more question whose answers are an object adds its pairs. */
  lemma AnswerPairsSnocOk(qs: seq<Json>, before: seq<(string, Json)>, items: Assoc<string, Json>)
    requires qs != [] && AnswerPairs(qs[..|qs| - 1]) == Ok(before)
    requires Subscript(qs[|qs| - 1], "answers") == Ok(JObj(items))
    ensures AnswerPairs(qs) == Ok(before + items)
  {
  }

  lemma TextScriptMappings(f: Flow)
    ensures MappingsComprehension(ToJson(f)) == Ok(PutAll([], FlowPairs(f)))
    ensures FlattenJsonStructure(ToJson(f)) == Ok(PutAll([], FlowPairs(f)))
  {
    FlowPairsOfJson(f);
    assert MappingsComprehension(ToJson(f)) == Ok(PutAll([], FlowPairs(f)));
    if f == [] {
      assert FlowPairs(f) == [];
    } else {
      assert Truthy(ToJson(f));
    }
  }

  /** Republishing a parsed text script cannot fail and keeps each question's text and answers. */
  lemma TextScriptRepublishes(f: Flow)
    requires Distinct(Keys(f))
    ensures Republish(ToJson(f)).Ok?
    ensures var r := Republish(ToJson(f)).value;
            |r| == |f| && forall i :: 0 <= i < |f| ==>
              r[i] == (f[i].0, QA(JStr(f[i].1.question), Values(AnswersJson(f[i].1.answers))))
  {
    var ms := MapValues(f, EntryJson);
    assert Keys(ms) == Keys(f);
    forall i | 0 <= i < |ms|
      ensures EntryQA(ms[i].1) == Ok(QA(JStr(f[i].1.question), Values(AnswersJson(f[i].1.answers))))
    {
      var e := EntryJson(f[i].1);
      assert ms[i].1 == e;
      assert Get(e.members, "question") == Some(JStr(f[i].1.question));
      assert Get(e.members, "answers") == Some(JObj(AnswersJson(f[i].1.answers)));
    }
    RepublishOk(ms);
    RepublishContents(ms);
  }

  // ---------------------------------------------------------------------------
  // Loading an upload

  /** An uploaded script: its MIME type, what json.loads makes of it (None: it raised JSONDecodeError), and its lines. */
  datatype Upload =
    | NoUpload
    | Upload(mime: string, decoded: Option<Json>, lines: seq<string>)

  /**
   * The keypress decoder page of rows_definer.py: the upload is decoded as
   * JSON whatever its type, and parsed as a text script only when decoding
   * fails. No upload leaves the empty dictionary.
   */
  function LoadMappingsFallback(u: Upload): (j: Json)
    ensures u.Upload? && u.decoded.Some? ==> j == u.decoded.value
    ensures u.Upload? && u.decoded.None? ==> j == ToJson(ParseLines(u.lines))
    ensures u.NoUpload? ==> j == JObj([])
  {
    match u
    case NoUpload => JObj([])
    case Upload(_, decoded, lines) =>
      if decoded.Some? then decoded.value else ToJson(ParseLines(lines))
  }

  /** A text upload never makes the fallback page's lookup fail. */
  lemma FallbackTextNeverFails(u: Upload)
    requires u.Upload? && u.decoded.None?
    ensures MappingsComprehension(LoadMappingsFallback(u)).Ok?
  {
    TextScriptMappings(ParseLines(u.lines));
  }

  /** The question texts of a republished script, by question key. */
  function QuestionsOfQA(qa: Assoc<string, QA>): Assoc<string, Json> {
    MapValues(qa, (x: QA) => x.question)
  }

  /** The question texts of a parsed text script, by question key. */
  function QuestionsOfFlow(f: Flow): Assoc<string, Json> {
    MapValues(f, (e: Entry) => JStr(e.question))
  }

  /**
   * The question dictionary the column-naming pages keep (`qa_dict`), or
   * None when no script was parsed in this run. A JSON upload that does
   * not decode leaves None; one that decodes but is not shaped as a script
   * raises.
   */
  function LoadQuestions(u: Upload): Result<Option<Assoc<string, Json>>> {
    match u
    case NoUpload => Ok(None)
    case Upload(mime, decoded, lines) =>
      if mime == "application/json" then
        (match decoded
         case None => Ok(None)
         case Some(j) =>
           var qa :- Republish(j);
           Ok(Some(QuestionsOfQA(qa))))
      else Ok(Some(QuestionsOfFlow(ParseLines(lines))))
  }

  /**
   * The script lookup of the combined decoder page (dataframe_decoder.py):
   * by MIME type, a JSON upload that does not decode leaves the empty
   * dictionary.
   */
  function LoadMappingsByType(u: Upload): (j: Json)
    ensures u.NoUpload? ==> j == JObj([])
    ensures u.Upload? && u.mime == "application/json" && u.decoded.None? ==> j == JObj([])
    ensures u.Upload? && u.mime != "application/json" ==> j == ToJson(ParseLines(u.lines))
  {
    match u
    case NoUpload => JObj([])
    case Upload(mime, decoded, lines) =>
      if mime == "application/json" then
        (if decoded.Some? then decoded.value else JObj([]))
      else ToJson(ParseLines(lines))
  }

  /** Whatever the upload, a text script's questions come from the same parse as its lookup. */
  lemma TextUploadQuestions(u: Upload)
    requires u.Upload? && u.mime != "application/json"
    ensures LoadQuestions(u) == Ok(Some(QuestionsOfFlow(ParseLines(u.lines))))
    ensures LoadMappingsByType(u) == ToJson(ParseLines(u.lines))
  {
  }
}
