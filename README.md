# Flow-script parsing and keypress decoding, modelled in Dafny

This project models the data-cleaning core of an IVR (interactive voice
response) campaign tool. A campaign's call records arrive as a CSV export.
Its flow script arrives either as a numbered text script or as a structured
(JSON) script. The tool does five things:

- normalises each call-record file into a table of complete records and a
  list of the phone numbers that answered (`process_file`, `merger`);
- parses the flow script into question texts and the `FlowNo_<n>=<k>` keys
  of its answers (`parse_text_to_json`, both copies;
  `parse_questions_and_answers`; `flatten_json_structure` and the
  `simple_mappings` lookup);
- proposes a name for each column and renames the columns
  (`rename_columns`);
- puts the columns in flow order (`custom_sort`) and the values of each
  question column in answer order;
- turns the user's ticks and texts into a decoding plan, then decodes the
  keypresses: it drops questions, renames values, excludes values, adds
  `IncomeGroup` (`classify_income`), removes repeated and incomplete
  records, and computes the campaign statistics.

Tables are values. A table is a list of column labels and a list of rows of
optional strings. A missing cell is `None`. A label is a string, an integer
position or NaN. Python dictionaries are ordered association lists, with
Python's update rule: assigning to an existing key keeps the key's position.
Failures that Python raises (KeyError, TypeError, ValueError, IndexError,
AttributeError) are the `Err` side of a `Result`.

Code that works in a loop or updates a table step by step is a `method`.
Each method's postcondition ties its result to a specification: most are
proved equal to a function of their inputs, the name-proposal loop is
proved against a description of the name at each position, and
`process_file` is proved equal to a function of the file's selected
columns whose contents are described call by call. These methods are:

- the two text parsers;
- the republishing loop;
- the `simple_mappings` loop;
- the name-proposal loop;
- the plan-collection loops;
- `process_file`;
- the decode step.

The properties the source promises are proved about those functions, as
lemmas.

Modules, one per file:

- `Wrappers`: Option, Result and the Python failures.
- `Seqs`: filtering, first occurrences (`drop_duplicates`) and `zip`.
- `Text`: ASCII digits and whitespace, integer parsing and rendering.
- `OrderedMaps`: Python dictionaries.
- `Tables`: the DataFrame operations the core uses.
- `ScriptParser`: the text script parser.
- `StructuredScript`: structured scripts, republishing, flattening, and
  loading the uploaded script.
- `Sorting`: Python's stable `sorted`, `custom_sort` and the value key.
- `Income`: `classify_income`.
- `Normaliser`: `process_file` and `merger`.
- `ColumnNames`: name proposals and `rename_columns`.
- `Decoder`: column order, plan collection, the decode step and the
  statistics.

The two decoder pages run the same algorithm:
app/module/data_cleaner_module/rows_definer.py:51-120 and
app/module/data_cleaner_module/dataframe_decoder.py:101-170. One `Decoder`
model serves both. The pages differ only in how they load the script
(`StructuredScript.LoadMappingsFallback` and
`StructuredScript.LoadMappingsByType`) and in their widget keys.

The model follows the code as written, including:

- A value is excluded by comparing it to the cell after renaming, not
  before.
- Exclusion runs only for columns that have at least one rename.
- The header row of a call-record file is promoted to labels and also stays
  in the data. So it counts as a call, and "PhoneNo" is the first entry of
  the phone-number list.
- The length-10 filter applies to the cell at position 2, not to the phone
  number.

## Model

| member | source | states |
|---|---|---|
| ScriptParser.ClassifyMatchesPatterns | app/module/data_cleaner_module/data_cleaning_utils/rows_definer_utils.py:17-18 | A line is a question exactly when it matches `^\d+\.` and an answer exactly when it matches `^\s*-`. No line matches both, so testing the question first never hides an answer. |
| ScriptParser.QuestionIff | app/module/data_cleaner_module/data_cleaning_utils/rows_definer_utils.py:17 | A line reads as a question exactly when some run of digits at its start is followed by a dot. |
| ScriptParser.AnswerIff | app/module/data_cleaner_module/data_cleaning_utils/rows_definer_utils.py:18 | A line reads as an answer exactly when some run of whitespace at its start is followed by a dash. No line matches both patterns. |
| ScriptParser.ParseText | app/module/data_cleaner_module/data_cleaning_utils/rows_definer_utils.py:5-38 | The loop, with `current_question` as its state, builds the dictionary the script's classified lines define (`ParseLines`). |
| ScriptParser.ParseTextCopy | app/module/data_cleaner_module/data_cleaning_utils/columns_definer_utils.py:24-54 | The second copy marks "no question yet" with "" and builds the same dictionary `ParseLines`. |
| ScriptParser.ParseStep | app/module/data_cleaner_module/data_cleaning_utils/rows_definer_utils.py:26-36 | One turn of the loop: a question line makes its question current with no answers yet, and an answer line is appended to the current question's entry with the next `FlowNo` key. The result is the step function `Step`. |
| ScriptParser.CopyStep | app/module/data_cleaner_module/data_cleaning_utils/columns_definer_utils.py:41-52 | One turn of the second copy: its "" marker, the `Q<digits>` key and the digits mirror the first copy's state after the same line. |
| ScriptParser.ParseBothCopies | app/module/data_cleaner_module/data_cleaning_utils/columns_definer_utils.py:34-54 | The two copies of `parse_text_to_json` return the same dictionary for every script. |
| ScriptParser.ParseInvariant | app/module/data_cleaner_module/data_cleaning_utils/rows_definer_utils.py:29-36 | The key of the question being filled is always in the dictionary, so the lookup of an answer's question never raises. The parser never fails. |
| ScriptParser.ParsedKeys | app/module/data_cleaner_module/data_cleaning_utils/rows_definer_utils.py:24-28 | The keys are `Q<digits as written>` of the question lines, in order of first appearance. A repeated number overwrites the entry and keeps its first position. |
| ScriptParser.FillsCurrent | app/module/data_cleaner_module/data_cleaning_utils/rows_definer_utils.py:29-36 | After a question line and lines that open no question, that question's entry has its text and the answers seen since, keyed `FlowNo_{int(q)+1}={i}` for i = 1..m. |
| ScriptParser.FillsStep | app/module/data_cleaner_module/data_cleaning_utils/rows_definer_utils.py:29-36 | A line that opens no question either leaves the current entry as it is or appends the line's answer to it with the next rank. |
| ScriptParser.LeavesOthers | app/module/data_cleaner_module/data_cleaning_utils/rows_definer_utils.py:24-36 | Lines that do not reopen a question leave its entry unchanged. An answer before any question is ignored. |
| ScriptParser.EntryOfLastQuestion | app/module/data_cleaner_module/data_cleaning_utils/rows_definer_utils.py:24-36 | A question's final entry comes from its last question line and the answers up to the next question line. A repeated number resets the answers. |
| ScriptParser.OtherQuestionThenRest | app/module/data_cleaner_module/data_cleaning_utils/rows_definer_utils.py:27-28 | A line opening another question leaves `Q<digits>` as it was. |
| ScriptParser.NumberedKeysDistinct | app/module/data_cleaner_module/data_cleaning_utils/rows_definer_utils.py:33-36 | The answer keys of one question are distinct, so no answer overwrites another. |
| ScriptParser.AppendNumbered | app/module/data_cleaner_module/data_cleaning_utils/rows_definer_utils.py:33-36 | Adding an answer appends it with the next rank and moves nothing. |
| ScriptParser.FlowKeyRankInjective | app/module/data_cleaner_module/data_cleaning_utils/rows_definer_utils.py:35 | Two answers of one question with the same key have the same rank. |
| ScriptParser.ClassifyQuestionLine | app/module/data_cleaner_module/data_cleaning_utils/rows_definer_utils.py:17 | `<digits>.<spaces><text>` reads as the question numbered by the digits as written, with the text after the spaces. |
| ScriptParser.ClassifyAnswerLine | app/module/data_cleaner_module/data_cleaning_utils/rows_definer_utils.py:18 | `<spaces>-<spaces><text>` reads as an answer with the text after the spaces. |
| ScriptParser.TwoQuestionScript | app/module/data_cleaner_module/data_cleaning_utils/rows_definer_utils.py:20-38 | A two-question script parses to two entries, each with one `FlowNo_{int(q)+1}=1` answer. |
| StructuredScript.Subscript | app/module/data_cleaner_module/data_cleaning_utils/columns_definer_utils.py:19 | `v[key]` succeeds exactly on an object that has the key. Otherwise it raises TypeError on a non-object and KeyError on a missing key. |
| StructuredScript.EntryQASpec | app/module/data_cleaner_module/data_cleaning_utils/columns_definer_utils.py:19-21 | An entry republishes exactly when it is an object with `question` and `answers`. A missing `question` raises KeyError("question") first. The answers become the list of their values, in order. |
| StructuredScript.ParseQuestionsAndAnswers | app/module/data_cleaner_module/data_cleaning_utils/columns_definer_utils.py:7-22 | The republishing loop computes `Republish`. |
| StructuredScript.RepublishOk | app/module/data_cleaner_module/data_cleaning_utils/columns_definer_utils.py:17-22 | Republishing succeeds exactly when every entry does. |
| StructuredScript.RepublishFirstError | app/module/data_cleaner_module/data_cleaning_utils/columns_definer_utils.py:18-20 | The first malformed entry's error is raised, not a partial result. |
| StructuredScript.RepublishFailurePersists | app/module/data_cleaner_module/data_cleaning_utils/columns_definer_utils.py:18-21 | Once an entry has failed, later entries change nothing. |
| StructuredScript.RepublishContents | app/module/data_cleaner_module/data_cleaning_utils/columns_definer_utils.py:17-22 | The result has the input's question keys in the same order, each republished from its own entry. |
| StructuredScript.FlattenGuard | app/module/data_cleaner_module/data_cleaning_utils/rows_definer_utils.py:72-76 | A falsy script flattens to {}. An object flattens like the comprehension. A truthy non-object raises AttributeError. |
| StructuredScript.FlattenLastWins | app/module/data_cleaner_module/data_cleaning_utils/columns_definer_utils.py:101-103 | The flat lookup has each flow key once and maps it to its text in the last question that has it. |
| StructuredScript.AssignPairs | app/module/data_cleaner_module/dataframe_decoder.py:53-55 | The reassignment loop updates the dictionary as `PutAll` does. |
| StructuredScript.SimpleMappings | app/module/data_cleaner_module/dataframe_decoder.py:52-55 | The comprehension followed by the loop leaves `simple_mappings` equal to the comprehension's result (or its error). |
| StructuredScript.FlowPairsOfJson | app/module/data_cleaner_module/data_cleaning_utils/rows_definer_utils.py:76 | A parsed text script yields its answer pairs question by question, in order. |
| StructuredScript.TextScriptMappings | app/module/data_cleaner_module/rows_definer.py:40-43 | A parsed text script always flattens, to the lookup built from its answers in order. |
| StructuredScript.TextScriptRepublishes | app/module/data_cleaner_module/dataframe_decoder.py:35-37 | A parsed text script republishes: same keys, same question texts, answers as lists. |
| StructuredScript.LoadMappingsFallback | app/module/data_cleaner_module/rows_definer.py:17-27 | The upload is read as a structured script first. Only when that fails is it parsed as text. Without an upload the script is {}. |
| StructuredScript.FallbackTextNeverFails | app/module/data_cleaner_module/rows_definer.py:26-43 | The text fallback always gives a script the lookup can be built from. |
| StructuredScript.LoadMappingsByType | app/module/data_cleaner_module/dataframe_decoder.py:19-39 | The script is chosen by MIME type. A JSON upload that does not decode leaves {}. A text upload is parsed as text. |
| StructuredScript.TextUploadQuestions | app/module/data_cleaner_module/dataframe_decoder.py:34-39 | For a text upload, the question texts and the lookup come from the same parse. |
| Sorting.KeyLeTotal | app/module/data_cleaner_module/data_cleaning_utils/rows_definer_utils.py:46-48 | Keys `(n, k)` and the `(inf, 0)` sentinel compare totally, as tuples do. |
| Sorting.KeyLeTransitive | app/module/data_cleaner_module/data_cleaning_utils/rows_definer_utils.py:46-48 | The key order is transitive. |
| Sorting.SortBySorted | app/module/data_cleaner_module/dataframe_decoder.py:101 | `sorted` returns its input in key order. |
| Sorting.SortBySortedInput | app/module/data_cleaner_module/dataframe_decoder.py:101 | Sorting a sequence already in key order returns it unchanged. |
| Sorting.SortByStable | app/module/data_cleaner_module/dataframe_decoder.py:101 | `sorted` is stable: the elements of any one key keep their input order. |
| Sorting.FirstFailure | app/module/data_cleaner_module/dataframe_decoder.py:115 | `sorted` computes every key first: it fails exactly when some key computation fails, with that failure. |
| Sorting.SortWith | app/module/data_cleaner_module/dataframe_decoder.py:101 | Sorting with a key that may raise fails exactly when some element's key raises. |
| Sorting.ColumnKey | app/module/data_cleaner_module/data_cleaning_utils/rows_definer_utils.py:40-48 | `custom_sort` raises TypeError on a label that is not a string. |
| Sorting.ColumnKeyNoMatch | app/module/data_cleaner_module/data_cleaning_utils/rows_definer_utils.py:47-48 | A name not starting with `FlowNo_<digit>` sorts as the sentinel, after every flow key. |
| Sorting.ColumnKeyOfFlowKey | app/module/data_cleaner_module/data_cleaning_utils/rows_definer_utils.py:42-46 | `FlowNo_<n>=<k>` followed by anything that does not continue the number sorts as (n, k). Only the prefix matters. |
| Sorting.ColumnKeyOfMatch | app/module/data_cleaner_module/data_cleaning_utils/rows_definer_utils.py:42-46 | Every label `FlowNo_(\d+)=*(\d*)` matches sorts as (int of the first digits, int of the second digits or 0). This covers leading zeros, any run of `=`, a missing rank and trailing text that does not continue the match. |
| Sorting.FlowKeysInOrder | app/module/data_cleaner_module/data_cleaning_utils/rows_definer_utils.py:44-46 | Answer columns sort by question number, then by answer rank. |
| Sorting.ValueKey | app/module/data_cleaner_module/dataframe_decoder.py:115 | A value without `=`, or whose second `=`-field is empty, sorts last. Otherwise it sorts by the integer its second field reads as, and raises ValueError when that field is not an integer. |
| Sorting.ValueKeyOfFlowKey | app/module/data_cleaner_module/dataframe_decoder.py:115 | A value recorded as `FlowNo_<n>=<k>` sorts by k. |
| Sorting.ValueKeyNotInteger | app/module/data_cleaner_module/dataframe_decoder.py:115 | A value whose second `=`-field is non-empty and not an integer raises ValueError. |
| Income.ClassifyIncome | app/module/data_cleaner_module/data_cleaning_utils/rows_definer_utils.py:50-56 | B40, M40 and T20 exactly for their bands (T20 has two), and no group for any other text or a missing cell. |
| Seqs.FirstOccurrencesSpec | app/module/data_cleaner_module/data_cleaning_utils/columns_definer_utils.py:105-115 | `drop_duplicates` keeps exactly the rows at the positions where a row appears for the first time, in their order. No row is kept twice and every row is still represented. |
| Seqs.FirstOccurrencesDistinct | app/module/data_cleaner_module/data_cleaning_utils/rows_definer_utils.py:78-88 | `drop_duplicates` returns a table without repeated rows unchanged. |
| Seqs.FirstOccurrencesIdempotent | app/module/data_cleaner_module/data_cleaning_utils/columns_definer_utils.py:115 | Dropping duplicates twice is the same as once. |
| Seqs.FilterAt | app/module/data_cleaner_module/dataframe_decoder.py:147 | A boolean-mask selection keeps exactly the elements at the positions where the mask holds, in their order. |
| Seqs.DedupBySpec | app/module/data_cleaner_module/data_cleaning_utils/data_cleaner_utils.py:74 | Deduplicating on a key keeps exactly the elements whose key appears for the first time, in their order (keep='first'). The kept keys are distinct and every key survives. |
| Seqs.Zip | app/module/data_cleaner_module/data_cleaning_utils/columns_definer_utils.py:67 | `zip` pairs positions up to the shorter length. |
| OrderedMaps.PutKeys | app/module/data_cleaner_module/data_cleaning_utils/rows_definer_utils.py:28 | Assigning to a dictionary key keeps an existing key in place and appends a new one. |
| OrderedMaps.GetPut | app/module/data_cleaner_module/data_cleaning_utils/rows_definer_utils.py:36 | After assigning, the key holds the new value and every other key is unchanged. |
| OrderedMaps.GetPutAll | app/module/data_cleaner_module/data_cleaning_utils/rows_definer_utils.py:76 | After a sequence of assignments, each key holds the value of its last assignment. |
| OrderedMaps.PutAllTwice | app/module/data_cleaner_module/dataframe_decoder.py:53-55 | Repeating the same assignments leaves the dictionary as it was. |
| Tables.KeptSpec | app/module/data_cleaner_module/data_cleaning_utils/data_cleaner_utils.py:66 | Dropping all-missing columns keeps exactly the columns with a value, in their order. |
| Tables.ProjectSpec | app/module/data_cleaner_module/data_cleaning_utils/data_cleaner_utils.py:70-72 | Selecting columns by position keeps every row and takes each cell from its column. |
| Tables.DropColumns | app/module/data_cleaner_module/dataframe_decoder.py:141-142 | `drop(columns=...)` fails exactly when a label is not a column, and the failure is a KeyError. |
| Tables.DropColumnsSpec | app/module/data_cleaner_module/dataframe_decoder.py:141-142 | On success every row is kept. The labels and each row are read at the same increasing positions, which are exactly those whose label is not dropped. A label remains exactly when it was a column and is not dropped. |
| Tables.DropDuplicatesOnSpec | app/module/data_cleaner_module/data_cleaning_utils/data_cleaner_utils.py:74 | After deduplicating on a column, no two rows share that column's value (missing counts as one value). Every value of the column survives. The kept rows are the first row of each value, in their original order. |
| Tables.InsertColumn | app/module/data_cleaner_module/dataframe_decoder.py:152 | `insert` raises ValueError exactly when the label exists. Otherwise the new column sits at the position and every row gets its cell there. |
| Tables.AppendConstantColumn | app/module/data_cleaner_module/data_cleaning_utils/data_cleaner_utils.py:89 | `df['Set'] = 'IVR'` appends a last column holding IVR in every row. |
| Tables.RenameLabel | app/module/data_cleaner_module/data_cleaning_utils/data_cleaner_utils.py:25 | Renaming PhoneNo to phonenum changes that label only, and no PhoneNo label is left. |
| Tables.Find | app/module/data_cleaner_module/dataframe_decoder.py:151 | `get_loc` gives the position of the label. |
| Tables.ConcatRowsLength | app/module/data_cleaner_module/data_cleaning_utils/data_cleaner_utils.py:19 | Concatenation keeps every row: the lengths add up. |
| Tables.ConcatSameLabels | app/module/data_cleaner_module/data_cleaning_utils/data_cleaner_utils.py:24 | Tables with the same columns concatenate row after row under those columns. |
| Normaliser.PromoteHeader | app/module/data_cleaner_module/data_cleaning_utils/data_cleaner_utils.py:68 | The first row becomes the labels and stays in the data. A file without rows raises IndexError. |
| Normaliser.SelectResponses | app/module/data_cleaner_module/data_cleaning_utils/data_cleaner_utils.py:70-72 | The result is PhoneNo, then every column from UserKeyPress to the end. A missing label raises KeyError, PhoneNo first. |
| Normaliser.Merger | app/module/data_cleaner_module/data_cleaning_utils/data_cleaner_utils.py:5-29 | An empty list gives an empty table. The phone-number table has no PhoneNo label afterwards. |
| Normaliser.MergerLength | app/module/data_cleaner_module/data_cleaning_utils/data_cleaner_utils.py:18-27 | Both concatenations keep every row of every input. |
| Normaliser.MergerSingle | app/module/data_cleaner_module/data_cleaning_utils/data_cleaner_utils.py:98 | Merging one table and one phone list returns them unchanged, apart from the relabelling. |
| Normaliser.ConcatSingle | app/module/data_cleaner_module/data_cleaning_utils/data_cleaner_utils.py:19 | Concatenating one table returns it unchanged. |
| Normaliser.ProcessFile | app/module/data_cleaner_module/data_cleaning_utils/data_cleaner_utils.py:31-101 | Fails exactly when the file has no rows or its header lacks PhoneNo or UserKeyPress. On success the result is `AfterSelection` of the file's selected columns, so it holds what `FromSelection` describes: the counts, the complete rows and the phone numbers, call by call and in order. It is also normalised: pick-ups ≤ calls, complete records ≤ pick-ups, labels 0..n-1 then Set, and a phone list of distinct numbers headed by the header row's "PhoneNo". |
| Normaliser.AfterSelectionNormalised | app/module/data_cleaner_module/data_cleaning_utils/data_cleaner_utils.py:74-101 | From a selection headed by the promoted header row, the steps give a result that holds what `FromSelection` describes and has every property `ProcessFile` promises. |
| Normaliser.Selection | app/module/data_cleaner_module/data_cleaning_utils/data_cleaner_utils.py:66-72 | The selected columns form a table with one cell per column and at least the PhoneNo and UserKeyPress columns. |
| Normaliser.AfterSelectionContents | app/module/data_cleaner_module/data_cleaning_utils/data_cleaner_utils.py:74-98 | For any selection, the calls are the first row of each phone number, in file order. `total_calls_made` is the number of distinct phone numbers, and `total_of_pickups` is the number of calls with every cell present. `df_complete` holds, in order, the complete calls with a 10-character third cell, each followed by Set = IVR. The phone list holds, in order, the phone number of each call with a UserKeyPress. The merged table is `df_complete`. |
| Normaliser.CallCount | app/module/data_cleaner_module/data_cleaning_utils/data_cleaner_utils.py:74-75 | `total_calls_made` equals the number of distinct PhoneNo cells (a missing one counts once). |
| Normaliser.CompleteRows | app/module/data_cleaner_module/data_cleaning_utils/data_cleaner_utils.py:82-92 | `df_complete`'s rows are, in order, the deduplicated calls with every cell present and a 10-character third cell, each followed by IVR. |
| Normaliser.PhoneRows | app/module/data_cleaner_module/data_cleaning_utils/data_cleaner_utils.py:78-80 | The phone list's rows are, in order, the PhoneNo cell of each deduplicated call that has a UserKeyPress. |
| Normaliser.DropEmptyColumnsRectangular | app/module/data_cleaner_module/data_cleaning_utils/data_cleaner_utils.py:66 | Dropping empty columns keeps every row and one cell per column. |
| Normaliser.HeaderRowSelected | app/module/data_cleaner_module/data_cleaning_utils/data_cleaner_utils.py:68-72 | The promoted header row is the first selected row, with "PhoneNo" and "UserKeyPress" cells. |
| Normaliser.NormalisedProperties | app/module/data_cleaner_module/data_cleaning_utils/data_cleaner_utils.py:82-92 | The complete table is no larger than the pick-ups, which are no larger than the calls. Its labels are 0..n-1 then Set, and its rows are complete, end with IVR and have a 10-character third cell. |
| Normaliser.SetColumn | app/module/data_cleaner_module/data_cleaning_utils/data_cleaner_utils.py:87-92 | Renumbering, adding Set and filtering on position 2 give those labels and rows. |
| Normaliser.PhoneListProperties | app/module/data_cleaner_module/data_cleaning_utils/data_cleaner_utils.py:74-80 | The phone list is one column, holds no number twice, is no longer than the calls, and starts with the header row. |
| Normaliser.HeaderRowKept | app/module/data_cleaner_module/data_cleaning_utils/data_cleaner_utils.py:74-80 | The header row survives deduplication and the UserKeyPress filter as the first row. |
| ColumnNames.ProposeColumnNames | app/module/data_cleaner_module/columns_definer.py:40-55 | One proposal per column, in order. Position 0 gets `phonenum` (even when also last). The last position gets `Set`. A middle position gets the question of `Q<idx>` when a script was parsed and has the key, and the original name otherwise. |
| ColumnNames.ProposeAt | app/module/data_cleaner_module/columns_definer.py:43-53 | One turn of the proposal loop gives position idx its proposal: `phonenum`, `Set`, the question of `Q<idx>`, or the original name. |
| ColumnNames.TextScriptQuestion | app/module/data_cleaner_module/dataframe_decoder.py:77-80 | For a text script, column idx proposes the text of the question keyed exactly `Q<idx>`, so `01.` never names column 1. |
| ColumnNames.RenameColumns | app/module/data_cleaner_module/data_cleaning_utils/columns_definer_utils.py:56-68 | Renaming keeps the column count and every row. The input table is a value and is not changed. |
| ColumnNames.RenameColumnsPositional | app/module/data_cleaner_module/data_cleaning_utils/columns_definer_utils.py:67-68 | With distinct labels, column i takes name i when it is non-empty. Otherwise, or beyond the end of the names (`zip` truncates), it keeps its label. |
| ColumnNames.MappingAt | app/module/data_cleaner_module/data_cleaning_utils/columns_definer_utils.py:67 | With distinct labels, the renaming dictionary maps the label at position i to the name at i when that name is non-empty, and has no entry for it otherwise. |
| Decoder.SortColumnsFails | app/module/data_cleaner_module/dataframe_decoder.py:101-102 | Reordering fails exactly when some label is not a string. |
| Decoder.SortedPositionsSpec | app/module/data_cleaner_module/dataframe_decoder.py:101 | The new column order is a permutation of the positions, in key order, stable within each key. |
| Decoder.SortedPositionsOrder | app/module/data_cleaner_module/dataframe_decoder.py:101 | The new column order is the stable sort of the positions by their labels' keys. |
| Decoder.SortColumnsSpec | app/module/data_cleaner_module/dataframe_decoder.py:102 | The reordered table keeps every row and moves whole columns. |
| Decoder.SortColumnsInKeyOrder | app/module/data_cleaner_module/dataframe_decoder.py:101-102 | The reordered labels are in `custom_sort` order. |
| Decoder.SortColumnsInOrder | app/module/data_cleaner_module/dataframe_decoder.py:101-102 | Columns already in key order stay where they are. |
| Decoder.SortColumnsNoFlowKeys | app/module/data_cleaner_module/rows_definer.py:51-52 | If no label is a flow key, the column order is unchanged. |
| Decoder.QuestionPositionsSpec | app/module/data_cleaner_module/dataframe_decoder.py:111 | The question columns are every column but the first and the last. |
| Decoder.PresentValues | app/module/data_cleaner_module/dataframe_decoder.py:114 | The values of the present cells, top to bottom: the k-th value is the k-th non-missing cell. |
| Decoder.UniqueValues | app/module/data_cleaner_module/dataframe_decoder.py:114 | Each present value once, and nothing else. |
| Decoder.UniqueValuesOrder | app/module/data_cleaner_module/dataframe_decoder.py:114 | The unique values are the present values read at their first-appearance positions: the order `.unique()` returns them in. |
| Decoder.Autofill | app/module/data_cleaner_module/dataframe_decoder.py:127 | When the lookup holds a text for the value, the box is prefilled with exactly that text. With no entry it holds "". |
| Decoder.ColumnChoicesSpec | app/module/data_cleaner_module/dataframe_decoder.py:125-138 | The dropped values are exactly the ticked ones. The renames are exactly the other values with non-empty text, each to its text, each once. A dropped value is never renamed. |
| Decoder.CollectValueChoices | app/module/data_cleaner_module/dataframe_decoder.py:125-135 | The value loop computes `ColumnChoices`. |
| Decoder.PlanFailurePersists | app/module/data_cleaner_module/dataframe_decoder.py:112-115 | Once a column's values fail to sort, the plan fails with that error. |
| Decoder.CollectPlan | app/module/data_cleaner_module/dataframe_decoder.py:107-138 | The collection loops compute `PlanOf`. |
| Decoder.PlanFromSound | app/module/data_cleaner_module/dataframe_decoder.py:112-138 | Every column in the plan is a visited question column, and the plan is sound. |
| Decoder.AddColumnSound | app/module/data_cleaner_module/rows_definer.py:72-88 | Adding a fresh column keeps the plan sound. |
| Decoder.PlanOfSound | app/module/data_cleaner_module/rows_definer.py:57-88 | With distinct labels, the plan never renames a value dropped in the same column, and holds only non-empty rename maps. |
| Decoder.PlanOfFails | app/module/data_cleaner_module/dataframe_decoder.py:114-119 | Values are sorted before the drop box is read, so an unkeyable value fails the plan even in a dropped column. |
| Decoder.DecodeCell | app/module/data_cleaner_module/dataframe_decoder.py:145 | A renamed value becomes its text. An unmapped value stays. A missing cell stays missing, and no missing value is introduced. |
| Decoder.Rate | app/module/data_cleaner_module/dataframe_decoder.py:169-170 | 0 when the denominator is 0, otherwise count × 100 / denominator: non-negative, and ≤ 100 when count ≤ denominator. |
| Decoder.DecodeKeypresses | app/module/data_cleaner_module/dataframe_decoder.py:140-170 | The decode step, updating the table in place, computes `Decode`. |
| Decoder.ApplyMappings | app/module/data_cleaner_module/dataframe_decoder.py:143-147 | The loop over `keypress_mappings` computes `DecodeAll`. |
| Decoder.ExcludeValues | app/module/data_cleaner_module/dataframe_decoder.py:146-147 | The exclusion loop computes `Exclude`. |
| Decoder.ExcludeSpec | app/module/data_cleaner_module/dataframe_decoder.py:146-147 | Exclusion keeps the labels and exactly the rows holding none of the excluded values. The kept rows are those at the positions where no excluded value sits, in their original order. |
| Decoder.ExcludeIsFilter | app/module/data_cleaner_module/dataframe_decoder.py:146-147 | Excluding the values one after another is a single filter by all of them together. |
| Decoder.ExcludeKeepsMissing | app/module/data_cleaner_module/rows_definer.py:96-97 | A missing cell is never removed by exclusion. |
| Decoder.MapColumnSpec | app/module/data_cleaner_module/dataframe_decoder.py:145 | Renaming a column's values changes no other column and no row's length. |
| Decoder.DecodeColumnKeeps | app/module/data_cleaner_module/rows_definer.py:93-97 | Decoding another column never reintroduces an excluded value. |
| Decoder.DecodeColumnExcludes | app/module/data_cleaner_module/dataframe_decoder.py:145-147 | After decoding a column, none of its excluded values (compared after renaming) is left in it. |
| Decoder.DecodeAllLabels | app/module/data_cleaner_module/dataframe_decoder.py:143-147 | Decoding keeps the labels and every row's length. |
| Decoder.DecodeAllExcludes | app/module/data_cleaner_module/dataframe_decoder.py:143-147 | With distinct mapped columns, no mapped column holds any of its excluded values afterwards. |
| Decoder.DecodeSpec | app/module/data_cleaner_module/dataframe_decoder.py:140-170 | Fails exactly when a dropped question is not a column, when IncomeGroup already exists beside IncomeRange, or when there is no Set column. Otherwise no dropped question is a column of the result (IncomeGroup is re-added when IncomeRange remains), every row is complete and unique, the rows never outnumber the input's, `total_CRs` is the row count, and both rates are the zero-guarded formulas. |
| Decoder.FinishSpec | app/module/data_cleaner_module/dataframe_decoder.py:154-170 | After the last steps the labels are unchanged, every row is complete and unique, and the rows never outnumber the input's. A missing Set column raises KeyError. `total_CRs` counts the rows, and both rates are the zero-guarded formulas. |
| Decoder.AddIncomeGroupSpec | app/module/data_cleaner_module/dataframe_decoder.py:149-152 | Adding IncomeGroup fails exactly when IncomeRange and IncomeGroup are both columns. Otherwise every other label stays present or absent, and the rows and their shape are kept. |
| Decoder.KeptShape | app/module/data_cleaner_module/dataframe_decoder.py:141-142 | Dropping columns keeps every row and one cell per column. |
| Decoder.DropStepLabels | app/module/data_cleaner_module/dataframe_decoder.py:141-142 | After the drop step a label is a column exactly when it was one and is not a dropped question. |
| Decoder.DecodeSteps | app/module/data_cleaner_module/dataframe_decoder.py:140-164 | A successful decode goes through each step in order. |
| Decoder.IncomeGroupRows | app/module/data_cleaner_module/rows_definer.py:99-102 | After the insertion, each row holds `classify_income` of its income band right after it. |
| Decoder.CleanupKeepsGroups | app/module/data_cleaner_module/dataframe_decoder.py:164 | Once incomplete rows are dropped, every row's group is the group of its band. |
| Decoder.DecodeIncome | app/module/data_cleaner_module/dataframe_decoder.py:149-164 | IncomeGroup sits right after IncomeRange and no other column moves. In every decoded row it is the group of that row's band, so rows whose income is not one of the four bands are gone. |

## Left out

- Streamlit is left out: page layout, widgets, `session_state`, previews and download buttons. The user's ticks and texts are the input `Decoder.Choices`. The column-name texts are the `names` passed to `RenameColumns`.
- Reading files is left out: `pd.read_csv`, `json.loads`, UTF-8 decoding and `str.splitlines`. The model starts from the read table, the decoded JSON value (or None when decoding fails) and the script's lines.
- Both `process_file_content` functions are not part of this model. Nothing calls them.
- The regular-expression engine is not modelled. Lines are classified over ASCII digits and ASCII whitespace, so Unicode digits and whitespace are not recognised.
- Integer parsing (`int(...)`) covers ASCII whitespace, an optional sign and `_` digit grouping. Non-ASCII digits and whitespace are not covered.
- Float formatting (`:.2f` percentages, thousands separators) is not modelled. Rates are exact reals.
- The `float('inf')` sort sentinel is the `Last` key.
- JSON numbers are integers only. JSON floats are not modelled.
- Decoder.Autofill: a lookup entry whose text is not a JSON string (a number, a list) prefills "" instead of Python's `str()` rendering of it.
- Normaliser.SelectResponses: repeated PhoneNo or UserKeyPress header cells are not modelled. For a repeated PhoneNo, pandas keeps every PhoneNo column, so the concatenation carries the extra columns and the dedup uses all of them. For a UserKeyPress at non-adjacent positions, pandas raises KeyError on the slice. The model uses the first occurrence of each label and succeeds in both cases.
- Labels are assumed distinct in the lemmas that need it (`Decoder.PlanOfSound`, `ColumnNames.RenameColumnsPositional`, `Decoder.DecodeAllExcludes`). Pandas would select several columns for a repeated label, and Streamlit would reject the repeated widget keys.
- Normaliser.ProcessFile: when the header has PhoneNo after UserKeyPress, pandas' selection holds PhoneNo twice and `[['PhoneNo']]` keeps both columns, so the phone list has two phonenum columns. The model keeps only the first column (position 0).
- Normaliser.ProcessFile: `.loc[:, :'Set']` is taken as the identity, which it is because Set is the last, unique column. The extra `pd.DataFrame` class in the returned tuple is omitted.
- Cells hold strings or nothing. Values that pandas would read as numbers are seen as their text.
- `str.len()` on non-text cells is not modelled.
- app/module/data_cleaner_module/data_cleaner.py, which accumulates counts across uploads, is not part of this model.
- The `value_counts` and `isnull` previews are not modelled. Only the KeyError that reading the missing Set column raises is kept.
- The date-stamped output filename is not modelled.
- Duplicated IncomeRange columns are not modelled. There, `get_loc` returns a mask or slice and the insertion raises. The model inserts after the first IncomeRange.
