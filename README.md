# Data Processor core, modelled in Dafny

Data Processor is an Electron desktop application with a React user
interface. Its input panel accepts one of two things:

- pasted text, which becomes one record per non-blank line;
- an uploaded spreadsheet or CSV file, whose rows are tagged with an `id`
  and a `_processed` flag.

The application shell keeps the current batch, where the batch came from,
and an error message. The preview panel shows that batch as a table or a
list and saves it as JSON or as a workbook. In the main process, every
inter-process message is checked before its handler runs: it must come
from the application's own page. A small Python script collapses
whitespace.

This project models that logic and proves what it promises:

| file | models |
|---|---|
| `Wrappers.dfy` | `Option` and `Result`. |
| `JsString.dfy` | The JavaScript string built-ins the interface relies on: `trim`, `split`/`join` with one separator character, first-occurrence `replace`, UTF-16 `length`, `toUpperCase` and `String(n)`. |
| `JsValue.dfy` | JavaScript values: truthiness, `String(v)`, and plain objects as ordered own properties, with lookup, assignment and object spread. |
| `InputSection.dfy` | The text tokenizer, the file-name test, the row normaliser, and the panel state that its handlers update (class `InputPanel`). |
| `PreviewSection.dfy` | The table headers and labels, the cell text, the list labels, the item count and badge, and the choice of export file. |
| `App.dfy` | The three state fields and their three transitions. They are modelled as class `AppState`, specified by a pure `Step` function, with lemmas over whole event sequences. |
| `ElectronUtil.dfy` | `isDev`, `validateEventFrame`, and the validate-then-call listeners installed by `ipcMainHandle` and `ipcMainOn`. |
| `TextPy.dfy` | `process_text`, which is `' '.join(text.split())`. |

Three foreign calls become parameters, the first two function-typed:

- the spreadsheet decoder;
- `new URL(url).host`, which is `None` where the constructor throws;
- `pathToFileURL(getUIPath()).toString()`, which is given as the string it
  yields.

Where the source promises that such a call is *not* made, the model states
that the result does not depend on the parameter.

The one-second timers and the file reader's load event are collapsed. Each
handler is one atomic step, so the busy flag is back to `false` when it
returns.

## Model

| member | source | states |
|---|---|---|
| `JsString.TrimStart` | src/ui/components/InputSection.tsx:19 | Leading-whitespace removal drops exactly the ECMAScript whitespace prefix. |
| `JsString.TrimEnd` | src/ui/components/InputSection.tsx:19 | Trailing-whitespace removal drops exactly the ECMAScript whitespace suffix. |
| `JsString.Trim` | src/ui/components/InputSection.tsx:19-28 | `trim()` is never longer than the text and neither starts nor ends with whitespace. |
| `JsString.TrimIsMiddle` | src/ui/components/InputSection.tsx:19-28 | `trim()` is a slice of the text, and everything cut off on either side of it is whitespace. |
| `JsString.TrimEmptyIffBlank` | src/ui/components/InputSection.tsx:19 | `s.trim()` is `''` (falsy) exactly when every character of `s` is whitespace. |
| `JsString.Split` | src/ui/components/InputSection.tsx:28 | `split(c)` yields one piece more than there are `c`s, and no piece contains `c`. |
| `JsString.JoinSplit` | src/ui/components/InputSection.tsx:28 | The pieces of a split, joined with the separator again, are the original text: nothing is lost. |
| `JsString.SplitJoin` | src/ui/components/InputSection.tsx:28 | Splitting a join of separator-free pieces gives back the pieces. |
| `JsString.ReplaceFirst` | src/ui/components/PreviewSection.tsx:58 | A one-character string-pattern `replace` keeps the length and changes nothing when the pattern does not occur. |
| `JsString.IndexOf` | src/ui/components/PreviewSection.tsx:58 | The first position of a character, or -1 exactly when it does not occur; every earlier character differs. |
| `JsString.ReplaceFirstAtIndex` | src/ui/components/PreviewSection.tsx:58 | When the pattern occurs, `replace` changes the character at its first position and nothing else. |
| `JsString.Utf16Length` | src/ui/components/InputSection.tsx:33 | `length` counts UTF-16 code units: between one and two per character. |
| `JsString.Utf16LengthOfChar` | src/ui/components/InputSection.tsx:33 | One character is one code unit, or two (a surrogate pair) when it lies above U+FFFF. |
| `JsString.Utf16LengthAppend` | src/ui/components/InputSection.tsx:33 | The code-unit count of a concatenation is the sum of the counts; with the one-character case this fixes `length` for every string. |
| `JsString.Utf16LengthOfBmp` | src/ui/components/InputSection.tsx:33 | For text inside the Basic Multilingual Plane, `length` is the number of characters. |
| `JsString.ToUpperChar` | src/ui/components/InputSection.tsx:32 | ASCII lower-case letters map to upper case; every other character is left alone. |
| `JsString.ToUpper` | src/ui/components/InputSection.tsx:32 | `line.toUpperCase()` maps each character through `ToUpperChar`. Its meaning is stated by `ToUpperProperties`. |
| `JsString.ToUpperProperties` | src/ui/components/InputSection.tsx:32 | The ASCII stand-in for upper-casing leaves no lower-case ASCII letter and is idempotent; it also keeps the length, which the real `toUpperCase` need not (see "Left out"). |
| `JsString.NatDigits` | src/ui/components/PreviewSection.tsx:85 | The decimal text of a number is non-empty, all digits, with no leading zero. |
| `JsString.DigitsRoundTrip` | src/ui/components/PreviewSection.tsx:85 | Reading the decimal text back gives the number. |
| `JsString.NumberToString` | src/ui/components/PreviewSection.tsx:68 | `String(n)` is a `-` exactly for negative `n`, followed by decimal digits without a leading zero that read back as the magnitude of `n`. |
| `JsValue.ToString` | src/ui/components/PreviewSection.tsx:68-94 | `String(v)` gives a string back unchanged, and is empty only for the empty string. |
| `JsValue.Truthy` | src/ui/components/PreviewSection.tsx:68-94 | The truthiness that the logical-or fallbacks test (PreviewSection.tsx lines 68, 85 and 94), and the `error` guard of the alert (App.tsx line 70). Its meaning is stated by `FalsyValues`. |
| `JsValue.FalsyValues` | src/ui/components/PreviewSection.tsx:68-85 | The falsy values are exactly `undefined`, `null`, `false`, `0` and `''`. |
| `JsValue.Keys` | src/ui/components/PreviewSection.tsx:46 | `Object.keys(o)`: the own property names in insertion order. Its meaning is stated by `KeysAreEntryNames`. |
| `JsValue.KeysAreEntryNames` | src/ui/components/PreviewSection.tsx:46 | `Object.keys` lists every own property name once per property, in order. |
| `JsValue.Get` | src/ui/components/PreviewSection.tsx:68 | Reading a key that is not an own property gives `undefined` (inherited properties are not modelled; see "Left out"). |
| `JsValue.Put` | src/ui/components/InputSection.tsx:63 | `o[k] = v` keeps every property and adds at most one; the first property stays first. |
| `JsValue.PutKeys` | src/ui/components/InputSection.tsx:63 | Assigning a property keeps an existing key in place and appends a new key at the end. |
| `JsValue.PutGet` | src/ui/components/InputSection.tsx:63 | After `o[k] = v`, `k` reads `v` and every other key reads as before. |
| `JsValue.PutWellFormed` | src/ui/components/InputSection.tsx:63 | Assignment never creates a duplicate key. |
| `JsValue.NewKeysMembers` | src/ui/components/InputSection.tsx:62 | The keys a spread adds are exactly the row's keys that the target lacks. |
| `JsValue.Spread` | src/ui/components/InputSection.tsx:61-62 | A spread keeps every property of the target and adds at most one per property of the row; the target's first property stays first. |
| `JsValue.SpreadKeys` | src/ui/components/InputSection.tsx:61-62 | `{...o, ...row}` keeps `o`'s keys in place, then appends `row`'s new keys in `row`'s order. |
| `JsValue.SpreadWellFormed` | src/ui/components/InputSection.tsx:61-62 | A spread never creates a duplicate key. |
| `JsValue.SpreadGet` | src/ui/components/InputSection.tsx:61-62 | After a spread, a key of `row` reads as in `row`, and any other key reads as in `o`. |
| `TextPy.SplitWhitespace` | text.py:3 | `str.split()` yields only non-empty tokens that contain no whitespace; `TextPy.SqueezeJoins` pins where the tokens break. |
| `TextPy.ProcessText` | text.py:1-3 | The result holds whitespace only as single spaces between non-whitespace characters, has no leading, trailing or doubled space, and splits into the same tokens as the input. |
| `TextPy.JoinSpace` | text.py:3 | `' '.join(tokens)`: the tokens with one space between neighbours. Its meaning is stated by `JoinSingleSpaced`, `SplitJoinSpace` and `SqueezeJoins`. |
| `TextPy.JoinSingleSpaced` | text.py:3 | `' '.join` of tokens is single-spaced, and empty exactly when there are no tokens. |
| `TextPy.SplitJoinSpace` | text.py:3 | Splitting a one-space join of tokens gives back the tokens. |
| `TextPy.ProcessTextIdempotent` | text.py:3 | Applying `process_text` twice is the same as applying it once. |
| `TextPy.SplitWhitespaceEmpty` | text.py:3 | `str.split()` finds no token exactly when the text is all whitespace. |
| `TextPy.ProcessTextEmpty` | text.py:3 | The result is `''` exactly for empty or whitespace-only input. |
| `TextPy.SplitKeepsContent` | text.py:3 | The tokens, concatenated, are the input's non-whitespace characters in order. |
| `TextPy.ProcessTextKeepsContent` | text.py:3 | `process_text` removes only whitespace: the non-whitespace characters of output and input are the same, in the same order. |
| `TextPy.SqueezeJoins` | text.py:3 | The one-space join of `str.split()` equals an independent character-by-character scan that emits every non-whitespace character and one space for each gap between two of them. |
| `TextPy.ProcessTextIsCollapse` | text.py:1-3 | `process_text` turns every whitespace run between two tokens into exactly one space and drops leading and trailing runs. |
| `TextPy.CollapseExamples` | text.py:3 | `"a  b"` and `" a\t\nb "` both become `"a b"`. |
| `InputSection.ToObject` | src/ui/components/InputSection.tsx:29-35 | The object literal `{id, original, processed, length, words}` built from a record. Its meaning is stated by `ToObjectKeys`. |
| `InputSection.ToObjectKeys` | src/ui/components/InputSection.tsx:29-35 | A text record's object has exactly the keys `id, original, processed, length, words`, in that order, and its `id` is the record's number. |
| `InputSection.FilterMembers` | src/ui/components/InputSection.tsx:28 | `filter` keeps exactly the elements that pass. |
| `InputSection.Filter` | src/ui/components/InputSection.tsx:28 | `filter` returns no more elements than it is given, each of which passes. |
| `InputSection.FilterAppend` | src/ui/components/InputSection.tsx:28 | `filter` works element by element: filtering a concatenation concatenates the filtered parts. |
| `InputSection.IsBlank` | src/ui/components/InputSection.tsx:19-28 | `!line.trim()`: trimming leaves nothing. Its meaning, that every character is whitespace, is stated by `TrimEmptyIffBlank`. |
| `InputSection.KeptLines` | src/ui/components/InputSection.tsx:28 | The kept lines are at most one more than the newlines, none is blank, and none holds a newline. |
| `InputSection.WordCount` | src/ui/components/InputSection.tsx:34 | `words` is the number of spaces plus one, so it is always at least 1. |
| `InputSection.WordCountExamples` | src/ui/components/InputSection.tsx:34 | A double space counts as an extra word; a tab separates nothing; empty text has one word. |
| `InputSection.MakeRecord` | src/ui/components/InputSection.tsx:29-35 | The record for the line at `index` is numbered `index + 1` and holds the line, its upper-case form, its UTF-16 length and its space count plus one. |
| `InputSection.TokenizeLines` | src/ui/components/InputSection.tsx:28-35 | There is one record per non-blank line, in order, numbered 1..n. `original` is the untrimmed line, `processed` is its upper-case form, `length` is its UTF-16 length, and `words` is its space count plus one. |
| `InputSection.NonBlankTextKeepsALine` | src/ui/components/InputSection.tsx:19-28 | Text that passes the blank test keeps at least one line. |
| `InputSection.ProcessTextInput` | src/ui/components/InputSection.tsx:18-35 | Whitespace-only text, and only such text, is rejected with "Please enter some text to process". Any other text yields the tokenized records, at least one. |
| `InputSection.TextNotice` | src/ui/components/InputSection.tsx:19-37 | The text handler calls `onError` exactly for blank text, with the blank-text message. Otherwise it calls `onDataProcessed` with source `text` and, for each kept line in order, the object of its record. |
| `InputSection.MatchesAt` | src/ui/components/InputSection.tsx:43 | The file-name pattern matches at a position: a dot there, then exactly `xlsx`, `xls` or `csv` up to the end of the name. |
| `InputSection.HasAllowedExtension` | src/ui/components/InputSection.tsx:43 | `name.match(...)` succeeds: the pattern matches at some position. Its meaning is stated, in both directions, by `AllowedExtensionIsSuffix`. |
| `InputSection.MatchIsSuffix` | src/ui/components/InputSection.tsx:43 | Wherever the pattern matches, the name ends with `.xlsx`, `.xls` or `.csv`. |
| `InputSection.SuffixMatches` | src/ui/components/InputSection.tsx:43 | A name ending with one of the three extensions matches the pattern at that dot. |
| `InputSection.AllowedExtensionIsSuffix` | src/ui/components/InputSection.tsx:43 | The file-name pattern matches exactly when the name ends in `.xlsx`, `.xls` or `.csv`, case-sensitively. |
| `InputSection.AcceptedNames` | src/ui/components/InputSection.tsx:43 | `report.xlsx`, `old.xls`, `data.csv` and a bare `.csv` are accepted. |
| `InputSection.RefusedNames` | src/ui/components/InputSection.tsx:43 | `DATA.CSV`, `data.csv.txt` and `data.xlsx ` are refused. |
| `InputSection.NormaliseRow` | src/ui/components/InputSection.tsx:60-64 | A normalised row starts with `id`, has `_processed` equal to `true`, and without its own `id` column has `id` equal to its position plus one. |
| `InputSection.NormaliseRowKeys` | src/ui/components/InputSection.tsx:60-64 | A normalised row's keys are `id` first, then the row's own columns in order, then `_processed` unless the row already has one (insertion order; see `InputSection.NormaliseRowKeys` under "## Left out"). |
| `InputSection.NormaliseRowValues` | src/ui/components/InputSection.tsx:60-64 | `_processed` is `true`. `id` is the row's own `id` if it has one, else the position plus one. Every other column keeps its value. |
| `InputSection.NormaliseRows` | src/ui/components/InputSection.tsx:60-64 | There is one normalised row per decoded row, each normalised with its own position. |
| `InputSection.NormalisedIdsArePositions` | src/ui/components/InputSection.tsx:60-61 | Without `id` columns in the sheet, the ids are exactly 1..n. |
| `InputSection.ProcessFile` | src/ui/components/InputSection.tsx:42-71 | A refused name gives the "valid Excel file" message. A decode exception gives "Error processing file. Please check the file format.". Decoded rows give the normalised batch. |
| `InputSection.RefusedFileIsNotDecoded` | src/ui/components/InputSection.tsx:43-46 | For a refused name the outcome does not depend on the decoder, so the file is never read. |
| `InputSection.EmptySheetIsEmptyBatch` | src/ui/components/InputSection.tsx:58-66 | An empty sheet gives an empty batch, not an error. |
| `InputSection.FileNotice` | src/ui/components/InputSection.tsx:43-69 | The file handler calls `onError` exactly for a refused name or a decode failure. A refused name gets the invalid-file message, and a decode failure gets the processing-error message. Otherwise it calls `onDataProcessed` with source `file` and the normalised rows. |
| `InputSection.InputPanel.constructor` | src/ui/components/InputSection.tsx:13-15 | The panel starts idle, with no file and no drag highlight. |
| `InputSection.InputPanel.HandleTextProcess` | src/ui/components/InputSection.tsx:18-40 | It reports the text notice, and reports an error exactly for blank text. Blank text leaves the state alone; otherwise the panel ends idle. The uploaded file is untouched. |
| `InputSection.InputPanel.HandleFileUpload` | src/ui/components/InputSection.tsx:42-75 | It reports the file notice. An accepted name is remembered as the uploaded file, and the panel ends idle. A refused name changes nothing. |
| `InputSection.InputPanel.HandleDrop` | src/ui/components/InputSection.tsx:77-85 | The drag highlight goes off. An empty drop reports nothing and changes nothing else. Otherwise exactly the first dropped file is uploaded as `HandleFileUpload` does, and any further files are ignored. |
| `InputSection.InputPanel.HandleDragOver` | src/ui/components/InputSection.tsx:87-90 | The drag highlight comes on, and nothing else changes. |
| `InputSection.InputPanel.HandleDragLeave` | src/ui/components/InputSection.tsx:92-94 | The drag highlight goes off, and nothing else changes. |
| `InputSection.InputPanel.ClearFile` | src/ui/components/InputSection.tsx:96-101 | It forgets the uploaded file, and nothing else changes. |
| `PreviewSection.HeaderLabel` | src/ui/components/PreviewSection.tsx:58-91 | A column or field label keeps the key's length, equals the key when it has no `_`, and otherwise differs only in the first `_`, which becomes a space. |
| `PreviewSection.HeaderLabelOfTwoUnderscores` | src/ui/components/PreviewSection.tsx:58 | Only the first `_` becomes a space: `a_b_c` becomes `a b_c`. |
| `PreviewSection.HeaderLabelOfProcessed` | src/ui/components/PreviewSection.tsx:58 | The `_processed` column is headed ` processed`, with a leading space. |
| `PreviewSection.HeaderLabelWithoutUnderscore` | src/ui/components/PreviewSection.tsx:58 | A key without `_` is its own header. |
| `PreviewSection.CellText` | src/ui/components/PreviewSection.tsx:68 | The cell is empty exactly for falsy values, and is `String(v)` for truthy ones. |
| `PreviewSection.Headers` | src/ui/components/PreviewSection.tsx:46 | There is one header per own property of the first record, in insertion order (see `PreviewSection.Headers` under "## Left out"). |
| `PreviewSection.TableView` | src/ui/components/PreviewSection.tsx:43-72 | There is no table exactly for an empty batch. Otherwise the columns are the first record's keys in order, with labels, and there is one row per record with the cell text of each column. |
| `PreviewSection.LaterColumnsHidden` | src/ui/components/PreviewSection.tsx:46 | A key that only later records have is never a column. |
| `PreviewSection.MissingCellIsEmpty` | src/ui/components/PreviewSection.tsx:68 | A record's cell for a column it lacks is empty. |
| `PreviewSection.ItemNumber` | src/ui/components/PreviewSection.tsx:85 | The item number is the record's `id` when truthy, otherwise the position plus one. Either way it is truthy. |
| `PreviewSection.JsxText` | src/ui/components/PreviewSection.tsx:85 | A value placed in the page renders as nothing for booleans, `null` and `undefined`, and as `String(v)` for strings and numbers. |
| `PreviewSection.ListLabel` | src/ui/components/PreviewSection.tsx:85 | The heading starts with `Item #`. A non-zero numeric or non-empty string `id` follows as text, an `id` of `true` adds nothing, and a falsy `id` gives the position plus one. |
| `PreviewSection.ListView` | src/ui/components/PreviewSection.tsx:79-100 | There is one item per record, with its `Item #` heading and every own property as a label and a cell text, in key order. |
| `PreviewSection.Badge` | src/ui/components/PreviewSection.tsx:181-183 | The badge is shown exactly when a source is set. It reads "Text Input" for text and "File Upload" for files. |
| `PreviewSection.Render` | src/ui/components/PreviewSection.tsx:168-189 | The placeholder shows exactly for an empty batch. Otherwise the count is the batch length, and the badge and the chosen view follow. |
| `PreviewSection.ExportArtifact` | src/ui/components/PreviewSection.tsx:18-41 | Saving writes `processed_text_data.json` exactly when the source is text. Any other source, including none, gets a workbook `processed_data.xlsx` with sheet "Processed Data". |
| `PreviewSection.TextBatchColumns` | src/ui/components/PreviewSection.tsx:46 | A text batch's columns are `id, original, processed, length, words`, and its list labels are `Item #1`, `Item #2`, and so on. |
| `PreviewSection.RecordLabel` | src/ui/components/PreviewSection.tsx:85 | A text record numbered `i + 1` is labelled `Item #` followed by the decimal digits of `i + 1`. |
| `PreviewSection.FileBatchLabels` | src/ui/components/PreviewSection.tsx:85 | In a file batch without `id` columns, the list labels and `id` cells count 1, 2, 3, and so on. |
| `App.ShowsErrorAlert` | src/ui/App.tsx:70 | The error alert is shown exactly when the error string is non-empty. |
| `App.Step` | src/ui/App.tsx:12-24 | A batch replaces data and source and hides the alert; an error sets only the message; closing the alert only hides it. Data and source change only on a batch. |
| `App.LastBatchWins` | src/ui/App.tsx:12-20 | After any event sequence, data and source are those of the last reported batch, or the earlier ones if none was reported. |
| `App.SourceStaysSet` | src/ui/App.tsx:9-16 | Once a source is set it is never `null` again. |
| `App.LastBatchFindsBatch` | src/ui/App.tsx:12-16 | A last batch exists exactly when some batch was reported. |
| `App.SourceSetOnceIngested` | src/ui/App.tsx:8-16 | From start-up, a source is set exactly when some batch has been reported. |
| `App.RejectedInputKeepsBatch` | src/ui/App.tsx:18-20 | Blank text, a refused file and an undecodable file only set the message. The batch on display stays. |
| `App.AppState.constructor` | src/ui/App.tsx:8-10 | The app starts with no data, no source and no error. |
| `App.AppState.HandleDataProcessed` | src/ui/App.tsx:12-16 | The batch and source are replaced wholesale, and the error is cleared. |
| `App.AppState.HandleError` | src/ui/App.tsx:18-20 | Only the error message changes. |
| `App.AppState.ClearError` | src/ui/App.tsx:22-24 | The error becomes `""`, and nothing else changes. |
| `App.AppState.Dispatch` | src/ui/App.tsx:56-59 | Each input-panel callback performs exactly its step. |
| `App.ProcessTextSession` | src/ui/App.tsx:56-59 | Blank text shows the error and keeps the data. Other text installs a non-empty text batch and clears the error. The panel keeps its uploaded file and ends idle unless the text was blank. |
| `ElectronUtil.IsDev` | src/electron/util.ts:5-7 | Development mode holds exactly when `NODE_ENV` is set to `"development"`. |
| `ElectronUtil.IsDevExamples` | src/electron/util.ts:6 | The comparison is exact: `Development`, `production` and an unset variable are not development mode. |
| `ElectronUtil.MessagesDistinguishErrors` | src/electron/util.ts:10-18 | The thrown errors carry distinct messages: "Missing sender frame" and "Malicious event" (and the URL error). |
| `ElectronUtil.ValidateEventFrame` | src/electron/util.ts:9-19 | It accepts exactly the trusted frames. A missing frame gives "Missing sender frame". In development mode an unparsable URL gives the URL error, a `localhost:5123` host is accepted, and any other host is accepted only for the UI file URL, else "Malicious event". Outside development mode only the UI file URL is accepted; anything else gives "Malicious event", localhost included. |
| `ElectronUtil.ProductionIgnoresUrlParser` | src/electron/util.ts:13 | Outside development mode the URL is never parsed. |
| `ElectronUtil.GuardedCall` | src/electron/util.ts:21-39 | The listener returns the handler's result exactly when validation passes, and otherwise the validation error. `ipcMainHandle` passes the argument list and `ipcMainOn` the payload. |
| `ElectronUtil.RejectedMessageSkipsHandler` | src/electron/util.ts:25-38 | For a rejected message the outcome does not depend on the handler, which is never called. |

## Left out

- The spreadsheet library (`XLSX.read`, `sheet_to_json`, `json_to_sheet`, `writeFile`) is a parameter (decoding) or is reduced to the file names it writes (export).
- `JSON.stringify`, `Blob`, object URLs and `window.print` are browser output. Only the choice of export file is modelled.
- `InputSection.InputPanel.HandleFileUpload`: the reader registers only `onload`. When reading the file fails, the real panel reports nothing and stays busy; the model always reports and ends idle.
- The `setTimeout` delays and the `FileReader` callback are collapsed into one step. An interleaving of two uploads or of an upload and a text submission is not modelled.
- JSX and CSS are not modelled. Neither is the file-size display, which is floating point.
- The text/file toggle and the table/list toggle are UI state that only selects what to show. The view mode is a parameter of `Render`. The drag highlight is modelled as a field (`HandleDragOver`, `HandleDragLeave`, `HandleDrop`) but drives nothing else.
- `JsString.ToUpperChar`: only ASCII letters are upper-cased. Unicode case mapping maps other letters too and can change a string's length (`'ß'` becomes `"SS"`).
- `JsString.ToUpperProperties`: its length clause is a fact about the ASCII stand-in only; the `processed` field of the real program can be longer than `original`.
- `TextPy.IsSpace` is an explicit character set that approximates what Python's `str.isspace` accepts. It is not derived from the Unicode database.
- `JsValue.Value`: numbers are unbounded integers. Floating point, `NaN`, the number formatting of non-integers, the exponent form `String` uses from 1e21 on (`"1e+21"`), and the loss of precision above 2^53 are not modelled.
- `JsValue.Get`: property reads see own properties only. JavaScript also finds properties inherited from `Object.prototype`, so a record lacking a column named `constructor`, `toString`, `valueOf` and the like reads a function there, not `undefined`.
- `PreviewSection.MissingCellIsEmpty`: for the same reason, a missing cell in a column named after an `Object.prototype` member shows that function's source text in the real table, not an empty cell.
- `JsValue.Keys` keeps insertion order. JavaScript lists integer-like keys first, in numeric order; that is not modelled.
- `InputSection.NormaliseRowKeys`: the key order it states is insertion order. With an integer-like column such as `2023`, the real `Object.keys` lists `2023` before `id`.
- `PreviewSection.Headers`: the columns come in insertion order. With integer-like column names, the real table shows those columns first, in numeric order.
- `JsString.Utf16Length`: strings are sequences of Unicode scalar values, so lone surrogates cannot occur.
- The I/O wrapper of `text.py` (prompting with `input` and printing) is not modelled.
- `dist-electron/pythonBridge.js`, `dist-electron/pathResolver.js`, `src/electron/main.ts`, `dist-electron/preload.cjs`, `vite.config.ts` and `src/ui/components/ErrorAlert.tsx` are process management, path joins, window start-up, bridging, build configuration and presentation. They are not part of this model.
- `dist-electron/util.js` is the compiled form of `src/electron/util.ts` and is covered by the same model.
- `ipcWebContentsSend` (src/electron/util.ts:41-47) only forwards to `webContents.send`; it does no checking and is not modelled.
- `new URL(url).host` and `pathToFileURL(getUIPath())` are parameters, not interpreted. The message of the `URL` constructor's exception is fixed as "Invalid URL".
- Registration with `ipcMain.handle`/`ipcMain.on` is not modelled. So are the message keys and the promise a handler may return; one incoming message is modelled as one call of the listener.
