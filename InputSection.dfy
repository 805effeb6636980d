/** The input panel: it turns pasted text or an uploaded spreadsheet into a
    batch of records and reports it, or an error message, to the
    application through two callbacks. */
module InputSection {
  import opened Wrappers
  import opened JsString
  import opened JsValue

  /** Where a batch came from. */
  datatype Source = Text | File

  /** What the panel reports: `onDataProcessed(data, source)` or
      `onError(message)`. */
  datatype Notice = DataProcessed(data: seq<Obj>, source: Source) | ErrorRaised(message: string)

  const EmptyTextMessage := "Please enter some text to process"
  const BadFileMessage := "Please upload a valid Excel file (.xlsx, .xls) or CSV file"
  const DecodeFailedMessage := "Error processing file. Please check the file format."

  // =============================================================== text

  /** One processed line of text. */
  datatype TextRecord = TextRecord(id: nat, original: string, processed: string, length: nat, words: nat)

  /** The record as the object `{id, original, processed, length, words}`. */
  function ToObject(r: TextRecord): Obj {
    Obj([("id", Num(r.id)), ("original", Str(r.original)), ("processed", Str(r.processed)),
         ("length", Num(r.length)), ("words", Num(r.words))])
  }

  /** The record object's keys, in the order the literal lists them. */
  lemma ToObjectKeys(r: TextRecord)
    ensures Keys(ToObject(r)) == ["id", "original", "processed", "length", "words"]
    ensures WellFormed(ToObject(r))
    ensures Get(ToObject(r), "id") == Num(r.id)
  {
    var o := ToObject(r);
    var o4 := Rest(Rest(Rest(Rest(o))));
    assert Keys(o4) == ["words"];
    assert Keys(Rest(Rest(Rest(o)))) == ["length", "words"];
    assert Keys(Rest(Rest(o))) == ["processed", "length", "words"];
    assert Keys(Rest(o)) == ["original", "processed", "length", "words"];
    assert WellFormed(Rest(o4));
    assert WellFormed(o4);
    assert WellFormed(Rest(Rest(Rest(o))));
    assert WellFormed(Rest(Rest(o)));
    assert WellFormed(Rest(o));
  }

  /** `!line.trim()`: the line holds nothing but whitespace. */
  predicate IsBlank(line: string) {
    Trim(line) == []
  }

  /** `xs.filter(keep)`: the elements that pass, in their order. */
  function Filter<T>(xs: seq<T>, keep: T -> bool): (kept: seq<T>)
    ensures |kept| <= |xs|
    ensures forall i :: 0 <= i < |kept| ==> keep(kept[i])
  {
    if xs == [] then []
    else (if keep(xs[0]) then [xs[0]] else []) + Filter(xs[1..], keep)
  }

  /** Every element kept passes, and every element that passes is kept. */
  lemma {:induction false} FilterMembers<T>(xs: seq<T>, keep: T -> bool, x: T)
    ensures x in Filter(xs, keep) <==> x in xs && keep(x)
  {
    if xs != [] {
      FilterMembers(xs[1..], keep, x);
      assert xs == [xs[0]] + xs[1..];
    }
  }

  /** The filter works element by element: filtering two runs one after the
      other is filtering each run and appending the results. */
  lemma {:induction false} FilterAppend<T>(xs: seq<T>, ys: seq<T>, keep: T -> bool)
    ensures Filter(xs + ys, keep) == Filter(xs, keep) + Filter(ys, keep)
  {
    if xs != [] {
      FilterAppend(xs[1..], ys, keep);
      assert (xs + ys)[0] == xs[0] && (xs + ys)[1..] == xs[1..] + ys;
    } else {
      assert xs + ys == ys;
    }
  }

  /** `line.split(' ').length`: one more than the number of spaces, so at
      least 1; a run of spaces counts once per space, and a tab is not a
      separator. */
  function WordCount(line: string): (n: nat)
    ensures n == Count(line, ' ') + 1
  {
    |Split(line, ' ')|
  }

  /** Two spaces in a row make an empty piece; a tab separates nothing. */
  lemma WordCountExamples()
    ensures WordCount("a b") == 2
    ensures WordCount("a  b") == 3
    ensures WordCount("a\tb") == 1
    ensures WordCount("") == 1
  {
    assert "a b"[1..][1..] == "b";
    assert "a  b"[1..][1..][1..] == "b";
  }

  /** The record `{id: index + 1, original: line, ...}` built for a kept line. */
  function MakeRecord(line: string, index: nat): (r: TextRecord)
    ensures r.id == index + 1 && r.original == line
    ensures r.processed == ToUpper(line) && r.length == Utf16Length(line) && r.words == Count(line, ' ') + 1
  {
    TextRecord(index + 1, line, ToUpper(line), Utf16Length(line), WordCount(line))
  }

  /** `text.split('\n').filter(line => line.trim())`: the lines that are
      not blank, untrimmed, in their order. */
  function KeptLines(text: string): (lines: seq<string>)
    ensures |lines| <= Count(text, '\n') + 1
    ensures forall i :: 0 <= i < |lines| ==> !AllWhitespace(lines[i]) && '\n' !in lines[i]
  {
    var pieces := Split(text, '\n');
    var lines := Filter(pieces, line => !IsBlank(line));
    forall i | 0 <= i < |lines|
      ensures !AllWhitespace(lines[i]) && '\n' !in lines[i]
    {
      TrimEmptyIffBlank(lines[i]);
      FilterMembers(pieces, line => !IsBlank(line), lines[i]);
    }
    lines
  }

  /** The delayed part of `handleTextProcess`: one record per kept line, in
      order, numbered from 1. */
  function TokenizeLines(text: string): (records: seq<TextRecord>)
    ensures |records| == |KeptLines(text)|
    ensures forall i :: 0 <= i < |records| ==>
      && records[i].id == i + 1
      && records[i].original == KeptLines(text)[i]
      && records[i].processed == ToUpper(records[i].original)
      && records[i].length == Utf16Length(records[i].original)
      && records[i].words == Count(records[i].original, ' ') + 1
  {
    var lines := KeptLines(text);
    var records := seq(|lines|, i requires 0 <= i < |lines| => MakeRecord(lines[i], i));
    forall i | 0 <= i < |records|
      ensures records[i].id == i + 1 && records[i].original == lines[i]
    {
      assert records[i] == MakeRecord(lines[i], i);
    }
    records
  }

  /** Some line of a split holds a non-whitespace character whenever the
      text does (the separator itself is whitespace). */
  lemma {:induction false} SplitKeepsNonBlankPiece(s: string)
    requires !AllWhitespace(s)
    ensures exists j :: 0 <= j < |Split(s, '\n')| && !AllWhitespace(Split(s, '\n')[j])
  {
    var pieces := Split(s, '\n');
    var rest := Split(s[1..], '\n');
    if IsWhitespace(s[0]) {
      assert !AllWhitespace(s[1..]) by {
        var i :| 0 <= i < |s| && !IsWhitespace(s[i]);
        assert s[1..][i - 1] == s[i];
      }
      SplitKeepsNonBlankPiece(s[1..]);
      var j :| 0 <= j < |rest| && !AllWhitespace(rest[j]);
      if s[0] == '\n' {
        assert pieces[j + 1] == rest[j];
      } else if j == 0 {
        var i :| 0 <= i < |rest[0]| && !IsWhitespace(rest[0][i]);
        assert pieces[0] == [s[0]] + rest[0] && pieces[0][i + 1] == rest[0][i];
      } else {
        assert pieces[j] == rest[j];
      }
    } else {
      assert pieces[0][0] == s[0];
    }
  }

  /** Text that is not all whitespace keeps at least one line. */
  lemma NonBlankTextKeepsALine(text: string)
    requires !AllWhitespace(text)
    ensures KeptLines(text) != []
  {
    SplitKeepsNonBlankPiece(text);
    var pieces := Split(text, '\n');
    var j :| 0 <= j < |pieces| && !AllWhitespace(pieces[j]);
    TrimEmptyIffBlank(pieces[j]);
    FilterMembers(pieces, line => !IsBlank(line), pieces[j]);
  }

  /** `handleTextProcess`: blank input is rejected before any line is
      looked at; otherwise every kept line becomes a record. */
  function ProcessTextInput(text: string): (r: Result<seq<TextRecord>, string>)
    ensures r.Err? <==> AllWhitespace(text)
    ensures r.Err? ==> r.error == EmptyTextMessage
    ensures r.Ok? ==> r.value == TokenizeLines(text) && |r.value| >= 1
  {
    TrimEmptyIffBlank(text);
    if Trim(text) == [] then Err(EmptyTextMessage)
    else
      NonBlankTextKeepsALine(text);
      Ok(TokenizeLines(text))
  }

  /** The callback `handleTextProcess` ends in. */
  function TextNotice(text: string): (n: Notice)
    ensures n.ErrorRaised? <==> AllWhitespace(text)
    ensures n.ErrorRaised? ==> n.message == EmptyTextMessage
    ensures n.DataProcessed? ==> n.source == Text && |n.data| == |TokenizeLines(text)| >= 1
    ensures n.DataProcessed? ==> forall i :: 0 <= i < |n.data| ==> n.data[i] == ToObject(TokenizeLines(text)[i])
  {
    match ProcessTextInput(text)
    case Err(msg) => ErrorRaised(msg)
    case Ok(records) => DataProcessed(seq(|records|, i requires 0 <= i < |records| => ToObject(records[i])), Text)
  }

  // =============================================================== file

  /** The regular expression `/\.(xlsx|xls|csv)$/` matches at position `i`:
      a dot, one of the alternatives, then the end of the string (`$`
      without the `m` flag). */
  predicate MatchesAt(name: string, i: int) {
    && 0 <= i < |name| && name[i] == '.'
    && (name[i + 1..] == "xlsx" || name[i + 1..] == "xls" || name[i + 1..] == "csv")
  }

  /** `name.match(/\.(xlsx|xls|csv)$/)` finds a match somewhere. */
  predicate HasAllowedExtension(name: string) {
    exists i | 0 <= i < |name| :: MatchesAt(name, i)
  }

  /** A match of the pattern ends the name with one of the extensions. */
  lemma MatchIsSuffix(name: string, i: int)
    requires MatchesAt(name, i)
    ensures EndsWith(name, ".xlsx") || EndsWith(name, ".xls") || EndsWith(name, ".csv")
  {
    assert name[i..] == "." + name[i + 1..];
  }

  /** A name ending with `ext`, a dot and three or four letters, matches
      the pattern at the dot. */
  lemma SuffixMatches(name: string, ext: string)
    requires ext == ".xlsx" || ext == ".xls" || ext == ".csv"
    requires EndsWith(name, ext)
    ensures MatchesAt(name, |name| - |ext|)
  {
    assert name[|name| - |ext| + 1..] == name[|name| - |ext|..][1..];
  }

  /** The pattern is an exact, case-sensitive suffix test. */
  lemma AllowedExtensionIsSuffix(name: string)
    ensures HasAllowedExtension(name) <==>
      EndsWith(name, ".xlsx") || EndsWith(name, ".xls") || EndsWith(name, ".csv")
  {
    if HasAllowedExtension(name) {
      var i :| 0 <= i < |name| && MatchesAt(name, i);
      MatchIsSuffix(name, i);
    }
    if EndsWith(name, ".xlsx") {
      SuffixMatches(name, ".xlsx");
    } else if EndsWith(name, ".xls") {
      SuffixMatches(name, ".xls");
    } else if EndsWith(name, ".csv") {
      SuffixMatches(name, ".csv");
    }
  }

  /** Names the pattern accepts, a bare `.csv` among them. */
  lemma AcceptedNames()
    ensures HasAllowedExtension("report.xlsx") && HasAllowedExtension("old.xls")
    ensures HasAllowedExtension("data.csv") && HasAllowedExtension(".csv")
  {
    assert MatchesAt("report.xlsx", 6);
    assert MatchesAt("old.xls", 3);
    assert MatchesAt("data.csv", 4);
    assert MatchesAt(".csv", 0);
  }

  /** Upper-case, double and padded extensions are refused. */
  lemma RefusedNames()
    ensures !HasAllowedExtension("DATA.CSV")
    ensures !HasAllowedExtension("data.csv.txt")
    ensures !HasAllowedExtension("data.xlsx ")
  {
    AllowedExtensionIsSuffix("DATA.CSV");
    AllowedExtensionIsSuffix("data.csv.txt");
    AllowedExtensionIsSuffix("data.xlsx ");
  }

  /** What the spreadsheet library gives for a file's bytes: the rows of the
      first sheet as objects keyed by column header, or an exception. */
  datatype Decoded = Rows(rows: seq<Object>) | DecodeFailure

  /** `{id: index + 1, ...row, _processed: true}`. */
  function NormaliseRow(row: Object, index: nat): (r: Object)
    ensures r.entries != [] && r.entries[0].0 == "id"
    ensures Get(r, "_processed") == Bool(true)
    ensures "id" !in Keys(row) ==> Get(r, "id") == Num(index + 1)
  {
    var base := Obj([("id", Num(index + 1))]);
    var spread := Spread(base, row);
    SpreadWellFormed(base, row);
    PutWellFormed(spread, "_processed", Bool(true));
    PutGet(spread, "_processed", Bool(true), "_processed");
    PutGet(spread, "_processed", Bool(true), "id");
    SpreadGet(base, row, "id");
    Put(spread, "_processed", Bool(true))
  }

  /** The key order of a normalised row: `id` first; then the row's own
      columns in their order (a column named `id` stays in first place);
      `_processed` last unless the row already has it. */
  lemma NormaliseRowKeys(row: Object, index: nat)
    ensures Keys(NormaliseRow(row, index)) ==
      ["id"] + NewKeys(Keys(row), ["id"]) + (if "_processed" in Keys(row) then [] else ["_processed"])
  {
    var base := Obj([("id", Num(index + 1))]);
    var spread := Spread(base, row);
    assert Keys(base) == ["id"];
    SpreadKeys(base, row);
    NewKeysMembers(Keys(row), ["id"], "_processed");
    PutKeys(spread, "_processed", Bool(true));
  }

  /** The values of a normalised row: `id` is the row's own `id` if it has
      one, else the position plus one; `_processed` is `true`; every other
      column keeps its value. */
  lemma NormaliseRowValues(row: Object, index: nat, k: string)
    ensures Get(NormaliseRow(row, index), k) ==
      if k == "_processed" then Bool(true)
      else if k == "id" && "id" !in Keys(row) then Num(index + 1)
      else Get(row, k)
  {
    var base := Obj([("id", Num(index + 1))]);
    var spread := Spread(base, row);
    SpreadGet(base, row, k);
    PutGet(spread, "_processed", Bool(true), k);
    assert Keys(base) == ["id"];
  }

  /** `jsonData.map((row, index) => ({id: index + 1, ...row, _processed: true}))`. */
  function NormaliseRows(rows: seq<Object>): (batch: seq<Object>)
    ensures |batch| == |rows|
    ensures forall i :: 0 <= i < |batch| ==> batch[i] == NormaliseRow(rows[i], i)
  {
    seq(|rows|, i requires 0 <= i < |rows| => NormaliseRow(rows[i], i))
  }

  /** When no row brings its own `id` column, the ids are exactly 1..n. */
  lemma NormalisedIdsArePositions(rows: seq<Object>)
    requires forall i :: 0 <= i < |rows| ==> "id" !in Keys(rows[i])
    ensures forall i :: 0 <= i < |rows| ==> Get(NormaliseRows(rows)[i], "id") == Num(i + 1)
  {
    forall i | 0 <= i < |rows| {
      NormaliseRowValues(rows[i], i, "id");
    }
  }

  /** `handleFileUpload` from the extension test to the callback: a refused
      name is reported before anything is read; a decode exception is
      reported as one message; decoded rows are normalised. */
  function ProcessFile(name: string, bytes: seq<bv8>, decode: seq<bv8> -> Decoded): (r: Result<seq<Object>, string>)
    ensures !HasAllowedExtension(name) ==> r == Err(BadFileMessage)
    ensures HasAllowedExtension(name) && decode(bytes).DecodeFailure? ==> r == Err(DecodeFailedMessage)
    ensures HasAllowedExtension(name) && decode(bytes).Rows? ==> r == Ok(NormaliseRows(decode(bytes).rows))
  {
    if !HasAllowedExtension(name) then Err(BadFileMessage)
    else
      match decode(bytes)
      case DecodeFailure => Err(DecodeFailedMessage)
      case Rows(rows) => Ok(NormaliseRows(rows))
  }

  /** A refused file name is never decoded: the outcome does not depend on
      the decoder at all. */
  lemma RefusedFileIsNotDecoded(name: string, bytes: seq<bv8>, d1: seq<bv8> -> Decoded, d2: seq<bv8> -> Decoded)
    requires !HasAllowedExtension(name)
    ensures ProcessFile(name, bytes, d1) == ProcessFile(name, bytes, d2)
  {
  }

  /** An empty sheet is a valid file: it yields an empty batch, not an error. */
  lemma EmptySheetIsEmptyBatch(name: string, bytes: seq<bv8>, decode: seq<bv8> -> Decoded)
    requires HasAllowedExtension(name) && decode(bytes) == Rows([])
    ensures ProcessFile(name, bytes, decode) == Ok([])
  {
  }

  /** The callback `handleFileUpload` ends in. */
  function FileNotice(name: string, bytes: seq<bv8>, decode: seq<bv8> -> Decoded): (n: Notice)
    ensures n.ErrorRaised? <==> !HasAllowedExtension(name) || decode(bytes).DecodeFailure?
    ensures !HasAllowedExtension(name) ==> n == ErrorRaised(BadFileMessage)
    ensures HasAllowedExtension(name) && decode(bytes).DecodeFailure? ==> n == ErrorRaised(DecodeFailedMessage)
    ensures n.DataProcessed? ==> n.source == File && n.data == NormaliseRows(decode(bytes).rows)
  {
    match ProcessFile(name, bytes, decode)
    case Err(msg) => ErrorRaised(msg)
    case Ok(batch) => DataProcessed(batch, File)
  }

  // ====================================================== component state

  /** A file taken from a drop event: its name and its contents. */
  datatype DroppedFile = DroppedFile(name: string, bytes: seq<bv8>)

  /** The panel's own state that the two handlers update. Each handler is
      modelled as running to completion: the one-second timer and the file
      reader's load event fire before it returns. */
  class InputPanel {
    var isProcessing: bool
    var uploadedFile: Option<string>
    var isDragActive: bool

    constructor ()
      ensures !isProcessing && uploadedFile == None && !isDragActive
    {
      isProcessing := false;
      uploadedFile := None;
      isDragActive := false;
    }

    /** `handleTextProcess`: blank text is reported at once and touches no
        state; otherwise the panel is busy until the records are reported. */
    method HandleTextProcess(text: string) returns (notice: Notice)
      modifies this
      ensures notice == TextNotice(text)
      ensures notice.ErrorRaised? <==> AllWhitespace(text)
      ensures uploadedFile == old(uploadedFile) && isDragActive == old(isDragActive)
      ensures isProcessing == (if notice.ErrorRaised? then old(isProcessing) else false)
    {
      match ProcessTextInput(text)
      case Err(msg) =>
        notice := ErrorRaised(msg);
      case Ok(records) =>
        isProcessing := true;
        notice := DataProcessed(seq(|records|, i requires 0 <= i < |records| => ToObject(records[i])), Text);
        isProcessing := false;
    }

    /** `handleFileUpload`: a refused name is reported at once and touches
        no state; an accepted file is remembered before it is read, whether
        or not it decodes. */
    method HandleFileUpload(name: string, bytes: seq<bv8>, decode: seq<bv8> -> Decoded) returns (notice: Notice)
      modifies this
      ensures notice == FileNotice(name, bytes, decode)
      ensures uploadedFile == if HasAllowedExtension(name) then Some(name) else old(uploadedFile)
      ensures isProcessing == if HasAllowedExtension(name) then false else old(isProcessing)
      ensures isDragActive == old(isDragActive)
    {
      if !HasAllowedExtension(name) {
        notice := ErrorRaised(BadFileMessage);
        return;
      }
      isProcessing := true;
      uploadedFile := Some(name);
      match decode(bytes)
      case DecodeFailure =>
        notice := ErrorRaised(DecodeFailedMessage);
        isProcessing := false;
      case Rows(rows) =>
        notice := DataProcessed(NormaliseRows(rows), File);
        isProcessing := false;
    }

    /** `handleDrop`: the drag highlight goes off, and the first dropped
        file, if any, is uploaded; any further files are ignored. */
    method HandleDrop(files: seq<DroppedFile>, decode: seq<bv8> -> Decoded) returns (notice: Option<Notice>)
      modifies this
      ensures !isDragActive
      ensures files == [] ==> notice == None && uploadedFile == old(uploadedFile) && isProcessing == old(isProcessing)
      ensures files != [] ==> var f := files[0];
        && notice == Some(FileNotice(f.name, f.bytes, decode))
        && uploadedFile == (if HasAllowedExtension(f.name) then Some(f.name) else old(uploadedFile))
        && isProcessing == (if HasAllowedExtension(f.name) then false else old(isProcessing))
    {
      isDragActive := false;
      if |files| > 0 {
        var n := HandleFileUpload(files[0].name, files[0].bytes, decode);
        notice := Some(n);
      } else {
        notice := None;
      }
    }

    /** `handleDragOver`: a file is being dragged over the drop zone. */
    method HandleDragOver()
      modifies this
      ensures isDragActive
      ensures isProcessing == old(isProcessing) && uploadedFile == old(uploadedFile)
    {
      isDragActive := true;
    }

    /** `handleDragLeave`: the drag left the drop zone. */
    method HandleDragLeave()
      modifies this
      ensures !isDragActive
      ensures isProcessing == old(isProcessing) && uploadedFile == old(uploadedFile)
    {
      isDragActive := false;
    }

    /** `clearFile`: forgets the uploaded file. */
    method ClearFile()
      modifies this
      ensures uploadedFile == None && isProcessing == old(isProcessing)
      ensures isDragActive == old(isDragActive)
    {
      uploadedFile := None;
    }
  }
}
