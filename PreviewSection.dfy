/** The preview panel: what it shows for the current batch (a count, a
    source badge, and a table or a list of the records) and which file the
    Save button writes. */
module PreviewSection {
  import opened Wrappers
  import opened JsString
  import opened JsValue
  import opened InputSection

  // ============================================================ cells

  /** `header.replace('_', ' ')`: the label of a column. Only the first
      underscore becomes a space; every other character stays. */
  function HeaderLabel(header: string): (l: string)
    ensures |l| == |header|
    ensures '_' !in header ==> l == header
    ensures '_' in header ==> l == header[..IndexOf(header, '_')] + " " + header[IndexOf(header, '_') + 1..]
  {
    ReplaceFirstAtIndex(header, '_', ' ');
    ReplaceFirst(header, '_', ' ')
  }

  /** Only the first underscore becomes a space. */
  lemma HeaderLabelOfTwoUnderscores()
    ensures HeaderLabel("a_b_c") == "a b_c"
  {
    assert IndexOf("a_b_c", '_') == 1 by {
      assert "a_b_c"[1..][0] == '_';
    }
  }

  lemma HeaderLabelOfProcessed()
    ensures HeaderLabel("_processed") == " processed"
  {
  }

  lemma HeaderLabelWithoutUnderscore()
    ensures HeaderLabel("original") == "original"
  {
    assert forall i :: 0 <= i < |"original"| ==> "original"[i] != '_';
  }

  /** `String(value || '')`: falsy values show as nothing, truthy ones as
      `String(value)`. */
  function CellText(v: Value): (t: string)
    ensures t == [] <==> !Truthy(v)
    ensures Truthy(v) ==> t == ToString(v)
  {
    ToString(if Truthy(v) then v else Str(""))
  }

  // ============================================================ table

  /** The rendered table: column labels and, per record, one text per
      column. */
  datatype Table = Table(labels: seq<string>, rows: seq<seq<string>>)

  /** `Object.keys(data[0])`: the columns come from the first record only,
      one per own property, in its order. */
  function Headers(data: seq<Obj>): (headers: seq<string>)
    requires data != []
    ensures |headers| == |data[0].entries|
    ensures forall j :: 0 <= j < |headers| ==> headers[j] == data[0].entries[j].0
  {
    KeysAreEntryNames(data[0]);
    Keys(data[0])
  }

  /** `renderTableView`: nothing for an empty batch; otherwise the columns
      of the first record, in its key order, and one row per record in
      which a column the record lacks reads as empty. */
  function TableView(data: seq<Obj>): (t: Option<Table>)
    ensures t.None? <==> data == []
    ensures t.Some? ==>
      && |t.value.labels| == |Keys(data[0])|
      && (forall j :: 0 <= j < |t.value.labels| ==> t.value.labels[j] == HeaderLabel(Keys(data[0])[j]))
      && |t.value.rows| == |data|
      && (forall i :: 0 <= i < |data| ==> |t.value.rows[i]| == |Keys(data[0])|)
      && (forall i, j :: 0 <= i < |data| && 0 <= j < |Keys(data[0])| ==>
            t.value.rows[i][j] == CellText(Get(data[i], Keys(data[0])[j])))
  {
    if data == [] then None
    else
      var headers := Headers(data);
      Some(Table(
        seq(|headers|, j requires 0 <= j < |headers| => HeaderLabel(headers[j])),
        seq(|data|, i requires 0 <= i < |data| =>
          seq(|headers|, j requires 0 <= j < |headers| => CellText(Get(data[i], headers[j]))))))
  }

  /** A column that only later records have is never shown, and a record's
      cell for a column it lacks is empty. */
  lemma LaterColumnsHidden(data: seq<Obj>, i: nat, k: string)
    requires 0 < i < |data| && k in Keys(data[i]) && k !in Keys(data[0])
    ensures k !in Headers(data)
  {
  }

  lemma MissingCellIsEmpty(data: seq<Obj>, i: nat, j: nat)
    requires data != [] && i < |data| && j < |Keys(data[0])| && Keys(data[0])[j] !in Keys(data[i])
    ensures TableView(data).value.rows[i][j] == ""
  {
  }

  // ============================================================ list

  /** One entry of the list view: its title and its `[key, text]` pairs. */
  datatype ListItem = ListItem(title: string, fields: seq<(string, string)>)

  /** `item.id || index + 1`: the number shown as `Item #n`. */
  function ItemNumber(item: Obj, index: nat): (v: Value)
    ensures Truthy(v)
    ensures Truthy(Get(item, "id")) ==> v == Get(item, "id")
    ensures !Truthy(Get(item, "id")) ==> v == Num(index + 1)
  {
    var id := Get(item, "id");
    if Truthy(id) then id else Num(index + 1)
  }

  /** The text React renders for a value placed as a JSX child: booleans,
      `null` and `undefined` render as nothing; strings and numbers as
      `String(v)`. */
  function JsxText(v: Value): (t: string)
    ensures v.Bool? || v.Null? || v.Undefined? ==> t == []
    ensures v.Str? ==> t == v.s
    ensures v.Num? ==> t == NumberToString(v.n) && t != []
  {
    match v
    case Str(_) => ToString(v)
    case Num(_) => ToString(v)
    case _ => []
  }

  /** `Item #{item.id || index + 1}`: the heading of a list entry. A truthy
      `id` is shown as React renders it, so an `id` of `true` leaves the
      heading as `Item #` alone; a falsy `id` gives the position plus one. */
  function ListLabel(item: Obj, index: nat): (r: string)
    ensures |r| >= 6 && r[..6] == "Item #"
    ensures Get(item, "id").Num? && Get(item, "id").n != 0 ==> r == "Item #" + NumberToString(Get(item, "id").n)
    ensures Get(item, "id").Str? && Get(item, "id").s != [] ==> r == "Item #" + Get(item, "id").s
    ensures Get(item, "id") == Bool(true) ==> r == "Item #"
    ensures !Truthy(Get(item, "id")) ==> r == "Item #" + NatDigits(index + 1)
  {
    "Item #" + JsxText(ItemNumber(item, index))
  }

  /** `renderListView`: per record its label and every own property as a
      label and a cell text, in the record's key order. */
  function ListView(data: seq<Obj>): (items: seq<ListItem>)
    ensures |items| == |data|
    ensures forall i :: 0 <= i < |data| ==>
      && items[i].title == ListLabel(data[i], i)
      && |items[i].fields| == |data[i].entries|
      && (forall j :: 0 <= j < |data[i].entries| ==>
            items[i].fields[j] == (HeaderLabel(data[i].entries[j].0), CellText(data[i].entries[j].1)))
  {
    seq(|data|, i requires 0 <= i < |data| =>
      ListItem(ListLabel(data[i], i),
        seq(|data[i].entries|, j requires 0 <= j < |data[i].entries| =>
          (HeaderLabel(data[i].entries[j].0), CellText(data[i].entries[j].1)))))
  }

  // ============================================================ panel

  datatype ViewMode = TableMode | ListMode

  datatype Body = TableBody(table: Option<Table>) | ListBody(items: seq<ListItem>)

  /** What the panel shows: a placeholder, or the item count, the source
      badge and the chosen view. */
  datatype Preview = NoData | Populated(count: nat, badge: Option<string>, body: Body)

  /** The source badge: shown only when a source is set. */
  function Badge(source: Option<Source>): (b: Option<string>)
    ensures b.None? <==> source.None?
    ensures b == Some("Text Input") <==> source == Some(Text)
    ensures b == Some("File Upload") <==> source == Some(File)
  {
    match source
    case None => None
    case Some(s) => Some(if s == Text then "Text Input" else "File Upload")
  }

  /** The preview for a batch, its source and the chosen view. */
  function Render(data: seq<Obj>, source: Option<Source>, mode: ViewMode): (p: Preview)
    ensures p.NoData? <==> data == []
    ensures p.Populated? ==> p.count == |data| && p.badge == Badge(source)
    ensures p.Populated? && mode == TableMode ==> p.body == TableBody(TableView(data)) && p.body.table.Some?
    ensures p.Populated? && mode == ListMode ==> p.body == ListBody(ListView(data))
  {
    if data == [] then NoData
    else Populated(|data|, Badge(source),
      if mode == TableMode then TableBody(TableView(data)) else ListBody(ListView(data)))
  }

  // ============================================================ export

  /** The file `handleSave` writes. */
  datatype Artifact = JsonDownload(fileName: string) | Workbook(fileName: string, sheetName: string)

  /** `handleSave`: JSON for a text batch, a workbook for anything else,
      including a batch with no source. */
  function ExportArtifact(source: Option<Source>): (a: Artifact)
    ensures a.JsonDownload? <==> source == Some(Text)
    ensures a.JsonDownload? ==> a.fileName == "processed_text_data.json"
    ensures a.Workbook? ==> a.fileName == "processed_data.xlsx" && a.sheetName == "Processed Data"
  {
    if source == Some(Text) then JsonDownload("processed_text_data.json")
    else Workbook("processed_data.xlsx", "Processed Data")
  }

  // ============================================ batches from the input panel

  /** The list heading of a text record is its number. */
  lemma RecordLabel(r: TextRecord, i: nat)
    requires r.id == i + 1
    ensures ListLabel(ToObject(r), i) == "Item #" + NatDigits(i + 1)
  {
    ToObjectKeys(r);
  }

  /** A text batch shows the five record fields as its columns, and its
      list labels count 1, 2, 3, ... */
  lemma TextBatchColumns(text: string)
    requires TextNotice(text).DataProcessed?
    ensures var data := TextNotice(text).data;
      && data != []
      && Headers(data) == ["id", "original", "processed", "length", "words"]
      && forall i :: 0 <= i < |data| ==> ListLabel(data[i], i) == "Item #" + NatDigits(i + 1)
  {
    var records := TokenizeLines(text);
    var data := TextNotice(text).data;
    assert data[0] == ToObject(records[0]);
    ToObjectKeys(records[0]);
    forall i | 0 <= i < |data|
      ensures ListLabel(data[i], i) == "Item #" + NatDigits(i + 1)
    {
      assert data[i] == ToObject(records[i]);
      RecordLabel(records[i], i);
    }
  }

  /** In a file batch whose rows bring no `id` column the list labels
      count 1, 2, 3, ..., the same numbers as the `id` cells. */
  lemma FileBatchLabels(rows: seq<Object>)
    requires forall i :: 0 <= i < |rows| ==> "id" !in Keys(rows[i])
    ensures var data := NormaliseRows(rows);
      forall i :: 0 <= i < |data| ==>
        && ListLabel(data[i], i) == "Item #" + NatDigits(i + 1)
        && CellText(Get(data[i], "id")) == NatDigits(i + 1)
  {
    NormalisedIdsArePositions(rows);
  }
}
