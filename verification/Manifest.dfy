/** The bulk-upload CSV manifest: quoted rows, label lists, and reading a printed manifest back. */
module Manifest {
  import opened JsStrings
  import opened Wrappers

  // ------------------------------------------------------------- one row

  /** The cells of a row from here on, given the cell begun and whether it is inside quotes. */
  function Scan(line: string, current: string, quoted: bool): seq<string> {
    if line == "" then [current]
    else if line[0] == '"' then
      if quoted && |line| > 1 && line[1] == '"' then Scan(line[2..], current + "\"", quoted)
      else Scan(line[1..], current, !quoted)
    else if line[0] == ',' && !quoted then [current] + Scan(line[1..], "", quoted)
    else Scan(line[1..], current + [line[0]], quoted)
  }

  function TrimAll(cells: seq<string>): seq<string> {
    seq(|cells|, i requires 0 <= i < |cells| => Trim(cells[i]))
  }

  function RowCells(line: string): seq<string> {
    TrimAll(Scan(line, "", false))
  }

  /** `splitCsvRow`. */
  method SplitCsvRow(line: string) returns (cells: seq<string>)
    ensures cells == RowCells(line)
  {
    cells := [];
    var current, quoted, index := "", false, 0;
    while index < |line|
      invariant index <= |line|
      invariant Scan(line, "", false) == cells + Scan(line[index..], current, quoted)
    {
      var c := line[index];
      var rest := line[index..];
      assert rest[0] == c && rest[1..] == line[index + 1..];
      if c == '"' {
        if quoted && index + 1 < |line| && line[index + 1] == '"' {
          assert rest[2..] == line[index + 2..];
          current := current + "\"";
          index := index + 1;
        } else {
          quoted := !quoted;
        }
      } else if c == ',' && !quoted {
        cells := cells + [current];
        current := "";
      } else {
        current := current + [c];
      }
      index := index + 1;
    }
    assert line[index..] == "";
    cells := TrimAll(cells + [current]);
  }

  /** A cell as RFC 4180 writes it in quotes: every quote doubled. */
  function Doubled(cell: string): string {
    if cell == "" then ""
    else (if cell[0] == '"' then "\"\"" else [cell[0]]) + Doubled(cell[1..])
  }

  /** A cell to print; quotes may be left out only where nothing needs them. */
  datatype Cell = Cell(text: string, quoted: bool) {
    predicate Printable() {
      quoted || (',' !in text && '"' !in text)
    }

    function Print(): string {
      if quoted then "\"" + Doubled(text) + "\"" else text
    }
  }

  function PrintRow(cells: seq<Cell>): string
    requires cells != []
  {
    if |cells| == 1 then cells[0].Print() else cells[0].Print() + "," + PrintRow(cells[1..])
  }

  function Texts(cells: seq<Cell>): seq<string> {
    seq(|cells|, i requires 0 <= i < |cells| => cells[i].text)
  }

  lemma {:induction false} ScanPlain(cell: string, rest: string, current: string)
    requires ',' !in cell && '"' !in cell
    ensures Scan(cell + rest, current, false) == Scan(rest, current + cell, false)
  {
    if cell == "" {
      assert cell + rest == rest && current + cell == current;
    } else {
      assert cell[0] in cell && (cell + rest)[1..] == cell[1..] + rest;
      ScanPlain(cell[1..], rest, current + [cell[0]]);
      assert current + [cell[0]] + cell[1..] == current + cell;
    }
  }

  lemma ScanInQuotes(c: char, line: string, current: string)
    ensures Scan("\"\"" + line, current, true) == Scan(line, current + "\"", true)
    ensures c != '"' ==> Scan([c] + line, current, true) == Scan(line, current + [c], true)
  {
    assert ("\"\"" + line)[2..] == line && ([c] + line)[1..] == line;
  }

  lemma {:induction false} ScanDoubled(cell: string, rest: string, current: string)
    ensures Scan(Doubled(cell) + rest, current, true) == Scan(rest, current + cell, true)
  {
    hide Scan;
    if cell == "" {
      assert Doubled(cell) + rest == rest && current + cell == current;
    } else {
      var line := Doubled(cell[1..]) + rest;
      ScanDoubled(cell[1..], rest, current + [cell[0]]);
      ScanInQuotes(cell[0], line, current);
      assert current + [cell[0]] + cell[1..] == current + cell;
      assert Doubled(cell) + rest == (if cell[0] == '"' then "\"\"" else [cell[0]]) + line;
    }
  }

  /** A printed cell is scanned back whole, commas and quotes included, up to the end of the row or a comma. */
  lemma ScanCell(cell: Cell, rest: string)
    requires cell.Printable() && (rest == "" || rest[0] == ',')
    ensures Scan(cell.Print() + rest, "", false) == Scan(rest, cell.text, false)
  {
    hide Doubled;
    if cell.quoted {
      var body := Doubled(cell.text) + ("\"" + rest);
      assert cell.Print() + rest == "\"" + body && ("\"" + body)[1..] == body;
      ScanDoubled(cell.text, "\"" + rest, "");
      assert "" + cell.text == cell.text && ("\"" + rest)[1..] == rest;
    } else {
      ScanPlain(cell.text, rest, "");
      assert "" + cell.text == cell.text;
    }
  }

  lemma {:induction false} ScanRow(cells: seq<Cell>)
    requires cells != [] && forall c :: c in cells ==> c.Printable()
    ensures Scan(PrintRow(cells), "", false) == Texts(cells)
  {
    hide Scan;
    var c := cells[0];
    assert c in cells;
    if |cells| == 1 {
      ScanCell(c, "");
      assert c.Print() + "" == c.Print();
      ScanEnd(c.text);
    } else {
      var rest := "," + PrintRow(cells[1..]);
      ScanCell(c, rest);
      ScanRow(cells[1..]);
      ScanComma(PrintRow(cells[1..]), c.text);
      assert c.Print() + "," + PrintRow(cells[1..]) == c.Print() + rest;
    }
  }

  lemma ScanEnd(current: string)
    ensures Scan("", current, false) == [current]
  {
  }

  lemma ScanComma(line: string, current: string)
    ensures Scan("," + line, current, false) == [current] + Scan(line, "", false)
  {
    assert ("," + line)[1..] == line;
  }

  /** A printed row splits into its cells, trimmed; exactly the cells when they carry no outer white space. */
  lemma RowReadsBack(cells: seq<Cell>)
    requires cells != [] && forall c :: c in cells ==> c.Printable()
    ensures RowCells(PrintRow(cells)) == TrimAll(Texts(cells))
    ensures RowCells(PrintRow(cells)) == Texts(cells) <==> forall c :: c in cells ==> Trimmed(c.text)
  {
    hide Scan, PrintRow, Trimmed, Trim;
    ScanRow(cells);
    forall i | 0 <= i < |cells|
      ensures Trim(cells[i].text) == cells[i].text <==> Trimmed(cells[i].text)
    {
      TrimTrims(cells[i].text);
    }
    if RowCells(PrintRow(cells)) == Texts(cells) {
      forall c | c in cells
        ensures Trimmed(c.text)
      {
        var i :| 0 <= i < |cells| && cells[i] == c;
        assert TrimAll(Texts(cells))[i] == Texts(cells)[i];
      }
    } else {
      assert exists i :: 0 <= i < |cells| && TrimAll(Texts(cells))[i] != Texts(cells)[i];
    }
  }

  // ------------------------------------------------------------- splitting and joining

  /** `s.split(at)` for a one-character separator. */
  function SplitOn(s: string, at: char): (parts: seq<string>)
    ensures parts != []
  {
    if s == "" then [""] else
      var rest := SplitOn(s[1..], at);
      if s[0] == at then [""] + rest else [[s[0]] + rest[0]] + rest[1..]
  }

  lemma {:induction false} SplitPart(part: string, at: char, rest: string)
    requires at !in part
    ensures SplitOn(part + [at] + rest, at) == [part] + SplitOn(rest, at)
  {
    if part == "" {
      assert part + [at] + rest == [at] + rest && ([at] + rest)[1..] == rest;
    } else {
      assert part[0] in part && (part + [at] + rest)[1..] == part[1..] + [at] + rest;
      SplitPart(part[1..], at, rest);
      assert [part[0]] + part[1..] == part;
    }
  }

  lemma {:induction false} SplitLast(part: string, at: char)
    requires at !in part
    ensures SplitOn(part, at) == [part]
  {
    if part != "" {
      assert part[0] in part;
      SplitLast(part[1..], at);
      assert [part[0]] + part[1..] == part;
    }
  }

  // ------------------------------------------------------------- labels

  datatype ManifestError = BadLabel(pair: string) | TooFewRows | NoFilenameColumn

  type Labels = map<string, string>

  const PROTO := "__proto__"

  /** `object[key] = value` on a plain labelled: the one key that does not become an own property. */
  function Put<T>(m: map<string, T>, key: string, value: T): map<string, T> {
    if key == PROTO then m else m[key := value]
  }

  function IndexOf(s: string, c: char): (i: int)
    ensures -1 <= i && (i >= 0 ==> i < |s| && s[i] == c)
  {
    if s == "" then -1
    else if s[0] == c then 0
    else var i := IndexOf(s[1..], c); if i < 0 then -1 else i + 1
  }

  function PairInto(labels: Labels, part: string): Result<Labels, ManifestError> {
    var trimmed := Trim(part);
    if trimmed == "" then Ok(labels) else
      var index := IndexOf(trimmed, '=');
      if index <= 0 then Err(BadLabel(trimmed))
      else Ok(Put(labels, Trim(trimmed[..index]), Trim(trimmed[index + 1..])))
  }

  function LabelsFrom(labels: Labels, parts: seq<string>): Result<Labels, ManifestError>
    decreases parts
  {
    if parts == [] then Ok(labels) else
      match PairInto(labels, parts[0])
      case Err(e) => Err(e)
      case Ok(more) => LabelsFrom(more, parts[1..])
  }

  /** `parseLabelPairs`. */
  method ParseLabelPairs(raw: string) returns (r: Result<Labels, ManifestError>)
    ensures r == LabelsFrom(map[], SplitOn(raw, ';'))
  {
    hide PairInto;
    var parts, labels: Labels := SplitOn(raw, ';'), map[];
    for i := 0 to |parts|
      invariant LabelsFrom(map[], parts) == LabelsFrom(labels, parts[i..])
    {
      assert parts[i..][0] == parts[i] && parts[i..][1..] == parts[i + 1..];
      var next := PairInto(labels, parts[i]);
      if next.Err? { return Err(next.error); }
      labels := next.value;
    }
    return Ok(labels);
  }

  /** A part that is not blank and has no name: no equals sign, or nothing before it. */
  predicate BadPart(part: string) {
    Trim(part) != "" && ('=' !in Trim(part) || Trim(part)[0] == '=')
  }

  lemma {:induction false} IndexOfIff(s: string, c: char)
    ensures IndexOf(s, c) < 0 <==> c !in s
    ensures IndexOf(s, c) == 0 <==> s != "" && s[0] == c
  {
    if s != "" { IndexOfIff(s[1..], c); }
  }

  /** A label list is refused exactly when some part is bad, and the error names the first such part. */
  lemma {:induction false} LabelErrorIff(labels: Labels, parts: seq<string>)
    ensures LabelsFrom(labels, parts).Err? <==> exists p :: p in parts && BadPart(p)
    ensures LabelsFrom(labels, parts).Err? ==> exists i ::
      && 0 <= i < |parts| && BadPart(parts[i]) && LabelsFrom(labels, parts).error == BadLabel(Trim(parts[i]))
      && forall k :: 0 <= k < i ==> !BadPart(parts[k])
    decreases parts
  {
    if parts != [] {
      var first, rest := parts[0], parts[1..];
      PartErrorIff(labels, first);
      hide BadPart, PairInto;
      assert parts == [first] + rest;
      if PairInto(labels, first).Ok? {
        var more := PairInto(labels, first).value;
        LabelErrorIff(more, rest);
        if LabelsFrom(more, rest).Err? {
          var i :| 0 <= i < |rest| && BadPart(rest[i]) && LabelsFrom(more, rest).error == BadLabel(Trim(rest[i]))
            && forall k :: 0 <= k < i ==> !BadPart(rest[k]);
          assert parts[i + 1] == rest[i];
        }
      }
    }
  }

  lemma PartErrorIff(labels: Labels, part: string)
    ensures PairInto(labels, part) == Err(BadLabel(Trim(part))) <==> BadPart(part)
    ensures PairInto(labels, part).Err? ==> BadPart(part)
  {
    hide Trim;
    IndexOfIff(Trim(part), '=');
  }

  datatype Label = Label(name: string, value: string)

  /** A label that can be written as `k=v`: nothing that the list or the line is cut at, nothing trimmed away. */
  predicate SafeLabel(l: Label) {
    && l.name != "" && Trimmed(l.name) && Trimmed(l.value)
    && '=' !in l.name && ';' !in l.name && ';' !in l.value && '\n' !in l.name && '\n' !in l.value
  }

  function PrintLabel(l: Label): string {
    l.name + "=" + l.value
  }

  function PrintLabels(labels: seq<Label>): string {
    if labels == [] then ""
    else if |labels| == 1 then PrintLabel(labels[0])
    else PrintLabel(labels[0]) + ";" + PrintLabels(labels[1..])
  }

  /** The labels as an object. */
  function AsObject(base: Labels, labels: seq<Label>): Labels
    decreases labels
  {
    if labels == [] then base else AsObject(Put(base, labels[0].name, labels[0].value), labels[1..])
  }

  lemma {:induction false} IndexOfFirst(a: string, c: char, b: string)
    requires c !in a
    ensures IndexOf(a + [c] + b, c) == |a|
  {
    if a == "" {
      assert a + [c] + b == [c] + b;
    } else {
      assert a[0] in a && (a + [c] + b)[1..] == a[1..] + [c] + b;
      IndexOfFirst(a[1..], c, b);
    }
  }

  lemma PairReadsBack(base: Labels, l: Label)
    requires SafeLabel(l)
    ensures PairInto(base, PrintLabel(l)) == Ok(Put(base, l.name, l.value))
  {
    hide Trim, IndexOf;
    var pair := PrintLabel(l);
    assert Trimmed(pair);
    TrimTrims(pair);
    TrimTrims(l.name);
    TrimTrims(l.value);
    IndexOfFirst(l.name, '=', l.value);
    assert pair == l.name + ['='] + l.value;
    assert pair[..|l.name|] == l.name && pair[|l.name| + 1..] == l.value;
  }

  lemma {:induction false} LabelsReadBack(base: Labels, labels: seq<Label>)
    requires forall l :: l in labels ==> SafeLabel(l)
    ensures LabelsFrom(base, SplitOn(PrintLabels(labels), ';')) == Ok(AsObject(base, labels))
    decreases labels
  {
    hide PairInto, PrintLabel;
    if labels == [] {
      NoLabels(base);
    } else {
      var l := labels[0];
      assert l in labels;
      PairReadsBack(base, l);
      PairHasNoSeparator(l);
      if |labels| == 1 {
        SplitLast(PrintLabel(l), ';');
        assert [PrintLabel(l)][1..] == [] && labels[1..] == [];
      } else {
        SplitPart(PrintLabel(l), ';', PrintLabels(labels[1..]));
        LabelsReadBack(Put(base, l.name, l.value), labels[1..]);
        var parts := SplitOn(PrintLabels(labels), ';');
        assert PrintLabels(labels) == PrintLabel(l) + [';'] + PrintLabels(labels[1..]);
        assert parts[1..] == SplitOn(PrintLabels(labels[1..]), ';');
      }
    }
  }

  lemma NoLabels(base: Labels)
    ensures LabelsFrom(base, SplitOn("", ';')) == Ok(base)
  {
    assert Trim("") == "";
    assert [""][1..] == [];
  }

  lemma PairHasNoSeparator(l: Label)
    requires SafeLabel(l)
    ensures ';' !in PrintLabel(l) && '\n' !in PrintLabel(l)
  {
  }

  // ------------------------------------------------------------- the whole file

  datatype Entry = Entry(
    labels: Option<Labels>, licensePreset: Option<string>, priceIp: Option<string>, modality: Option<string>)

  const COLUMNS: seq<string> := ["filename", "labels", "license_preset", "price_ip", "modality"]

  /** `contents.split(/\r?\n/)`, each line trimmed, blank ones dropped. */
  function RowsOf(contents: string): seq<string> {
    NonBlank(SplitOn(contents, '\n'))
  }

  /** The carriage return that the separator takes with it is one more character for trim to remove. */
  function NonBlank(lines: seq<string>): seq<string> {
    if lines == [] then [] else
      var line := Trim(WithoutCr(lines[0]));
      (if line == "" then [] else [line]) + NonBlank(lines[1..])
  }

  function WithoutCr(line: string): string {
    if line != "" && line[|line| - 1] == '\r' then line[..|line| - 1] else line
  }

  /** The cell under the last column of that name; a row that is too short reads as empty. */
  function Field(header: seq<string>, cells: seq<string>, column: string): Option<string>
    decreases header
  {
    if header == [] then None else
      var last := |header| - 1;
      if header[last] == column then Some(if last < |cells| then cells[last] else "")
      else Field(header[..last], cells, column)
  }

  function NonEmptyField(v: Option<string>): Option<string> {
    if v == Some("") then None else v
  }

  /** `normalizeEntry`, for the strings of a CSV row. */
  function EntryOf(header: seq<string>, cells: seq<string>): Result<Entry, ManifestError> {
    var license := NonEmptyField(Field(header, cells, "license_preset"));
    var price := NonEmptyField(Field(header, cells, "price_ip"));
    var modality := NonEmptyField(Field(header, cells, "modality"));
    match Field(header, cells, "labels")
    case None => Ok(Entry(None, license, price, modality))
    case Some(raw) =>
      match LabelsFrom(map[], SplitOn(raw, ';'))
      case Err(e) => Err(e)
      case Ok(labels) => Ok(Entry(Some(labels), license, price, modality))
  }

  type Files = map<string, Entry>

  function RowInto(files: Files, header: seq<string>, line: string): Result<Files, ManifestError> {
    var cells := RowCells(line);
    var name := Trim(match Field(header, cells, "filename") case None => "" case Some(v) => v);
    if name == "" then Ok(files) else
      match EntryOf(header, cells)
      case Err(e) => Err(e)
      case Ok(entry) => Ok(Put(files, name, entry))
  }

  function RowsInto(files: Files, header: seq<string>, lines: seq<string>): Result<Files, ManifestError>
    decreases lines
  {
    if lines == [] then Ok(files) else
      match RowInto(files, header, lines[0])
      case Err(e) => Err(e)
      case Ok(more) => RowsInto(more, header, lines[1..])
  }

  function HeaderOf(line: string): seq<string> {
    var cells := RowCells(line);
    seq(|cells|, i requires 0 <= i < |cells| => ToLower(Trim(cells[i])))
  }

  function ParsedManifest(contents: string): Result<Files, ManifestError> {
    var rows := RowsOf(contents);
    if |rows| < 2 then Err(TooFewRows)
    else if "filename" !in HeaderOf(rows[0]) then Err(NoFilenameColumn)
    else RowsInto(map[], HeaderOf(rows[0]), rows[1..])
  }

  /** `parseCsvManifest`. */
  method ParseCsvManifest(contents: string) returns (r: Result<Files, ManifestError>)
    ensures r == ParsedManifest(contents)
  {
    hide RowInto, RowsOf, HeaderOf;
    var rows := RowsOf(contents);
    if |rows| < 2 { return Err(TooFewRows); }
    var header := HeaderOf(rows[0]);
    if "filename" !in header { return Err(NoFilenameColumn); }
    var files: Files := map[];
    var lines := rows[1..];
    for i := 0 to |lines|
      invariant RowsInto(map[], header, lines) == RowsInto(files, header, lines[i..])
    {
      assert lines[i..][0] == lines[i] && lines[i..][1..] == lines[i + 1..];
      var next := RowInto(files, header, lines[i]);
      if next.Err? { return Err(next.error); }
      files := next.value;
    }
    return Ok(files);
  }

  // ------------------------------------------------------------- printing a manifest and reading it back

  /** One file of a manifest to print, and which of its five cells to quote. */
  datatype FileRow = FileRow(name: string, labels: seq<Label>, licensePreset: string, priceIp: string,
                             modality: string, quotes: Quotes)

  datatype Quotes = Quotes(name: bool, labels: bool, licensePreset: bool, priceIp: bool, modality: bool)

  predicate SafeText(s: string) {
    Trimmed(s) && '\n' !in s
  }

  predicate Safe(f: FileRow) {
    && f.name != "" && SafeText(f.name)
    && (forall l :: l in f.labels ==> SafeLabel(l))
    && SafeText(f.licensePreset) && SafeText(f.priceIp) && SafeText(f.modality)
    && forall c :: c in CellsOf(f) ==> c.Printable()
  }

  function CellsOf(f: FileRow): seq<Cell> {
    [Cell(f.name, f.quotes.name), Cell(PrintLabels(f.labels), f.quotes.labels),
     Cell(f.licensePreset, f.quotes.licensePreset), Cell(f.priceIp, f.quotes.priceIp),
     Cell(f.modality, f.quotes.modality)]
  }

  function Present(s: string): Option<string> {
    if s == "" then None else Some(s)
  }

  function EntryFor(f: FileRow): Entry {
    Entry(Some(AsObject(map[], f.labels)), Present(f.licensePreset), Present(f.priceIp), Present(f.modality))
  }

  function FilesFor(base: Files, rows: seq<FileRow>): Files
    decreases rows
  {
    if rows == [] then base else FilesFor(Put(base, rows[0].name, EntryFor(rows[0])), rows[1..])
  }

  /** The columns, unquoted, in the order of the sample manifest. */
  function HeaderLine(): string {
    PrintRow(HeaderCells())
  }

  function HeaderCells(): seq<Cell> {
    seq(5, i requires 0 <= i < 5 => Cell(COLUMNS[i], false))
  }

  /** Each line followed by a line feed, or by a carriage return and a line feed. */
  function PrintLines(lines: seq<string>, crlf: bool): string {
    if lines == [] then "" else lines[0] + (if crlf then "\r\n" else "\n") + PrintLines(lines[1..], crlf)
  }

  function LinesFor(rows: seq<FileRow>): seq<string> {
    if rows == [] then [] else [PrintRow(CellsOf(rows[0]))] + LinesFor(rows[1..])
  }

  function PrintManifest(rows: seq<FileRow>, crlf: bool): string {
    PrintLines([HeaderLine()] + LinesFor(rows), crlf)
  }

  /** A line as a manifest prints it. */
  predicate CleanLine(line: string) {
    line != "" && Trimmed(line) && '\n' !in line
  }

  lemma {:induction false} LinesReadBack(lines: seq<string>, crlf: bool)
    requires forall l :: l in lines ==> CleanLine(l)
    ensures RowsOf(PrintLines(lines, crlf)) == lines
  {
    hide SplitOn, Trim;
    if lines == [] {
      SplitLast("", '\n');
      TrimTrims("");
      assert [""][1..] == [];
    } else {
      var l := lines[0];
      assert l in lines;
      var ended := if crlf then l + "\r" else l;
      var rest := PrintLines(lines[1..], crlf);
      assert PrintLines(lines, crlf) == ended + ['\n'] + rest;
      SplitPart(ended, '\n', rest);
      LinesReadBack(lines[1..], crlf);
      TrimTrims(l);
      assert ([ended] + SplitOn(rest, '\n'))[1..] == SplitOn(rest, '\n');
      assert crlf ==> ended[..|ended| - 1] == l;
      LastIsNotCr(l);
    }
  }

  lemma LastIsNotCr(l: string)
    requires CleanLine(l)
    ensures WithoutCr(l) == l
  {
  }

  lemma {:induction false} RowHasNoBreak(cells: seq<Cell>)
    requires cells != [] && forall c :: c in cells ==> '\n' !in c.text
    ensures '\n' !in PrintRow(cells)
  {
    assert cells[0] in cells;
    DoubledHasNoBreak(cells[0].text);
    if |cells| > 1 { RowHasNoBreak(cells[1..]); }
  }

  lemma {:induction false} DoubledHasNoBreak(s: string)
    requires '\n' !in s
    ensures '\n' !in Doubled(s)
  {
    if s != "" {
      assert s[0] in s;
      DoubledHasNoBreak(s[1..]);
    }
  }

  /** The row of trimmed cells has no outer white space of its own. */
  lemma {:induction false} RowIsTrimmed(cells: seq<Cell>)
    requires |cells| > 1 && forall c :: c in cells ==> Trimmed(c.text)
    ensures PrintRow(cells) != "" && Trimmed(PrintRow(cells))
  {
    assert cells[0] in cells && cells[1] in cells;
    if |cells| == 2 {
      assert PrintRow(cells[1..]) == cells[1].Print();
    } else {
      RowIsTrimmed(cells[1..]);
    }
  }

  lemma {:induction false} PrintedLabelsAreSafe(labels: seq<Label>)
    requires forall l :: l in labels ==> SafeLabel(l)
    ensures SafeText(PrintLabels(labels))
    ensures labels != [] ==> PrintLabels(labels) != ""
  {
    if labels != [] {
      assert labels[0] in labels;
      PairHasNoSeparator(labels[0]);
      if |labels| > 1 { PrintedLabelsAreSafe(labels[1..]); }
    }
  }

  lemma CellsAreSafe(f: FileRow)
    requires Safe(f)
    ensures forall c :: c in CellsOf(f) ==> Trimmed(c.text) && '\n' !in c.text
  {
    hide PrintLabels;
    PrintedLabelsAreSafe(f.labels);
  }

  predicate IsColumnName(s: string) {
    s != "" && forall i :: 0 <= i < |s| ==> 'a' <= s[i] <= 'z' || s[i] == '_'
  }

  lemma ColumnNames()
    ensures IsColumnName("filename") && IsColumnName("labels") && IsColumnName("license_preset")
    ensures IsColumnName("price_ip") && IsColumnName("modality")
  {
  }

  lemma ColumnName(s: string)
    requires IsColumnName(s)
    ensures Trimmed(s) && ToLower(s) == s && Cell(s, false).Printable() && '\n' !in s
  {
  }

  lemma HeaderReads()
    ensures HeaderOf(HeaderLine()) == COLUMNS && CleanLine(HeaderLine())
  {
    hide IsColumnName, Trim, ToLower, PrintRow, RowCells;
    var cells := HeaderCells();
    ColumnNames();
    forall i | 0 <= i < 5
      ensures ToLower(Trim(COLUMNS[i])) == COLUMNS[i] && Trimmed(COLUMNS[i])
      ensures cells[i].Printable() && '\n' !in cells[i].text
    {
      ColumnName(COLUMNS[i]);
      TrimTrims(COLUMNS[i]);
    }
    assert Texts(cells) == COLUMNS;
    RowReadsBack(cells);
    RowHasNoBreak(cells);
    RowIsTrimmed(cells);
  }

  lemma ColumnsDiffer()
    ensures "filename" != "labels" && "filename" != "license_preset" && "filename" != "price_ip"
    ensures "filename" != "modality" && "labels" != "license_preset" && "labels" != "price_ip"
    ensures "labels" != "modality" && "license_preset" != "price_ip" && "license_preset" != "modality"
    ensures "price_ip" != "modality"
  {
    assert "filename"[0] == 'f' && "labels"[0] == 'l' && "license_preset"[0] == 'l';
    assert "price_ip"[0] == 'p' && "modality"[0] == 'm' && |"labels"| == 6 && |"license_preset"| == 14;
  }

  /** A column is there when the header names it; its last place counts, and a missing cell reads as empty. */
  lemma {:induction false} FieldIsLast(header: seq<string>, cells: seq<string>, column: string)
    ensures Field(header, cells, column).Some? <==> column in header
    ensures column in header ==> exists i ::
      && 0 <= i < |header| && header[i] == column && (forall k :: i < k < |header| ==> header[k] != column)
      && Field(header, cells, column) == Some(if i < |cells| then cells[i] else "")
  {
    if header != [] {
      var last := |header| - 1;
      assert header == header[..last] + [header[last]];
      if header[last] != column { FieldIsLast(header[..last], cells, column); }
    }
  }

  lemma FieldStep(header: seq<string>, last: string, cells: seq<string>, column: string)
    ensures Field(header + [last], cells, column)
            == if last == column then Some(if |header| < |cells| then cells[|header|] else "")
               else Field(header, cells, column)
  {
    assert (header + [last])[..|header|] == header;
  }

  lemma FieldsFound(cells: seq<string>)
    requires |cells| == 5
    ensures Field(COLUMNS, cells, "filename") == Some(cells[0]) && Field(COLUMNS, cells, "labels") == Some(cells[1])
    ensures Field(COLUMNS, cells, "license_preset") == Some(cells[2])
    ensures Field(COLUMNS, cells, "price_ip") == Some(cells[3]) && Field(COLUMNS, cells, "modality") == Some(cells[4])
  {
    hide Field;
    ColumnsDiffer();
    var h := COLUMNS;
    assert h == h[..4] + ["modality"] && h[..4] == h[..3] + ["price_ip"] && h[..3] == h[..2] + ["license_preset"];
    assert h[..2] == h[..1] + ["labels"] && h[..1] == [] + ["filename"];
    forall c
      ensures Field(h, cells, c) == if c == "modality" then Some(cells[4]) else Field(h[..4], cells, c)
      ensures Field(h[..4], cells, c) == if c == "price_ip" then Some(cells[3]) else Field(h[..3], cells, c)
      ensures Field(h[..3], cells, c) == if c == "license_preset" then Some(cells[2]) else Field(h[..2], cells, c)
      ensures Field(h[..2], cells, c) == if c == "labels" then Some(cells[1]) else Field(h[..1], cells, c)
      ensures Field(h[..1], cells, c) == if c == "filename" then Some(cells[0]) else Field([], cells, c)
    {
      FieldStep(h[..4], "modality", cells, c);
      FieldStep(h[..3], "price_ip", cells, c);
      FieldStep(h[..2], "license_preset", cells, c);
      FieldStep(h[..1], "labels", cells, c);
      FieldStep([], "filename", cells, c);
    }
  }

  lemma RowReads(base: Files, f: FileRow)
    requires Safe(f)
    ensures RowInto(base, COLUMNS, PrintRow(CellsOf(f))) == Ok(Put(base, f.name, EntryFor(f)))
  {
    hide Field, LabelsFrom, SplitOn, RowCells, PrintRow, PrintLabels, Trim;
    CellsAreSafe(f);
    RowReadsBack(CellsOf(f));
    var cells := Texts(CellsOf(f));
    assert cells == [f.name, PrintLabels(f.labels), f.licensePreset, f.priceIp, f.modality];
    FieldsFound(cells);
    LabelsReadBack(map[], f.labels);
    TrimTrims(f.name);
  }

  lemma {:induction false} RowsRead(base: Files, rows: seq<FileRow>)
    requires forall f :: f in rows ==> Safe(f)
    ensures RowsInto(base, COLUMNS, LinesFor(rows)) == Ok(FilesFor(base, rows))
    decreases rows
  {
    hide RowInto, PrintRow, EntryFor;
    if rows != [] {
      var f := rows[0];
      assert f in rows;
      RowReads(base, f);
      RowsRead(Put(base, f.name, EntryFor(f)), rows[1..]);
      assert LinesFor(rows)[1..] == LinesFor(rows[1..]);
    }
  }

  lemma {:induction false} LinesAreClean(rows: seq<FileRow>)
    requires forall f :: f in rows ==> Safe(f)
    ensures |LinesFor(rows)| == |rows| && forall l :: l in LinesFor(rows) ==> CleanLine(l)
  {
    hide PrintRow;
    if rows != [] {
      assert rows[0] in rows;
      CellsAreSafe(rows[0]);
      RowHasNoBreak(CellsOf(rows[0]));
      RowIsTrimmed(CellsOf(rows[0]));
      LinesAreClean(rows[1..]);
    }
  }

  /** Printing a manifest, quoted anyhow that is needed, and parsing it gives the files back. */
  lemma ManifestReadsBack(rows: seq<FileRow>, crlf: bool)
    requires rows != [] && forall f :: f in rows ==> Safe(f)
    ensures ParsedManifest(PrintManifest(rows, crlf)) == Ok(FilesFor(map[], rows))
  {
    hide Safe, RowsOf, HeaderOf, RowsInto, CleanLine, PrintLines;
    var lines := [HeaderLine()] + LinesFor(rows);
    LinesAreClean(rows);
    HeaderReads();
    LinesReadBack(lines, crlf);
    RowsRead(map[], rows);
    assert lines[1..] == LinesFor(rows);
    assert COLUMNS[0] == "filename";
  }

  /** The last row with this name. */
  function LastRow(rows: seq<FileRow>, name: string): (row: Option<FileRow>)
  {
    if rows == [] then None else
      var front, last := rows[..|rows| - 1], rows[|rows| - 1];
      if last.name == name then Some(last) else LastRow(front, name)
  }

  lemma {:induction false} LastRowOfRest(rows: seq<FileRow>, name: string)
    requires rows != []
    ensures LastRow(rows, name)
            == if LastRow(rows[1..], name).Some? then LastRow(rows[1..], name)
               else if rows[0].name == name then Some(rows[0]) else None
  {
    if |rows| > 1 {
      LastRowOfRest(rows[..|rows| - 1], name);
      assert rows[..|rows| - 1][1..] == rows[1..][..|rows| - 2];
    }
  }

  /**
   A file reads back unless it is named like the prototype property, and then with the entry of the last row that
   has its name.
   */
  lemma {:induction false} FilesForHas(base: Files, rows: seq<FileRow>, name: string)
    ensures
      var files := FilesFor(base, rows);
      if name == PROTO || LastRow(rows, name).None?
      then (name in files <==> name in base) && (name in base ==> files[name] == base[name])
      else name in files && files[name] == EntryFor(LastRow(rows, name).value)
    decreases rows
  {
    hide EntryFor;
    if rows != [] {
      hide LastRow;
      FilesForHas(Put(base, rows[0].name, EntryFor(rows[0])), rows[1..], name);
      LastRowOfRest(rows, name);
    }
  }

  /** The last label of this name. */
  function LastLabel(labels: seq<Label>, name: string): (found: Option<Label>)
  {
    if labels == [] then None else
      var front, last := labels[..|labels| - 1], labels[|labels| - 1];
      if last.name == name then Some(last) else LastLabel(front, name)
  }

  lemma {:induction false} LastLabelOfRest(labels: seq<Label>, name: string)
    requires labels != []
    ensures LastLabel(labels, name)
            == if LastLabel(labels[1..], name).Some? then LastLabel(labels[1..], name)
               else if labels[0].name == name then Some(labels[0]) else None
  {
    if |labels| > 1 {
      LastLabelOfRest(labels[..|labels| - 1], name);
      assert labels[..|labels| - 1][1..] == labels[1..][..|labels| - 2];
    }
  }

  /** Likewise a label: the last one of its name counts, and the prototype property is lost. */
  lemma {:induction false} AsObjectHas(base: Labels, labels: seq<Label>, name: string)
    ensures
      var labelled := AsObject(base, labels);
      if name == PROTO || LastLabel(labels, name).None?
      then (name in labelled <==> name in base) && (name in base ==> labelled[name] == base[name])
      else name in labelled && labelled[name] == LastLabel(labels, name).value.value
    decreases labels
  {
    if labels != [] {
      hide LastLabel;
      AsObjectHas(Put(base, labels[0].name, labels[0].value), labels[1..], name);
      LastLabelOfRest(labels, name);
    }
  }
}
