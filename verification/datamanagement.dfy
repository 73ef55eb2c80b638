/** The data-management view: the CSV import (`processCSVText`), the CSV
    export (`handleExportCSV`) and the inline edit (`handleSave`). The ids of
    imported materials come from the clock and a random number in the
    source; here they are an input, one per line number. */
module DataManagement {
  import opened Wrappers
  import opened Materials
  import Text
  import Seqs

  // ---------------------------------------------------------------------
  // Import
  // ---------------------------------------------------------------------

  const RequiredHeaders: seq<string> := ["name", "category", "compostability", "recyclability", "reusability"]

  /** `line.trim()` is truthy. */
  predicate NotBlank(line: string) {
    !Text.IsBlank(line)
  }

  /** `text.split("\n").filter((line) => line.trim())`. */
  function Lines(text: string): seq<string> {
    Seqs.Filter(NotBlank, Text.Split(text, '\n'))
  }

  function HeaderName(h: string): string {
    Text.Lower(Text.Trim(h))
  }

  /** The header line's names, trimmed and lower-cased. */
  function Headers(line: string): seq<string> {
    Seqs.Map(HeaderName, Text.Split(line, ','))
  }

  /** A data line's cells, trimmed. */
  function Cells(line: string): seq<string> {
    Seqs.Map(Text.Trim, Text.Split(line, ','))
  }

  /** `values[index] || ""`. */
  function CellAt(values: seq<string>, i: nat): string {
    if i < |values| then values[i] else ""
  }

  /** `row[key]` after `headers.forEach(...)`: the cell under the last
      header named `key` (a later header overwrites an earlier one), or
      `undefined` when no header has that name. */
  function Field(headers: seq<string>, values: seq<string>, key: string): (r: Option<string>)
    ensures r.None? <==> key !in headers
    decreases |headers|
  {
    if |headers| == 0 then None
    else
      var last := |headers| - 1;
      if headers[last] == key then Some(CellAt(values, last))
      else
        assert key in headers <==> key in headers[..last];
        Field(headers[..last], values, key)
  }

  /** The field is the cell under the last header with that name. */
  lemma {:induction false} FieldIsLastCell(headers: seq<string>, values: seq<string>, key: string, i: nat)
    requires i < |headers| && headers[i] == key
    requires forall j :: i < j < |headers| ==> headers[j] != key
    ensures Field(headers, values, key) == Some(CellAt(values, i))
    decreases |headers|
  {
    var last := |headers| - 1;
    if i < last {
      assert headers[..last][i] == key;
      FieldIsLastCell(headers[..last], values, key, i);
    }
  }

  /** JavaScript truthiness of a field. */
  predicate Present(v: Option<string>) {
    v.Some? && v.value != ""
  }

  /** `Math.min(100, Math.max(0, n))`. */
  function Clamp(n: int): (r: int)
    ensures 0 <= r <= 100
    ensures 0 <= n <= 100 ==> r == n
    ensures n < 0 ==> r == 0
    ensures n > 100 ==> r == 100
  {
    if n < 0 then 0 else if n > 100 then 100 else n
  }

  /** `Math.min(100, Math.max(0, parseInt(v) || 0))`. */
  function Score(v: Option<string>): (r: int)
    ensures 0 <= r <= 100
  {
    Clamp(Text.ParseIntOrZero(v.GetOr("")))
  }

  /** What every imported material satisfies: a non-empty name and
      category, empty article lists and scores in [0, 100]. */
  predicate WellFormed(m: Material) {
    m.name != "" && m.category != "" && m.articles == Some(NoArticles)
    && 0 <= m.compostability <= 100 && 0 <= m.recyclability <= 100 && 0 <= m.reusability <= 100
  }

  /** The material one data line describes, or `None` when its name or
      category is empty. */
  function ReadRow(headers: seq<string>, line: string, id: string): Option<Material> {
    var values := Cells(line);
    var name := Field(headers, values, "name");
    var category := Field(headers, values, "category");
    if !Present(name) || !Present(category) then None
    else
      Some(Basic(id, name.value, category.value,
                 Score(Field(headers, values, "compostability")),
                 Score(Field(headers, values, "recyclability")),
                 Score(Field(headers, values, "reusability")),
                 Some(Field(headers, values, "description").GetOr("")))
           .(articles := Some(NoArticles)))
  }

  /** A line gives a material exactly when its name and category are
      present, and the material carries the line's id and is well formed. */
  lemma ReadRowShape(headers: seq<string>, line: string, id: string)
    ensures var r := ReadRow(headers, line, id);
      && (r.Some? <==> Present(Field(headers, Cells(line), "name")) && Present(Field(headers, Cells(line), "category")))
      && (r.Some? ==> r.value.id == id && WellFormed(r.value))
  {
  }

  /** The reader of data lines under the headers: line `i` gets the id
      `freshId(i)`. */
  function Reader(headers: seq<string>, freshId: nat -> string): (string, nat) -> Option<Material> {
    (line: string, i: nat) => ReadRow(headers, line, freshId(i))
  }

  /** The loop over the data lines `lines[from..]`, keeping what `read`
      makes of each. */
  function ReadRows(read: (string, nat) -> Option<Material>, lines: seq<string>, from: nat): (r: seq<Material>)
    requires from <= |lines|
    ensures |r| <= |lines| - from
    decreases |lines| - from
  {
    if from == |lines| then []
    else
      var rest := ReadRows(read, lines, from + 1);
      match read(lines[from], from)
      case None => rest
      case Some(m) => [m] + rest
  }

  /** Every material the loop keeps is one `read` gave. */
  lemma {:induction false} ReadRowsFrom(read: (string, nat) -> Option<Material>, lines: seq<string>, from: nat, m: Material)
    requires from <= |lines| && m in ReadRows(read, lines, from)
    ensures exists i :: from <= i < |lines| && read(lines[i], i) == Some(m)
    decreases |lines| - from
  {
    if from < |lines| && read(lines[from], from) != Some(m) {
      ReadRowsFrom(read, lines, from + 1, m);
    }
  }

  datatype ImportResult =
    | TooFewLines
    | MissingHeaders
    | NoValidRows
    | Imported(materials: seq<Material>)

  /** `processCSVText`: `Imported` is the one outcome that calls
      `onBulkImport`. */
  function ProcessCsv(text: string, freshId: nat -> string): (r: ImportResult)
    ensures r == TooFewLines <==> |Lines(text)| < 2
    ensures r == MissingHeaders <==>
      |Lines(text)| >= 2 && exists h :: h in RequiredHeaders && h !in Headers(Lines(text)[0])
    ensures r.Imported? ==> 1 <= |r.materials| <= |Lines(text)| - 1
  {
    var lines := Lines(text);
    if |lines| < 2 then TooFewLines
    else
      var headers := Headers(lines[0]);
      if exists h :: h in RequiredHeaders && h !in headers then MissingHeaders
      else
        var ms := ReadRows(Reader(headers, freshId), lines, 1);
        if |ms| == 0 then NoValidRows else Imported(ms)
  }

  /** Every imported material is well formed. */
  lemma ImportedWellFormed(text: string, freshId: nat -> string)
    ensures var r := ProcessCsv(text, freshId);
      r.Imported? ==> forall m :: m in r.materials ==> WellFormed(m)
  {
    var lines := Lines(text);
    if |lines| >= 2 {
      var headers := Headers(lines[0]);
      forall m | m in ReadRows(Reader(headers, freshId), lines, 1) ensures WellFormed(m) {
        ReadRowsFrom(Reader(headers, freshId), lines, 1, m);
        var i :| 1 <= i < |lines| && Reader(headers, freshId)(lines[i], i) == Some(m);
        ReadRowShape(headers, lines[i], freshId(i));
      }
    }
  }

  // ---------------------------------------------------------------------
  // Export
  // ---------------------------------------------------------------------

  const ExportHeaders: seq<string> := ["name", "category", "description", "compostability", "recyclability", "reusability"]

  /** The export cells of a material, unquoted. */
  function ExportCells(m: Material): (r: seq<string>)
    ensures |r| == 6
  {
    [m.name, m.category, m.description.GetOr(""), Text.IntToString(m.compostability),
     Text.IntToString(m.recyclability), Text.IntToString(m.reusability)]
  }

  function ExportLine(m: Material): string {
    Text.Join(ExportCells(m), ",")
  }

  /** `handleExportCSV`: the header line and one line per material, with
      the cells joined by commas and nothing quoted. */
  function ExportCsv(ms: seq<Material>): string {
    Text.Join([Text.Join(ExportHeaders, ",")] + Seqs.Map(ExportLine, ms), "\n")
  }

  /** A field the unquoted export can carry through an import unchanged. */
  predicate Clean(s: string) {
    ',' !in s && '\n' !in s && Text.IsTrimmed(s)
  }

  /** A material whose export reads back: clean fields, a non-empty name
      and category, and scores in range. */
  predicate Exportable(m: Material) {
    Clean(m.name) && Clean(m.category) && Clean(m.description.GetOr(""))
    && m.name != "" && m.category != ""
    && 0 <= m.compostability <= 100 && 0 <= m.recyclability <= 100 && 0 <= m.reusability <= 100
  }

  /** A score's decimal digits pass through the unquoted export intact. */
  lemma NatCellClean(n: nat)
    ensures Clean(Text.NatToString(n))
  {
    var s := Text.NatToString(n);
    assert !Text.IsWhite(s[0]) && !Text.IsWhite(s[|s| - 1]);
    assert forall i :: 0 <= i < |s| ==> s[i] != ',' && s[i] != '\n';
  }

  /** A score in range reads back as itself. */
  lemma ScoreOfCell(n: int)
    requires 0 <= n <= 100
    ensures Score(Some(Text.IntToString(n))) == n
  {
    Text.ParseIntNatToString(n);
  }

  /** Every export cell of an exportable material is clean. */
  lemma CellsClean(m: Material)
    requires Exportable(m)
    ensures forall i :: 0 <= i < 6 ==> Clean(ExportCells(m)[i])
  {
    NatCellClean(m.compostability);
    NatCellClean(m.recyclability);
    NatCellClean(m.reusability);
  }

  /** An exported line splits and trims back into its cells. */
  lemma CellsOfLine(m: Material)
    requires Exportable(m)
    ensures Cells(ExportLine(m)) == ExportCells(m)
  {
    var cs := ExportCells(m);
    CellsClean(m);
    Text.SplitJoin(cs, ',');
    forall i | 0 <= i < 6 ensures Text.Trim(cs[i]) == cs[i] {
      Text.TrimOfTrimmed(cs[i]);
    }
  }

  /** An exported line is one non-blank line. */
  lemma LineShape(m: Material)
    requires Exportable(m)
    ensures '\n' !in ExportLine(m) && NotBlank(ExportLine(m))
  {
    CellsClean(m);
    CommaLineShape(ExportCells(m));
  }

  /** The header line splits back into the six export headers. */
  lemma HeaderLineSplits()
    ensures Text.Split(Text.Join(ExportHeaders, ","), ',') == ExportHeaders
  {
    Text.SplitJoin(ExportHeaders, ',');
  }

  /** Each export header is its own normal form. */
  lemma HeadersNormal()
    ensures forall i :: 0 <= i < 6 ==> HeaderName(ExportHeaders[i]) == ExportHeaders[i]
  {
    forall i | 0 <= i < 6 ensures HeaderName(ExportHeaders[i]) == ExportHeaders[i] {
      var h := ExportHeaders[i];
      assert Text.IsTrimmed(h);
      Text.TrimOfTrimmed(h);
      Text.LowerOfLowercase(h);
    }
  }

  /** The header line is one non-blank line. */
  lemma HeaderLineShape()
    ensures '\n' !in Text.Join(ExportHeaders, ",") && NotBlank(Text.Join(ExportHeaders, ","))
  {
    CommaLineShape(ExportHeaders);
  }

  /** The header line reads back as the six export headers. */
  lemma ExportHeadersRead()
    ensures Headers(Text.Join(ExportHeaders, ",")) == ExportHeaders
  {
    HeaderLineSplits();
    HeadersNormal();
  }

  /** No two export headers share a name. */
  lemma ExportHeadersDistinct()
    ensures forall i, j :: 0 <= i < j < 6 ==> ExportHeaders[i] != ExportHeaders[j]
  {
    forall i, j | 0 <= i < j < 6 ensures ExportHeaders[i] != ExportHeaders[j] {
      assert ExportHeaders[i][0] != ExportHeaders[j][0] || ExportHeaders[i][1] != ExportHeaders[j][1]
        || ExportHeaders[i][2] != ExportHeaders[j][2];
    }
  }

  /** Under the export headers, each field is the cell in its column. */
  lemma ExportFieldAt(values: seq<string>, i: nat)
    requires i < 6
    ensures Field(ExportHeaders, values, ExportHeaders[i]) == Some(CellAt(values, i))
  {
    ExportHeadersDistinct();
    FieldIsLastCell(ExportHeaders, values, ExportHeaders[i], i);
  }

  /** Under the export headers, each field of an exported line is the
      cell written for it. */
  lemma ExportedFields(m: Material)
    requires Exportable(m)
    ensures var fs := Cells(ExportLine(m));
      && Field(ExportHeaders, fs, "name") == Some(m.name)
      && Field(ExportHeaders, fs, "category") == Some(m.category)
      && Field(ExportHeaders, fs, "description") == Some(m.description.GetOr(""))
      && Field(ExportHeaders, fs, "compostability") == Some(Text.IntToString(m.compostability))
      && Field(ExportHeaders, fs, "recyclability") == Some(Text.IntToString(m.recyclability))
      && Field(ExportHeaders, fs, "reusability") == Some(Text.IntToString(m.reusability))
  {
    CellsOfLine(m);
    var cs := ExportCells(m);
    ExportFieldAt(cs, 0);
    ExportFieldAt(cs, 1);
    ExportFieldAt(cs, 2);
    ExportFieldAt(cs, 3);
    ExportFieldAt(cs, 4);
    ExportFieldAt(cs, 5);
  }

  /** Reading one exported line under the export headers gives the material
      back, with its description shown as a string. */
  lemma ReadExportedRow(m: Material, id: string)
    requires Exportable(m)
    ensures ReadRow(ExportHeaders, ExportLine(m), id) == Some(Reimported(m, id))
  {
    ExportedFields(m);
    ScoreOfCell(m.compostability);
    ScoreOfCell(m.recyclability);
    ScoreOfCell(m.reusability);
  }

  /** What an import makes of an exported material: the basic fields, a new
      id and empty article lists. */
  function Reimported(m: Material, id: string): Material {
    Basic(id, m.name, m.category, m.compostability, m.recyclability, m.reusability,
          Some(m.description.GetOr(""))).(articles := Some(NoArticles))
  }

  function ReimportedFrom(ms: seq<Material>, from: nat, freshId: nat -> string): (r: seq<Material>)
    ensures |r| == |ms|
    ensures forall k :: 0 <= k < |ms| ==> r[k] == Reimported(ms[k], freshId(k + from))
  {
    seq(|ms|, k requires 0 <= k < |ms| => Reimported(ms[k], freshId(k + from)))
  }

  /** The loop over the data lines reads each line as expected; line `i`
      is expected to give `expected[i - 1]`, as the header is line 0. */
  lemma {:induction false} ReadRowsOf(read: (string, nat) -> Option<Material>, lines: seq<string>, from: nat,
                                      expected: seq<Material>)
    requires 1 <= from <= |lines| && |expected| == |lines| - 1
    requires forall i :: from <= i < |lines| ==> read(lines[i], i) == Some(expected[i - 1])
    ensures ReadRows(read, lines, from) == expected[from - 1..]
    decreases |lines| - from
  {
    if from < |lines| {
      ReadRowsOf(read, lines, from + 1, expected);
      assert read(lines[from], from) == Some(expected[from - 1]);
      assert expected[from - 1..] == [expected[from - 1]] + expected[from..];
    }
  }

  /** Lines joined by line feeds, none blank and none holding a line
      feed, split back into the same lines. */
  lemma LinesOfJoin(lines: seq<string>)
    requires |lines| >= 1
    requires forall k :: 0 <= k < |lines| ==> '\n' !in lines[k] && NotBlank(lines[k])
    ensures Lines(Text.Join(lines, "\n")) == lines
  {
    Text.SplitJoin(lines, '\n');
    Seqs.FilterAll(NotBlank, lines);
  }

  /** A text of one header line and some data lines, none blank, imports
      as the materials its data lines read as. */
  lemma ImportOf(header: string, rows: seq<string>, freshId: nat -> string, expected: seq<Material>)
    requires |rows| >= 1 && |expected| == |rows|
    requires '\n' !in header && NotBlank(header)
    requires forall k :: 0 <= k < |rows| ==> '\n' !in rows[k] && NotBlank(rows[k])
    requires forall h :: h in RequiredHeaders ==> h in Headers(header)
    requires forall k :: 0 <= k < |rows| ==> ReadRow(Headers(header), rows[k], freshId(k + 1)) == Some(expected[k])
    ensures ProcessCsv(Text.Join([header] + rows, "\n"), freshId) == Imported(expected)
  {
    var lines := [header] + rows;
    assert forall k :: 0 <= k < |lines| ==> '\n' !in lines[k] && NotBlank(lines[k]);
    LinesOfJoin(lines);
    var read := Reader(Headers(header), freshId);
    forall i | 1 <= i < |lines| ensures read(lines[i], i) == Some(expected[i - 1]) {
      assert lines[i] == rows[i - 1];
    }
    ReadRowsOf(read, lines, 1, expected);
  }

  /** A comma-joined line whose first cell starts with a visible character
      and where no cell holds a line feed is one non-blank line. */
  lemma CommaLineShape(parts: seq<string>)
    requires |parts| >= 1 && |parts[0]| > 0 && !Text.IsWhite(parts[0][0])
    requires forall i :: 0 <= i < |parts| ==> '\n' !in parts[i]
    ensures '\n' !in Text.Join(parts, ",") && NotBlank(Text.Join(parts, ","))
  {
    Text.NoCharInJoin(parts, ",", '\n');
    var line := Text.Join(parts, ",");
    assert line[0] == parts[0][0];
    Text.NonWhiteStart(line);
  }

  /** Importing the export of clean materials gives them back: same names,
      categories, descriptions and scores, in the same order, with new ids
      and empty article lists. */
  lemma ExportThenImport(ms: seq<Material>, freshId: nat -> string)
    requires |ms| >= 1
    requires forall k :: 0 <= k < |ms| ==> Exportable(ms[k])
    ensures ProcessCsv(ExportCsv(ms), freshId) == Imported(ReimportedFrom(ms, 1, freshId))
  {
    var header := Text.Join(ExportHeaders, ",");
    var rows := Seqs.Map(ExportLine, ms);
    var expected := ReimportedFrom(ms, 1, freshId);
    ExportHeadersRead();
    HeaderLineShape();
    forall k | 0 <= k < |rows|
      ensures '\n' !in rows[k] && NotBlank(rows[k])
      ensures ReadRow(Headers(header), rows[k], freshId(k + 1)) == Some(expected[k])
    {
      LineShape(ms[k]);
      ReadExportedRow(ms[k], freshId(k + 1));
    }
    ImportOf(header, rows, freshId, expected);
  }

  // ---------------------------------------------------------------------
  // Inline edit
  // ---------------------------------------------------------------------

  /** `editData`: the fields the edit form may have set. */
  datatype Edit = Edit(
    name: Option<string>,
    category: Option<string>,
    description: Option<string>,
    compostability: Option<int>,
    recyclability: Option<int>,
    reusability: Option<int>)

  function Overlay<T>(a: T, b: Option<T>): T {
    if b.Some? then b.value else a
  }

  /** `handleSave`: the material passed to `onUpdateMaterial`, `None` when
      nothing is being edited (no id, or the falsy empty id) or no material
      has that id. The first
      material with the id gets the edited fields; everything else about
      it, its id included, is kept. */
  function Save(ms: seq<Material>, editingId: Option<string>, edit: Edit): (r: Option<Material>)
    ensures r.Some? <==> editingId.Some? && editingId.value != "" && FindIndex(ms, editingId.value).Some?
    ensures r.Some? ==> var m := ms[FindIndex(ms, editingId.value).value];
      && r.value.id == editingId.value
      && r.value.(name := m.name, category := m.category, description := m.description,
                  compostability := m.compostability, recyclability := m.recyclability,
                  reusability := m.reusability) == m
      && r.value.name == (if edit.name.Some? then edit.name.value else m.name)
      && r.value.category == (if edit.category.Some? then edit.category.value else m.category)
      && r.value.description == (if edit.description.Some? then edit.description else m.description)
      && r.value.compostability == (if edit.compostability.Some? then edit.compostability.value else m.compostability)
      && r.value.recyclability == (if edit.recyclability.Some? then edit.recyclability.value else m.recyclability)
      && r.value.reusability == (if edit.reusability.Some? then edit.reusability.value else m.reusability)
  {
    if editingId.None? || editingId.value == "" then None
    else match FindIndex(ms, editingId.value)
      case None => None
      case Some(i) =>
        var m := ms[i];
        Some(m.(name := Overlay(m.name, edit.name), category := Overlay(m.category, edit.category),
                description := if edit.description.Some? then edit.description else m.description,
                compostability := Overlay(m.compostability, edit.compostability),
                recyclability := Overlay(m.recyclability, edit.recyclability),
                reusability := Overlay(m.reusability, edit.reusability)))
  }

  /** Saving an empty edit passes the material on unchanged. */
  lemma SaveUnedited(ms: seq<Material>, i: nat)
    requires i < |ms| && ms[i].id != "" && forall j :: 0 <= j < i ==> ms[j].id != ms[i].id
    ensures Save(ms, Some(ms[i].id), Edit(None, None, None, None, None, None)) == Some(ms[i])
  {
    assert FindIndex(ms, ms[i].id) == Some(i);
  }
}
