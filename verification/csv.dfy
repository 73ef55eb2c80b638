/** The CSV writer of the export endpoints (`arrayToCSV`) and a reader for
    the format it writes: the quoting rules of section 2 of RFC 4180 with a
    line feed, not CRLF, between records. The reader exists to state what
    the writer promises: reading its output gives the cells back. */
module Csv {
  import opened Wrappers
  import Text
  import Seqs

  // ---------------------------------------------------------------------
  // Writing
  // ---------------------------------------------------------------------

  /** A value that must be quoted: it holds a comma, a quote or a line feed. */
  predicate NeedsQuotes(s: string) {
    ',' in s || '"' in s || '\n' in s
  }

  /** `value.replace(/"/g, '""')`. */
  function DoubleQuotes(s: string): (r: string)
    ensures |r| >= |s|
    ensures ',' in r <==> ',' in s
    decreases |s|
  {
    if |s| == 0 then ""
    else (if s[0] == '"' then "\"\"" else [s[0]]) + DoubleQuotes(s[1..])
  }

  /** `escapeCsvValue` of a string: quoted, with inner quotes doubled, when
      it needs quotes; verbatim otherwise. */
  function Escape(s: string): (r: string)
    ensures !NeedsQuotes(s) ==> r == s
    ensures NeedsQuotes(s) ==> |r| >= 2 && r[0] == '"' && r[|r| - 1] == '"'
  {
    if NeedsQuotes(s) then "\"" + DoubleQuotes(s) + "\"" else s
  }

  /** What a cell shows: `null` and `undefined` as the empty string. */
  function Shown(v: Option<string>): string {
    v.GetOr("")
  }

  /** `escapeCsvValue` of a cell. */
  function EscapeCell(v: Option<string>): (r: string)
    ensures r == Escape(Shown(v))
  {
    match v
    case None => ""
    case Some(s) => Escape(s)
  }

  /** One record: the escaped values joined with commas. */
  function Record(values: seq<string>): string {
    Text.Join(Seqs.Map(Escape, values), ",")
  }

  /** One row of cells as `arrayToCSV` writes it. */
  function Row(cells: seq<Option<string>>): string {
    Text.Join(Seqs.Map(EscapeCell, cells), ",")
  }

  /** `arrayToCSV(headers, rows)`: the header record, then one record per
      row, joined with line feeds. */
  function ToCsv(headers: seq<string>, rows: seq<seq<Option<string>>>): string {
    Text.Join([Record(headers)] + Seqs.Map(Row, rows), "\n")
  }

  // ---------------------------------------------------------------------
  // Reading
  // ---------------------------------------------------------------------

  /** An unquoted field: everything up to the next comma, line feed or the
      end. */
  function ReadPlain(s: string): (r: (string, string))
    ensures r.0 + r.1 == s
    ensures |r.1| == 0 || r.1[0] == ',' || r.1[0] == '\n'
    decreases |s|
  {
    if |s| == 0 || s[0] == ',' || s[0] == '\n' then ("", s)
    else
      var (f, t) := ReadPlain(s[1..]);
      ([s[0]] + f, t)
  }

  /** The body of a quoted field, after its opening quote: two quotes stand
      for one, a single quote closes the field. `None` when the text ends
      before the closing quote. */
  function ReadQuoted(s: string): (r: Option<(string, string)>)
    ensures r.Some? ==> |r.value.1| < |s|
    decreases |s|
  {
    if |s| == 0 then None
    else if s[0] == '"' then
      if |s| > 1 && s[1] == '"' then
        match ReadQuoted(s[2..])
        case None => None
        case Some((f, t)) => Some(("\"" + f, t))
      else Some(("", s[1..]))
    else
      match ReadQuoted(s[1..])
      case None => None
      case Some((f, t)) => Some(([s[0]] + f, t))
  }

  /** One field, quoted or not. */
  function ReadField(s: string): (r: Option<(string, string)>)
    ensures r.Some? ==> |r.value.1| <= |s|
  {
    if |s| > 0 && s[0] == '"' then ReadQuoted(s[1..]) else Some(ReadPlain(s))
  }

  /** One record: fields separated by commas, up to a line feed (left in
      the rest) or the end. `None` for an unterminated quote or text after
      a closing quote. */
  function ReadRecord(s: string): (r: Option<(seq<string>, string)>)
    ensures r.Some? ==> |r.value.0| >= 1 && |r.value.1| <= |s|
    ensures r.Some? ==> |r.value.1| == 0 || r.value.1[0] == '\n'
    decreases |s|
  {
    match ReadField(s)
    case None => None
    case Some((f, t)) =>
      if |t| == 0 || t[0] == '\n' then Some(([f], t))
      else if t[0] == ',' then
        match ReadRecord(t[1..])
        case None => None
        case Some((fs, u)) => Some(([f] + fs, u))
      else None
  }

  /** A whole text: records separated by line feeds. */
  function Parse(s: string): (r: Option<seq<seq<string>>>)
    ensures r.Some? ==> |r.value| >= 1
    decreases |s|
  {
    match ReadRecord(s)
    case None => None
    case Some((fs, t)) =>
      if |t| == 0 then Some([fs])
      else
        match Parse(t[1..])
        case None => None
        case Some(rs) => Some([fs] + rs)
  }

  // ---------------------------------------------------------------------
  // Reading what was written
  // ---------------------------------------------------------------------

  /** Text that may follow a field: nothing, a comma or a line feed. */
  predicate FieldEnd(t: string) {
    |t| == 0 || t[0] == ',' || t[0] == '\n'
  }

  lemma {:induction false} ReadPlainOf(v: string, t: string)
    requires ',' !in v && '\n' !in v && FieldEnd(t)
    ensures ReadPlain(v + t) == (v, t)
    decreases |v|
  {
    if |v| > 0 {
      assert v[0] in v;
      assert forall c :: c in v[1..] ==> c in v;
      assert (v + t)[0] == v[0];
      assert (v + t)[1..] == v[1..] + t;
      ReadPlainOf(v[1..], t);
      assert v[0] != ',' && v[0] != '\n';
      assert ReadPlain(v + t) == ([v[0]] + ReadPlain(v[1..] + t).0, ReadPlain(v[1..] + t).1);
      assert [v[0]] + v[1..] == v;
    } else {
      assert v + t == t;
    }
  }

  lemma {:induction false} ReadQuotedOf(v: string, t: string)
    requires |t| == 0 || t[0] != '"'
    ensures ReadQuoted(DoubleQuotes(v) + "\"" + t) == Some((v, t))
    decreases |v|
  {
    var s := DoubleQuotes(v) + "\"" + t;
    if |v| == 0 {
      assert s == "\"" + t;
    } else if v[0] == '"' {
      assert s == "\"\"" + (DoubleQuotes(v[1..]) + "\"" + t);
      assert s[2..] == DoubleQuotes(v[1..]) + "\"" + t;
      ReadQuotedOf(v[1..], t);
      assert "\"" + v[1..] == v;
    } else {
      assert s == [v[0]] + (DoubleQuotes(v[1..]) + "\"" + t);
      assert s[1..] == DoubleQuotes(v[1..]) + "\"" + t;
      ReadQuotedOf(v[1..], t);
      assert [v[0]] + v[1..] == v;
    }
  }

  /** Reading an escaped value gives the value back, whatever legal text
      follows it. */
  lemma ReadFieldOf(v: string, t: string)
    requires FieldEnd(t)
    ensures ReadField(Escape(v) + t) == Some((v, t))
  {
    var s := Escape(v) + t;
    if NeedsQuotes(v) {
      assert s == "\"" + (DoubleQuotes(v) + "\"" + t);
      assert s[0] == '"';
      assert s[1..] == DoubleQuotes(v) + "\"" + t;
      ReadQuotedOf(v, t);
    } else {
      assert s == v + t;
      ReadPlainOf(v, t);
      if |v| > 0 {
        assert v[0] in v;
        assert s[0] == v[0];
      } else {
        assert s == t;
      }
    }
  }

  /** Escaping never maps two values to the same text. */
  lemma EscapeInjective(a: string, b: string)
    requires Escape(a) == Escape(b)
    ensures a == b
  {
    ReadFieldOf(a, "");
    ReadFieldOf(b, "");
    assert Escape(a) + "" == Escape(a);
    assert Escape(b) + "" == Escape(b);
  }

  /** `parts.join(sep)` of two or more parts: the first, the separator, and
      the join of the rest. */
  lemma JoinCons(parts: seq<string>, sep: string)
    requires |parts| >= 2
    ensures Text.Join(parts, sep) == parts[0] + sep + Text.Join(parts[1..], sep)
  {
    assert parts[1..][1..] == parts[2..];
  }

  lemma ReadRecordStep(s: string, f: string, tail: string, fs: seq<string>, u: string)
    requires ReadField(s) == Some((f, "," + tail)) && ReadRecord(tail) == Some((fs, u))
    ensures ReadRecord(s) == Some(([f] + fs, u))
  {
    assert ("," + tail)[1..] == tail;
  }

  /** Reading a written record gives its values back. */
  lemma {:induction false} ReadRecordOf(vs: seq<string>, t: string)
    requires |vs| >= 1 && (|t| == 0 || t[0] == '\n')
    ensures ReadRecord(Record(vs) + t) == Some((vs, t))
    decreases |vs|
  {
    var es := Seqs.Map(Escape, vs);
    if |vs| == 1 {
      assert Record(vs) == Escape(vs[0]);
      ReadFieldOf(vs[0], t);
      assert [vs[0]] == vs;
    } else {
      JoinCons(es, ",");
      assert es[1..] == Seqs.Map(Escape, vs[1..]);
      var rest := Record(vs[1..]);
      assert Record(vs) + t == Escape(vs[0]) + ("," + (rest + t));
      ReadFieldOf(vs[0], "," + (rest + t));
      ReadRecordOf(vs[1..], t);
      ReadRecordStep(Record(vs) + t, vs[0], rest + t, vs[1..], t);
      assert [vs[0]] + vs[1..] == vs;
    }
  }

  /** Reading the records written one per line gives them back. */
  lemma {:induction false} ParseOf(records: seq<seq<string>>)
    requires |records| >= 1 && forall i :: 0 <= i < |records| ==> |records[i]| >= 1
    ensures Parse(Text.Join(Seqs.Map(Record, records), "\n")) == Some(records)
    decreases |records|
  {
    var ls := Seqs.Map(Record, records);
    if |records| == 1 {
      assert Text.Join(ls, "\n") == Record(records[0]) + "";
      ReadRecordOf(records[0], "");
      assert [records[0]] == records;
    } else {
      JoinCons(ls, "\n");
      assert ls[1..] == Seqs.Map(Record, records[1..]);
      var rest := Text.Join(ls[1..], "\n");
      assert Text.Join(ls, "\n") == Record(records[0]) + ("\n" + rest);
      ReadRecordOf(records[0], "\n" + rest);
      assert ("\n" + rest)[1..] == rest;
      ParseOf(records[1..]);
      assert [records[0]] + records[1..] == records;
    }
  }

  /** The values a row of cells shows. */
  function ShownRow(cells: seq<Option<string>>): (r: seq<string>)
    ensures |r| == |cells|
  {
    Seqs.Map(Shown, cells)
  }

  lemma RowIsRecord(cells: seq<Option<string>>)
    ensures Row(cells) == Record(ShownRow(cells))
  {
    assert Seqs.Map(EscapeCell, cells) == Seqs.Map(Escape, ShownRow(cells));
  }

  /** Reading `arrayToCSV`'s output gives the header and every row back,
      with null and undefined cells read as empty, provided the header and
      each row have at least one cell. */
  lemma ToCsvRoundTrip(headers: seq<string>, rows: seq<seq<Option<string>>>)
    requires |headers| >= 1 && forall i :: 0 <= i < |rows| ==> |rows[i]| >= 1
    ensures Parse(ToCsv(headers, rows)) == Some([headers] + Seqs.Map(ShownRow, rows))
  {
    var records := [headers] + Seqs.Map(ShownRow, rows);
    forall i | 0 <= i < |rows| ensures Row(rows[i]) == Record(ShownRow(rows[i])) {
      RowIsRecord(rows[i]);
    }
    assert Seqs.Map(Record, records) == [Record(headers)] + Seqs.Map(Row, rows);
    ParseOf(records);
  }
}
