/** The audit-log CSV printer of src/lib/auditExport.ts, and a reader for section 2 of RFC 4180. */
module AuditCsv {
  import opened Wrappers

  // ----- printer

  predicate NeedsQuotes(s: string) {
    '"' in s || ',' in s || '\n' in s || '\r' in s
  }

  /** s.replace(/"/g, '""') */
  function Doubled(s: string): string {
    if s == "" then ""
    else (if s[0] == '"' then "\"\"" else [s[0]]) + Doubled(s[1..])
  }

  function CsvCell(s: string): string {
    if NeedsQuotes(s) then "\"" + Doubled(s) + "\"" else s
  }

  function Join(parts: seq<string>, sep: string): string {
    if parts == [] then "" else if |parts| == 1 then parts[0] else parts[0] + sep + Join(parts[1..], sep)
  }

  function CellTexts(cells: seq<string>): (r: seq<string>)
    ensures |r| == |cells|
  {
    if cells == [] then [] else [CsvCell(cells[0])] + CellTexts(cells[1..])
  }

  function Row(cells: seq<string>): string {
    Join(CellTexts(cells), ",")
  }

  /** An audit entry; the time stamp and the detail are the texts isoTimestamp and JSON.stringify give. */
  datatype Entry = Entry(
    createdAt: string,
    action: string,
    actorEmail: Option<string>,
    target: Option<string>,
    detail: string)

  function OrEmpty(s: Option<string>): string {
    if s.Some? then s.value else ""
  }

  function Cells(e: Entry): seq<string> {
    [e.createdAt, e.action, OrEmpty(e.actorEmail), OrEmpty(e.target), e.detail]
  }

  function AuditCsvRow(e: Entry): string {
    Row(Cells(e))
  }

  const AUDIT_CSV_HEADER := "timestamp,action,actor,target,detail\n"

  const HEADER_CELLS := ["timestamp", "action", "actor", "target", "detail"]

  function RowTexts(entries: seq<Entry>): (r: seq<string>)
    ensures |r| == |entries|
  {
    if entries == [] then [] else [AuditCsvRow(entries[0])] + RowTexts(entries[1..])
  }

  /** The body of the export response. */
  function Export(entries: seq<Entry>): string {
    var body := Join(RowTexts(entries), "\n");
    AUDIT_CSV_HEADER + body + if body != "" then "\n" else ""
  }

  // ----- reader

  predicate EndsBare(c: char) {
    c == ',' || c == '\n' || c == '\r' || c == '"'
  }

  /** Text up to the first comma, line break or quote. */
  function Bare(s: string): (r: (string, string))
    ensures |r.1| <= |s|
  {
    if s == "" || EndsBare(s[0]) then ("", s)
    else
      var (v, rest) := Bare(s[1..]);
      ([s[0]] + v, rest)
  }

  /** Text up to the closing quote; a doubled quote is one. */
  function Quoted(s: string): (r: Option<(string, string)>)
    ensures r.Some? ==> |r.value.1| < |s|
  {
    if s == "" then None
    else if s[0] == '"' && (|s| == 1 || s[1] != '"') then Some(("", s[1..]))
    else
      var taken := if s[0] == '"' then 2 else 1;
      match Quoted(s[taken..])
      case None => None
      case Some((v, rest)) => Some(([s[0]] + v, rest))
  }

  function Field(s: string): (r: Option<(string, string)>)
    ensures r.Some? ==> |r.value.1| <= |s|
  {
    if s != "" && s[0] == '"' then Quoted(s[1..]) else Some(Bare(s))
  }

  /** Fields separated by commas, up to a line break or the end. */
  function Record(s: string): (r: Option<(seq<string>, string)>)
    ensures r.Some? ==> |r.value.1| < |s| || (s == "" && r.value.1 == "")
    decreases |s|
  {
    match Field(s)
    case None => None
    case Some((v, rest)) =>
      if rest == "" then Some(([v], ""))
      else if rest[0] == '\n' then Some(([v], rest[1..]))
      else if |rest| > 1 && rest[0] == '\r' && rest[1] == '\n' then Some(([v], rest[2..]))
      else if rest[0] == ',' then
        match Record(rest[1..])
        case None => None
        case Some((vs, after)) => Some(([v] + vs, after))
      else None
  }

  function Records(s: string): Option<seq<seq<string>>>
    decreases |s|
  {
    if s == "" then Some([])
    else
      match Record(s)
      case None => None
      case Some((cells, rest)) =>
        match Records(rest)
        case None => None
        case Some(more) => Some([cells] + more)
  }

  // ----- round trip

  /** What may follow a printed cell. */
  predicate AtDelimiter(rest: string) {
    rest == "" || rest[0] == ',' || rest[0] == '\n'
  }

  lemma {:induction false} BareReads(s: string, rest: string)
    requires !NeedsQuotes(s) && AtDelimiter(rest)
    ensures Bare(s + rest) == (s, rest)
  {
    if s == "" {
      assert s + rest == rest;
    } else {
      assert (s + rest)[1..] == s[1..] + rest;
      assert s[0] in s;
      BareReads(s[1..], rest);
      assert s == [s[0]] + s[1..];
    }
  }

  lemma {:induction false} QuotedReads(s: string, rest: string)
    requires AtDelimiter(rest)
    ensures Quoted(Doubled(s) + "\"" + rest) == Some((s, rest))
  {
    var t := Doubled(s) + "\"" + rest;
    if s == "" {
      assert t == "\"" + rest;
      assert t[1..] == rest;
    } else {
      var lead := if s[0] == '"' then "\"\"" else [s[0]];
      var tail := Doubled(s[1..]) + "\"" + rest;
      assert t == lead + tail;
      assert t[|lead|..] == tail;
      QuotedReads(s[1..], rest);
      assert s == [s[0]] + s[1..];
    }
  }

  /** Whatever the text of a cell, the reader finds it whole and stops at its delimiter. */
  lemma FieldReads(cell: string, rest: string)
    requires AtDelimiter(rest)
    ensures Field(CsvCell(cell) + rest) == Some((cell, rest))
  {
    if NeedsQuotes(cell) {
      QuotedFieldReads(cell, rest);
    } else {
      BareFieldReads(cell, rest);
    }
  }

  lemma QuotedFieldReads(cell: string, rest: string)
    requires AtDelimiter(rest)
    ensures Field("\"" + Doubled(cell) + "\"" + rest) == Some((cell, rest))
  {
    QuotedReads(cell, rest);
    FieldOfQuote(Doubled(cell), rest);
  }

  lemma FieldOfQuote(inner: string, rest: string)
    ensures Field("\"" + inner + "\"" + rest) == Quoted(inner + "\"" + rest)
  {
    var t := "\"" + inner + "\"" + rest;
    assert t[0] == '"' && t[1..] == inner + "\"" + rest;
  }

  lemma BareFieldReads(cell: string, rest: string)
    requires !NeedsQuotes(cell) && AtDelimiter(rest)
    ensures Field(cell + rest) == Some((cell, rest))
  {
    BareReads(cell, rest);
    if cell != "" {
      assert (cell + rest)[0] == cell[0] && cell[0] in cell;
    }
  }

  lemma {:induction false} RecordReads(cells: seq<string>, rest: string)
    requires cells != []
    ensures Record(Row(cells) + "\n" + rest) == Some((cells, rest))
    decreases |cells|
  {
    var t := Row(cells) + "\n" + rest;
    if |cells| == 1 {
      assert t == CsvCell(cells[0]) + ("\n" + rest);
      FieldReads(cells[0], "\n" + rest);
      assert ("\n" + rest)[1..] == rest;
      assert cells == [cells[0]];
    } else {
      var after := "," + (Row(cells[1..]) + "\n" + rest);
      RowSplits(cells);
      assert t == CsvCell(cells[0]) + after;
      FieldReads(cells[0], after);
      assert after[1..] == Row(cells[1..]) + "\n" + rest;
      RecordReads(cells[1..], rest);
      assert cells == [cells[0]] + cells[1..];
    }
  }

  lemma RowSplits(cells: seq<string>)
    requires |cells| > 1
    ensures Row(cells) == CsvCell(cells[0]) + "," + Row(cells[1..])
  {
    assert CellTexts(cells)[1..] == CellTexts(cells[1..]);
  }

  /** The lines of the export, each with its line break. */
  function Lines(rows: seq<seq<string>>): string {
    if rows == [] then "" else Row(rows[0]) + "\n" + Lines(rows[1..])
  }

  lemma {:induction false} LinesRead(rows: seq<seq<string>>)
    requires forall i :: 0 <= i < |rows| ==> rows[i] != []
    ensures Records(Lines(rows)) == Some(rows)
  {
    if rows != [] {
      RecordReads(rows[0], Lines(rows[1..]));
      LinesRead(rows[1..]);
      assert rows == [rows[0]] + rows[1..];
    }
  }

  function AllCells(entries: seq<Entry>): (r: seq<seq<string>>)
    ensures |r| == |entries| && forall i :: 0 <= i < |r| ==> r[i] == Cells(entries[i])
  {
    if entries == [] then [] else [Cells(entries[0])] + AllCells(entries[1..])
  }

  /** Joining the rows and adding a last line break gives every row its own. */
  lemma {:induction false} BodyIsLines(entries: seq<Entry>)
    requires entries != []
    ensures Join(RowTexts(entries), "\n") + "\n" == Lines(AllCells(entries))
    ensures Join(RowTexts(entries), "\n") != ""
  {
    var first := AuditCsvRow(entries[0]);
    RowNotEmpty(entries[0]);
    if |entries| == 1 {
      assert AllCells(entries)[1..] == [];
    } else {
      BodyIsLines(entries[1..]);
      assert RowTexts(entries)[1..] == RowTexts(entries[1..]);
      assert AllCells(entries)[1..] == AllCells(entries[1..]);
      var more := Join(RowTexts(entries[1..]), "\n");
      assert first + "\n" + more + "\n" == first + "\n" + (more + "\n");
    }
  }

  lemma RowNotEmpty(e: Entry)
    ensures AuditCsvRow(e) != ""
  {
    RowSplits(Cells(e));
  }

  lemma RowStep(cells: seq<string>, first: string, others: seq<string>)
    requires cells == [first] + others && others != [] && !NeedsQuotes(first)
    ensures Row(cells) == first + "," + Row(others)
  {
    assert cells[1..] == others;
    RowSplits(cells);
  }

  lemma FivePlain(a: string, b: string, c: string, d: string, e: string)
    requires !NeedsQuotes(a) && !NeedsQuotes(b) && !NeedsQuotes(c) && !NeedsQuotes(d) && !NeedsQuotes(e)
    ensures Row([a, b, c, d, e]) == a + "," + (b + "," + (c + "," + (d + "," + e)))
  {
    RowStep([d, e], d, [e]);
    RowStep([c, d, e], c, [d, e]);
    RowStep([b, c, d, e], b, [c, d, e]);
    RowStep([a, b, c, d, e], a, [b, c, d, e]);
  }

  lemma HeaderPlain()
    ensures !NeedsQuotes("timestamp") && !NeedsQuotes("action") && !NeedsQuotes("actor")
    ensures !NeedsQuotes("target") && !NeedsQuotes("detail")
  {
  }

  lemma HeaderIsRow()
    ensures AUDIT_CSV_HEADER == Row(HEADER_CELLS) + "\n"
  {
    HeaderPlain();
    FivePlain("timestamp", "action", "actor", "target", "detail");
    HeaderText();
  }

  lemma HeaderText()
    ensures AUDIT_CSV_HEADER == "timestamp" + "," + ("action" + "," + ("actor" + "," + ("target" + "," + "detail"))) + "\n"
  {
  }

  lemma ExportIsLines(entries: seq<Entry>)
    ensures Export(entries) == AUDIT_CSV_HEADER + Lines(AllCells(entries))
  {
    if entries != [] {
      BodyIsLines(entries);
    }
  }

  lemma HeadedLinesRead(header: seq<string>, head: string, rows: seq<seq<string>>)
    requires header != [] && head == Row(header) + "\n"
    requires forall i :: 0 <= i < |rows| ==> rows[i] != []
    ensures Records(head + Lines(rows)) == Some([header] + rows)
  {
    var all := [header] + rows;
    assert all[1..] == rows;
    LinesRead(all);
  }

  /**
   * Reading the export gives the header and the five cells of every entry, in order, for
   * arbitrary cell text: commas, quotes and line breaks inside cells included.
   */
  lemma ExportReadsBack(entries: seq<Entry>)
    ensures Records(Export(entries)) == Some([HEADER_CELLS] + AllCells(entries))
  {
    HeaderIsRow();
    ExportIsLines(entries);
    HeadedLinesRead(HEADER_CELLS, AUDIT_CSV_HEADER, AllCells(entries));
  }

  /** The columns, in the order of their names. */
  predicate InColumns(cells: seq<string>, e: Entry) {
    && |cells| == 5
    && cells[0] == e.createdAt && cells[1] == e.action
    && cells[2] == (match e.actorEmail case Some(email) => email case None => "")
    && cells[3] == (match e.target case Some(target) => target case None => "")
    && cells[4] == e.detail
  }

  /** The export read back: the five column names, and then entry by entry the value of each column. */
  lemma ExportHasItsColumns(entries: seq<Entry>)
    ensures Records(Export(entries)).Some?
    ensures var rows := Records(Export(entries)).value;
            && |rows| == |entries| + 1
            && rows[0] == ["timestamp", "action", "actor", "target", "detail"]
            && forall i :: 0 <= i < |entries| ==> InColumns(rows[i + 1], entries[i])
  {
    ExportReadsBack(entries);
    var rows := Records(Export(entries)).value;
    forall i | 0 <= i < |entries| ensures InColumns(rows[i + 1], entries[i]) {
      assert rows[i + 1] == AllCells(entries)[i];
    }
  }

  // ----- the cell format, on its own

  predicate IsPlain(s: string) {
    forall i :: 0 <= i < |s| ==> s[i] != '"' && s[i] != ',' && s[i] != '\n' && s[i] != '\r'
  }

  predicate NoQuote(s: string) {
    forall i :: 0 <= i < |s| ==> s[i] != '"'
  }

  lemma {:induction false} DoubledPlain(s: string)
    requires NoQuote(s)
    ensures Doubled(s) == s
  {
    if s != "" {
      DoubledPlain(s[1..]);
      assert s == [s[0]] + s[1..];
    }
  }

  /** Each quote is written twice, and nothing else is touched. */
  lemma {:induction false} QuotesAreDoubled(a: string, b: string)
    requires NoQuote(a)
    ensures Doubled(a + "\"" + b) == a + "\"\"" + Doubled(b)
  {
    var s := a + "\"" + b;
    if a == "" {
      assert s[1..] == b;
    } else {
      QuotesAreDoubled(a[1..], b);
      assert s[0] == a[0] && s[1..] == a[1..] + "\"" + b;
      assert a == [a[0]] + a[1..];
    }
  }

  /** A cell is printed as it is exactly when it has no quote, comma or line break; otherwise it stands in quotes. */
  lemma CellFormat(s: string)
    ensures IsPlain(s) ==> CsvCell(s) == s
    ensures !IsPlain(s) ==> CsvCell(s) == "\"" + Doubled(s) + "\""
  {
  }

  /** So different cells never print to the same file. */
  lemma ExportIsInjective(a: seq<Entry>, b: seq<Entry>)
    requires Export(a) == Export(b)
    ensures AllCells(a) == AllCells(b)
  {
    ExportReadsBack(a);
    ExportReadsBack(b);
    assert ([HEADER_CELLS] + AllCells(a))[1..] == AllCells(a);
    assert ([HEADER_CELLS] + AllCells(b))[1..] == AllCells(b);
  }
}
