/**
 * The append-only CSV ledger of server.js: `writeData` appends one comma-delimited
 * line, `readData` trims the file, splits it into lines, skips the header, drops blank
 * lines and splits every other line at commas, and `initializeDataFile` writes the
 * header when the file does not exist.
 *
 * Numeric fields are kept as the text written to and read from the file
 * (`parseFloat` is not modelled); a parsed field is `None` where JavaScript's
 * destructuring of a short line gives `undefined`.
 */
module Ledger {
  import opened Wrappers
  import opened Text

  /** What `/api/save` hands to `writeData`: the five values, each as the text the
      template literal renders. */
  datatype Snapshot = Snapshot(
    investmentName: string,
    investmentType: string,
    amount: string,
    value: string,
    timestamp: string)

  /** What `readData` returns for one data line. */
  datatype Row = Row(
    investmentName: Option<string>,
    investmentType: Option<string>,
    amount: Option<string>,
    value: Option<string>,
    timestamp: Option<string>)

  /** The column names, in the order every line stores its fields. */
  const Columns: Snapshot := Snapshot("investmentName", "investmentType", "amount", "value", "timestamp")
  /** The header `initializeDataFile` writes: the column names joined by commas. */
  const HeaderLine: string := LineText(Columns)
  const Header: string := HeaderLine + "\n"

  function Fields(s: Snapshot): seq<string> {
    [s.investmentName, s.investmentType, s.amount, s.value, s.timestamp]
  }

  /** The record a snapshot should read back as. */
  function ToRow(s: Snapshot): Row {
    Row(Some(s.investmentName), Some(s.investmentType), Some(s.amount), Some(s.value), Some(s.timestamp))
  }

  /** The line `writeData` builds, without its terminating newline: the template
      `${investmentName},${investmentType},${amount},${value},${timestamp}`. */
  function LineText(s: Snapshot): string {
    Join(Fields(s), ',')
  }

  /** The text `writeData` appends: the five fields in the order name, type, amount,
      value, timestamp, joined by commas and terminated by a newline. */
  function FormatLine(s: Snapshot): (line: string)
    ensures line == s.investmentName + "," + s.investmentType + "," + s.amount + "," + s.value + "," +
                    s.timestamp + "\n"
  {
    LineTextConcat(s);
    LineText(s) + "\n"
  }

  /** `writeData` emits exactly the five fields, in order, then a newline: splitting
      the line at commas gives them back when none of them holds a comma. */
  lemma FormatLineFields(s: Snapshot)
    requires forall i :: 0 <= i < 5 ==> ',' !in Fields(s)[i]
    ensures var line := FormatLine(s);
      && line[|line| - 1] == '\n'
      && Split(line[..|line| - 1], ',') == Fields(s)
  {
    var line := FormatLine(s);
    assert line[..|line| - 1] == LineText(s);
    SplitJoin(Fields(s), ',');
  }

  /** The template literal spelled out. */
  lemma LineTextConcat(s: Snapshot)
    ensures LineText(s) == s.investmentName + "," + s.investmentType + "," + s.amount + "," + s.value + "," + s.timestamp
  {
    var f := Fields(s);
    assert Join(f[4..], ',') == s.timestamp;
    assert Join(f[3..], ',') == s.value + "," + s.timestamp by { assert f[3..][1..] == f[4..]; }
    assert Join(f[2..], ',') == s.amount + "," + s.value + "," + s.timestamp by { assert f[2..][1..] == f[3..]; }
    assert Join(f[1..], ',') == s.investmentType + "," + s.amount + "," + s.value + "," + s.timestamp by { assert f[1..][1..] == f[2..]; }
  }

  /** A snapshot the file format can carry: no field holds the field or line
      delimiter, and the timestamp does not end in whitespace (which `trim` would
      remove from the last line). */
  predicate Clean(s: Snapshot) {
    && FieldText(s.investmentName) && FieldText(s.investmentType)
    && FieldText(s.amount) && FieldText(s.value) && FieldText(s.timestamp)
    && (|s.timestamp| == 0 || !IsWhitespace(s.timestamp[|s.timestamp| - 1]))
  }

  /** Text that holds neither the field nor the line delimiter. */
  predicate FieldText(f: string) {
    ',' !in f && '\n' !in f
  }

  predicate AllClean(rs: seq<Snapshot>) {
    forall i :: 0 <= i < |rs| ==> Clean(rs[i])
  }

  function FieldAt(f: seq<string>, i: nat): Option<string> {
    if i < |f| then Some(f[i]) else None
  }

  /** `const [investmentName, investmentType, amount, value, timestamp] = line.split(',')`. */
  function ParseRow(line: string): (r: Row)
    ensures r.investmentName.Some?
    ensures r.investmentType.Some? <==> |Split(line, ',')| >= 2
    ensures r.amount.Some? <==> |Split(line, ',')| >= 3
    ensures r.value.Some? <==> |Split(line, ',')| >= 4
    ensures r.timestamp.Some? <==> |Split(line, ',')| >= 5
  {
    var f := Split(line, ',');
    Row(FieldAt(f, 0), FieldAt(f, 1), FieldAt(f, 2), FieldAt(f, 3), FieldAt(f, 4))
  }

  /** `lines.filter(line => line.trim()).map(...)`. */
  function ParseLines(lines: seq<string>): seq<Row>
    decreases |lines|
  {
    if |lines| == 0 then []
    else
      var last := lines[|lines| - 1];
      ParseLines(lines[..|lines| - 1]) + (if Trim(last) == "" then [] else [ParseRow(last)])
  }

  /** Parsing works line by line: the records of two runs of lines are those of
      the first followed by those of the second. */
  lemma {:induction false} ParseLinesAppend(a: seq<string>, b: seq<string>)
    ensures ParseLines(a + b) == ParseLines(a) + ParseLines(b)
    decreases |b|
  {
    if |b| == 0 {
      assert a + b == a;
    } else {
      var ab, last := a + b, b[|b| - 1];
      var tail := if Trim(last) == "" then [] else [ParseRow(last)];
      assert ab[..|ab| - 1] == a + b[..|b| - 1] && ab[|ab| - 1] == last;
      assert ParseLines(ab) == ParseLines(a + b[..|b| - 1]) + tail;
      assert ParseLines(b) == ParseLines(b[..|b| - 1]) + tail;
      ParseLinesAppend(a, b[..|b| - 1]);
    }
  }

  /** A blank line (empty once trimmed) yields no record and every other line exactly
      one, in its place: nothing before or after it is affected. */
  lemma BlankLinesDropped(a: seq<string>, line: string, b: seq<string>)
    ensures ParseLines(a + [line] + b) ==
              ParseLines(a) + (if Trim(line) == "" then [] else [ParseRow(line)]) + ParseLines(b)
  {
    ParseLinesAppend(a + [line], b);
    ParseLinesAppend(a, [line]);
    assert [line][..0] == [];
  }

  /** `content.trim().split('\n').slice(1)` followed by the filter and map. */
  function ParseContent(content: string): seq<Row> {
    ParseLines(Split(Trim(content), '\n')[1..])
  }

  /** The text of a ledger after `rs` were appended to a freshly initialised file. */
  function Lines(rs: seq<Snapshot>): string
    decreases |rs|
  {
    if |rs| == 0 then "" else Lines(rs[..|rs| - 1]) + FormatLine(rs[|rs| - 1])
  }

  function Rows(rs: seq<Snapshot>): (r: seq<Row>)
    ensures |r| == |rs|
    ensures forall i :: 0 <= i < |rs| ==> r[i] == ToRow(rs[i])
  {
    seq(|rs|, i requires 0 <= i < |rs| => ToRow(rs[i]))
  }

  // ------------------------------------------------------------------ proofs

  function LineTexts(rs: seq<Snapshot>): seq<string>
    decreases |rs|
  {
    if |rs| == 0 then [] else LineTexts(rs[..|rs| - 1]) + [LineText(rs[|rs| - 1])]
  }

  /** The ledger text after header line `h`, without its final newline. */
  function Body(h: string, rs: seq<Snapshot>): string
    decreases |rs|
  {
    if |rs| == 0 then h else Body(h, rs[..|rs| - 1]) + "\n" + LineText(rs[|rs| - 1])
  }

  /** What the proofs need of a header line: one line, not blank at either end. */
  predicate HeaderShaped(h: string) {
    |h| > 0 && !IsWhitespace(h[0]) && !IsWhitespace(h[|h| - 1]) && '\n' !in h
  }

  lemma LineTextShape(s: Snapshot)
    requires Clean(s)
    ensures '\n' !in LineText(s) && ',' in LineText(s)
    ensures !IsWhitespace(LineText(s)[|LineText(s)| - 1])
  {
    var t := LineText(s);
    LineTextConcat(s);
    assert t[|s.investmentName|] == ',';
    if |s.timestamp| > 0 {
      assert t[|t| - 1] == s.timestamp[|s.timestamp| - 1];
    }
  }

  lemma ColumnsClean()
    ensures Clean(Columns)
  {
    NameColumnsClean();
    NumberColumnsClean();
    assert "timestamp"[8] == 'p';
  }

  lemma NameColumnsClean()
    ensures FieldText("investmentName") && FieldText("investmentType")
  {
    assert ',' !in "investmentName" && '\n' !in "investmentName";
    assert ',' !in "investmentType" && '\n' !in "investmentType";
  }

  lemma NumberColumnsClean()
    ensures FieldText("amount") && FieldText("value") && FieldText("timestamp")
  {
    assert ',' !in "amount" && '\n' !in "amount";
    assert ',' !in "value" && '\n' !in "value";
    assert ',' !in "timestamp" && '\n' !in "timestamp";
  }

  lemma HeaderLineShaped()
    ensures HeaderShaped(HeaderLine)
  {
    ColumnsClean();
    LineTextShape(Columns);
    assert HeaderLine == LineText(Columns);
    assert HeaderLine[0] == "investmentName"[0];
  }

  lemma TrimNonBlank(s: string)
    requires ',' in s
    ensures Trim(s) != ""
  {
    TrimStartResult(s);
    var t := TrimStart(s);
    assert HasNonWhitespace(s) by {
      var i :| 0 <= i < |s| && s[i] == ',';
      assert !IsWhitespace(s[i]);
    }
    TrimEndKeepsFirst(t);
  }

  lemma {:induction false} TrimEndKeepsFirst(t: string)
    requires |t| > 0 && !IsWhitespace(t[0])
    ensures TrimEnd(t) != ""
    decreases |t|
  {
    if |t| > 1 && IsWhitespace(t[|t| - 1]) {
      TrimEndKeepsFirst(t[..|t| - 1]);
    }
  }

  /** A data line written by `writeData` parses back to its snapshot. */
  lemma ParseLineText(s: Snapshot)
    requires Clean(s)
    ensures ParseRow(LineText(s)) == ToRow(s)
    ensures Trim(LineText(s)) != ""
  {
    var f := Fields(s);
    assert forall i :: 0 <= i < |f| ==> FieldText(f[i]);
    SplitJoin(f, ',');
    LineTextShape(s);
    TrimNonBlank(LineText(s));
  }

  lemma {:induction false} ParseLineTexts(rs: seq<Snapshot>)
    requires AllClean(rs)
    ensures ParseLines(LineTexts(rs)) == Rows(rs)
    decreases |rs|
  {
    if |rs| > 0 {
      var init := rs[..|rs| - 1];
      var ls := LineTexts(rs);
      assert ls[..|ls| - 1] == LineTexts(init);
      ParseLineTexts(init);
      ParseLineText(rs[|rs| - 1]);
    }
  }

  /** The facts about a ledger's text that the round trip rests on. */
  predicate ShapedLedger(h: string, rs: seq<Snapshot>) {
    var b := Body(h, rs);
    && h + "\n" + Lines(rs) == b + "\n"
    && Split(b, '\n') == [h] + LineTexts(rs)
    && |b| > 0 && !IsWhitespace(b[0]) && !IsWhitespace(b[|b| - 1])
  }

  lemma {:induction false} LedgerShape(h: string, rs: seq<Snapshot>)
    requires HeaderShaped(h) && AllClean(rs)
    ensures ShapedLedger(h, rs)
    decreases |rs|
  {
    if |rs| == 0 {
      SplitWithoutSeparator(h, '\n');
    } else {
      var init := rs[..|rs| - 1];
      assert AllClean(init);
      LedgerShape(h, init);
      LedgerShapeStep(h, rs);
    }
  }

  lemma LedgerShapeStep(h: string, rs: seq<Snapshot>)
    requires |rs| > 0 && Clean(rs[|rs| - 1])
    requires ShapedLedger(h, rs[..|rs| - 1])
    ensures ShapedLedger(h, rs)
  {
    var init, s := rs[..|rs| - 1], rs[|rs| - 1];
    var b := Body(h, init);
    BodyStep(b, s);
    StepText(h, rs);
    assert LineTexts(rs) == LineTexts(init) + [LineText(s)];
  }

  lemma StepText(h: string, rs: seq<Snapshot>)
    requires |rs| > 0
    requires h + "\n" + Lines(rs[..|rs| - 1]) == Body(h, rs[..|rs| - 1]) + "\n"
    ensures h + "\n" + Lines(rs) == Body(h, rs) + "\n"
    ensures Body(h, rs) == Body(h, rs[..|rs| - 1]) + "\n" + LineText(rs[|rs| - 1])
  {
    var init, s := rs[..|rs| - 1], rs[|rs| - 1];
    var b := Body(h, init);
    calc {
      h + "\n" + Lines(rs);
      (h + "\n" + Lines(init)) + FormatLine(s);
      (b + "\n") + FormatLine(s);
      Body(h, rs) + "\n";
    }
  }

  lemma BodyStep(b: string, s: Snapshot)
    requires Clean(s)
    ensures b + "\n" + FormatLine(s) == (b + "\n" + LineText(s)) + "\n"
    ensures Split(b + "\n" + LineText(s), '\n') == Split(b, '\n') + [LineText(s)]
    ensures !IsWhitespace((b + "\n" + LineText(s))[|b + "\n" + LineText(s)| - 1])
  {
    LineTextShape(s);
    SplitAtSeparator(b, LineText(s), '\n');
    SplitWithoutSeparator(LineText(s), '\n');
    assert b + "\n" + LineText(s) == b + ['\n'] + LineText(s);
  }

  lemma ReadLedgerAfter(h: string, rs: seq<Snapshot>)
    requires HeaderShaped(h) && AllClean(rs)
    ensures ParseContent(h + "\n" + Lines(rs)) == Rows(rs)
  {
    LedgerShape(h, rs);
    var b := Body(h, rs);
    assert h + "\n" + Lines(rs) == b + "\n";
    assert TrimStart(b + "\n") == b + "\n";
    TrimEndNewline(b);
    assert Split(Trim(h + "\n" + Lines(rs)), '\n')[1..] == LineTexts(rs);
    ParseLineTexts(rs);
  }

  /** Round trip: a file holding the header and the lines of `rs` reads back as `rs`,
      one record per line, in file order. */
  lemma ReadLedger(rs: seq<Snapshot>)
    requires AllClean(rs)
    ensures ParseContent(Header + Lines(rs)) == Rows(rs)
  {
    HeaderLineShaped();
    ReadLedgerAfter(HeaderLine, rs);
  }

  /** A header-only file yields no records. */
  lemma ReadHeaderOnly()
    ensures ParseContent(Header) == []
  {
    ReadLedger([]);
    assert Header + Lines([]) == Header;
  }

  /** Appending one clean line to a ledger keeps every record already there and adds
      exactly the new one, last. */
  lemma ReadAfterAppend(rs: seq<Snapshot>, s: Snapshot)
    requires AllClean(rs) && Clean(s)
    ensures ParseContent(Header + Lines(rs) + FormatLine(s)) == ParseContent(Header + Lines(rs)) + [ToRow(s)]
  {
    HeaderLineShaped();
    ReadAfterAppendTo(HeaderLine, rs, s);
  }

  lemma ReadAfterAppendTo(h: string, rs: seq<Snapshot>, s: Snapshot)
    requires HeaderShaped(h) && AllClean(rs) && Clean(s)
    ensures ParseContent(h + "\n" + Lines(rs) + FormatLine(s)) == ParseContent(h + "\n" + Lines(rs)) + [ToRow(s)]
  {
    var before, after := h + "\n" + Lines(rs), h + "\n" + Lines(rs + [s]);
    AppendStep(rs, s);
    assert after == before + FormatLine(s);
    ReadLedgerAfter(h, rs);
    ReadLedgerAfter(h, rs + [s]);
  }

  /** Appending one snapshot appends its line to the text and its record to the
      records. */
  lemma AppendStep(rs: seq<Snapshot>, s: Snapshot)
    requires AllClean(rs) && Clean(s)
    ensures AllClean(rs + [s])
    ensures Lines(rs + [s]) == Lines(rs) + FormatLine(s)
    ensures Rows(rs + [s]) == Rows(rs) + [ToRow(s)]
  {
    var rs' := rs + [s];
    assert rs'[..|rs'| - 1] == rs;
  }

  /** A line appended to a file that does not exist is read back as the header: when
      the file has vanished, `appendFileSync` creates it without a header and the
      first record saved afterwards is never returned. */
  lemma ReadHeaderlessFile(s: Snapshot)
    requires Clean(s)
    ensures ParseContent(FormatLine(s)) == []
  {
    LineTextShape(s);
    ReadSingleLine(LineText(s));
  }

  lemma ReadSingleLine(t: string)
    requires |t| > 0 && '\n' !in t && !IsWhitespace(t[|t| - 1])
    ensures ParseContent(t + "\n") == []
  {
    var u := TrimStart(t);
    TrimStartBeforeNewline(t);
    TrimStartSuffix(t);
    assert u[|u| - 1] == t[|t| - 1];
    TrimEndNewline(u);
    assert Trim(t + "\n") == u;
    assert '\n' !in u;
    SplitWithoutSeparator(u, '\n');
  }

  /**
   * The data file on disk. `present` is whether it exists (`fs.existsSync`), and
   * `content` its text. `Saved` records, for the proofs only, the snapshots appended
   * since the file was created with its header.
   */
  class DataFile {
    var present: bool
    var content: string
    ghost var Saved: seq<Snapshot>

    /** The file is a well-formed ledger of exactly the snapshots in `Saved`. */
    ghost predicate WellFormed()
      reads this
    {
      present && AllClean(Saved) && content == Header + Lines(Saved)
    }

    /** The file as the server finds it at start-up. */
    constructor (present: bool, content: string)
      ensures this.present == present && this.content == content && Saved == []
    {
      this.present := present;
      this.content := content;
      Saved := [];
    }

    /** `initializeDataFile`: writes the header only when the file is missing, so a
        second call changes nothing. */
    method InitializeDataFile()
      modifies this
      ensures present
      ensures old(present) ==> content == old(content) && Saved == old(Saved)
      ensures !old(present) ==> content == Header && Saved == [] && WellFormed()
    {
      if !present {
        present := true;
        content := Header;
        Saved := [];
      }
    }

    /** `writeData`: appends exactly one line and leaves the existing text untouched;
        a missing file is created holding only that line. */
    method WriteData(s: Snapshot)
      modifies this
      ensures present
      ensures content == (if old(present) then old(content) else "") + FormatLine(s)
      ensures old(WellFormed()) && Clean(s) ==> WellFormed() && Saved == old(Saved) + [s]
    {
      if !present {
        content := "";
      }
      present := true;
      content := content + FormatLine(s);
      Saved := Saved + [s];
      assert Saved[..|Saved| - 1] == old(Saved);
    }

    /** `POST /api/save`: stamps the request with the current instant and appends it,
        without validating any field. */
    method Save(investmentName: string, investmentType: string, amount: string, value: string, now: string)
      returns (timestamp: string)
      modifies this
      ensures timestamp == now
      ensures present
      ensures content == (if old(present) then old(content) else "")
                         + FormatLine(Snapshot(investmentName, investmentType, amount, value, now))
      ensures old(WellFormed()) && Clean(Snapshot(investmentName, investmentType, amount, value, now)) ==>
                WellFormed() && ReadData() == old(ReadData()) + [ToRow(Snapshot(investmentName, investmentType, amount, value, now))]
    {
      timestamp := now;
      ghost var before := Saved;
      WriteData(Snapshot(investmentName, investmentType, amount, value, timestamp));
      if old(WellFormed()) && Clean(Snapshot(investmentName, investmentType, amount, value, now)) {
        ReadAfterAppend(before, Snapshot(investmentName, investmentType, amount, value, now));
      }
    }

    /** `readData`: no records when the file does not exist; otherwise one record per
        non-blank line after the header. */
    function ReadData(): (r: seq<Row>)
      reads this
      ensures !present ==> r == []
      ensures WellFormed() ==> r == Rows(Saved)
    {
      if !present then []
      else
        LedgerReadsBack(content, Saved);
        ParseContent(content)
    }
  }

  lemma LedgerReadsBack(content: string, rs: seq<Snapshot>)
    ensures AllClean(rs) && content == Header + Lines(rs) ==> ParseContent(content) == Rows(rs)
  {
    if AllClean(rs) && content == Header + Lines(rs) {
      ReadLedger(rs);
    }
  }
}
