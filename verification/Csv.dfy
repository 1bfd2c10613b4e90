/** The CSV export of the submissions, src/admin/admin_stats.cpp:51-78 and 210-226, against a reader
    that follows the grammar of section 2 of RFC 4180. Strings are byte strings. */
module Csv {
  import opened Common
  import opened Decimal
  import opened Pipeline

  // ---- a reader of RFC 4180

  /** Every character that is not one of the four separators counts as TEXTDATA, UTF-8 bytes included. */
  predicate IsSpecial(c: char) {
    c == ',' || c == '"' || c == '\n' || c == '\r'
  }

  datatype Cut<+T> = Cut(item: T, rest: string)

  /** What follows an opening quote, up to the closing one. */
  function ReadQuoted(s: string): (r: Option<Cut<string>>)
    ensures r.Some? ==> |r.value.rest| < |s|
    decreases |s|
  {
    if s == [] then None
    else if s[0] == '"' && (|s| == 1 || s[1] != '"') then Some(Cut([], s[1..]))
    else
      var tail := ReadQuoted(if s[0] == '"' then s[2..] else s[1..]);
      if tail.None? then None else Some(Cut([s[0]] + tail.value.item, tail.value.rest))
  }

  function ReadPlain(s: string): (r: Cut<string>)
    ensures |r.rest| <= |s|
  {
    if s == [] || IsSpecial(s[0]) then Cut([], s)
    else
      var tail := ReadPlain(s[1..]);
      Cut([s[0]] + tail.item, tail.rest)
  }

  function ReadField(s: string): (r: Option<Cut<string>>)
    ensures r.Some? ==> |r.value.rest| <= |s|
  {
    if s != [] && s[0] == '"' then ReadQuoted(s[1..]) else Some(ReadPlain(s))
  }

  /** Fields separated by commas. */
  function ReadRecord(s: string): (r: Option<Cut<seq<string>>>)
    ensures r.Some? ==> |r.value.rest| <= |s|
    decreases |s|
  {
    var field := ReadField(s);
    if field.None? then None
    else if field.value.rest == [] || field.value.rest[0] != ',' then Some(Cut([field.value.item], field.value.rest))
    else
      var tail := ReadRecord(field.value.rest[1..]);
      if tail.None? then None else Some(Cut([field.value.item] + tail.value.item, tail.value.rest))
  }

  const CRLF := "\r\n"

  /** Records that each end in CRLF; the last one may go without. */
  function ReadFile(s: string): Option<seq<seq<string>>>
    decreases |s|
  {
    if s == [] then Some([])
    else
      var record := ReadRecord(s);
      if record.None? then None
      else if record.value.rest == [] then Some([record.value.item])
      else if !(CRLF <= record.value.rest) then None
      else
        var tail := ReadFile(record.value.rest[2..]);
        if tail.None? then None else Some([record.value.item] + tail.value)
  }

  // ---- the printer

  /** A record has at least one field. */
  type Record = r: seq<string> | r != [] witness [""]

  predicate IsPlain(s: string) {
    forall i | 0 <= i < |s| :: !IsSpecial(s[i])
  }

  function Doubled(s: string): string {
    if s == [] then [] else (if s[0] == '"' then "\"\"" else [s[0]]) + Doubled(s[1..])
  }

  function Escaped(s: string): string {
    if IsPlain(s) then s else "\"" + (Doubled(s) + "\"")
  }

  lemma {:induction false} DoubledSnoc(s: string, c: char)
    ensures Doubled(s + [c]) == Doubled(s) + if c == '"' then "\"\"" else [c]
  {
    if s == [] {
      assert [c][1..] == [];
    } else {
      assert (s + [c])[1..] == s[1..] + [c];
      DoubledSnoc(s[1..], c);
      Associates(if s[0] == '"' then "\"\"" else [s[0]], Doubled(s[1..]), if c == '"' then "\"\"" else [c]);
    }
  }

  lemma {:induction false} DoubledGrows(s: string)
    ensures |Doubled(s)| >= |s|
  {
    if s != [] {
      DoubledGrows(s[1..]);
    }
  }

  /** `csv_escape`: whatever the text is, a reader takes exactly it out of the result. */
  method CsvEscape(s: string) returns (out: string)
    ensures out == Escaped(s)
    ensures (forall i | 0 <= i < |s| :: s[i] != ',' && s[i] != '"' && s[i] != '\n' && s[i] != '\r') <==> out == s
    ensures out != s ==> |out| >= |s| + 2 && out[0] == '"' && out[|out| - 1] == '"'
    ensures forall rest | Delimited(rest) :: ReadField(out + rest) == Some(Cut(s, rest))
  {
    forall rest | Delimited(rest)
      ensures ReadField(Escaped(s) + rest) == Some(Cut(s, rest))
    {
      FieldRoundTrip(s, rest);
    }
    DoubledGrows(s);
    var need := false;
    for i := 0 to |s|
      invariant !need && IsPlain(s[..i])
    {
      if s[i] == ',' || s[i] == '"' || s[i] == '\n' || s[i] == '\r' {
        need := true;
        break;
      }
    }
    if !need {
      assert s[..|s|] == s;
      return s;
    }
    out := "\"";
    for i := 0 to |s|
      invariant out == "\"" + Doubled(s[..i])
    {
      DoubledSnoc(s[..i], s[i]);
      assert s[..i] + [s[i]] == s[..i + 1];
      if s[i] == '"' {
        out := out + "\"\"";
      } else {
        out := out + [s[i]];
      }
    }
    assert s[..|s|] == s;
    out := out + "\"";
  }

  /** What may follow a field. */
  predicate Delimited(rest: string) {
    rest == [] || rest[0] == ',' || CRLF <= rest
  }

  lemma {:induction false} QuotedRoundTrip(s: string, rest: string)
    requires rest == [] || rest[0] != '"'
    ensures ReadQuoted(Doubled(s) + "\"" + rest) == Some(Cut(s, rest))
  {
    var t := Doubled(s) + "\"" + rest;
    if s == [] {
      assert t == "\"" + rest;
    } else {
      QuotedRoundTrip(s[1..], rest);
      var u := Doubled(s[1..]) + "\"" + rest;
      assert t == (if s[0] == '"' then "\"\"" else [s[0]]) + u;
      assert s == [s[0]] + s[1..];
    }
  }

  lemma {:induction false} PlainRoundTrip(s: string, rest: string)
    requires IsPlain(s) && Delimited(rest)
    ensures ReadPlain(s + rest) == Cut(s, rest)
  {
    if s == [] {
      assert s + rest == rest;
    } else {
      assert (s + rest)[1..] == s[1..] + rest;
      PlainRoundTrip(s[1..], rest);
      assert s == [s[0]] + s[1..];
    }
  }

  lemma OpeningQuote(t: string, rest: string)
    ensures ReadField("\"" + t + rest) == ReadQuoted(t + rest)
  {
    assert ("\"" + t + rest)[1..] == t + rest;
  }

  lemma FieldRoundTrip(s: string, rest: string)
    requires Delimited(rest)
    ensures ReadField(Escaped(s) + rest) == Some(Cut(s, rest))
  {
    if IsPlain(s) {
      PlainRoundTrip(s, rest);
    } else {
      QuotedRoundTrip(s, rest);
      OpeningQuote(Doubled(s) + "\"", rest);
    }
  }

  /** Fields are quoted only when they have to be: printed as it is, a field is read back exactly
      if it is plain. */
  lemma {:induction false} UnquotedOnlyIfPlain(s: string, rest: string)
    requires Delimited(rest)
    ensures ReadField(s + rest) == Some(Cut(s, rest)) <==> IsPlain(s)
  {
    if IsPlain(s) {
      PlainRoundTrip(s, rest);
    } else if s[0] != '"' {
      PlainStops(s, rest);
    } else if ReadField(s + rest) == Some(Cut(s, rest)) {
      QuotedShrinks((s + rest)[1..]);
    }
  }

  lemma {:induction false} PlainStops(s: string, rest: string)
    requires !IsPlain(s)
    ensures |ReadPlain(s + rest).item| < |s|
  {
    if !IsSpecial(s[0]) {
      assert (s + rest)[1..] == s[1..] + rest;
      PlainStops(s[1..], rest);
    }
  }

  lemma {:induction false} QuotedShrinks(s: string)
    ensures ReadQuoted(s).Some? ==> |ReadQuoted(s).value.item| + |ReadQuoted(s).value.rest| < |s|
    decreases |s|
  {
    if s != [] {
      QuotedShrinks(s[1..]);
      if |s| > 1 {
        QuotedShrinks(s[2..]);
      }
    }
  }

  function Joined(fields: Record): string {
    if |fields| == 1 then Escaped(fields[0]) else Escaped(fields[0]) + "," + Joined(fields[1..])
  }

  function Printed(records: seq<Record>): string {
    if records == [] then [] else Joined(records[0]) + CRLF + Printed(records[1..])
  }

  lemma FirstField(a: string, b: string, rest: string)
    ensures a + "," + b + rest == a + ("," + (b + rest))
    ensures ("," + (b + rest))[1..] == b + rest
  {
  }

  lemma {:induction false} RecordRoundTrip(fields: Record, rest: string)
    requires CRLF <= rest
    ensures ReadRecord(Joined(fields) + rest) == Some(Cut(fields, rest))
    decreases |fields|
  {
    if |fields| == 1 {
      FieldRoundTrip(fields[0], rest);
      assert fields == [fields[0]];
    } else {
      var more := "," + (Joined(fields[1..]) + rest);
      FirstField(Escaped(fields[0]), Joined(fields[1..]), rest);
      FieldRoundTrip(fields[0], more);
      RecordRoundTrip(fields[1..], rest);
      assert fields == [fields[0]] + fields[1..];
    }
  }

  /** Any table of arbitrary texts is read back exactly. */
  lemma {:induction false} FileRoundTrip(records: seq<Record>)
    ensures ReadFile(Printed(records)) == Some(records)
  {
    if records != [] {
      var rest := CRLF + Printed(records[1..]);
      assert Printed(records) == Joined(records[0]) + rest;
      RecordRoundTrip(records[0], rest);
      assert rest[2..] == Printed(records[1..]);
      FileRoundTrip(records[1..]);
      assert records == [records[0]] + records[1..];
    }
  }

  // ---- the export

  datatype Language = Cpp | C

  /** A DATETIME column. */
  datatype Time = Time(year: nat, month: nat, day: nat, hour: nat, minute: nat, second: nat)

  datatype Row = Row(id: nat, username: string, problemId: nat, title: string, language: Language,
                     status: Status, execTime: Option<nat>, memory: Option<nat>, createdAt: Time)

  function LanguageName(l: Language): string {
    if l == Cpp then "cpp" else "c"
  }

  function StatusName(s: Status): string {
    match s
    case PENDING => "PENDING"
    case COMPILING => "COMPILING"
    case RUNNING => "RUNNING"
    case COMPILE_ERROR => "COMPILE_ERROR"
    case COMPILE_TIMEOUT => "COMPILE_TIMEOUT"
    case AC => "AC"
    case WA => "WA"
    case RE => "RE"
    case TLE => "TLE"
    case MLE => "MLE"
    case SYSTEM_ERROR => "SYSTEM_ERROR"
  }

  function TwoDigits(n: nat): string {
    [DigitChar(n / 10 % 10), DigitChar(n % 10)]
  }

  /** `YYYY-MM-DD hh:mm:ss`. */
  function TimeText(t: Time): string {
    TwoDigits(t.year / 100) + TwoDigits(t.year) + "-" + TwoDigits(t.month) + "-" + TwoDigits(t.day) + " "
    + TwoDigits(t.hour) + ":" + TwoDigits(t.minute) + ":" + TwoDigits(t.second)
  }

  /** `opt_int`: a NULL column is an empty field. */
  function OptInt(n: Option<nat>): string {
    if n.None? then "" else ToString(n.value)
  }

  /** The columns of a row as a reader should see them. */
  function Fields(r: Row): Record {
    [ToString(r.id), r.username, ToString(r.problemId), r.title, LanguageName(r.language), StatusName(r.status),
     OptInt(r.execTime), OptInt(r.memory), TimeText(r.createdAt)]
  }

  function Table(rows: seq<Row>): seq<Record> {
    seq(|rows|, i requires 0 <= i < |rows| => Fields(rows[i]))
  }

  const BOM: string := ['\U{EF}', '\U{BB}', '\U{BF}']

  datatype Column = Id | Username | ProblemId | ProblemTitle | Lang | Standing | ExecTime | Memory | CreatedAt

  function ColumnName(c: Column): string {
    match c
    case Id => "id"
    case Username => "username"
    case ProblemId => "problem_id"
    case ProblemTitle => "problem_title"
    case Lang => "language"
    case Standing => "status"
    case ExecTime => "exec_time_ms"
    case Memory => "memory_kb"
    case CreatedAt => "created_at"
  }

  const COLUMNS := [Id, Username, ProblemId, ProblemTitle, Lang, Standing, ExecTime, Memory, CreatedAt]

  function Header(): (h: Record)
    ensures |h| == |COLUMNS| && forall i | 0 <= i < |h| :: h[i] == ColumnName(COLUMNS[i])
  {
    seq(|COLUMNS|, i requires 0 <= i < |COLUMNS| => ColumnName(COLUMNS[i]))
  }

  lemma ColumnNameIsPlain(c: Column)
    ensures IsPlain(ColumnName(c))
  {
  }

  lemma NumberIsPlain(n: int)
    ensures IsPlain(ToString(n))
  {
    forall i | 0 <= i < |ToString(n)|
      ensures !IsSpecial(ToString(n)[i])
    {
      assert ToString(n)[i] in ToString(n);
    }
  }

  lemma PlainConcat(a: string, b: string)
    requires IsPlain(a) && IsPlain(b)
    ensures IsPlain(a + b)
  {
  }

  lemma TimeIsPlain(t: Time)
    ensures IsPlain(TimeText(t))
  {
    var a := TwoDigits(t.year / 100) + TwoDigits(t.year);
    var b := a + "-" + TwoDigits(t.month);
    var c := b + "-" + TwoDigits(t.day);
    var d := c + " " + TwoDigits(t.hour);
    var e := d + ":" + TwoDigits(t.minute);
    PlainConcat(a + "-", TwoDigits(t.month));
    PlainConcat(b + "-", TwoDigits(t.day));
    PlainConcat(c + " ", TwoDigits(t.hour));
    PlainConcat(d + ":", TwoDigits(t.minute));
    PlainConcat(e + ":", TwoDigits(t.second));
  }

  lemma StatusIsPlain(s: Status)
    ensures IsPlain(StatusName(s))
  {
  }

  /** The columns printed without escaping never need it. */
  lemma RawColumnsArePlain(r: Row)
    ensures IsPlain(ToString(r.id)) && IsPlain(ToString(r.problemId))
    ensures IsPlain(LanguageName(r.language)) && IsPlain(StatusName(r.status))
    ensures IsPlain(OptInt(r.execTime)) && IsPlain(OptInt(r.memory)) && IsPlain(TimeText(r.createdAt))
  {
    NumberIsPlain(r.id);
    NumberIsPlain(r.problemId);
    StatusIsPlain(r.status);
    TimeIsPlain(r.createdAt);
    if r.execTime.Some? {
      NumberIsPlain(r.execTime.value);
    }
    if r.memory.Some? {
      NumberIsPlain(r.memory.value);
    }
  }

  lemma Regroup(a: string, b: string, c: string)
    ensures a + "," + (b + "," + c) == (a + "," + b) + "," + c
  {
  }

  /** The text up to column `k` and the next column. */
  lemma {:induction false} NextColumn(f: Record, k: nat)
    requires 1 <= k < |f|
    ensures Joined(f[..k + 1]) == Joined(f[..k]) + "," + Escaped(f[k])
  {
    if k == 1 {
      assert f[..2][1..] == [f[1]];
    } else {
      NextColumn(f[1..], k - 1);
      assert f[1..][..k] == f[..k + 1][1..] && f[1..][..k - 1] == f[..k][1..] == f[1..k];
      Regroup(Escaped(f[0]), Joined(f[1..k]), Escaped(f[k]));
    }
  }

  lemma {:induction false} PrintedSnoc(records: seq<Record>, r: Record)
    ensures Printed(records + [r]) == Printed(records) + (Joined(r) + CRLF)
  {
    if records == [] {
      assert [r] + [] == [r];
      assert [r][1..] == [];
    } else {
      assert (records + [r])[1..] == records[1..] + [r];
      PrintedSnoc(records[1..], r);
      Associates(Joined(records[0]) + CRLF, Printed(records[1..]), Joined(r) + CRLF);
    }
  }

  lemma Associates(a: string, b: string, c: string)
    ensures a + (b + c) == (a + b) + c
  {
  }

  /** Column `k` of a line. */
  method PrintColumn(line: string, ghost f: Record, ghost k: nat, text: string) returns (out: string)
    requires 1 <= k < |f| && line == Joined(f[..k]) && text == Escaped(f[k])
    ensures out == Joined(f[..k + 1])
  {
    NextColumn(f, k);
    out := line + "," + text;
  }

  /** The header line. */
  method PrintHeader() returns (line: string)
    ensures line == Joined(Header()) + CRLF
  {
    ColumnNameIsPlain(COLUMNS[0]);
    line := ColumnName(COLUMNS[0]);
    for k := 1 to |COLUMNS|
      invariant line == Joined(Header()[..k])
    {
      ColumnNameIsPlain(COLUMNS[k]);
      line := PrintColumn(line, Header(), k, ColumnName(COLUMNS[k]));
    }
    assert Header()[..|COLUMNS|] == Header();
    line := line + CRLF;
  }

  /** The columns of a line that are printed without escaping. */
  ghost predicate HasRawColumns(f: Record, r: Row) {
    && |f| == 9
    && Escaped(f[0]) == ToString(r.id) && Escaped(f[2]) == ToString(r.problemId)
    && Escaped(f[4]) == LanguageName(r.language) && Escaped(f[5]) == StatusName(r.status)
    && Escaped(f[6]) == OptInt(r.execTime) && Escaped(f[7]) == OptInt(r.memory)
    && Escaped(f[8]) == TimeText(r.createdAt)
  }

  lemma FieldsHaveRawColumns(r: Row)
    ensures HasRawColumns(Fields(r), r)
  {
    RawColumnsArePlain(r);
  }

  method PrintColumns(r: Row, ghost f: Record, username: string, title: string) returns (line: string)
    requires HasRawColumns(f, r) && username == Escaped(f[1]) && title == Escaped(f[3])
    ensures line == Joined(f)
  {
    line := ToString(r.id);
    line := PrintColumn(line, f, 1, username);
    line := PrintColumn(line, f, 2, ToString(r.problemId));
    line := PrintColumn(line, f, 3, title);
    line := PrintColumn(line, f, 4, LanguageName(r.language));
    line := PrintColumn(line, f, 5, StatusName(r.status));
    line := PrintColumn(line, f, 6, OptInt(r.execTime));
    line := PrintColumn(line, f, 7, OptInt(r.memory));
    line := PrintColumn(line, f, 8, TimeText(r.createdAt));
    assert f[..9] == f;
  }

  /** One line of the export. */
  method PrintRow(r: Row) returns (line: string)
    ensures line == Joined(Fields(r)) + "\r\n"
  {
    FieldsHaveRawColumns(r);
    var username := CsvEscape(r.username);
    var title := CsvEscape(r.title);
    line := PrintColumns(r, Fields(r), username, title);
    line := line + CRLF;
  }

  function Exported(rows: seq<Row>): (r: string)
    ensures BOM <= r && r[|BOM|..] == Printed([Header()] + Table(rows))
  {
    BOM + Printed([Header()] + Table(rows))
  }

  lemma StartOfExport()
    ensures Exported([]) == BOM + (Joined(Header()) + CRLF)
  {
    PrintedSnoc([], Header());
    assert [Header()] + Table([]) == [Header()] == [] + [Header()];
    assert Printed([]) + (Joined(Header()) + CRLF) == Joined(Header()) + CRLF;
  }

  lemma NextOfExport(rows: seq<Row>, i: nat)
    requires i < |rows|
    ensures Exported(rows[..i + 1]) == Exported(rows[..i]) + (Joined(Fields(rows[i])) + CRLF)
  {
    TableSnoc(rows, i);
    ExportSnoc([Header()] + Table(rows[..i]), Fields(rows[i]));
  }

  lemma TableSnoc(rows: seq<Row>, i: nat)
    requires i < |rows|
    ensures [Header()] + Table(rows[..i]) + [Fields(rows[i])] == [Header()] + Table(rows[..i + 1])
  {
  }

  lemma ExportSnoc(before: seq<Record>, r: Record)
    ensures BOM + Printed(before + [r]) == BOM + Printed(before) + (Joined(r) + CRLF)
  {
    PrintedSnoc(before, r);
    Associates(BOM, Printed(before), Joined(r) + CRLF);
  }

  // ---- reading a row back

  function ReadNat(s: string): Option<nat> {
    if s != [] && AllDigits(s) then Some(ValueOf(s)) else None
  }

  function ReadOptNat(s: string): Option<Option<nat>> {
    if s == [] then Some(None)
    else
      var n := ReadNat(s);
      if n.None? then None else Some(n)
  }

  function ReadLanguage(s: string): Option<Language> {
    if s == "cpp" then Some(Cpp) else if s == "c" then Some(C) else None
  }

  function ReadStatus(s: string): Option<Status> {
    if s == "PENDING" then Some(PENDING)
    else if s == "COMPILING" then Some(COMPILING)
    else if s == "RUNNING" then Some(RUNNING)
    else if s == "COMPILE_ERROR" then Some(COMPILE_ERROR)
    else if s == "COMPILE_TIMEOUT" then Some(COMPILE_TIMEOUT)
    else if s == "AC" then Some(AC)
    else if s == "WA" then Some(WA)
    else if s == "RE" then Some(RE)
    else if s == "TLE" then Some(TLE)
    else if s == "MLE" then Some(MLE)
    else if s == "SYSTEM_ERROR" then Some(SYSTEM_ERROR)
    else None
  }

  /** Two digits at position `i`. */
  function TwoAt(s: string, i: nat): nat
    requires i + 2 <= |s| && IsDigit(s[i]) && IsDigit(s[i + 1])
  {
    10 * DigitValue(s[i]) + DigitValue(s[i + 1])
  }

  predicate IsTimeText(s: string) {
    && |s| == 19 && s[4] == '-' && s[7] == '-' && s[10] == ' ' && s[13] == ':' && s[16] == ':'
    && IsDigit(s[0]) && IsDigit(s[1]) && IsDigit(s[2]) && IsDigit(s[3]) && IsDigit(s[5]) && IsDigit(s[6])
    && IsDigit(s[8]) && IsDigit(s[9]) && IsDigit(s[11]) && IsDigit(s[12]) && IsDigit(s[14]) && IsDigit(s[15])
    && IsDigit(s[17]) && IsDigit(s[18])
  }

  function ReadTime(s: string): Option<Time> {
    if !IsTimeText(s) then None
    else Some(Time(100 * TwoAt(s, 0) + TwoAt(s, 2), TwoAt(s, 5), TwoAt(s, 8), TwoAt(s, 11), TwoAt(s, 14), TwoAt(s, 17)))
  }

  /** The columns in the order of the header: id, username, problem_id, problem_title, language, status,
      exec_time_ms, memory_kb, created_at. */
  function ReadRow(f: Record): Option<Row> {
    if |f| != 9 then None
    else
      var id, problem, language, status := ReadNat(f[0]), ReadNat(f[2]), ReadLanguage(f[4]), ReadStatus(f[5]);
      var time, memory, at := ReadOptNat(f[6]), ReadOptNat(f[7]), ReadTime(f[8]);
      if id.None? || problem.None? || language.None? || status.None? || time.None? || memory.None? || at.None? then None
      else
        Some(Row(id.value, f[1], problem.value, f[3], language.value, status.value, time.value, memory.value, at.value))
  }

  lemma NumberRoundTrip(n: nat)
    ensures ReadNat(ToString(n)) == Some(n) && ReadOptNat(ToString(n)) == Some(Some(n))
  {
    ValueOfDigits(n);
  }

  lemma StatusRoundTrip(s: Status)
    ensures ReadStatus(StatusName(s)) == Some(s)
  {
  }

  /** What a DATETIME column can hold, and more. */
  predicate InRange(t: Time) {
    t.year < 10000 && t.month < 100 && t.day < 100 && t.hour < 100 && t.minute < 100 && t.second < 100
  }

  /** Where the parts of a time stand in its text. */
  ghost predicate HasTimeParts(s: string, t: Time) {
    && |s| == 19 && s[4] == '-' && s[7] == '-' && s[10] == ' ' && s[13] == ':' && s[16] == ':'
    && s[0..2] == TwoDigits(t.year / 100) && s[2..4] == TwoDigits(t.year)
    && s[5..7] == TwoDigits(t.month) && s[8..10] == TwoDigits(t.day) && s[11..13] == TwoDigits(t.hour)
    && s[14..16] == TwoDigits(t.minute) && s[17..19] == TwoDigits(t.second)
  }

  lemma TimeTextAt(t: Time)
    ensures HasTimeParts(TimeText(t), t)
  {
  }

  /** Two digits for the last two digits of `n` stand at position `i`. */
  ghost predicate Shows(s: string, i: nat, n: nat) {
    i + 2 <= |s| && IsDigit(s[i]) && IsDigit(s[i + 1]) && TwoAt(s, i) == n % 100
  }

  lemma TwoDigitsValue(n: nat)
    ensures var d := TwoDigits(n);
            |d| == 2 && IsDigit(d[0]) && IsDigit(d[1]) && 10 * DigitValue(d[0]) + DigitValue(d[1]) == n % 100
  {
    var m := n % 100;
    assert n / 10 % 10 == m / 10 && n % 10 == m % 10;
  }

  lemma TwoDigitsAt(s: string, i: nat, n: nat)
    requires i + 2 <= |s| && s[i..i + 2] == TwoDigits(n)
    ensures Shows(s, i, n)
  {
    TwoDigitsValue(n);
    assert s[i] == s[i..i + 2][0] && s[i + 1] == s[i..i + 2][1];
  }

  lemma TwoDigitsStand(s: string, t: Time)
    requires HasTimeParts(s, t)
    ensures Shows(s, 0, t.year / 100) && Shows(s, 2, t.year) && Shows(s, 5, t.month) && Shows(s, 8, t.day)
    ensures Shows(s, 11, t.hour) && Shows(s, 14, t.minute) && Shows(s, 17, t.second)
  {
    forall i, n | (i, n) in [(0, t.year / 100), (2, t.year), (5, t.month), (8, t.day), (11, t.hour), (14, t.minute),
                             (17, t.second)]
      ensures Shows(s, i, n)
    {
      TwoDigitsAt(s, i, n);
    }
  }

  lemma YearParts(year: nat)
    requires year < 10000
    ensures 100 * (year / 100 % 100) + year % 100 == year
  {
  }

  lemma ReadTimeParts(s: string, t: Time)
    requires InRange(t) && |s| == 19
    requires s[4] == '-' && s[7] == '-' && s[10] == ' ' && s[13] == ':' && s[16] == ':'
    requires Shows(s, 0, t.year / 100) && Shows(s, 2, t.year) && Shows(s, 5, t.month) && Shows(s, 8, t.day)
    requires Shows(s, 11, t.hour) && Shows(s, 14, t.minute) && Shows(s, 17, t.second)
    ensures ReadTime(s) == Some(t)
  {
    YearParts(t.year);
  }

  lemma TimeRoundTrip(t: Time)
    requires InRange(t)
    ensures ReadTime(TimeText(t)) == Some(t)
  {
    TimeTextAt(t);
    TwoDigitsStand(TimeText(t), t);
    ReadTimeParts(TimeText(t), t);
  }

  /** Every column says what it should: the row is read back from its fields. */
  lemma RowRoundTrip(r: Row)
    requires InRange(r.createdAt)
    ensures ReadRow(Fields(r)) == Some(r)
  {
    NumberRoundTrip(r.id);
    NumberRoundTrip(r.problemId);
    StatusRoundTrip(r.status);
    if r.execTime.Some? {
      NumberRoundTrip(r.execTime.value);
    }
    if r.memory.Some? {
      NumberRoundTrip(r.memory.value);
    }
    TimeRoundTrip(r.createdAt);
  }

  lemma HeaderColumns()
    ensures Header() == ["id", "username", "problem_id", "problem_title", "language", "status", "exec_time_ms",
                         "memory_kb", "created_at"]
  {
  }

  /** `export_submissions_csv` from the selected rows on: behind the byte order mark, a reader finds
      the header and exactly the columns of every row, whatever the usernames and titles contain, and
      every row can be read back from its columns. */
  method ExportCsv(rows: seq<Row>) returns (csv: string)
    ensures BOM <= csv && csv[0] as int == 0xef && csv[1] as int == 0xbb && csv[2] as int == 0xbf
    ensures ReadFile(csv[3..]) == Some([["id", "username", "problem_id", "problem_title", "language", "status",
                                         "exec_time_ms", "memory_kb", "created_at"]] + Table(rows))
    ensures forall i | 0 <= i < |rows| && InRange(rows[i].createdAt) :: ReadRow(Table(rows)[i]) == Some(rows[i])
  {
    csv := PrintHeader();
    csv := BOM + csv;
    StartOfExport();
    for i := 0 to |rows|
      invariant csv == Exported(rows[..i])
    {
      var line := PrintRow(rows[i]);
      NextOfExport(rows, i);
      csv := csv + line;
    }
    assert rows[..|rows|] == rows;
    FileRoundTrip([Header()] + Table(rows));
    HeaderColumns();
    forall i | 0 <= i < |rows| && InRange(rows[i].createdAt)
      ensures ReadRow(Table(rows)[i]) == Some(rows[i])
    {
      RowRoundTrip(rows[i]);
    }
  }
}
