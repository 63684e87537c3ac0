/** The CSV form of `exportUsage` in src/billing/billing.service.ts, and a reader for it.

    A field is quoted when it holds a quote, a comma or a line feed, with inner quotes
    doubled, as section 2 of RFC 4180 prescribes; rows are separated by a line feed.  The
    reader follows the same quoting rules with line feed as the row break, and gets back
    exactly the rows that were written, whatever the field texts are. */
module UsageCsv {
  import opened Wrappers

  // ---------------------------------------------------------------- writing

  predicate Special(c: char) {
    c == '"' || c == ',' || c == '\n'
  }

  predicate NeedsQuotes(text: string) {
    exists i :: 0 <= i < |text| && Special(text[i])
  }

  /** `text.replace(/"/g, '""')` */
  function DoubleQuotes(text: string): string {
    if text == [] then []
    else (if text[0] == '"' then ['"', '"'] else [text[0]]) + DoubleQuotes(text[1..])
  }

  /** `csv(value)` */
  function Csv(text: string): string {
    if NeedsQuotes(text) then ['"'] + DoubleQuotes(text) + ['"'] else text
  }

  /** `fields.map((value) => this.csv(value)).join(",")` */
  function Row(fields: seq<string>): string {
    if fields == [] then []
    else if |fields| == 1 then Csv(fields[0])
    else Csv(fields[0]) + [','] + Row(fields[1..])
  }

  /** `rows.join("\n")` */
  function Lines(rows: seq<seq<string>>): string {
    if rows == [] then []
    else if |rows| == 1 then Row(rows[0])
    else Row(rows[0]) + ['\n'] + Lines(rows[1..])
  }

  datatype UsageRecord = UsageRecord(
    metric: string, quantity: string, recordedAt: string, tokenizedAccessId: Option<string>)

  /** No field of the header needs quotes, so its row is the plain line of the source. */
  const HEADER := ["account_id", "metric", "quantity", "recorded_at", "tokenized_access_id"]

  function RowOf(account: string, r: UsageRecord): seq<string> {
    [account, r.metric, r.quantity, r.recordedAt, if r.tokenizedAccessId.Some? then r.tokenizedAccessId.value else ""]
  }

  function RowsOf(account: string, records: seq<UsageRecord>): seq<seq<string>> {
    seq(|records|, i requires 0 <= i < |records| => RowOf(account, records[i]))
  }

  /** `exportUsage(accountId, "csv")` */
  function ExportCsv(account: string, records: seq<UsageRecord>): string {
    Lines([HEADER] + RowsOf(account, records))
  }

  // ---------------------------------------------------------------- reading

  datatype Reading<+T> = Malformed | Read(value: T, rest: string)

  /** The inside of a quoted field, up to and including its closing quote. */
  function ReadQuoted(t: string): (r: Reading<string>)
    ensures r.Read? ==> |r.rest| < |t|
  {
    if t == [] then Malformed
    else if t[0] != '"' then
      match ReadQuoted(t[1..])
      case Malformed => Malformed
      case Read(s, rest) => Read([t[0]] + s, rest)
    else if |t| >= 2 && t[1] == '"' then
      match ReadQuoted(t[2..])
      case Malformed => Malformed
      case Read(s, rest) => Read(['"'] + s, rest)
    else Read([], t[1..])
  }

  /** A bare field runs to the next comma, line feed or the end; it may not hold a quote. */
  function ReadBare(t: string): (r: Reading<string>)
    ensures r.Read? ==> |r.rest| <= |t|
  {
    if t == [] || t[0] == ',' || t[0] == '\n' then Read([], t)
    else if t[0] == '"' then Malformed
    else
      match ReadBare(t[1..])
      case Malformed => Malformed
      case Read(s, rest) => Read([t[0]] + s, rest)
  }

  function ReadField(t: string): (r: Reading<string>)
    ensures r.Read? ==> |r.rest| <= |t|
  {
    if t != [] && t[0] == '"' then ReadQuoted(t[1..]) else ReadBare(t)
  }

  /** All rows of a document. */
  function ReadRows(t: string): (r: Reading<seq<seq<string>>>)
    ensures r.Read? ==> r.value != [] && forall i :: 0 <= i < |r.value| ==> r.value[i] != []
    decreases |t|
  {
    match ReadField(t)
    case Malformed => Malformed
    case Read(field, rest) =>
      if rest == [] then Read([[field]], [])
      else if rest[0] != ',' && rest[0] != '\n' then Malformed
      else
        match ReadRows(rest[1..])
        case Malformed => Malformed
        case Read(rows, _) =>
          if rest[0] == ',' then Read([[field] + rows[0]] + rows[1..], []) else Read([[field]] + rows, [])
  }

  // ---------------------------------------------------------------- round trip

  /** What may follow a field. */
  predicate FieldEnds(rest: string) {
    rest == [] || rest[0] == ',' || rest[0] == '\n'
  }

  lemma QuoteEnds(rest: string)
    requires FieldEnds(rest)
    ensures ReadQuoted(['"'] + rest) == Read([], rest)
  {
    assert (['"'] + rest)[1..] == rest;
  }

  /** One character of a quoted field, doubled if it is a quote. */
  lemma QuotedStep(c: char, tail: string, text: string, rest: string)
    requires ReadQuoted(tail) == Read(text, rest)
    ensures ReadQuoted((if c == '"' then ['"', '"'] else [c]) + tail) == Read([c] + text, rest)
  {
    if c == '"' {
      assert (['"', '"'] + tail)[2..] == tail;
    } else {
      assert ([c] + tail)[1..] == tail;
    }
  }

  lemma {:induction false} QuotedRoundTrip(text: string, rest: string)
    requires FieldEnds(rest)
    ensures ReadQuoted(DoubleQuotes(text) + ['"'] + rest) == Read(text, rest)
  {
    hide FieldEnds, ReadQuoted;
    if text == [] {
      QuoteEnds(rest);
      assert DoubleQuotes(text) + ['"'] + rest == ['"'] + rest;
    } else {
      var c, tail := text[0], DoubleQuotes(text[1..]) + ['"'] + rest;
      QuotedRoundTrip(text[1..], rest);
      QuotedStep(c, tail, text[1..], rest);
      assert DoubleQuotes(text) + ['"'] + rest == (if c == '"' then ['"', '"'] else [c]) + tail;
      assert text == [c] + text[1..];
    }
  }

  lemma {:induction false} BareRoundTrip(text: string, rest: string)
    requires FieldEnds(rest) && !NeedsQuotes(text)
    ensures ReadBare(text + rest) == Read(text, rest)
  {
    if text == [] {
      assert text + rest == rest;
    } else {
      assert !Special(text[0]);
      assert !NeedsQuotes(text[1..]) by {
        forall i | 0 <= i < |text[1..]| ensures !Special(text[1..][i]) {
          assert text[1..][i] == text[i + 1];
        }
      }
      BareRoundTrip(text[1..], rest);
      assert (text + rest)[1..] == text[1..] + rest;
      assert text == [text[0]] + text[1..];
    }
  }

  /** A written field reads back as itself, whatever it holds. */
  lemma FieldRoundTrip(text: string, rest: string)
    requires FieldEnds(rest)
    ensures ReadField(Csv(text) + rest) == Read(text, rest)
  {
    hide ReadQuoted, ReadBare, DoubleQuotes;
    var t := Csv(text) + rest;
    if NeedsQuotes(text) {
      assert t == ['"'] + (DoubleQuotes(text) + ['"'] + rest);
      assert t[1..] == DoubleQuotes(text) + ['"'] + rest;
      QuotedRoundTrip(text, rest);
    } else {
      BareRoundTrip(text, rest);
      if text != [] {
        assert t[0] == text[0] && !Special(text[0]);
      }
    }
  }

  lemma LastField(text: string)
    ensures ReadRows(Csv(text)) == Read([[text]], [])
  {
    hide Csv, ReadField;
    FieldRoundTrip(text, []);
    assert Csv(text) + [] == Csv(text);
  }

  lemma FieldThenComma(text: string, more: string, rows: seq<seq<string>>)
    requires ReadRows(more) == Read(rows, [])
    ensures rows != [] && ReadRows(Csv(text) + [','] + more) == Read([[text] + rows[0]] + rows[1..], [])
  {
    hide Csv, ReadField;
    var rest := [','] + more;
    FieldRoundTrip(text, rest);
    assert Csv(text) + [','] + more == Csv(text) + rest;
    assert rest[1..] == more;
  }

  lemma FieldThenLineFeed(text: string, more: string, rows: seq<seq<string>>)
    requires ReadRows(more) == Read(rows, [])
    ensures ReadRows(Csv(text) + ['\n'] + more) == Read([[text]] + rows, [])
  {
    hide Csv, ReadField;
    var rest := ['\n'] + more;
    FieldRoundTrip(text, rest);
    assert Csv(text) + ['\n'] + more == Csv(text) + rest;
    assert rest[1..] == more;
  }

  lemma {:induction false} LastRow(fields: seq<string>)
    requires fields != []
    ensures ReadRows(Row(fields)) == Read([fields], [])
  {
    hide Csv, ReadRows;
    if |fields| == 1 {
      LastField(fields[0]);
      assert fields == [fields[0]];
    } else {
      LastRow(fields[1..]);
      FieldThenComma(fields[0], Row(fields[1..]), [fields[1..]]);
      assert [fields[0]] + fields[1..] == fields;
      assert [fields] + [fields[1..]][1..] == [fields];
    }
  }

  lemma {:induction false} RowThenLineFeed(fields: seq<string>, more: string, rows: seq<seq<string>>)
    requires fields != [] && ReadRows(more) == Read(rows, [])
    ensures ReadRows(Row(fields) + ['\n'] + more) == Read([fields] + rows, [])
  {
    hide Csv, ReadRows;
    if |fields| == 1 {
      FieldThenLineFeed(fields[0], more, rows);
      assert fields == [fields[0]];
    } else {
      RowThenLineFeed(fields[1..], more, rows);
      var tail := Row(fields[1..]) + ['\n'] + more;
      FieldThenComma(fields[0], tail, [fields[1..]] + rows);
      assert Row(fields) + ['\n'] + more == Csv(fields[0]) + [','] + tail;
      assert ([fields[1..]] + rows)[1..] == rows;
      assert [fields[0]] + fields[1..] == fields;
    }
  }

  /** Any table of non-empty rows is read back exactly, whatever its field texts. */
  lemma {:induction false} TableRoundTrip(rows: seq<seq<string>>)
    requires rows != [] && forall i :: 0 <= i < |rows| ==> rows[i] != []
    ensures ReadRows(Lines(rows)) == Read(rows, [])
  {
    hide Row, ReadRows;
    if |rows| == 1 {
      LastRow(rows[0]);
      assert rows == [rows[0]];
    } else {
      TableRoundTrip(rows[1..]);
      RowThenLineFeed(rows[0], Lines(rows[1..]), rows[1..]);
      assert [rows[0]] + rows[1..] == rows;
    }
  }

  /** An exported usage file reads back as the header and one row per record. */
  lemma ExportRoundTrip(account: string, records: seq<UsageRecord>)
    ensures ReadRows(ExportCsv(account, records)) == Read([HEADER] + RowsOf(account, records), [])
  {
    hide ReadRows, Lines;
    TableRoundTrip([HEADER] + RowsOf(account, records));
  }

  /** Two exports are the same text exactly when they hold the same rows. */
  lemma ExportExact(account: string, records: seq<UsageRecord>, account': string, records': seq<UsageRecord>)
    ensures ExportCsv(account, records) == ExportCsv(account', records')
       <==> RowsOf(account, records) == RowsOf(account', records')
  {
    hide ReadRows, ExportCsv, RowsOf;
    ExportRoundTrip(account, records);
    ExportRoundTrip(account', records');
    if RowsOf(account, records) == RowsOf(account', records') {
      SameRowsSameText(account, records, account', records');
    } else {
      assert ([HEADER] + RowsOf(account, records))[1..] == RowsOf(account, records);
      assert ([HEADER] + RowsOf(account', records'))[1..] == RowsOf(account', records');
    }
  }

  lemma SameRowsSameText(account: string, records: seq<UsageRecord>, account': string, records': seq<UsageRecord>)
    requires RowsOf(account, records) == RowsOf(account', records')
    ensures ExportCsv(account, records) == ExportCsv(account', records')
  {
  }

  // ---------------------------------------------------------------- columns and quotes

  /** What a record has for a column name. */
  function ValueFor(name: string, account: string, r: UsageRecord): string {
    if name == "account_id" then account
    else if name == "metric" then r.metric
    else if name == "quantity" then r.quantity
    else if name == "recorded_at" then r.recordedAt
    else match r.tokenizedAccessId case None => "" case Some(id) => id
  }

  /** Read back, the first row names the five columns, and every field below holds what its record
      has for the name at the head of its column. */
  lemma ColumnsMatch(account: string, records: seq<UsageRecord>, i: nat, j: nat)
    requires i < |records| && j < 5
    ensures var read := ReadRows(ExportCsv(account, records));
      && read.Read? && read.rest == [] && |read.value| == |records| + 1
      && read.value[0] == ["account_id", "metric", "quantity", "recorded_at", "tokenized_access_id"]
      && |read.value[i + 1]| == 5
      && read.value[i + 1][j] == ValueFor(read.value[0][j], account, records[i])
  {
    hide ReadRows, ExportCsv;
    ExportRoundTrip(account, records);
    var rows := [HEADER] + RowsOf(account, records);
    assert rows[i + 1] == RowOf(account, records[i]);
    NamesDiffer();
  }

  lemma NamesDiffer()
    ensures "metric" != "account_id" && "quantity" !in {"account_id", "metric"}
    ensures "recorded_at" !in {"account_id", "metric", "quantity"}
    ensures "tokenized_access_id" !in {"account_id", "metric", "quantity", "recorded_at"}
  {
    assert |"account_id"| == 10 && |"metric"| == 6 && |"quantity"| == 8 && |"recorded_at"| == 11;
    assert |"tokenized_access_id"| == 19;
  }

  /** A field is written as it is exactly when it holds no quote, comma or line feed. */
  lemma QuotedOnlyIfNeeded(text: string)
    ensures Csv(text) == text <==> '"' !in text && ',' !in text && '\n' !in text
  {
    if NeedsQuotes(text) {
      var i :| 0 <= i < |text| && Special(text[i]);
      DoubledIsNoShorter(text);
      assert |Csv(text)| > |text|;
    }
  }

  lemma {:induction false} DoubledIsNoShorter(text: string)
    ensures |DoubleQuotes(text)| >= |text|
  {
    if text != [] {
      DoubledIsNoShorter(text[1..]);
    }
  }
}
