/** Two printers with escapes, each with a reader of the format that undoes it. */
module Printers {
  import opened Wrappers

  function ReplaceAll(s: string, c: char, rep: string): string {
    if s == [] then [] else (if s[0] == c then rep else [s[0]]) + ReplaceAll(s[1..], c, rep)
  }

  function Join(parts: seq<string>, separator: string): string {
    if parts == [] then [] else if |parts| == 1 then parts[0] else parts[0] + separator + Join(parts[1..], separator)
  }

  lemma {:induction false} ReplaceConcat(a: string, b: string, c: char, rep: string)
    ensures ReplaceAll(a + b, c, rep) == ReplaceAll(a, c, rep) + ReplaceAll(b, c, rep)
  {
    if a == [] {
      assert a + b == b;
    } else {
      assert (a + b)[1..] == a[1..] + b;
      ReplaceConcat(a[1..], b, c, rep);
    }
  }

  // ------------------------------------------------------- PostgreSQL array literal

  /** Two passes: first every backslash is doubled, then every quote gets one. */
  function EscapeElement(id: string): string {
    ReplaceAll(ReplaceAll(id, '\\', "\\\\"), '"', "\\\"")
  }

  function QuoteAll(ids: seq<string>): seq<string> {
    if ids == [] then [] else ["\"" + EscapeElement(ids[0]) + "\""] + QuoteAll(ids[1..])
  }

  function ToPgTextArrayLiteral(ids: seq<string>): string {
    "{" + Join(QuoteAll(ids), ",") + "}"
  }

  /** A quoted element up to its closing quote: a backslash takes the next character as it is. */
  function ReadQuoted(s: string): (r: Option<(string, string)>)
    ensures r.Some? ==> |r.value.1| < |s|
  {
    if s == [] then None
    else if s[0] == '"' then Some(("", s[1..]))
    else if s[0] == '\\' then
      if |s| < 2 then None
      else
        match ReadQuoted(s[2..])
        case None => None
        case Some((text, rest)) => Some(([s[1]] + text, rest))
    else
      match ReadQuoted(s[1..])
      case None => None
      case Some((text, rest)) => Some(([s[0]] + text, rest))
  }

  /** Quoted elements separated by commas, up to the closing brace that ends the literal. */
  function ReadElements(s: string): Option<seq<string>>
    decreases |s|
  {
    if s == [] || s[0] != '"' then None
    else
      match ReadQuoted(s[1..])
      case None => None
      case Some((text, rest)) =>
        if rest == "}" then Some([text])
        else if rest != [] && rest[0] == ',' then
          match ReadElements(rest[1..])
          case None => None
          case Some(more) => Some([text] + more)
        else None
  }

  function ReadArrayLiteral(s: string): Option<seq<string>> {
    if s == "{}" then Some([])
    else if s == [] || s[0] != '{' then None
    else ReadElements(s[1..])
  }

  function EscapedChar(c: char): string {
    if c == '\\' then "\\\\" else if c == '"' then "\\\"" else [c]
  }

  /** The two passes together treat each character on its own. */
  lemma EscapeByCharacter(c: char, rest: string)
    ensures EscapeElement([c] + rest) == EscapedChar(c) + EscapeElement(rest)
  {
    assert ([c] + rest)[1..] == rest;
    var doubled := if c == '\\' then "\\\\" else [c];
    ReplaceConcat(doubled, ReplaceAll(rest, '\\', "\\\\"), '"', "\\\"");
    assert ReplaceAll([c], '"', "\\\"") == if c == '"' then "\\\"" else [c] by {
      assert [c][1..] == [];
    }
    assert "\\\\" == ['\\'] + ['\\'];
    ReplaceConcat(['\\'], ['\\'], '"', "\\\"");
    assert ['\\'][1..] == [];
  }

  lemma {:induction false} ReadsBackElement(id: string, tail: string)
    ensures ReadQuoted(EscapeElement(id) + "\"" + tail) == Some((id, tail))
  {
    if id == [] {
      assert EscapeElement(id) + "\"" + tail == "\"" + tail;
    } else {
      var c, rest := id[0], id[1..];
      assert id == [c] + rest;
      EscapeByCharacter(c, rest);
      ReadsBackElement(rest, tail);
      var s := EscapeElement(id) + "\"" + tail;
      var more := EscapeElement(rest) + "\"" + tail;
      assert s == EscapedChar(c) + more;
      if c == '\\' || c == '"' {
        assert s[2..] == more && s[1] == c;
      } else {
        assert s[1..] == more;
      }
    }
  }

  lemma ElementsStep(s: string, text: string, rest: string, more: seq<string>)
    requires s != [] && s[0] == '"' && ReadQuoted(s[1..]) == Some((text, rest))
    requires rest != [] && rest[0] == ',' && ReadElements(rest[1..]) == Some(more)
    ensures ReadElements(s) == Some([text] + more)
  {
  }

  lemma LastElement(s: string, text: string)
    requires s != [] && s[0] == '"' && ReadQuoted(s[1..]) == Some((text, "}"))
    ensures ReadElements(s) == Some([text])
  {
  }

  lemma {:induction false} ReadsBackElements(ids: seq<string>)
    requires ids != []
    ensures ReadElements(Join(QuoteAll(ids), ",") + "}") == Some(ids)
  {
    var s := Join(QuoteAll(ids), ",") + "}";
    var body := EscapeElement(ids[0]);
    if |ids| == 1 {
      assert QuoteAll(ids[1..]) == [];
      assert s == "\"" + body + "\"" + "}";
      assert s[1..] == body + "\"" + "}";
      ReadsBackElement(ids[0], "}");
      LastElement(s, ids[0]);
      assert ids == [ids[0]];
    } else {
      var others := Join(QuoteAll(ids[1..]), ",") + "}";
      JoinMore("\"" + body + "\"", QuoteAll(ids[1..]));
      var tail := "," + others;
      assert s == "\"" + body + "\"" + tail;
      assert s[1..] == body + "\"" + tail;
      ReadsBackElement(ids[0], tail);
      assert tail[1..] == others;
      ReadsBackElements(ids[1..]);
      ElementsStep(s, ids[0], tail, ids[1..]);
      assert [ids[0]] + ids[1..] == ids;
    }
  }

  lemma JoinMore(first: string, rest: seq<string>)
    requires rest != []
    ensures Join([first] + rest, ",") == first + "," + Join(rest, ",")
  {
    assert ([first] + rest)[1..] == rest;
  }

  /** Every list of ids, whatever characters they hold, is recovered from its array literal. */
  lemma ArrayLiteralRoundTrip(ids: seq<string>)
    ensures ReadArrayLiteral(ToPgTextArrayLiteral(ids)) == Some(ids)
  {
    var s := ToPgTextArrayLiteral(ids);
    if ids == [] {
      assert s == "{}";
    } else {
      ReadsBackElements(ids);
      assert s[1..] == Join(QuoteAll(ids), ",") + "}";
      assert s != "{}" by {
        var quoted := QuoteAll(ids);
        assert quoted[0][0] == '"';
        assert Join(quoted, ",")[0] == '"';
        assert s[1] == '"';
      }
    }
  }

  // ------------------------------------------------------------------ CSV export

  const COLUMNS: seq<string> :=
    ["wallet", "email", "status", "source", "wave", "segment", "requested_at", "decided_at", "decided_by", "notes"]

  /** The first line of the export. */
  const HEADER: string := Join(COLUMNS, ",")

  /** An exported row: a null or a text per column. */
  type CsvRow = seq<Option<string>>

  predicate NeedsQuotes(v: string) {
    '"' in v || ',' in v || '\n' in v
  }

  function Esc(v: Option<string>): string {
    match v
    case None => ""
    case Some(text) => if NeedsQuotes(text) then "\"" + ReplaceAll(text, '"', "\"\"") + "\"" else text
  }

  function EscAll(row: CsvRow): seq<string> {
    if row == [] then [] else [Esc(row[0])] + EscAll(row[1..])
  }

  function Lines(rows: seq<CsvRow>): seq<string> {
    if rows == [] then [] else [Join(EscAll(rows[0]), ",")] + Lines(rows[1..])
  }

  function PrintCsv(rows: seq<CsvRow>): string {
    Join([HEADER] + Lines(rows), "\n")
  }

  function Text(v: Option<string>): string {
    match v
    case None => ""
    case Some(text) => text
  }

  function Texts(row: CsvRow): seq<string> {
    if row == [] then [] else [Text(row[0])] + Texts(row[1..])
  }

  function AllTexts(rows: seq<CsvRow>): seq<seq<string>> {
    if rows == [] then [] else [Texts(rows[0])] + AllTexts(rows[1..])
  }

  /** The inside of a quoted field, up to a quote that is not doubled (RFC 4180, section 2, rules 5 to 7). */
  function ReadEscaped(s: string): (r: Option<(string, string)>)
    ensures r.Some? ==> |r.value.1| <= |s|
    decreases |s|
  {
    if s == [] then None
    else if s[0] == '"' then
      if |s| >= 2 && s[1] == '"' then
        match ReadEscaped(s[2..])
        case None => None
        case Some((text, rest)) => Some((['"'] + text, rest))
      else Some(("", s[1..]))
    else
      match ReadEscaped(s[1..])
      case None => None
      case Some((text, rest)) => Some(([s[0]] + text, rest))
  }

  /** An unquoted field: everything up to a comma, a line feed or the end; it holds no quotes. */
  function ReadPlain(s: string): (r: Option<(string, string)>)
    ensures r.Some? ==> |r.value.1| <= |s|
    decreases |s|
  {
    if s == [] || s[0] == ',' || s[0] == '\n' then Some(("", s))
    else if s[0] == '"' then None
    else
      match ReadPlain(s[1..])
      case None => None
      case Some((text, rest)) => Some(([s[0]] + text, rest))
  }

  function ReadField(s: string): (r: Option<(string, string)>)
    ensures r.Some? ==> |r.value.1| <= |s|
  {
    if s != [] && s[0] == '"' then ReadEscaped(s[1..]) else ReadPlain(s)
  }

  function ReadRecord(s: string): (r: Option<(seq<string>, string)>)
    ensures r.Some? ==> |r.value.1| <= |s|
    decreases |s|
  {
    match ReadField(s)
    case None => None
    case Some((text, rest)) =>
      if rest != [] && rest[0] == ',' then
        match ReadRecord(rest[1..])
        case None => None
        case Some((more, end)) => Some(([text] + more, end))
      else Some(([text], rest))
  }

  /** Records separated by line feeds. */
  function ReadCsv(s: string): Option<seq<seq<string>>>
    decreases |s|
  {
    match ReadRecord(s)
    case None => None
    case Some((fields, rest)) =>
      if rest == [] then Some([fields])
      else if rest[0] == '\n' then
        match ReadCsv(rest[1..])
        case None => None
        case Some(more) => Some([fields] + more)
      else None
  }

  predicate EndsField(tail: string) {
    tail == [] || tail[0] == ',' || tail[0] == '\n'
  }

  lemma {:induction false} ReadsBackEscaped(text: string, tail: string)
    requires EndsField(tail)
    ensures ReadEscaped(ReplaceAll(text, '"', "\"\"") + "\"" + tail) == Some((text, tail))
  {
    if text == [] {
      assert ReplaceAll(text, '"', "\"\"") + "\"" + tail == "\"" + tail;
    } else {
      var inside := ReplaceAll(text[1..], '"', "\"\"");
      ReadsBackEscaped(text[1..], tail);
      EscapedStep(text[0], text[1..], inside + "\"" + tail, tail);
      assert ReplaceAll(text, '"', "\"\"") + "\"" + tail
          == (if text[0] == '"' then "\"\"" else [text[0]]) + (inside + "\"" + tail);
      assert [text[0]] + text[1..] == text;
    }
  }

  lemma EscapedStep(c: char, text: string, more: string, tail: string)
    requires ReadEscaped(more) == Some((text, tail))
    ensures ReadEscaped((if c == '"' then "\"\"" else [c]) + more) == Some(([c] + text, tail))
  {
    if c == '"' {
      assert ("\"\"" + more)[2..] == more;
    } else {
      assert ([c] + more)[1..] == more;
    }
  }

  lemma {:induction false} ReadsBackPlain(text: string, tail: string)
    requires EndsField(tail) && !NeedsQuotes(text)
    ensures ReadPlain(text + tail) == Some((text, tail))
  {
    if text == [] {
      assert text + tail == tail;
    } else {
      assert text[0] in text;
      assert (text + tail)[1..] == text[1..] + tail;
      ReadsBackPlain(text[1..], tail);
      assert [text[0]] + text[1..] == text;
    }
  }

  lemma ReadsBackQuotedField(text: string, tail: string)
    requires EndsField(tail)
    ensures ReadField("\"" + ReplaceAll(text, '"', "\"\"") + "\"" + tail) == Some((text, tail))
  {
    ReadsBackEscaped(text, tail);
    AfterQuote(ReplaceAll(text, '"', "\"\""), tail);
  }

  lemma AfterQuote(inside: string, tail: string)
    ensures var s := "\"" + inside + "\"" + tail;
            s[0] == '"' && s[1..] == inside + "\"" + tail
  {
  }

  lemma ReadsBackPlainField(text: string, tail: string)
    requires EndsField(tail) && !NeedsQuotes(text)
    ensures ReadField(text + tail) == Some((text, tail))
  {
    ReadsBackPlain(text, tail);
    if text == [] {
      assert text + tail == tail;
    } else {
      assert text[0] in text && (text + tail)[0] == text[0];
    }
  }

  lemma ReadsBackField(v: Option<string>, tail: string)
    requires EndsField(tail)
    ensures ReadField(Esc(v) + tail) == Some((Text(v), tail))
  {
    var text := Text(v);
    if NeedsQuotes(text) {
      ReadsBackQuotedField(text, tail);
    } else {
      ReadsBackPlainField(text, tail);
    }
  }

  lemma RecordStep(s: string, text: string, rest: string, more: seq<string>, end: string)
    requires ReadField(s) == Some((text, rest))
    requires rest != [] && rest[0] == ',' && ReadRecord(rest[1..]) == Some((more, end))
    ensures ReadRecord(s) == Some(([text] + more, end))
  {
  }

  lemma LastField(s: string, text: string, rest: string)
    requires ReadField(s) == Some((text, rest)) && (rest == [] || rest[0] == '\n')
    ensures ReadRecord(s) == Some(([text], rest))
  {
  }

  lemma {:induction false} ReadsBackRecord(row: CsvRow, tail: string)
    requires row != [] && (tail == [] || tail[0] == '\n')
    ensures ReadRecord(Join(EscAll(row), ",") + tail) == Some((Texts(row), tail))
  {
    var s := Join(EscAll(row), ",") + tail;
    if |row| == 1 {
      assert EscAll(row[1..]) == [] && Texts(row[1..]) == [];
      assert s == Esc(row[0]) + tail;
      ReadsBackField(row[0], tail);
      LastField(s, Text(row[0]), tail);
      assert Texts(row) == [Text(row[0])];
    } else {
      var others := Join(EscAll(row[1..]), ",") + tail;
      JoinMore(Esc(row[0]), EscAll(row[1..]));
      var rest := "," + others;
      assert s == Esc(row[0]) + rest;
      ReadsBackField(row[0], rest);
      assert rest[1..] == others;
      ReadsBackRecord(row[1..], tail);
      RecordStep(s, Text(row[0]), rest, Texts(row[1..]), tail);
    }
  }

  lemma LastRecord(s: string, fields: seq<string>)
    requires ReadRecord(s) == Some((fields, ""))
    ensures ReadCsv(s) == Some([fields])
  {
  }

  lemma CsvStep(s: string, fields: seq<string>, rest: string, more: seq<seq<string>>)
    requires ReadRecord(s) == Some((fields, rest))
    requires rest != [] && rest[0] == '\n' && ReadCsv(rest[1..]) == Some(more)
    ensures ReadCsv(s) == Some([fields] + more)
  {
  }

  lemma {:induction false} ReadsBackLines(rows: seq<CsvRow>)
    requires rows != [] && forall r :: r in rows ==> r != []
    ensures ReadCsv(Join(Lines(rows), "\n")) == Some(AllTexts(rows))
  {
    var s := Join(Lines(rows), "\n");
    var line := Join(EscAll(rows[0]), ",");
    assert rows[0] in rows;
    if |rows| == 1 {
      assert Lines(rows[1..]) == [] && AllTexts(rows[1..]) == [];
      assert s == line + "";
      ReadsBackRecord(rows[0], "");
      LastRecord(s, Texts(rows[0]));
      assert AllTexts(rows) == [Texts(rows[0])];
    } else {
      assert Lines(rows)[1..] == Lines(rows[1..]) && |Lines(rows[1..])| >= 1;
      var others := Join(Lines(rows[1..]), "\n");
      var tail := "\n" + others;
      assert s == line + tail;
      ReadsBackRecord(rows[0], tail);
      assert tail[1..] == others;
      forall r | r in rows[1..]
        ensures r != []
      {
        assert r in rows;
      }
      ReadsBackLines(rows[1..]);
      CsvStep(s, Texts(rows[0]), tail, AllTexts(rows[1..]));
    }
  }

  lemma ColumnIsPlain(t: string)
    requires t in COLUMNS
    ensures !NeedsQuotes(t)
  {
  }

  function Plain(texts: seq<string>): CsvRow {
    if texts == [] then [] else [Some(texts[0])] + Plain(texts[1..])
  }

  lemma {:induction false} PlainPrints(texts: seq<string>)
    requires forall t :: t in texts ==> !NeedsQuotes(t)
    ensures EscAll(Plain(texts)) == texts && Texts(Plain(texts)) == texts
  {
    if texts != [] {
      assert texts[0] in texts;
      PlainPrints(texts[1..]);
      assert Plain(texts)[1..] == Plain(texts[1..]);
    }
  }

  /** A table whose header names need no quotes is recovered, header included. */
  lemma TableRoundTrip(columns: seq<string>, rows: seq<CsvRow>)
    requires columns != [] && forall t :: t in columns ==> !NeedsQuotes(t)
    requires forall r :: r in rows ==> r != []
    ensures ReadCsv(Join([Join(columns, ",")] + Lines(rows), "\n")) == Some([columns] + AllTexts(rows))
  {
    var all := [Plain(columns)] + rows;
    PlainPrints(columns);
    assert all[1..] == rows;
    ReadsBackLines(all);
  }

  /** Every exported table is recovered, header included; only null and the empty text read the same. */
  lemma CsvRoundTrip(rows: seq<CsvRow>)
    requires forall r :: r in rows ==> r != []
    ensures ReadCsv(PrintCsv(rows)) == Some([COLUMNS] + AllTexts(rows))
  {
    forall t | t in COLUMNS
      ensures !NeedsQuotes(t)
    {
      ColumnIsPlain(t);
    }
    TableRoundTrip(COLUMNS, rows);
  }
}
