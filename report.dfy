/** The optimisation report and its three renderings (Report.kt).

    `ReportIO` writes a report as JSON, as CSV or as plain text.  In JSON the
    strings are escaped by `esc`; in CSV every field is quoted with inner
    quotes doubled; the text form is a summary line and, when there are
    errors, one line per error, with trailing whitespace trimmed.  Each
    rendering is a loop over the errors appending to a `StringBuilder`,
    proved equal to a function of the report.  The JSON and CSV forms come
    with decoders that read back exactly the report written. */
module Report {
  import opened Bytes
  import opened Wrappers
  import opened Decimal

  datatype OptimizeError = OptimizeError(path: string, kind: string, message: string)

  datatype OptimizeReport = OptimizeReport(processedChunks: int64, removedChunks: int64, errors: seq<OptimizeError>)

  predicate InInt64(v: int)
  {
    -TWO_63 <= v < TWO_63
  }

  // ---------------------------------------------------------------------
  // Replacing characters

  /** `s.replace(c.toString(), by)`: every occurrence of `c`, left to right. */
  function ReplaceChar(s: string, c: char, sub: string): string
  {
    if s == [] then [] else (if s[0] == c then sub else [s[0]]) + ReplaceChar(s[1..], c, sub)
  }

  lemma {:induction false} ReplaceConcat(a: string, b: string, c: char, sub: string)
    ensures ReplaceChar(a + b, c, sub) == ReplaceChar(a, c, sub) + ReplaceChar(b, c, sub)
  {
    if a != [] {
      assert (a + b)[1..] == a[1..] + b;
      ReplaceConcat(a[1..], b, c, sub);
    } else {
      assert a + b == b;
    }
  }

  /** Concatenation regrouped to the right, for reading a text from its
      front. */
  lemma Regroup(a: string, b: string, c: string, d: string, e: string, f: string, g: string, h: string, i: string, j: string, rest: string)
    ensures a + b + c + d + e + f + g + h + i + j + rest == a + (b + (c + (d + (e + (f + (g + (h + (i + (j + rest)))))))))
  {
  }

  lemma Regroup3(a: string, b: string, c: string, rest: string)
    ensures a + b + c + rest == a + (b + (c + rest))
  {
  }

  lemma Regroup5(a: string, b: string, c: string, d: string, e: string, rest: string)
    ensures a + b + c + d + e + rest == a + (b + (c + (d + (e + rest))))
  {
  }

  lemma Regroup7(a: string, b: string, c: string, d: string, e: string, f: string, g: string, rest: string)
    ensures a + b + c + d + e + f + g + rest == a + (b + (c + (d + (e + (f + (g + rest))))))
  {
  }

  lemma HeadTail<T>(s: seq<T>)
    requires s != []
    ensures [s[0]] + s[1..] == s
  {
  }

  /** `f(e)` for each element, concatenated in list order. */
  function Concat(f: OptimizeError -> string, es: seq<OptimizeError>): string
  {
    if es == [] then [] else f(es[0]) + Concat(f, es[1..])
  }

  lemma {:induction false} ConcatSnoc(f: OptimizeError -> string, es: seq<OptimizeError>, e: OptimizeError)
    ensures Concat(f, es + [e]) == Concat(f, es) + f(e)
  {
    if es == [] {
      assert es + [e] == [e];
      assert Concat(f, [e]) == f(e) + Concat(f, []);
    } else {
      assert (es + [e])[1..] == es[1..] + [e];
      ConcatSnoc(f, es[1..], e);
    }
  }

  /** One more element appended to a builder holding `head` and the
      elements before `i`. */
  lemma AppendStep(f: OptimizeError -> string, es: seq<OptimizeError>, i: nat, head: string, sb: string)
    requires i < |es| && sb == head + Concat(f, es[..i])
    ensures sb + f(es[i]) == head + Concat(f, es[..i + 1])
  {
    assert es[..i + 1] == es[..i] + [es[i]];
    ConcatSnoc(f, es[..i], es[i]);
  }

  // ---------------------------------------------------------------------
  // JSON escaping

  /** What `esc` makes of one character. */
  function EscChar(ch: char): string
  {
    if ch == '\\' then "\\\\" else if ch == '"' then "\\\"" else [ch]
  }

  /** Escaping character by character. */
  function EscEach(s: string): string
  {
    if s == [] then [] else EscChar(s[0]) + EscEach(s[1..])
  }

  /** `esc`: backslashes doubled first, then every quote preceded by a
      backslash. */
  function Esc(s: string): string
  {
    ReplaceChar(ReplaceChar(s, '\\', "\\\\"), '"', "\\\"")
  }

  /** The two passes of `esc` act as one pass over the characters: the second
      pass never touches the backslashes the first one wrote, and every
      character other than `\` and `"` is copied unchanged. */
  lemma {:induction false} EscOnePass(s: string)
    ensures Esc(s) == EscEach(s)
  {
    if s != [] {
      var ch := s[0];
      var x := if ch == '\\' then "\\\\" else [ch];
      assert ReplaceChar(s, '\\', "\\\\") == x + ReplaceChar(s[1..], '\\', "\\\\");
      ReplaceConcat(x, ReplaceChar(s[1..], '\\', "\\\\"), '"', "\\\"");
      if ch == '\\' {
        assert ReplaceChar(x, '"', "\\\"") == "\\\\";
      } else {
        assert ReplaceChar(x, '"', "\\\"") == EscChar(ch);
      }
      EscOnePass(s[1..]);
    }
  }

  /** The body of a JSON string literal up to its closing quote, with the
      escapes `\\` and `\"` undone; also what follows the closing quote. */
  function ReadJsonString(t: string): (r: Option<(string, string)>)
    ensures r.Some? ==> |r.value.1| < |t|
  {
    if t == [] then None
    else if t[0] == '"' then Some(([], t[1..]))
    else if t[0] == '\\' then
      if |t| < 2 then None
      else
        match ReadJsonString(t[2..])
        case None => None
        case Some(p) => Some(([t[1]] + p.0, p.1))
    else
      match ReadJsonString(t[1..])
      case None => None
      case Some(p) => Some(([t[0]] + p.0, p.1))
  }

  /** An escaped string followed by a quote reads back as the string: no
      escaped character can end the literal early. */
  lemma {:induction false} ReadEscaped(s: string, rest: string)
    ensures ReadJsonString(EscEach(s) + ("\"" + rest)) == Some((s, rest))
  {
    var t := EscEach(s) + ("\"" + rest);
    if s == [] {
      assert t == "\"" + rest && t[1..] == rest;
    } else {
      var u := EscEach(s[1..]) + ("\"" + rest);
      assert t == EscChar(s[0]) + u;
      ReadEscaped(s[1..], rest);
      if s[0] == '\\' || s[0] == '"' {
        assert t[0] == '\\' && t[1] == s[0] && t[2..] == u;
      } else {
        assert t[0] == s[0] && t[1..] == u;
      }
      HeadTail(s);
    }
  }

  lemma ReadEsc(s: string, rest: string)
    ensures ReadJsonString(Esc(s) + ("\"" + rest)) == Some((s, rest))
  {
    EscOnePass(s);
    ReadEscaped(s, rest);
  }

  // ---------------------------------------------------------------------
  // Literals and numbers, for the decoders

  /** The rest of `t` after the literal `lit`, if `t` starts with it. */
  function Expect(lit: string, t: string): (r: Option<string>)
    ensures r.Some? ==> |r.value| == |t| - |lit|
  {
    if |lit| <= |t| && t[..|lit|] == lit then Some(t[|lit|..]) else None
  }

  lemma ExpectPrefix(lit: string, rest: string)
    ensures Expect(lit, lit + rest) == Some(rest)
  {
    assert (lit + rest)[..|lit|] == lit && (lit + rest)[|lit|..] == rest;
  }

  /** The length of the run of decimal digits at the start of `t`. */
  function DigitRun(t: string): (n: nat)
    ensures n <= |t| && AllDigits(t[..n])
    ensures n < |t| ==> !IsDigit(t[n])
  {
    if t == [] || !IsDigit(t[0]) then 0
    else
      var n := 1 + DigitRun(t[1..]);
      assert t[..n] == [t[0]] + t[1..][..n - 1];
      n
  }

  lemma {:induction false} DigitRunOf(d: string, rest: string)
    requires AllDigits(d)
    requires rest == [] || !IsDigit(rest[0])
    ensures DigitRun(d + rest) == |d|
  {
    if d == [] {
      assert d + rest == rest;
    } else {
      assert (d + rest)[1..] == d[1..] + rest;
      DigitRunOf(d[1..], rest);
    }
  }

  /** The digits `\d+` at the start of `t`, all of them taken. */
  function ReadDigits(t: string): (r: Option<(nat, string)>)
    ensures r.Some? ==> |r.value.1| < |t|
  {
    var n := DigitRun(t);
    if n == 0 then None else Some((DigitsValue(t[..n]), t[n..]))
  }

  /** A decimal number `-?\d+` at the start of `t`. */
  function ReadNumber(t: string): (r: Option<(int, string)>)
    ensures r.Some? ==> |r.value.1| < |t|
  {
    if |t| > 0 && t[0] == '-' then
      match ReadDigits(t[1..])
      case None => None
      case Some(p) => Some((-(p.0 as int), p.1))
    else
      match ReadDigits(t)
      case None => None
      case Some(p) => Some((p.0 as int, p.1))
  }

  lemma ReadDigitsOf(d: string, rest: string)
    requires d != [] && AllDigits(d)
    requires rest == [] || !IsDigit(rest[0])
    ensures ReadDigits(d + rest) == Some((DigitsValue(d), rest))
  {
    DigitRunOf(d, rest);
    assert (d + rest)[..|d|] == d && (d + rest)[|d|..] == rest;
  }

  /** `append(Long)` followed by the number reader gives the value back. */
  lemma ReadShown(i: int, rest: string)
    requires rest == [] || !IsDigit(rest[0])
    ensures ReadNumber(ShowInt(i) + rest) == Some((i, rest))
  {
    if i < 0 {
      var d := ShowNat(-i);
      assert ShowInt(i) == "-" + d;
      DigitsValueOfShow(-i);
      ReadNegative(d, rest);
    } else {
      DigitsValueOfShow(i);
      ReadNonNegative(ShowNat(i), rest);
    }
  }

  lemma ReadNegative(d: string, rest: string)
    requires d != [] && AllDigits(d)
    requires rest == [] || !IsDigit(rest[0])
    ensures ReadNumber("-" + d + rest) == Some((-(DigitsValue(d) as int), rest))
  {
    var t := "-" + d + rest;
    assert t[0] == '-' && t[1..] == d + rest;
    ReadDigitsOf(d, rest);
  }

  lemma ReadNonNegative(d: string, rest: string)
    requires d != [] && AllDigits(d)
    requires rest == [] || !IsDigit(rest[0])
    ensures ReadNumber(d + rest) == Some((DigitsValue(d) as int, rest))
  {
    assert (d + rest)[0] != '-' by { assert IsDigit(d[0]); }
    ReadDigitsOf(d, rest);
  }

  // ---------------------------------------------------------------------
  // JSON

  const JSON_HEAD: string := "{\"processedChunks\":"
  const JSON_REMOVED: string := ",\"removedChunks\":"
  const JSON_ERRORS: string := ",\"errors\":["
  const JSON_END: string := "]}"
  const JSON_PATH: string := "{\"path\":\""
  const JSON_KIND: string := ",\"kind\":\""
  const JSON_MESSAGE: string := ",\"message\":\""

  /** One error object, its three strings escaped. */
  function ErrorJson(e: OptimizeError): string
  {
    JSON_PATH + Esc(e.path) + "\"" + JSON_KIND + Esc(e.kind) + "\"" + JSON_MESSAGE + Esc(e.message) + "\"" + "}"
  }

  function CommaErrorJson(e: OptimizeError): string
  {
    "," + ErrorJson(e)
  }

  /** The error objects in list order, separated by single commas. */
  function JsonErrors(es: seq<OptimizeError>): string
  {
    if es == [] then [] else ErrorJson(es[0]) + Concat(CommaErrorJson, es[1..])
  }

  /** The two counts and the opening of the `errors` array. */
  function JsonHead(r: OptimizeReport): string
  {
    JSON_HEAD + ShowInt(r.processedChunks) + JSON_REMOVED + ShowInt(r.removedChunks) + JSON_ERRORS
  }

  /** What `toJson` returns. */
  function JsonOf(r: OptimizeReport): string
  {
    JsonHead(r) + JsonErrors(r.errors) + JSON_END
  }

  /** `toJson`: the summary fields, then the error objects appended one by
      one with a comma before all but the first. */
  method ToJson(r: OptimizeReport) returns (out: string)
    ensures out == JsonOf(r)
  {
    var sb := JsonHead(r);
    ghost var head := sb;
    var es := r.errors;
    for i := 0 to |es|
      invariant sb == head + JsonErrors(es[..i])
    {
      JsonAppendStep(es, i, head, sb);
      if i > 0 {
        sb := sb + ",";
      }
      sb := sb + ErrorJson(es[i]);
    }
    assert es[..|es|] == es;
    sb := sb + JSON_END;
    out := sb;
  }

  lemma JsonAppendStep(es: seq<OptimizeError>, i: nat, head: string, sb: string)
    requires i < |es| && sb == head + JsonErrors(es[..i])
    ensures (if i > 0 then sb + "," else sb) + ErrorJson(es[i]) == head + JsonErrors(es[..i + 1])
  {
    JsonErrorsStep(es, i);
    var sep := if i > 0 then "," else "";
    Join3(head, JsonErrors(es[..i]), sep, ErrorJson(es[i]));
    assert (if i > 0 then sb + "," else sb) == head + JsonErrors(es[..i]) + sep;
  }

  lemma Join3(a: string, b: string, c: string, d: string)
    ensures a + b + c + d == a + (b + c + d)
  {
  }

  lemma JsonErrorsStep(es: seq<OptimizeError>, i: nat)
    requires i < |es|
    ensures JsonErrors(es[..i + 1]) == JsonErrors(es[..i]) + (if i > 0 then "," else "") + ErrorJson(es[i])
  {
    if i == 0 {
      assert es[..1][1..] == [];
    } else {
      assert es[..i + 1][1..] == es[..i][1..] + [es[i]];
      ConcatSnoc(CommaErrorJson, es[..i][1..], es[i]);
    }
  }

  /** One error object at the start of `t`. */
  function ReadErrorJson(t: string): (r: Option<(OptimizeError, string)>)
    ensures r.Some? ==> |r.value.1| < |t|
  {
    var t1 :- Expect(JSON_PATH, t);
    var p :- ReadJsonString(t1);
    var t2 :- Expect(JSON_KIND, p.1);
    var k :- ReadJsonString(t2);
    var t3 :- Expect(JSON_MESSAGE, k.1);
    var m :- ReadJsonString(t3);
    var t4 :- Expect("}", m.1);
    Some((OptimizeError(p.0, k.0, m.0), t4))
  }

  /** Error objects each preceded by a comma, as long as a comma follows. */
  function ReadMoreErrors(t: string): (r: Option<(seq<OptimizeError>, string)>)
    ensures r.Some? ==> |r.value.1| <= |t|
    decreases |t|
  {
    if t != [] && t[0] == ',' then
      var e :- ReadErrorJson(t[1..]);
      var more :- ReadMoreErrors(e.1);
      Some(([e.0] + more.0, more.1))
    else Some(([], t))
  }

  /** The contents of the `errors` array, up to its closing bracket. */
  function ReadJsonErrors(t: string): Option<(seq<OptimizeError>, string)>
  {
    if t != [] && t[0] == ']' then Some(([], t))
    else
      var e :- ReadErrorJson(t);
      var more :- ReadMoreErrors(e.1);
      Some(([e.0] + more.0, more.1))
  }

  /** The two counts, up to the opening of the `errors` array. */
  function ReadJsonHead(t: string): Option<(int64, int64, string)>
  {
    var t1 :- Expect(JSON_HEAD, t);
    var n :- ReadNumber(t1);
    var t2 :- Expect(JSON_REMOVED, n.1);
    var m :- ReadNumber(t2);
    var t3 :- Expect(JSON_ERRORS, m.1);
    if InInt64(n.0) && InInt64(m.0) then Some((n.0, m.0, t3)) else None
  }

  /** Reads a report in the layout `toJson` writes; `None` for any other
      text. */
  function DecodeJson(t: string): Option<OptimizeReport>
  {
    var h :- ReadJsonHead(t);
    var es :- ReadJsonErrors(h.2);
    var t4 :- Expect(JSON_END, es.1);
    if t4 == [] then Some(OptimizeReport(h.0, h.1, es.0)) else None
  }

  lemma ReadJsonHeadOf(r: OptimizeReport, rest: string)
    ensures ReadJsonHead(JsonHead(r) + rest) == Some((r.processedChunks, r.removedChunks, rest))
  {
    var t3 := JSON_ERRORS + rest;
    var t2 := ShowInt(r.removedChunks) + t3;
    var t1 := ShowInt(r.processedChunks) + (JSON_REMOVED + t2);
    Regroup5(JSON_HEAD, ShowInt(r.processedChunks), JSON_REMOVED, ShowInt(r.removedChunks), JSON_ERRORS, rest);
    ExpectPrefix(JSON_HEAD, t1);
    ReadShown(r.processedChunks, JSON_REMOVED + t2);
    ExpectPrefix(JSON_REMOVED, t2);
    ReadShown(r.removedChunks, t3);
    ExpectPrefix(JSON_ERRORS, rest);
  }

  lemma ReadErrorJsonOf(e: OptimizeError, rest: string)
    ensures ReadErrorJson(ErrorJson(e) + rest) == Some((e, rest))
  {
    var tm := "}" + rest;
    var t3 := Esc(e.message) + ("\"" + tm);
    var tk := JSON_MESSAGE + t3;
    var t2 := Esc(e.kind) + ("\"" + tk);
    var tp := JSON_KIND + t2;
    var t1 := Esc(e.path) + ("\"" + tp);
    Regroup(JSON_PATH, Esc(e.path), "\"", JSON_KIND, Esc(e.kind), "\"", JSON_MESSAGE, Esc(e.message), "\"", "}", rest);
    ReadEsc(e.path, tp);
    ReadEsc(e.kind, tk);
    ReadEsc(e.message, tm);
    ExpectPrefix(JSON_PATH, t1);
    ExpectPrefix(JSON_KIND, t2);
    ExpectPrefix(JSON_MESSAGE, t3);
    ExpectPrefix("}", rest);
  }

  lemma {:induction false} ReadMoreErrorsOf(es: seq<OptimizeError>, rest: string)
    requires rest == [] || rest[0] != ','
    ensures ReadMoreErrors(Concat(CommaErrorJson, es) + rest) == Some((es, rest))
  {
    if es == [] {
      assert Concat(CommaErrorJson, es) + rest == rest;
    } else {
      var c := Concat(CommaErrorJson, es[1..]);
      assert Concat(CommaErrorJson, es) == "," + ErrorJson(es[0]) + c;
      Regroup3(",", ErrorJson(es[0]), c, rest);
      ReadMoreErrorsOf(es[1..], rest);
      ReadMoreErrorsCons(es[0], c + rest, es[1..], rest);
      HeadTail(es);
    }
  }

  lemma ReadMoreErrorsCons(e: OptimizeError, u: string, more: seq<OptimizeError>, rest: string)
    requires ReadMoreErrors(u) == Some((more, rest))
    ensures ReadMoreErrors("," + (ErrorJson(e) + u)) == Some(([e] + more, rest))
  {
    var t := "," + (ErrorJson(e) + u);
    assert t[0] == ',' && t[1..] == ErrorJson(e) + u;
    ReadErrorJsonOf(e, u);
  }

  lemma ReadJsonErrorsCons(e: OptimizeError, u: string, more: seq<OptimizeError>, rest: string)
    requires ReadMoreErrors(u) == Some((more, rest))
    ensures ReadJsonErrors(ErrorJson(e) + u) == Some(([e] + more, rest))
  {
    assert (ErrorJson(e) + u)[0] == '{';
    ReadErrorJsonOf(e, u);
  }

  lemma ReadJsonErrorsOf(es: seq<OptimizeError>)
    ensures ReadJsonErrors(JsonErrors(es) + JSON_END) == Some((es, JSON_END))
  {
    if es == [] {
      assert JsonErrors(es) + JSON_END == JSON_END;
    } else {
      var c := Concat(CommaErrorJson, es[1..]);
      assert JsonErrors(es) + JSON_END == ErrorJson(es[0]) + (c + JSON_END);
      ReadMoreErrorsOf(es[1..], JSON_END);
      ReadJsonErrorsCons(es[0], c + JSON_END, es[1..], JSON_END);
      HeadTail(es);
    }
  }

  /** Every report written by `toJson` reads back as itself: the numbers, and
      every error in order with its path, kind and message exactly, whatever
      backslashes and quotes they hold. */
  lemma JsonRoundTrip(r: OptimizeReport)
    ensures DecodeJson(JsonOf(r)) == Some(r)
  {
    var t4 := JsonErrors(r.errors) + JSON_END;
    assert JsonOf(r) == JsonHead(r) + t4;
    ReadJsonHeadOf(r, t4);
    ReadJsonErrorsOf(r.errors);
    assert JSON_END + [] == JSON_END;
    ExpectPrefix(JSON_END, []);
  }

  // ---------------------------------------------------------------------
  // CSV

  const CSV_HEAD: string := "processedChunks,removedChunks,errorsCount\n"
  const CSV_COLUMNS: string := "path,kind,message\n"

  /** `replace("\"", "\"\"")`: every quote doubled. */
  function CsvQuote(s: string): string
  {
    ReplaceChar(s, '"', "\"\"")
  }

  /** One error line: the three fields quoted, separated by commas. */
  function CsvLine(e: OptimizeError): string
  {
    "\"" + CsvQuote(e.path) + "\"" + ",\"" + CsvQuote(e.kind) + "\"" + ",\"" + CsvQuote(e.message) + "\"" + "\n"
  }

  /** The first two lines: the column names and the counts. */
  function CsvHead(r: OptimizeReport): string
  {
    CSV_HEAD + ShowInt(r.processedChunks) + "," + ShowInt(r.removedChunks) + "," + ShowInt(|r.errors|) + "\n"
  }

  /** What `toCsv` returns. */
  function CsvOf(r: OptimizeReport): string
  {
    CsvHead(r) + CSV_COLUMNS + Concat(CsvLine, r.errors)
  }

  /** `toCsv`: two header lines around the counts, then a line per error. */
  method ToCsv(r: OptimizeReport) returns (out: string)
    ensures out == CsvOf(r)
  {
    var sb := CsvHead(r);
    sb := sb + CSV_COLUMNS;
    ghost var head := sb;
    var es := r.errors;
    for i := 0 to |es|
      invariant sb == head + Concat(CsvLine, es[..i])
    {
      AppendStep(CsvLine, es, i, head, sb);
      sb := sb + CsvLine(es[i]);
    }
    assert es[..|es|] == es;
    out := sb;
  }

  /** The body of a quoted CSV field up to its closing quote, with doubled
      quotes undone; also what follows the closing quote. */
  function ReadCsvField(t: string): (r: Option<(string, string)>)
    ensures r.Some? ==> |r.value.1| < |t|
  {
    if t == [] then None
    else if t[0] == '"' then
      if |t| >= 2 && t[1] == '"' then
        match ReadCsvField(t[2..])
        case None => None
        case Some(p) => Some((['"'] + p.0, p.1))
      else Some(([], t[1..]))
    else
      match ReadCsvField(t[1..])
      case None => None
      case Some(p) => Some(([t[0]] + p.0, p.1))
  }

  /** A quoted field reads back as the field when no quote follows its
      closing quote. */
  lemma {:induction false} ReadCsvQuoted(s: string, rest: string)
    requires rest == [] || rest[0] != '"'
    ensures ReadCsvField(CsvQuote(s) + ("\"" + rest)) == Some((s, rest))
  {
    var t := CsvQuote(s) + ("\"" + rest);
    if s == [] {
      assert t == "\"" + rest && t[1..] == rest;
    } else {
      var u := CsvQuote(s[1..]) + ("\"" + rest);
      assert t == (if s[0] == '"' then "\"\"" else [s[0]]) + u;
      ReadCsvQuoted(s[1..], rest);
      if s[0] == '"' {
        assert t[0] == '"' && t[1] == '"' && t[2..] == u;
      } else {
        assert t[0] == s[0] && t[1..] == u;
      }
      HeadTail(s);
    }
  }

  /** One error line at the start of `t`. */
  function ReadCsvLine(t: string): (r: Option<(OptimizeError, string)>)
    ensures r.Some? ==> |r.value.1| < |t|
  {
    var t1 :- Expect("\"", t);
    var p :- ReadCsvField(t1);
    var t2 :- Expect(",\"", p.1);
    var k :- ReadCsvField(t2);
    var t3 :- Expect(",\"", k.1);
    var m :- ReadCsvField(t3);
    var t4 :- Expect("\n", m.1);
    Some((OptimizeError(p.0, k.0, m.0), t4))
  }

  /** Error lines up to the end of the text. */
  function ReadCsvLines(t: string): Option<seq<OptimizeError>>
    decreases |t|
  {
    if t == [] then Some([])
    else
      var e :- ReadCsvLine(t);
      var more :- ReadCsvLines(e.1);
      Some([e.0] + more)
  }

  /** Reads a report in the layout `toCsv` writes; the error count must
      agree with the lines that follow. */
  function DecodeCsv(t: string): Option<OptimizeReport>
  {
    var h :- ReadCsvHead(t);
    var t5 :- Expect(CSV_COLUMNS, h.3);
    var es :- ReadCsvLines(t5);
    if h.2 == |es| then Some(OptimizeReport(h.0, h.1, es)) else None
  }

  /** The first two lines: the two counts and the error count. */
  function ReadCsvHead(t: string): Option<(int64, int64, int, string)>
  {
    var t1 :- Expect(CSV_HEAD, t);
    var n :- ReadNumber(t1);
    var t2 :- Expect(",", n.1);
    var m :- ReadNumber(t2);
    var t3 :- Expect(",", m.1);
    var k :- ReadNumber(t3);
    var t4 :- Expect("\n", k.1);
    if InInt64(n.0) && InInt64(m.0) then Some((n.0, m.0, k.0, t4)) else None
  }

  lemma ReadCsvHeadOf(r: OptimizeReport, rest: string)
    ensures ReadCsvHead(CsvHead(r) + rest) == Some((r.processedChunks, r.removedChunks, |r.errors|, rest))
  {
    var t3 := ShowInt(|r.errors|) + ("\n" + rest);
    var t2 := ShowInt(r.removedChunks) + ("," + t3);
    var t1 := ShowInt(r.processedChunks) + ("," + t2);
    Regroup7(CSV_HEAD, ShowInt(r.processedChunks), ",", ShowInt(r.removedChunks), ",", ShowInt(|r.errors|), "\n", rest);
    ExpectPrefix(CSV_HEAD, t1);
    ReadShown(r.processedChunks, "," + t2);
    ExpectPrefix(",", t2);
    ReadShown(r.removedChunks, "," + t3);
    ExpectPrefix(",", t3);
    ReadShown(|r.errors|, "\n" + rest);
    ExpectPrefix("\n", rest);
  }

  lemma ReadCsvLineOf(e: OptimizeError, rest: string)
    ensures ReadCsvLine(CsvLine(e) + rest) == Some((e, rest))
  {
    var tm := "\n" + rest;
    var t3 := CsvQuote(e.message) + ("\"" + tm);
    var tk := ",\"" + t3;
    var t2 := CsvQuote(e.kind) + ("\"" + tk);
    var tp := ",\"" + t2;
    var t1 := CsvQuote(e.path) + ("\"" + tp);
    Regroup("\"", CsvQuote(e.path), "\"", ",\"", CsvQuote(e.kind), "\"", ",\"", CsvQuote(e.message), "\"", "\n", rest);
    ReadCsvQuoted(e.path, tp);
    ReadCsvQuoted(e.kind, tk);
    ReadCsvQuoted(e.message, tm);
    ExpectPrefix("\"", t1);
    ExpectPrefix(",\"", t2);
    ExpectPrefix(",\"", t3);
    ExpectPrefix("\n", rest);
  }

  lemma {:induction false} ReadCsvLinesOf(es: seq<OptimizeError>)
    ensures ReadCsvLines(Concat(CsvLine, es)) == Some(es)
  {
    if es != [] {
      var u := Concat(CsvLine, es[1..]);
      assert CsvLine(es[0])[0] == '"';
      ReadCsvLineOf(es[0], u);
      ReadCsvLinesOf(es[1..]);
      HeadTail(es);
    }
  }

  /** Every report written by `toCsv` reads back as itself, the error count
      line agreeing with the error lines. */
  lemma CsvRoundTrip(r: OptimizeReport)
    ensures DecodeCsv(CsvOf(r)) == Some(r)
  {
    var t5 := Concat(CsvLine, r.errors);
    var t4 := CSV_COLUMNS + t5;
    assert CsvOf(r) == CsvHead(r) + t4;
    ReadCsvHeadOf(r, t4);
    ExpectPrefix(CSV_COLUMNS, t5);
    ReadCsvLinesOf(r.errors);
  }

  // ---------------------------------------------------------------------
  // Text

  /** Kotlin's `Char.isWhitespace()`: Java's whitespace or space
      characters. */
  predicate IsWhitespace(ch: char)
  {
    || ('\t' <= ch <= '\r')
    || ('\U{001C}' <= ch <= ' ')
    || ch == '\U{00A0}' || ch == '\U{1680}'
    || ('\U{2000}' <= ch <= '\U{200A}')
    || ch == '\U{2028}' || ch == '\U{2029}' || ch == '\U{202F}' || ch == '\U{205F}' || ch == '\U{3000}'
  }

  /** `trimEnd()`: the longest prefix that does not end in whitespace, all
      that is cut being whitespace. */
  function TrimEnd(s: string): (r: string)
    ensures |r| <= |s| && r == s[..|r|]
    ensures forall i :: |r| <= i < |s| ==> IsWhitespace(s[i])
    ensures r == [] || !IsWhitespace(r[|r| - 1])
  {
    if s == [] || !IsWhitespace(s[|s| - 1]) then s else TrimEnd(s[..|s| - 1])
  }

  /** Trimming stops inside the last part when that part holds anything but
      whitespace. */
  lemma {:induction false} TrimEndAppend(a: string, b: string)
    requires TrimEnd(b) != []
    ensures TrimEnd(a + b) == a + TrimEnd(b)
    decreases |b|
  {
    if b != [] && IsWhitespace(b[|b| - 1]) {
      var b' := b[..|b| - 1];
      assert (a + b)[..|a + b| - 1] == a + b';
      TrimEndAppend(a, b');
    } else {
      assert b != [];
    }
  }

  const TEXT_SUMMARY: string := "处理统计：processed="
  const TEXT_ERRORS: string := "错误列表：\n"

  /** The summary line without its line break. */
  function TextSummary(r: OptimizeReport): string
  {
    TEXT_SUMMARY + ShowInt(r.processedChunks) + " removed=" + ShowInt(r.removedChunks) + " errors=" + ShowInt(|r.errors|)
  }

  /** What precedes the message on an error line. */
  function TextErrorHead(e: OptimizeError): string
  {
    "[" + e.kind + "] " + e.path + " - "
  }

  /** One error line. */
  function TextLine(e: OptimizeError): string
  {
    TextErrorHead(e) + e.message + "\n"
  }

  /** The text before trimming. */
  function TextUntrimmed(r: OptimizeReport): string
  {
    TextSummary(r) + "\n" + (if r.errors == [] then "" else TEXT_ERRORS + Concat(TextLine, r.errors))
  }

  /** What `toText` returns. */
  function TextOf(r: OptimizeReport): string
  {
    TrimEnd(TextUntrimmed(r))
  }

  /** `toText`: the summary line, the error section only when there are
      errors, then `trimEnd`. */
  method ToText(r: OptimizeReport) returns (out: string)
    ensures out == TextOf(r)
  {
    var sb := TextSummary(r) + "\n";
    var es := r.errors;
    if |es| > 0 {
      sb := sb + TEXT_ERRORS;
      ghost var head := sb;
      for i := 0 to |es|
        invariant sb == head + Concat(TextLine, es[..i])
      {
        AppendStep(TextLine, es, i, head, sb);
        sb := sb + TextLine(es[i]);
      }
      assert es[..|es|] == es;
    } else {
      assert sb == TextSummary(r) + "\n" + "";
    }
    assert sb == TextUntrimmed(r);
    out := TrimEnd(sb);
  }

  /** Without errors the text is the summary line alone, ending in its
      error count 0. */
  lemma TextNoErrors(r: OptimizeReport)
    requires r.errors == []
    ensures TextOf(r) == TEXT_SUMMARY + ShowInt(r.processedChunks) + " removed=" + ShowInt(r.removedChunks) + " errors=0"
  {
    var s := TextSummary(r);
    assert ShowInt(|r.errors|) == "0";
    assert TextUntrimmed(r) == s + "\n";
    assert (s + "\n")[..|s|] == s;
    assert s[|s| - 1] == '0';
  }

  /** With errors, the text is the summary, the error heading and every
      error line, the last one's message cut of its trailing whitespace,
      provided that message holds anything but whitespace. */
  lemma TextWithErrors(r: OptimizeReport)
    requires r.errors != []
    requires TrimEnd(r.errors[|r.errors| - 1].message) != []
    ensures var n := |r.errors|; var last := r.errors[n - 1];
      TextOf(r) == TextSummary(r) + "\n" + TEXT_ERRORS + Concat(TextLine, r.errors[..n - 1])
        + TextErrorHead(last) + TrimEnd(last.message)
  {
    var es := r.errors;
    var n := |es|;
    var last := es[n - 1];
    assert es == es[..n - 1] + [last];
    ConcatSnoc(TextLine, es[..n - 1], last);
    var c := Concat(TextLine, es[..n - 1]);
    assert TextUntrimmed(r) == TextSummary(r) + "\n" + (TEXT_ERRORS + (c + (TextErrorHead(last) + last.message + "\n")));
    TextRegroup(TextSummary(r) + "\n", TEXT_ERRORS, c, TextErrorHead(last), last.message);
    TrimLast(TextSummary(r) + "\n" + TEXT_ERRORS + c + TextErrorHead(last), last.message);
  }

  lemma TextRegroup(s: string, e: string, c: string, h: string, m: string)
    ensures s + (e + (c + (h + m + "\n"))) == (s + e + c + h) + (m + "\n")
  {
  }

  /** Trimming a text that ends with a line break and a message holding
      anything but whitespace cuts only the message's trailing whitespace. */
  lemma TrimLast(a: string, m: string)
    requires TrimEnd(m) != []
    ensures TrimEnd(a + (m + "\n")) == a + TrimEnd(m)
  {
    assert (m + "\n")[..|m|] == m;
    assert TrimEnd(m + "\n") == TrimEnd(m);
    TrimEndAppend(a, m + "\n");
  }

  // ---------------------------------------------------------------------
  // Format choice

  datatype Format = Json | Csv

  /** `Char.lowercaseChar()` on ASCII letters. */
  function LowerAscii(ch: char): char
  {
    if 'A' <= ch <= 'Z' then (ch as int + 32) as char else ch
  }

  function LowerAsciiString(s: string): (r: string)
    ensures |r| == |s| && forall i :: 0 <= i < |s| ==> r[i] == LowerAscii(s[i])
  {
    seq(|s|, i requires 0 <= i < |s| => LowerAscii(s[i]))
  }

  /** The `when` of `write`: `format.lowercase() == "csv"` selects CSV,
      anything else JSON. */
  function ChooseFormat(format: string): Format
  {
    if LowerAsciiString(format) == "csv" then Csv else Json
  }

  const CSV_SPELLINGS: set<string> := {"csv", "csV", "cSv", "cSV", "Csv", "CsV", "CSv", "CSV"}

  /** CSV is chosen for exactly the eight spellings of `csv` in either case;
      so `json`, the default, and the empty string choose JSON. */
  lemma CsvSpellings(format: string)
    ensures ChooseFormat(format) == Csv <==> format in CSV_SPELLINGS
  {
    if ChooseFormat(format) == Csv {
      var l := LowerAsciiString(format);
      assert l[0] == 'c' && l[1] == 's' && l[2] == 'v';
      assert format[0] == 'c' || format[0] == 'C';
      assert format[1] == 's' || format[1] == 'S';
      assert format[2] == 'v' || format[2] == 'V';
      assert format == [format[0], format[1], format[2]];
    }
    if format in CSV_SPELLINGS {
      assert LowerAsciiString(format) == "csv";
    }
  }

  /** The content `write` stores. */
  function Rendered(r: OptimizeReport, format: string): string
  {
    match ChooseFormat(format)
    case Csv => CsvOf(r)
    case Json => JsonOf(r)
  }

  /** Whatever the format string, the stored content reads back as the
      report with the decoder of the chosen format. */
  lemma RenderedRoundTrip(r: OptimizeReport, format: string)
    ensures ChooseFormat(format) == Csv ==> DecodeCsv(Rendered(r, format)) == Some(r)
    ensures ChooseFormat(format) == Json ==> DecodeJson(Rendered(r, format)) == Some(r)
  {
    JsonRoundTrip(r);
    CsvRoundTrip(r);
  }
}
