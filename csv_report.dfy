/** The CSV reporter of the TypeScript scanner (`toCsv.ts`): the row record
    the scanner collects, `csvEscape` and `toCsv`, and the proof that a reader
    following RFC 4180 gets the header and every row's eight fields back. */
module CsvReport {
  import opened Wrappers
  import opened Text
  import opened Rfc4180

  /** One violation of one page, as the scanner collects it. */
  datatype ViolationRow = ViolationRow(domain: string, pageName: string, url: string, impact: string,
                                       id: string, description: string, help: string, helpUrl: string,
                                       nodes: nat, screenshot: Option<string>)

  predicate NeedsQuotes(s: string) {
    ',' in s || '"' in s || '\n' in s
  }

  /** `csvEscape`; `None` is a `null` or `undefined` value. */
  function CsvEscape(v: Option<string>): (r: string)
    ensures v == None ==> r == ""
    ensures v.Some? && !NeedsQuotes(v.value) ==> r == v.value
    ensures v.Some? && NeedsQuotes(v.value) ==> |r| >= 2 && r[0] == '"' && r[|r| - 1] == '"'
  {
    var s := v.GetOr("");
    if NeedsQuotes(s) then "\"" + ReplaceChar(s, '"', "\"\"") + "\"" else s
  }

  const Headers: seq<string> := ["pageName", "url", "impact", "ruleId", "description", "help", "helpUrl", "nodes"]

  /** The eight values of a row, in column order. */
  function Fields(r: ViolationRow): (f: seq<string>)
    ensures |f| == |Headers|
  {
    [r.pageName, r.url, r.impact, r.id, r.description, r.help, r.helpUrl, NatToString(r.nodes)]
  }

  function EscapeAll(fs: seq<string>): (r: seq<string>)
    ensures |r| == |fs|
  {
    if fs == [] then [] else [CsvEscape(Some(fs[0]))] + EscapeAll(fs[1..])
  }

  function Line(r: ViolationRow): string {
    Join(EscapeAll(Fields(r)), ",")
  }

  function Lines(rows: seq<ViolationRow>): (r: seq<string>)
    ensures |r| == |rows|
  {
    if rows == [] then [] else [Line(rows[0])] + Lines(rows[1..])
  }

  /** `toCsv`: the header line, then one line per row, joined by line feeds. */
  function ToCsv(rows: seq<ViolationRow>): string {
    Join([Join(Headers, ",")] + Lines(rows), "\n")
  }

  /** The values of each row, in row order: what a reader should find after the header. */
  function FieldsOf(rows: seq<ViolationRow>): (r: seq<seq<string>>)
    ensures |r| == |rows|
  {
    if rows == [] then [] else [Fields(rows[0])] + FieldsOf(rows[1..])
  }

  /** A carriage return does not force quotes: a value whose only special
      character is a carriage return is written as it is. */
  lemma CarriageReturnNotQuoted(s: string)
    requires '\r' in s && ',' !in s && '"' !in s && '\n' !in s
    ensures CsvEscape(Some(s)) == s
  {
  }

  /* ---------------------------------------------------------------- */
  /* Reading the output back                                          */
  /* ---------------------------------------------------------------- */

  predicate FieldEnd(t: string) { t == [] || t[0] == ',' || t[0] == '\n' }

  lemma {:induction false} BareRoundTrip(x: string, t: string)
    requires !NeedsQuotes(x) && FieldEnd(t)
    ensures ParseBare(x + t) == (x, t)
  {
    if x == [] {
      assert x + t == t;
    } else {
      assert (x + t)[0] == x[0] && (x + t)[1..] == x[1..] + t;
      assert x[0] != ',' && x[0] != '\n';
      assert !NeedsQuotes(x[1..]) by {
        assert forall c :: c in x[1..] ==> c in x;
      }
      BareRoundTrip(x[1..], t);
      assert x == [x[0]] + x[1..];
    }
  }

  lemma {:induction false} QuotedRoundTrip(x: string, t: string)
    requires FieldEnd(t)
    ensures ParseQuoted(ReplaceChar(x, '"', "\"\"") + "\"" + t) == (x, t)
  {
    if x == [] {
      assert ReplaceChar(x, '"', "\"\"") + "\"" + t == "\"" + t;
      ClosingQuote(t);
    } else {
      var tail := ReplaceChar(x[1..], '"', "\"\"") + "\"" + t;
      EscapedHead(x, t);
      QuotedRoundTrip(x[1..], t);
      if x[0] == '"' {
        QuoteStep(tail);
        assert x == "\"" + x[1..];
      } else {
        PlainStep(x[0], tail);
        assert x == [x[0]] + x[1..];
      }
    }
  }

  /** The closing quote ends the field where the next one begins. */
  lemma ClosingQuote(t: string)
    requires FieldEnd(t)
    ensures ParseQuoted("\"" + t) == ("", t)
  {
    var s := "\"" + t;
    assert s[1..] == t;
    assert !(|s| >= 2 && s[1] == '"');
  }

  /** The escaped text starts with the escape of the first character. */
  lemma EscapedHead(x: string, t: string)
    requires x != []
    ensures ReplaceChar(x, '"', "\"\"") + "\"" + t ==
      (if x[0] == '"' then "\"\"" else [x[0]]) + (ReplaceChar(x[1..], '"', "\"\"") + "\"" + t)
  {
  }

  lemma QuoteStep(tail: string)
    ensures ParseQuoted("\"\"" + tail) == ("\"" + ParseQuoted(tail).0, ParseQuoted(tail).1)
  {
    assert ("\"\"" + tail)[2..] == tail;
  }

  lemma PlainStep(c: char, tail: string)
    requires c != '"'
    ensures ParseQuoted([c] + tail) == ([c] + ParseQuoted(tail).0, ParseQuoted(tail).1)
  {
    assert ([c] + tail)[1..] == tail;
  }

  /** Reading an escaped field gives the value back and stops at its end. */
  lemma FieldRoundTrip(x: string, t: string)
    requires FieldEnd(t)
    ensures ParseField(CsvEscape(Some(x)) + t) == (x, t)
  {
    if NeedsQuotes(x) {
      QuotedFieldRoundTrip(x, t);
    } else {
      BareRoundTrip(x, t);
      assert x != [] ==> x[0] != '"';
    }
  }

  lemma QuotedFieldRoundTrip(x: string, t: string)
    requires NeedsQuotes(x) && FieldEnd(t)
    ensures ParseField(CsvEscape(Some(x)) + t) == (x, t)
  {
    var body := ReplaceChar(x, '"', "\"\"") + "\"" + t;
    assert CsvEscape(Some(x)) + t == "\"" + body;
    assert ("\"" + body)[1..] == body;
    QuotedRoundTrip(x, t);
  }

  lemma {:induction false} RecordRoundTrip(fs: seq<string>, t: string)
    requires |fs| >= 1 && (t == [] || t[0] == '\n')
    ensures ParseRecord(Join(EscapeAll(fs), ",") + t) == (fs, t)
  {
    var es := EscapeAll(fs);
    if |fs| == 1 {
      FieldRoundTrip(fs[0], t);
      assert fs == [fs[0]];
    } else {
      var more := Join(EscapeAll(fs[1..]), ",") + t;
      assert es[1..] == EscapeAll(fs[1..]);
      assert Join(es, ",") + t == es[0] + ("," + more);
      FieldRoundTrip(fs[0], "," + more);
      assert ("," + more)[1..] == more;
      RecordRoundTrip(fs[1..], t);
      assert fs == [fs[0]] + fs[1..];
    }
  }

  lemma {:induction false} DocumentRoundTrip(recs: seq<seq<string>>, lines: seq<string>)
    requires |recs| >= 1 && |lines| == |recs|
    requires forall i :: 0 <= i < |recs| ==> |recs[i]| >= 1 && lines[i] == Join(EscapeAll(recs[i]), ",")
    ensures ParseDocument(Join(lines, "\n")) == recs
  {
    if |recs| == 1 {
      RecordRoundTrip(recs[0], "");
      assert lines[0] + "" == lines[0];
      assert recs == [recs[0]];
    } else {
      DocumentRoundTrip(recs[1..], lines[1..]);
      DocumentCons(recs[0], lines);
      assert recs == [recs[0]] + recs[1..];
    }
  }

  /** One more record line in front adds that record in front. */
  lemma DocumentCons(fs: seq<string>, lines: seq<string>)
    requires |fs| >= 1 && |lines| >= 2 && lines[0] == Join(EscapeAll(fs), ",")
    ensures ParseDocument(Join(lines, "\n")) == [fs] + ParseDocument(Join(lines[1..], "\n"))
  {
    var more := Join(lines[1..], "\n");
    assert Join(lines, "\n") == lines[0] + ("\n" + more);
    RecordRoundTrip(fs, "\n" + more);
    assert ("\n" + more)[1..] == more;
  }

  lemma HeaderLinePlain()
    ensures Join(EscapeAll(Headers), ",") == Join(Headers, ",")
  {
    assert forall k :: 0 <= k < |Headers| ==> !NeedsQuotes(Headers[k]);
    assert EscapeAll(Headers) == Headers by {
      EscapeAllPlain(Headers);
    }
  }

  lemma {:induction false} EscapeAllPlain(fs: seq<string>)
    requires forall k :: 0 <= k < |fs| ==> !NeedsQuotes(fs[k])
    ensures EscapeAll(fs) == fs
  {
    if fs != [] {
      EscapeAllPlain(fs[1..]);
    }
  }

  lemma {:induction false} LinesAt(rows: seq<ViolationRow>, i: nat)
    requires i < |rows|
    ensures Lines(rows)[i] == Line(rows[i]) && FieldsOf(rows)[i] == Fields(rows[i])
  {
    if i > 0 {
      LinesAt(rows[1..], i - 1);
    }
  }

  /** A reader following RFC 4180 finds the eight headers, then one record per
      row, in order, each holding the row's eight values. */
  lemma ToCsvRoundTrip(rows: seq<ViolationRow>)
    ensures ParseDocument(ToCsv(rows)) == [Headers] + FieldsOf(rows)
  {
    var recs := [Headers] + FieldsOf(rows);
    var lines := [Join(Headers, ",")] + Lines(rows);
    HeaderLinePlain();
    forall i | 0 <= i < |recs|
      ensures |recs[i]| >= 1 && lines[i] == Join(EscapeAll(recs[i]), ",")
    {
      if i > 0 {
        LinesAt(rows, i - 1);
      }
    }
    DocumentRoundTrip(recs, lines);
  }

  /** No rows: the header line alone, which reads back as the eight headers. */
  lemma ToCsvEmpty()
    ensures ToCsv([]) == Join(Headers, ",")
    ensures ParseDocument(ToCsv([])) == [Headers]
  {
    ToCsvRoundTrip([]);
  }

  /** `domain` and `screenshot` never reach the CSV text. */
  lemma {:induction false} ToCsvIgnoresDomainAndScreenshot(a: seq<ViolationRow>, b: seq<ViolationRow>)
    requires |a| == |b|
    requires forall i :: 0 <= i < |a| ==>
      a[i].(domain := "", screenshot := None) == b[i].(domain := "", screenshot := None)
    ensures ToCsv(a) == ToCsv(b)
  {
    LinesIgnoreExtras(a, b);
  }

  lemma {:induction false} LinesIgnoreExtras(a: seq<ViolationRow>, b: seq<ViolationRow>)
    requires |a| == |b|
    requires forall i :: 0 <= i < |a| ==>
      a[i].(domain := "", screenshot := None) == b[i].(domain := "", screenshot := None)
    ensures Lines(a) == Lines(b)
  {
    if a != [] {
      assert a[0].(domain := "", screenshot := None) == b[0].(domain := "", screenshot := None);
      assert Fields(a[0]) == Fields(b[0]);
      LinesIgnoreExtras(a[1..], b[1..]);
    }
  }
}
