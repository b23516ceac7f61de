/** A reader for comma-separated text in the format of section 2 of RFC 4180:
    a field is either bare (no comma, quote or line break in it) or wrapped in
    double quotes, with a quote inside written as two quotes. Records are
    separated by a single line feed, the separator the report writer uses,
    where the RFC has CRLF. */
module Rfc4180 {

  /** A bare field: everything up to the next comma, line feed or the end. */
  function ParseBare(s: string): (r: (string, string))
    ensures r.0 + r.1 == s
    ensures r.1 == [] || r.1[0] == ',' || r.1[0] == '\n'
  {
    if s == [] || s[0] == ',' || s[0] == '\n' then ("", s)
    else
      var (v, rest) := ParseBare(s[1..]);
      ([s[0]] + v, rest)
  }

  /** The inside of a quoted field, `s` starting just after the opening
      quote: `""` stands for one quote and a lone quote ends the field. An
      unterminated field runs to the end of the text. */
  function ParseQuoted(s: string): (r: (string, string))
    ensures |r.1| < |s| || (s == [] && r.1 == [])
  {
    if s == [] then ("", "")
    else if s[0] == '"' then
      if |s| >= 2 && s[1] == '"' then
        var (v, rest) := ParseQuoted(s[2..]);
        ("\"" + v, rest)
      else ("", s[1..])
    else
      var (v, rest) := ParseQuoted(s[1..]);
      ([s[0]] + v, rest)
  }

  /** One field and the text after it. */
  function ParseField(s: string): (r: (string, string))
    ensures |r.1| <= |s|
  {
    if s != [] && s[0] == '"' then ParseQuoted(s[1..]) else ParseBare(s)
  }

  /** The fields of one record and the text after it. */
  function ParseRecord(s: string): (r: (seq<string>, string))
    ensures |r.0| >= 1 && |r.1| <= |s|
    decreases |s|
  {
    var (v, rest) := ParseField(s);
    if rest != [] && rest[0] == ',' then
      var (vs, after) := ParseRecord(rest[1..]);
      ([v] + vs, after)
    else ([v], rest)
  }

  /** All records of a text. */
  function ParseDocument(s: string): (r: seq<seq<string>>)
    ensures |r| >= 1
    decreases |s|
  {
    var (fields, rest) := ParseRecord(s);
    if rest != [] && rest[0] == '\n' then [fields] + ParseDocument(rest[1..]) else [fields]
  }
}
