/**
 application/x-www-form-urlencoded query strings: Python's urlencode over string pairs and
 parse_qsl with keep_blank_values=True (WHATWG URL Standard, section 5).
 */
module FormUrlEncoded {
  import opened Strings
  import opened Utf8

  type Pair = (string, string)

  // ---------- serialising ----------

  /** The bytes quote() never escapes. */
  predicate AlwaysSafe(b: Byte) {
    || 0x30 <= b <= 0x39 || 0x41 <= b <= 0x5A || 0x61 <= b <= 0x7A
    || b == 0x5F || b == 0x2E || b == 0x2D || b == 0x7E
  }

  function HexChar(d: int): char
    requires 0 <= d < 16
  {
    (if d < 10 then 0x30 + d else 0x37 + d) as char
  }

  function QuoteByte(b: Byte): (q: string)
    ensures |q| > 0
  {
    if AlwaysSafe(b) then [b as char]
    else if b == 0x20 then "+"
    else ['%', HexChar(b / 16), HexChar(b % 16)]
  }

  function QuoteBytes(bs: seq<Byte>): string {
    if bs == [] then "" else QuoteByte(bs[0]) + QuoteBytes(bs[1..])
  }

  /** quote_plus(s) */
  function QuotePlus(s: string): string {
    QuoteBytes(Encode(s))
  }

  function PrintPair(p: Pair): string {
    QuotePlus(p.0) + "=" + QuotePlus(p.1)
  }

  function PrintPairs(pairs: seq<Pair>): seq<string> {
    if pairs == [] then [] else [PrintPair(pairs[0])] + PrintPairs(pairs[1..])
  }

  /** urlencode(pairs, doseq=True) on pairs of strings */
  function UrlEncode(pairs: seq<Pair>): string {
    Join(PrintPairs(pairs), "&")
  }

  // ---------- parsing ----------

  /** The byte string of a percent-encoded text; a `%` without two hex digits stands for itself. */
  function UnquoteBytes(s: string): seq<Byte>
    decreases |s|
  {
    if s == [] then []
    else if s[0] == '%' && |s| >= 3 && IsHex(s[1]) && IsHex(s[2]) then
      [HexValue(s[1]) * 16 + HexValue(s[2])] + UnquoteBytes(s[3..])
    else EncodeChar(s[0]) + UnquoteBytes(s[1..])
  }

  /** unquote(s.replace("+", " ")), undecodable bytes becoming U+FFFD */
  function UnquotePlus(s: string): string {
    Decode(UnquoteBytes(Replace(s, '+', " ")))
  }

  function ParsePair(field: string): Pair {
    var i := IndexOf(field, '=');
    if i == |field| then (UnquotePlus(field), UnquotePlus(""))
    else (UnquotePlus(field[..i]), UnquotePlus(field[i + 1..]))
  }

  function ParseField(field: string): seq<Pair> {
    if field == "" then [] else [ParsePair(field)]
  }

  function ParseFields(fields: seq<string>): seq<Pair> {
    if fields == [] then [] else ParseField(fields[0]) + ParseFields(fields[1..])
  }

  /** parse_qsl(query, keep_blank_values=True) */
  function ParseQsl(query: string): seq<Pair> {
    ParseFields(Split(query, '&'))
  }

  // ---------- what parsing does to any query ----------

  lemma {:induction false} ParseFieldsConcat(a: seq<string>, b: seq<string>)
    ensures ParseFields(a + b) == ParseFields(a) + ParseFields(b)
  {
    if a == [] {
      assert a + b == b;
    } else {
      assert (a + b)[1..] == a[1..] + b;
      ParseFieldsConcat(a[1..], b);
      Regrouped(ParseField(a[0]), ParseFields(a[1..]), ParseFields(b));
    }
  }

  lemma Regrouped(a: seq<Pair>, b: seq<Pair>, c: seq<Pair>)
    ensures a + (b + c) == a + b + c
  {
  }

  /** Each `&` separates: the pairs on its left come before those on its right. */
  lemma ParseQslConcat(a: string, b: string)
    ensures ParseQsl(a + ['&'] + b) == ParseQsl(a) + ParseQsl(b)
  {
    SplitConcat(a, b, '&');
    ParseFieldsConcat(Split(a, '&'), Split(b, '&'));
  }

  lemma ParseOneField(field: string)
    requires '&' !in field
    ensures ParseQsl(field) == if field == "" then [] else [ParsePair(field)]
  {
    Unsplit(field, '&');
    assert [field][1..] == [];
    assert ParseFields([]) == [];
  }

  /** The first `=` ends the name, and the rest is the value. */
  lemma ParseNamed(name: string, value: string)
    requires '&' !in name && '&' !in value && '=' !in name
    ensures ParseQsl(name + ['='] + value) == [(UnquotePlus(name), UnquotePlus(value))]
  {
    var field := name + ['='] + value;
    ParseOneField(field);
    IndexOfUnique(field, '=', |name|);
    assert field[..|name|] == name && field[|name| + 1..] == value;
  }

  /** A field without `=` is a name with an empty value, and an empty field is nothing. */
  lemma ParseUnnamed(name: string)
    requires '&' !in name && '=' !in name
    ensures ParseQsl(name) == if name == "" then [] else [(UnquotePlus(name), "")]
  {
    ParseOneField(name);
    IndexOfUnique(name, '=', |name|);
    UnquotePlain("");
  }

  lemma {:induction false} UnquoteBytesPlain(s: string)
    requires '%' !in s
    ensures UnquoteBytes(s) == Encode(s)
  {
    if s != "" {
      UnquoteBytesPlain(s[1..]);
    }
  }

  /** A text without `%` and `+` stands for itself. */
  lemma UnquotePlain(s: string)
    requires '%' !in s && '+' !in s
    ensures UnquotePlus(s) == s
  {
    ReplaceAbsent(s, '+', " ");
    UnquoteBytesPlain(s);
    DecodeEncode(s);
  }

  // ---------- the printed alphabet ----------

  /** The characters a serialised component can contain. */
  predicate Printable(c: char) {
    var n := c as int;
    || 0x30 <= n <= 0x39 || 0x41 <= n <= 0x5A || 0x61 <= n <= 0x7A
    || c == '_' || c == '.' || c == '-' || c == '~' || c == '+' || c == '%'
  }

  lemma {:induction false} QuotedPrintable(bs: seq<Byte>)
    ensures forall c :: c in QuoteBytes(bs) ==> Printable(c)
  {
    if bs != [] {
      QuotedPrintable(bs[1..]);
    }
  }

  lemma {:induction false} PrintedPairsPrintable(pairs: seq<Pair>)
    ensures |PrintPairs(pairs)| == |pairs|
    ensures forall f, c :: f in PrintPairs(pairs) && c in f ==> Printable(c) || c == '='
    ensures "" !in PrintPairs(pairs)
  {
    if pairs != [] {
      PrintedPairsPrintable(pairs[1..]);
      QuotedPrintable(Encode(pairs[0].0));
      QuotedPrintable(Encode(pairs[0].1));
    }
  }

  lemma {:induction false} JoinedPrintable(fields: seq<string>)
    requires forall f, c :: f in fields && c in f ==> Printable(c) || c == '='
    ensures forall c :: c in Join(fields, "&") ==> Printable(c) || c == '=' || c == '&'
  {
    if |fields| > 1 {
      assert fields[0] in fields;
      forall f, c | f in fields[1..] && c in f
        ensures Printable(c) || c == '='
      {
        assert f in fields;
      }
      JoinedPrintable(fields[1..]);
    } else if |fields| == 1 {
      assert fields[0] in fields;
    }
  }

  /** A serialised query holds no URL delimiter and no white space. */
  lemma EncodedAlphabet(pairs: seq<Pair>)
    ensures forall c :: c in UrlEncode(pairs) ==> Printable(c) || c == '=' || c == '&'
    ensures UrlEncode(pairs) == "" <==> pairs == []
  {
    PrintedPairsPrintable(pairs);
    JoinedPrintable(PrintPairs(pairs));
  }

  // ---------- round trip ----------

  lemma UnquoteQuotedByte(b: Byte, rest: string)
    ensures UnquoteBytes(Replace(QuoteByte(b), '+', " ") + rest) == [b] + UnquoteBytes(rest)
  {
    if AlwaysSafe(b) {
      ReplaceAbsent([b as char], '+', " ");
      var s := [b as char] + rest;
      assert s[1..] == rest;
    } else if b == 0x20 {
      assert "+"[1..] == "";
      assert Replace("+", '+', " ") == " ";
      var s := " " + rest;
      assert s[1..] == rest;
    } else {
      var q := QuoteByte(b);
      ReplaceAbsent(q, '+', " ");
      var s := q + rest;
      assert s[3..] == rest;
      assert HexValue(HexChar(b / 16)) == b / 16 && HexValue(HexChar(b % 16)) == b % 16;
    }
  }

  lemma {:induction false} UnquoteQuoted(bs: seq<Byte>)
    ensures UnquoteBytes(Replace(QuoteBytes(bs), '+', " ")) == bs
  {
    if bs != [] {
      ReplaceConcat(QuoteByte(bs[0]), QuoteBytes(bs[1..]), '+', " ");
      UnquoteQuotedByte(bs[0], Replace(QuoteBytes(bs[1..]), '+', " "));
      UnquoteQuoted(bs[1..]);
    }
  }

  lemma UnquoteOfQuotePlus(s: string)
    ensures UnquotePlus(QuotePlus(s)) == s
  {
    UnquoteQuoted(Encode(s));
    DecodeEncode(s);
  }

  lemma ParseOfPrintPair(p: Pair)
    ensures ParsePair(PrintPair(p)) == p
  {
    var k, v := QuotePlus(p.0), QuotePlus(p.1);
    QuotedPrintable(Encode(p.0));
    assert forall i :: 0 <= i < |k| ==> k[i] in k && PrintPair(p)[i] == k[i];
    IndexOfUnique(PrintPair(p), '=', |k|);
    assert PrintPair(p)[..|k|] == k && PrintPair(p)[|k| + 1..] == v;
    UnquoteOfQuotePlus(p.0);
    UnquoteOfQuotePlus(p.1);
  }

  lemma PrintedField(p: Pair)
    ensures ParseField(PrintPair(p)) == [p]
  {
    ParseOfPrintPair(p);
  }

  lemma ParseFieldsCons(field: string, rest: seq<string>)
    ensures ParseFields([field] + rest) == ParseField(field) + ParseFields(rest)
  {
    assert ([field] + rest)[1..] == rest;
  }

  lemma {:induction false} ParseOfPrintFields(pairs: seq<Pair>)
    ensures ParseFields(PrintPairs(pairs)) == pairs
  {
    if pairs != [] {
      PrintedField(pairs[0]);
      ParseFieldsCons(PrintPair(pairs[0]), PrintPairs(pairs[1..]));
      ParseOfPrintFields(pairs[1..]);
      assert pairs == [pairs[0]] + pairs[1..];
    }
  }

  /** Parsing a serialised list of pairs gives the list back: order, duplicates and blanks included. */
  lemma ParseOfEncode(pairs: seq<Pair>)
    ensures ParseQsl(UrlEncode(pairs)) == pairs
  {
    var fields := PrintPairs(pairs);
    PrintedPairsPrintable(pairs);
    if pairs == [] {
      assert Split("", '&') == [""];
      assert ParseFields([""]) == ParseFields([""][1..]);
    } else {
      assert forall f :: f in fields ==> '&' !in f;
      SplitOfJoin(fields, '&');
      ParseOfPrintFields(pairs);
    }
  }
}
