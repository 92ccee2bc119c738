/**
 The crawler's URL normal form: Python's urlparse and urlunparse (3.12) around a filtered, sorted
 and re-encoded query.  Which network locations the parser refuses with ValueError (malformed
 brackets, confusable characters) is the parameter `bad`.
 */
module CrawlUrl {
  import opened Strings
  import opened FormUrlEncoded
  import opened Sorting
  import opened Options

  // ---------- urlparse ----------

  /** Scheme, network location, path without parameters, query; parameters and fragment are dropped. */
  datatype Parsed = Parsed(scheme: string, netloc: string, path: string, query: string)

  predicate IsC0OrSpace(c: char) { c as int <= 0x20 }

  function RemoveUnsafe(s: string): string {
    Replace(Replace(Replace(s, '\t', ""), '\r', ""), '\n', "")
  }

  predicate IsAlpha(c: char) { 'a' <= c <= 'z' || 'A' <= c <= 'Z' }

  predicate SchemeChar(c: char) {
    IsAlpha(c) || '0' <= c <= '9' || c == '+' || c == '-' || c == '.'
  }

  function SplitScheme(s: string): (string, string) {
    var i := IndexOf(s, ':');
    if 0 < i < |s| && IsAlpha(s[0]) && forall k :: 0 <= k < i ==> SchemeChar(s[k])
    then (Lower(s[..i]), s[i + 1..]) else ("", s)
  }

  predicate EndsNetloc(c: char) { c == '/' || c == '?' || c == '#' }

  function NetlocEnd(s: string): (i: nat)
    ensures i <= |s| && (forall k :: 0 <= k < i ==> !EndsNetloc(s[k]))
    ensures i < |s| ==> EndsNetloc(s[i])
  {
    if s == [] || EndsNetloc(s[0]) then 0 else 1 + NetlocEnd(s[1..])
  }

  function SplitNetloc(s: string): (string, string) {
    if |s| >= 2 && s[0] == '/' && s[1] == '/' then
      var e := NetlocEnd(s[2..]);
      (s[2..][..e], s[2..][e..])
    else ("", s)
  }

  /** The part before the first `c`, and the part after it (empty when `c` is absent). */
  function Partition(s: string, c: char): (string, string) {
    var i := IndexOf(s, c);
    if i == |s| then (s, "") else (s[..i], s[i + 1..])
  }

  function LastIndexOf(s: string, c: char): (i: int)
    ensures -1 <= i < |s| && (i >= 0 ==> s[i] == c)
    ensures forall k :: i < k < |s| ==> s[k] != c
  {
    if s == [] then -1
    else if s[|s| - 1] == c then |s| - 1
    else LastIndexOf(s[..|s| - 1], c)
  }

  /** s.find(c, start), with |s| when `c` is absent */
  function FindFrom(s: string, c: char, start: nat): (i: nat)
    requires start <= |s|
    ensures start <= i <= |s|
    ensures forall k :: start <= k < i ==> s[k] != c
    ensures i < |s| ==> s[i] == c
    decreases |s| - start
  {
    if start == |s| || s[start] == c then start else FindFrom(s, c, start + 1)
  }

  /** Parameters start at the first `;` of the last path segment. */
  function DropParams(path: string): string {
    var j := LastIndexOf(path, '/');
    path[..FindFrom(path, ';', if j < 0 then 0 else j)]
  }

  datatype ParseResult = Refused | Accepted(url: Parsed)

  /** Fragment off, then query off. */
  function SplitQuery(s: string): (string, string) {
    Partition(Partition(s, '#').0, '?')
  }

  function CleanInput(url: string): string {
    RemoveUnsafe(StripLeft(url, IsC0OrSpace))
  }

  /** urlparse(url), refused where it raises ValueError */
  function UrlParse(url: string, bad: string -> bool): ParseResult {
    var (scheme, s1) := SplitScheme(CleanInput(url));
    var (netloc, s2) := SplitNetloc(s1);
    var (path, query) := SplitQuery(s2);
    if bad(netloc) then Refused
    else Accepted(Parsed(scheme, netloc, if HasParams(scheme) then DropParams(path) else path, query))
  }

  /** The schemes whose paths carry parameters, among those the crawler tells apart. */
  predicate HasParams(scheme: string) { scheme == "http" || scheme == "https" }

  /** urlunparse((scheme, netloc, path, "", query, "")) for a nonempty scheme and network location */
  function UrlUnparse(u: Parsed): string {
    u.scheme + "://" + u.netloc
    + (if u.path != "" && u.path[0] != '/' then "/" else "") + u.path
    + (if u.query != "" then "?" + u.query else "")
  }

  // ---------- _normalize_crawl_url ----------

  const TRACKING_KEYS: set<string> := {
    "utm_source", "utm_medium", "utm_campaign", "utm_term", "utm_content",
    "gclid", "fbclid", "mc_cid", "mc_eid"
  }

  function KeepPairs(pairs: seq<Pair>): seq<Pair> {
    if pairs == [] then []
    else (if Lower(pairs[0].0) in TRACKING_KEYS then [] else [pairs[0]]) + KeepPairs(pairs[1..])
  }

  datatype Normalized = Raises | NotCrawlable | Url(text: string)

  /** What a URL is compared by: every component the normal form keeps. */
  function Essence(u: Parsed): Parsed {
    Parsed(Lower(u.scheme), Lower(u.netloc), if u.path == "" then "/" else u.path, u.query)
  }

  function KeptPairs(u: Parsed): seq<Pair> {
    KeepPairs(ParseQsl(u.query))
  }

  predicate Crawlable(u: Parsed) {
    (u.scheme == "http" || u.scheme == "https") && u.netloc != ""
  }

  function NormalForm(u: Parsed): string {
    UrlUnparse(Essence(u).(query := UrlEncode(Sort(KeptPairs(u), PairLe))))
  }

  function NormalizeCrawlUrl(url: string, bad: string -> bool): Normalized {
    match UrlParse(Strip(url), bad)
    case Refused => Raises
    case Accepted(u) => if Crawlable(u) then Url(NormalForm(u)) else NotCrawlable
  }

  /** Brackets around an IPv6 address come in pairs: the parser refuses one kind without the other. */
  predicate Unbalanced(netloc: string) {
    ('[' in netloc) != (']' in netloc)
  }

  ghost predicate RefusesUnbalanced(bad: string -> bool) {
    forall n :: Unbalanced(n) ==> bad(n)
  }

  // ---------- parsing a printed normal form ----------

  predicate Unsafe(c: char) { c == '\t' || c == '\r' || c == '\n' }

  predicate SafeChar(c: char) { !Unsafe(c) }

  predicate NetlocChar(c: char) { !EndsNetloc(c) && !Unsafe(c) }

  predicate PathChar(c: char) { c != '?' && c != '#' && !Unsafe(c) }

  predicate QueryChar(c: char) { c != '#' && !Unsafe(c) }

  ghost predicate All(s: string, p: char -> bool) {
    forall i :: 0 <= i < |s| ==> p(s[i])
  }

  /** A path as a normal form prints it: absolute, and without parameters in its last segment. */
  ghost predicate PrintedPath(path: string) {
    path != "" && path[0] == '/' && All(path, PathChar) && DropParams(path) == path
  }

  /** The components a normal form is printed from. */
  ghost predicate Printed(u: Parsed) {
    && Crawlable(u) && All(u.netloc, NetlocChar) && PrintedPath(u.path) && All(u.query, QueryChar)
  }

  lemma AllConcat(a: string, b: string, p: char -> bool)
    requires All(a, p) && All(b, p)
    ensures All(a + b, p)
  {
  }

  lemma AllWeaken(s: string, p: char -> bool, q: char -> bool)
    requires All(s, p) && forall c :: p(c) ==> q(c)
    ensures All(s, q)
  {
  }

  lemma CleanRemoves(s: string)
    ensures All(RemoveUnsafe(s), SafeChar)
  {
    var t1 := Replace(s, '\t', "");
    var t2 := Replace(t1, '\r', "");
    ReplaceRemoves(s, '\t', "");
    ReplaceRemoves(t1, '\r', "");
    ReplaceRemoves(t2, '\n', "");
    forall i | 0 <= i < |RemoveUnsafe(s)|
      ensures SafeChar(RemoveUnsafe(s)[i])
    {
      assert RemoveUnsafe(s)[i] in RemoveUnsafe(s);
    }
  }

  lemma CleanId(s: string)
    requires All(s, SafeChar) && s != "" && !IsC0OrSpace(s[0])
    ensures CleanInput(s) == s
  {
    assert forall c :: c in s ==> SafeChar(c);
    ReplaceAbsent(s, '\t', "");
    ReplaceAbsent(s, '\r', "");
    ReplaceAbsent(s, '\n', "");
  }

  lemma SplitSchemeOfPrinted(scheme: string, rest: string)
    requires scheme == "http" || scheme == "https"
    ensures SplitScheme(scheme + (":" + rest)) == (scheme, rest)
  {
    var s := scheme + (":" + rest);
    assert s[..|scheme|] == scheme && s[|scheme| + 1..] == rest;
    IndexOfUnique(s, ':', |scheme|);
    assert Lower(scheme) == scheme;
    assert forall k :: 0 <= k < |scheme| ==> s[k] == scheme[k] && SchemeChar(scheme[k]);
  }

  lemma {:induction false} NetlocEndOfPrinted(netloc: string, rest: string)
    requires All(netloc, NetlocChar)
    requires rest == "" || EndsNetloc(rest[0])
    ensures NetlocEnd(netloc + rest) == |netloc|
  {
    if netloc == [] {
      assert netloc + rest == rest;
    } else {
      assert (netloc + rest)[1..] == netloc[1..] + rest;
      NetlocEndOfPrinted(netloc[1..], rest);
      assert NetlocChar(netloc[0]);
    }
  }

  lemma SplitNetlocOfPrinted(netloc: string, rest: string)
    requires All(netloc, NetlocChar)
    requires rest == "" || EndsNetloc(rest[0])
    ensures SplitNetloc("//" + (netloc + rest)) == (netloc, rest)
  {
    var s := "//" + (netloc + rest);
    assert s[2..] == netloc + rest;
    NetlocEndOfPrinted(netloc, rest);
    assert (netloc + rest)[..|netloc|] == netloc && (netloc + rest)[|netloc|..] == rest;
  }

  lemma PartitionAbsent(s: string, c: char)
    requires c !in s
    ensures Partition(s, c) == (s, "")
  {
    IndexOfUnique(s, c, |s|);
  }

  lemma PartitionAt(a: string, c: char, b: string)
    requires c !in a
    ensures Partition(a + ([c] + b), c) == (a, b)
  {
    var s := a + ([c] + b);
    assert forall k :: 0 <= k < |a| ==> s[k] == a[k] && a[k] in a;
    IndexOfUnique(s, c, |a|);
    assert s[..|a|] == a && s[|a| + 1..] == b;
  }

  function QuerySuffix(query: string): string {
    if query != "" then "?" + query else ""
  }

  lemma QueryChars(path: string, query: string)
    requires All(path, PathChar) && All(query, QueryChar)
    ensures All(path + QuerySuffix(query), QueryChar)
  {
    AllWeaken(path, PathChar, QueryChar);
    AllConcat("?", query, QueryChar);
    AllConcat(path, QuerySuffix(query), QueryChar);
  }

  lemma SplitQueryOfPrinted(path: string, query: string)
    requires All(path, PathChar) && All(query, QueryChar)
    ensures SplitQuery(path + QuerySuffix(query)) == (path, query)
  {
    var tail := path + QuerySuffix(query);
    QueryChars(path, query);
    PartitionAbsent(tail, '#');
    if query == "" {
      assert tail == path;
      PartitionAbsent(path, '?');
    } else {
      assert QuerySuffix(query) == ['?'] + query;
      PartitionAt(path, '?', query);
    }
  }

  /** The printed text, bracketed the way the parser takes it apart. */
  lemma Bracketed(u: Parsed)
    requires u.path != "" && u.path[0] == '/'
    ensures UrlUnparse(u) == u.scheme + (":" + ("//" + (u.netloc + (u.path + QuerySuffix(u.query)))))
  {
  }

  lemma PrintedText(u: Parsed)
    requires Printed(u)
    ensures UrlUnparse(u) == u.scheme + (":" + ("//" + (u.netloc + (u.path + QuerySuffix(u.query)))))
    ensures All(UrlUnparse(u), SafeChar) && UrlUnparse(u) != "" && UrlUnparse(u)[0] == 'h'
  {
    var tail := u.path + QuerySuffix(u.query);
    Bracketed(u);
    QueryChars(u.path, u.query);
    AllWeaken(tail, QueryChar, SafeChar);
    AllWeaken(u.netloc, NetlocChar, SafeChar);
    AllConcat(u.netloc, tail, SafeChar);
    AllConcat("//", u.netloc + tail, SafeChar);
    AllConcat(":", "//" + (u.netloc + tail), SafeChar);
    SchemeSafe(u.scheme);
    AllConcat(u.scheme, ":" + ("//" + (u.netloc + tail)), SafeChar);
  }

  lemma SchemeSafe(scheme: string)
    requires scheme == "http" || scheme == "https"
    ensures All(scheme, SafeChar) && All(":", SafeChar) && All("//", SafeChar)
  {
  }

  /** urlparse reads the components of a printed normal form back. */
  lemma ParseOfPrinted(u: Parsed, bad: string -> bool)
    requires Printed(u)
    ensures UrlParse(UrlUnparse(u), bad) == if bad(u.netloc) then Refused else Accepted(u)
  {
    var tail := u.path + QuerySuffix(u.query);
    PrintedText(u);
    CleanId(UrlUnparse(u));
    SplitSchemeOfPrinted(u.scheme, "//" + (u.netloc + tail));
    SplitNetlocOfPrinted(u.netloc, tail);
    SplitQueryOfPrinted(u.path, u.query);
  }

  lemma PrintInjective(a: Parsed, b: Parsed)
    requires Printed(a) && Printed(b) && UrlUnparse(a) == UrlUnparse(b)
    ensures a == b
  {
    ParseOfPrinted(a, _ => false);
    ParseOfPrinted(b, _ => false);
  }

  // ---------- every crawlable URL has a printable form ----------

  lemma LowerNetloc(netloc: string)
    requires All(netloc, NetlocChar)
    ensures All(Lower(netloc), NetlocChar) && Lower(Lower(netloc)) == Lower(netloc)
  {
    forall i | 0 <= i < |netloc|
      ensures NetlocChar(LowerChar(netloc[i]))
    {
      assert NetlocChar(netloc[i]);
    }
  }

  /** A prefix that reaches the last segment has the same last segment start. */
  lemma {:induction false} LastIndexOfPrefix(s: string, c: char, n: nat)
    requires LastIndexOf(s, c) < n <= |s|
    ensures LastIndexOf(s[..n], c) == LastIndexOf(s, c)
    decreases |s|
  {
    if n < |s| {
      assert s[..|s| - 1][..n] == s[..n];
      LastIndexOfPrefix(s[..|s| - 1], c, n);
    } else {
      assert s[..n] == s;
    }
  }

  lemma DropParamsPrefix(path: string, n: nat)
    requires path != "" && LastIndexOf(path, '/') >= 0
    requires LastIndexOf(path, '/') < n <= |DropParams(path)|
    ensures DropParams(path[..n]) == path[..n]
  {
    var j := LastIndexOf(path, '/');
    LastIndexOfPrefix(path, '/', n);
    assert FindFrom(path[..n], ';', j) == n;
  }

  lemma DropParamsPrinted(path: string)
    requires path == "" || path[0] == '/'
    requires All(path, PathChar)
    ensures PrintedPath(if DropParams(path) == "" then "/" else DropParams(path))
  {
    if path == "" {
      assert FindFrom("/", ';', 0) == 1;
    } else {
      DropParamsPrefix(path, |DropParams(path)|);
    }
  }

  /** What the parser cuts out of a cleaned input. */
  lemma CutParts(s: string)
    requires All(s, SafeChar)
    ensures var s1 := SplitScheme(s).1; All(s1, SafeChar)
    ensures var n := SplitNetloc(s); All(n.0, NetlocChar) && All(n.1, SafeChar)
    ensures var n := SplitNetloc(s); n.0 != "" && n.1 != "" ==> EndsNetloc(n.1[0])
  {
  }

  lemma CutQuery(s: string)
    requires All(s, SafeChar) && (s == "" || EndsNetloc(s[0]))
    ensures var path := SplitQuery(s).0; All(path, PathChar) && (path == "" || path[0] == '/')
  {
    var s3 := Partition(s, '#').0;
    assert s3 == s[..|s3|];
    assert forall i :: 0 <= i < |s3| ==> s3[i] != '#';
    var path := Partition(s3, '?').0;
    assert path == s3[..|path|];
    assert forall i :: 0 <= i < |path| ==> path[i] != '?';
  }

  /** The components of the printed normal form. */
  ghost function Canonical(u: Parsed): Parsed {
    Essence(u).(query := UrlEncode(Sort(KeptPairs(u), PairLe)))
  }

  lemma PrintedQuery(pairs: seq<Pair>)
    ensures All(UrlEncode(pairs), QueryChar)
    ensures UrlEncode(pairs) != "" ==> !IsSpace(UrlEncode(pairs)[|UrlEncode(pairs)| - 1])
    ensures UrlEncode(pairs) == "" <==> pairs == []
  {
    var q := UrlEncode(pairs);
    EncodedAlphabet(pairs);
    forall i | 0 <= i < |q|
      ensures QueryChar(q[i]) && !IsSpace(q[i])
    {
      assert q[i] in q;
    }
  }

  lemma ParsedParts(url: string, bad: string -> bool)
    requires UrlParse(url, bad).Accepted? && Crawlable(UrlParse(url, bad).url)
    ensures var u := UrlParse(url, bad).url;
            All(u.netloc, NetlocChar) && PrintedPath(if u.path == "" then "/" else u.path)
  {
    var s := CleanInput(url);
    CleanRemoves(StripLeft(url, IsC0OrSpace));
    var s1 := SplitScheme(s).1;
    CutParts(s);
    CutParts(s1);
    var s2 := SplitNetloc(s1).1;
    CutQuery(s2);
    DropParamsPrinted(SplitQuery(s2).0);
  }

  lemma CanonicalOfParts(u: Parsed)
    requires Crawlable(u) && All(u.netloc, NetlocChar)
    requires PrintedPath(if u.path == "" then "/" else u.path)
    ensures Printed(Canonical(u))
  {
    LowerNetloc(u.netloc);
    CrawlableScheme(u);
    PrintedQuery(Sort(KeptPairs(u), PairLe));
  }

  lemma CrawlableScheme(u: Parsed)
    requires Crawlable(u)
    ensures Lower(u.scheme) == u.scheme
  {
  }

  lemma CanonicalPrinted(url: string, bad: string -> bool)
    requires UrlParse(url, bad).Accepted? && Crawlable(UrlParse(url, bad).url)
    ensures Printed(Canonical(UrlParse(url, bad).url))
  {
    ParsedParts(url, bad);
    CanonicalOfParts(UrlParse(url, bad).url);
  }

  // ---------- the normal form is canonical ----------

  lemma {:induction false} KeptDoNotTrack(pairs: seq<Pair>)
    ensures forall p :: p in KeepPairs(pairs) ==> Lower(p.0) !in TRACKING_KEYS
  {
    if pairs != [] {
      KeptDoNotTrack(pairs[1..]);
    }
  }

  lemma {:induction false} KeepAll(pairs: seq<Pair>)
    requires forall p :: p in pairs ==> Lower(p.0) !in TRACKING_KEYS
    ensures KeepPairs(pairs) == pairs
  {
    if pairs != [] {
      assert pairs[0] in pairs;
      KeepAll(pairs[1..]);
      assert pairs == [pairs[0]] + pairs[1..];
    }
  }

  /** The filter drops every occurrence of a tracking pair and nothing else. */
  lemma {:induction false} KeepPairsCount(pairs: seq<Pair>, p: Pair)
    ensures multiset(KeepPairs(pairs))[p] == if Lower(p.0) in TRACKING_KEYS then 0 else multiset(pairs)[p]
  {
    if pairs != [] {
      KeepPairsCount(pairs[1..], p);
      assert pairs == [pairs[0]] + pairs[1..];
    }
  }

  /** Two lists keep the same multiset of pairs exactly when they agree on every pair that does not track. */
  lemma SameKept(a: seq<Pair>, b: seq<Pair>)
    ensures multiset(KeepPairs(a)) == multiset(KeepPairs(b)) <==> SameUntracked(a, b)
  {
    forall p: Pair
      ensures multiset(KeepPairs(a))[p] == if Lower(p.0) in TRACKING_KEYS then 0 else multiset(a)[p]
      ensures multiset(KeepPairs(b))[p] == if Lower(p.0) in TRACKING_KEYS then 0 else multiset(b)[p]
    {
      KeepPairsCount(a, p);
      KeepPairsCount(b, p);
    }
    if SameUntracked(a, b) {
      assert forall p: Pair :: multiset(KeepPairs(a))[p] == multiset(KeepPairs(b))[p];
    }
  }

  ghost predicate SameUntracked(a: seq<Pair>, b: seq<Pair>) {
    forall p: Pair :: Lower(p.0) !in TRACKING_KEYS ==> multiset(a)[p] == multiset(b)[p]
  }

  /** Parsing the query of a normal form yields the kept pairs in sorted order. */
  lemma KeptOfCanonical(u: Parsed)
    ensures KeptPairs(Canonical(u)) == Sort(KeptPairs(u), PairLe)
  {
    var sorted := Sort(KeptPairs(u), PairLe);
    ParseOfEncode(sorted);
    KeptDoNotTrack(ParseQsl(u.query));
    SortKeeps(KeptPairs(u), PairLe);
    forall p | p in sorted
      ensures Lower(p.0) !in TRACKING_KEYS
    {
      assert p in multiset(sorted);
    }
    KeepAll(sorted);
  }

  /** The pairs of a normal form's query stand in the order of their names, and for one name of their values. */
  lemma QueryInOrder(u: Parsed, i: nat, j: nat)
    requires i < j < |KeptPairs(Canonical(u))|
    ensures var p, q := KeptPairs(Canonical(u))[i], KeptPairs(Canonical(u))[j];
      StringLe(p.0, q.0) && (p.0 == q.0 ==> StringLe(p.1, q.1))
  {
    KeptOfCanonical(u);
    PairOrder();
    SortSorts(KeptPairs(u), PairLe);
    assert PairLe(KeptPairs(Canonical(u))[i], KeptPairs(Canonical(u))[j]);
    StringLeTotal(KeptPairs(Canonical(u))[i].0, KeptPairs(Canonical(u))[j].0);
  }

  /** Agreement on everything the normal form is meant to compare. */
  ghost predicate SameResource(u: Parsed, v: Parsed) {
    && u.scheme == v.scheme && Lower(u.netloc) == Lower(v.netloc)
    && (if u.path == "" then "/" else u.path) == (if v.path == "" then "/" else v.path)
    && SameUntracked(ParseQsl(u.query), ParseQsl(v.query))
  }

  lemma SortedPairsEquality(a: seq<Pair>, b: seq<Pair>)
    ensures UrlEncode(Sort(a, PairLe)) == UrlEncode(Sort(b, PairLe)) <==> multiset(a) == multiset(b)
  {
    SortKeeps(a, PairLe);
    SortKeeps(b, PairLe);
    if UrlEncode(Sort(a, PairLe)) == UrlEncode(Sort(b, PairLe)) {
      ParseOfEncode(Sort(a, PairLe));
      ParseOfEncode(Sort(b, PairLe));
    }
    if multiset(a) == multiset(b) {
      PairOrder();
      SortSorts(a, PairLe);
      SortSorts(b, PairLe);
      SortedUnique(Sort(a, PairLe), Sort(b, PairLe), PairLe);
    }
  }

  lemma CanonicalEquality(u: Parsed, v: Parsed)
    requires Crawlable(u) && Crawlable(v)
    ensures Canonical(u) == Canonical(v) <==> SameResource(u, v)
  {
    SortedPairsEquality(KeptPairs(u), KeptPairs(v));
    SameKept(ParseQsl(u.query), ParseQsl(v.query));
    EssenceEquality(u, v, Canonical(u).query, Canonical(v).query);
  }

  lemma EssenceEquality(u: Parsed, v: Parsed, uQuery: string, vQuery: string)
    requires Crawlable(u) && Crawlable(v)
    ensures Essence(u).(query := uQuery) == Essence(v).(query := vQuery) <==>
              && u.scheme == v.scheme && Lower(u.netloc) == Lower(v.netloc)
              && (if u.path == "" then "/" else u.path) == (if v.path == "" then "/" else v.path)
              && uQuery == vQuery
  {
    CrawlableScheme(u);
    CrawlableScheme(v);
  }

  /**
   Two crawlable URLs share a normal form exactly when they agree on scheme, case-folded network
   location, path before parameters, and the multiset of decoded query pairs that do not track.
   */
  lemma NormalFormCanonical(url1: string, url2: string, bad: string -> bool)
    requires NormalizeCrawlUrl(url1, bad).Url? && NormalizeCrawlUrl(url2, bad).Url?
    ensures NormalizeCrawlUrl(url1, bad) == NormalizeCrawlUrl(url2, bad) <==>
            SameResource(UrlParse(Strip(url1), bad).url, UrlParse(Strip(url2), bad).url)
  {
    var u1, u2 := UrlParse(Strip(url1), bad).url, UrlParse(Strip(url2), bad).url;
    CanonicalPrinted(Strip(url1), bad);
    CanonicalPrinted(Strip(url2), bad);
    CanonicalEquality(u1, u2);
    if NormalForm(u1) == NormalForm(u2) {
      PrintInjective(Canonical(u1), Canonical(u2));
    }
  }

  // ---------- idempotence ----------

  /** The normal form ends in white space: an empty query after a path whose last character is blank. */
  predicate BlankTail(u: Parsed) {
    var path := Essence(u).path;
    KeptPairs(u) == [] && IsSpace(path[|path| - 1])
  }

  lemma LastCharacter(u: Parsed)
    requires Printed(Canonical(u))
    ensures var s := NormalForm(u); s != "" && (IsSpace(s[|s| - 1]) <==> BlankTail(u))
  {
    var c, pairs := Canonical(u), Sort(KeptPairs(u), PairLe);
    PrintedText(c);
    PrintedQuery(pairs);
    SortKeeps(KeptPairs(u), PairLe);
    assert pairs == [] <==> KeptPairs(u) == [];
    LastPrinted(c);
  }

  lemma LastPrinted(c: Parsed)
    requires Printed(c)
    ensures var s, last := UrlUnparse(c), if c.query == "" then c.path else c.query;
      s != "" && s[|s| - 1] == last[|last| - 1]
  {
  }

  lemma CanonicalTwice(u: Parsed)
    requires Crawlable(u) && Printed(Canonical(u))
    ensures Canonical(Canonical(u)) == Canonical(u)
  {
    KeptOfCanonical(u);
    PairOrder();
    SortSorts(KeptPairs(u), PairLe);
    SortedAlready(Sort(KeptPairs(u), PairLe), PairLe);
    assert Lower(Lower(u.netloc)) == Lower(u.netloc);
    assert Lower(Lower(u.scheme)) == Lower(u.scheme);
  }

  lemma StripId(s: string)
    requires s != "" && !IsSpace(s[0]) && !IsSpace(s[|s| - 1])
    ensures Strip(s) == s
  {
  }

  /** Normalising a text whose stripped form is a printed one. */
  lemma NormalizeOfPrinted(text: string, c: Parsed, bad: string -> bool)
    requires Printed(c) && Strip(text) == UrlUnparse(c)
    ensures NormalizeCrawlUrl(text, bad) == if bad(c.netloc) then Raises else Url(NormalForm(c))
  {
    ParseOfPrinted(c, bad);
  }

  /**
   Normalising twice changes nothing exactly when the normal form does not end in white space.
   `http://h/a #x` is the failing kind: its normal form keeps the blank that the second pass strips.
   */
  lemma NormalizeIdempotent(url: string, bad: string -> bool)
    requires NormalizeCrawlUrl(url, bad).Url?
    requires forall n :: !bad(n) ==> !bad(Lower(n))
    ensures NormalizeCrawlUrl(NormalizeCrawlUrl(url, bad).text, bad) == NormalizeCrawlUrl(url, bad)
       <==> !BlankTail(UrlParse(Strip(url), bad).url)
  {
    var u := UrlParse(Strip(url), bad).url;
    CanonicalPrinted(Strip(url), bad);
    ParsedNetlocOk(Strip(url), bad);
    if BlankTail(u) {
      BlankTailLost(u, bad);
    } else {
      BlankTailOnly(u, bad);
    }
  }

  lemma ParsedNetlocOk(url: string, bad: string -> bool)
    requires UrlParse(url, bad).Accepted?
    ensures UrlParse(url, bad).url.scheme == "http" || UrlParse(url, bad).url.scheme == "https" ==>
              !bad(UrlParse(url, bad).url.netloc)
  {
  }

  lemma BlankTailOnly(u: Parsed, bad: string -> bool)
    requires Crawlable(u) && Printed(Canonical(u)) && !BlankTail(u) && !bad(Lower(u.netloc))
    ensures NormalizeCrawlUrl(NormalForm(u), bad) == Url(NormalForm(u))
  {
    LastCharacter(u);
    PrintedText(Canonical(u));
    StripId(NormalForm(u));
    NormalizeOfPrinted(NormalForm(u), Canonical(u), bad);
    NormalFormOfCanonical(u);
  }

  lemma NormalFormOfCanonical(u: Parsed)
    requires Crawlable(u) && Printed(Canonical(u))
    ensures NormalForm(Canonical(u)) == NormalForm(u)
  {
    CanonicalTwice(u);
  }

  lemma {:induction false} StripRightConcat(a: string, b: string)
    requires b != "" && !IsSpace(b[0])
    ensures StripRight(a + b, IsSpace) == a + StripRight(b, IsSpace)
    decreases |b|
  {
    var front := b[..|b| - 1];
    DropLast(a, b);
    if IsSpace(b[|b| - 1]) {
      StripRightConcat(a, front);
    }
  }

  lemma DropLast(a: string, b: string)
    requires b != ""
    ensures (a + b)[|a + b| - 1] == b[|b| - 1] && (a + b)[..|a + b| - 1] == a + b[..|b| - 1]
  {
  }

  lemma StrippedPathPrinted(path: string)
    requires PrintedPath(path)
    ensures PrintedPath(StripRight(path, IsSpace))
  {
    var p, j := StripRight(path, IsSpace), LastIndexOf(path, '/');
    assert path == path[..j] + path[j..];
    StripRightConcat(path[..j], path[j..]);
    DropParamsPrefix(path, |p|);
  }

  /** The second pass strips the blank tail, so it prints a strictly shorter text. */
  lemma BlankTailLost(u: Parsed, bad: string -> bool)
    requires Crawlable(u) && Printed(Canonical(u)) && BlankTail(u)
    ensures NormalizeCrawlUrl(NormalForm(u), bad) != Url(NormalForm(u))
  {
    var c := Canonical(u);
    var q := c.(path := StripRight(c.path, IsSpace));
    EmptyQuery(u);
    StrippedPathPrinted(c.path);
    StripOfBlank(c, q);
    NormalizeOfPrinted(NormalForm(u), q, bad);
    assert Canonical(q) == q by {
      LowerTwice(u.netloc);
      LowerTwice(u.scheme);
    }
  }

  lemma LowerTwice(s: string)
    ensures Lower(Lower(s)) == Lower(s)
  {
  }

  lemma EmptyQuery(u: Parsed)
    requires KeptPairs(u) == []
    ensures Canonical(u).query == "" && UrlEncode(Sort(KeepPairs(ParseQsl("")), PairLe)) == ""
  {
    SortKeeps(KeptPairs(u), PairLe);
    ParseOfEncode([]);
  }

  lemma PrintedWithoutQuery(c: Parsed)
    requires Printed(c) && c.query == ""
    ensures UrlUnparse(c) == (c.scheme + "://" + c.netloc) + c.path
  {
  }

  lemma StripFront(front: string, path: string)
    requires front != "" && front[0] == 'h' && path != "" && path[0] == '/'
    ensures Strip(front + path) == front + StripRight(path, IsSpace)
  {
    var s := front + path;
    assert s[0] == 'h';
    assert StripLeft(s, IsSpace) == s;
    StripRightConcat(front, path);
  }

  lemma StripOfBlank(c: Parsed, q: Parsed)
    requires Printed(c) && c.query == "" && IsSpace(c.path[|c.path| - 1])
    requires q == c.(path := StripRight(c.path, IsSpace)) && Printed(q)
    ensures Strip(UrlUnparse(c)) == UrlUnparse(q) && |UrlUnparse(q)| < |UrlUnparse(c)|
  {
    PrintedWithoutQuery(c);
    PrintedWithoutQuery(q);
    var front := c.scheme + "://" + c.netloc;
    assert front[0] == c.scheme[0];
    StripFront(front, c.path);
  }

  function HttpUrl(rest: string): string {
    "http" + (":" + ("//" + rest))
  }

  /** Stripping changes nothing. */
  predicate Bare(s: string) {
    s != "" && !IsSpace(s[0]) && !IsSpace(s[|s| - 1])
  }

  lemma HttpBare(rest: string)
    requires rest != "" && !IsSpace(rest[|rest| - 1])
    ensures Bare(HttpUrl(rest))
  {
    var url := HttpUrl(rest);
    assert url[0] == 'h' && url[|url| - 1] == rest[|rest| - 1];
  }

  /** How an http URL with a fragment and no query parses. */
  lemma ParseWithFragment(netloc: string, path: string, frag: string, bad: string -> bool)
    requires netloc != "" && All(netloc, NetlocChar) && PrintedPath(path) && All(frag, SafeChar) && !bad(netloc)
    ensures var url := HttpUrl(netloc + (path + (['#'] + frag)));
            UrlParse(url, bad) == Accepted(Parsed("http", netloc, path, ""))
  {
    var tail := path + (['#'] + frag);
    var url := HttpUrl(netloc + tail);
    assert All(url, SafeChar) by {
      AllConcat("#", frag, SafeChar);
      AllWeaken(path, PathChar, SafeChar);
      AllConcat(path, ['#'] + frag, SafeChar);
      AllWeaken(netloc, NetlocChar, SafeChar);
      AllConcat(netloc, tail, SafeChar);
      SchemeSafe("http");
      AllConcat("//", netloc + tail, SafeChar);
      AllConcat(":", "//" + (netloc + tail), SafeChar);
      AllConcat("http", ":" + ("//" + (netloc + tail)), SafeChar);
    }
    CleanId(url);
    SplitSchemeOfPrinted("http", "//" + (netloc + tail));
    SplitNetlocOfPrinted(netloc, tail);
    PartitionAt(path, '#', frag);
    PartitionAbsent(path, '?');
  }

  /** The failing kind: a blank before the fragment survives the first pass and not the second. */
  lemma BlankBeforeFragment(netloc: string, path: string, frag: string, bad: string -> bool)
    requires netloc != "" && All(netloc, NetlocChar) && PrintedPath(path) && IsSpace(path[|path| - 1])
    requires All(frag, SafeChar) && frag != "" && !IsSpace(frag[|frag| - 1])
    requires !bad(netloc) && forall n :: !bad(n) ==> !bad(Lower(n))
    ensures var url := HttpUrl(netloc + (path + (['#'] + frag)));
            && NormalizeCrawlUrl(url, bad).Url?
            && NormalizeCrawlUrl(NormalizeCrawlUrl(url, bad).text, bad) != NormalizeCrawlUrl(url, bad)
  {
    ParseWithFragment(netloc, path, frag, bad);
    BlankPath(netloc, path);
    FragmentBare(netloc, path, frag);
    BlankTailMeans(HttpUrl(netloc + (path + (['#'] + frag))), Parsed("http", netloc, path, ""), bad);
  }

  lemma BlankTailMeans(url: string, u: Parsed, bad: string -> bool)
    requires Bare(url) && UrlParse(url, bad) == Accepted(u) && Crawlable(u) && BlankTail(u)
    requires forall n :: !bad(n) ==> !bad(Lower(n))
    ensures NormalizeCrawlUrl(url, bad).Url?
    ensures NormalizeCrawlUrl(NormalizeCrawlUrl(url, bad).text, bad) != NormalizeCrawlUrl(url, bad)
  {
    StripId(url);
    NormalizeIdempotent(url, bad);
  }

  lemma FragmentBare(netloc: string, path: string, frag: string)
    requires frag != "" && !IsSpace(frag[|frag| - 1])
    ensures Bare(HttpUrl(netloc + (path + (['#'] + frag))))
  {
    var rest := netloc + (path + (['#'] + frag));
    assert rest[|rest| - 1] == frag[|frag| - 1];
    HttpBare(rest);
  }

  lemma BlankPath(netloc: string, path: string)
    requires path != "" && IsSpace(path[|path| - 1])
    ensures BlankTail(Parsed("http", netloc, path, ""))
  {
    EmptyPairs();
  }

  lemma NotIdempotentExample(bad: string -> bool) returns (url: string)
    requires !bad("h") && forall n :: !bad(n) ==> !bad(Lower(n))
    ensures url == "http://h/a #x"
    ensures NormalizeCrawlUrl(url, bad).Url?
    ensures NormalizeCrawlUrl(NormalizeCrawlUrl(url, bad).text, bad) != NormalizeCrawlUrl(url, bad)
  {
    var host, path, frag := ExampleParts();
    url := HttpUrl(host + (path + (['#'] + frag)));
    BlankBeforeFragment(host, path, frag, bad);
  }

  lemma EmptyPairs()
    ensures KeepPairs(ParseQsl("")) == []
  {
    ParseOfEncode([]);
  }

  lemma ExampleParts() returns (host: string, path: string, frag: string)
    ensures HttpUrl(host + (path + (['#'] + frag))) == "http://h/a #x"
    ensures host == "h" && All(host, NetlocChar) && PrintedPath(path) && IsSpace(path[|path| - 1])
    ensures frag != "" && All(frag, SafeChar) && !IsSpace(frag[|frag| - 1])
  {
    host, path, frag := "h", "/a ", "x";
    ExamplePath(path);
  }

  lemma ExamplePath(path: string)
    requires path == "/a "
    ensures PrintedPath(path)
  {
    assert path[..1][0] == '/';
    LastIndexOfPrefix(path, '/', 1);
    assert FindFrom(path, ';', 0) == 3;
  }

  // ---------- any URL with a scheme and a network location, taken apart ----------

  /** The text after a mark, if there is any. */
  function Marked(mark: char, part: Option<string>): string {
    if part.None? then "" else [mark] + part.value
  }

  /** What follows the network location. */
  function Tail(path: string, query: Option<string>, frag: Option<string>): string {
    path + (Marked('?', query) + Marked('#', frag))
  }

  ghost predicate TailParts(path: string, query: Option<string>, frag: Option<string>) {
    && (path == "" || path[0] == '/') && All(path, PathChar)
    && (query.Some? ==> All(query.value, QueryChar)) && (frag.Some? ==> All(frag.value, SafeChar))
  }

  lemma MarkedChars(mark: char, part: Option<string>, p: char -> bool)
    requires part.Some? ==> p(mark) && All(part.value, p)
    ensures All(Marked(mark, part), p)
  {
  }

  lemma TailSafe(path: string, query: Option<string>, frag: Option<string>)
    requires TailParts(path, query, frag)
    ensures All(Tail(path, query, frag), SafeChar)
    ensures Tail(path, query, frag) == "" || EndsNetloc(Tail(path, query, frag)[0])
  {
    if query.Some? {
      AllWeaken(query.value, QueryChar, SafeChar);
    }
    AllWeaken(path, PathChar, SafeChar);
    MarkedChars('?', query, SafeChar);
    MarkedChars('#', frag, SafeChar);
    AllConcat(Marked('?', query), Marked('#', frag), SafeChar);
    AllConcat(path, Marked('?', query) + Marked('#', frag), SafeChar);
  }

  lemma PartitionMarked(a: string, mark: char, part: Option<string>)
    requires mark !in a
    ensures Partition(a + Marked(mark, part), mark) == (a, if part.Some? then part.value else "")
  {
    if part.Some? {
      PartitionAt(a, mark, part.value);
    } else {
      PartitionAbsent(a, mark);
      assert a + "" == a;
    }
  }

  lemma SplitTail(path: string, query: Option<string>, frag: Option<string>)
    requires TailParts(path, query, frag)
    ensures SplitQuery(Tail(path, query, frag)) == (path, if query.Some? then query.value else "")
  {
    FrontWithoutHash(path, query);
    PathWithoutQuestion(path);
    Associates(path, Marked('?', query), Marked('#', frag));
    PartitionMarked(path + Marked('?', query), '#', frag);
    PartitionMarked(path, '?', query);
  }

  lemma Associates(a: string, b: string, c: string)
    ensures a + (b + c) == a + b + c
  {
  }

  lemma PathWithoutQuestion(path: string)
    requires All(path, PathChar)
    ensures '?' !in path
  {
  }

  lemma FrontWithoutHash(path: string, query: Option<string>)
    requires All(path, PathChar) && (query.Some? ==> All(query.value, QueryChar))
    ensures '#' !in path + Marked('?', query)
  {
    AllWeaken(path, PathChar, QueryChar);
    MarkedChars('?', query, QueryChar);
    AllConcat(path, Marked('?', query), QueryChar);
  }

  lemma SplitAnyScheme(scheme: string, rest: string)
    requires Lower(scheme) == "http" || Lower(scheme) == "https"
    ensures SplitScheme(scheme + (":" + rest)) == (Lower(scheme), rest)
    ensures All(scheme, SafeChar) && scheme != "" && !IsC0OrSpace(scheme[0])
  {
    var s := scheme + (":" + rest);
    SchemeLetters(scheme);
    assert s[..|scheme|] == scheme && s[|scheme| + 1..] == rest;
    IndexOfUnique(s, ':', |scheme|);
    assert forall k :: 0 <= k < |scheme| ==> s[k] == scheme[k];
  }

  lemma SchemeLetters(scheme: string)
    requires Lower(scheme) == "http" || Lower(scheme) == "https"
    ensures scheme != "" && forall k :: 0 <= k < |scheme| ==> IsAlpha(scheme[k])
  {
    forall k | 0 <= k < |scheme|
      ensures IsAlpha(scheme[k])
    {
      assert LowerChar(scheme[k]) == Lower(scheme)[k];
    }
  }

  /**
   urlparse of any http or https URL: the scheme in lower case, the network location up to the first `/`, `?` or `#`,
   the path up to the first `?` or `#` and without parameters, and the query up to the first `#`.
   */
  lemma ParseOfText(scheme: string, netloc: string, path: string, query: Option<string>, frag: Option<string>,
                    bad: string -> bool)
    requires Lower(scheme) == "http" || Lower(scheme) == "https"
    requires All(netloc, NetlocChar) && TailParts(path, query, frag)
    ensures UrlParse(scheme + (":" + ("//" + (netloc + Tail(path, query, frag)))), bad) ==
      if bad(netloc) then Refused
      else Accepted(Parsed(Lower(scheme), netloc, DropParams(path), if query.Some? then query.value else ""))
  {
    var tail := Tail(path, query, frag);
    TailSafe(path, query, frag);
    SplitAnyScheme(scheme, "//" + (netloc + tail));
    TextSafe(scheme, netloc, tail);
    CleanId(scheme + (":" + ("//" + (netloc + tail))));
    SplitNetlocOfPrinted(netloc, tail);
    SplitTail(path, query, frag);
  }

  lemma TextSafe(scheme: string, netloc: string, tail: string)
    requires All(scheme, SafeChar) && All(netloc, NetlocChar) && All(tail, SafeChar)
    ensures All(scheme + (":" + ("//" + (netloc + tail))), SafeChar)
  {
    AllWeaken(netloc, NetlocChar, SafeChar);
    AllConcat(netloc, tail, SafeChar);
    AllConcat("//", netloc + tail, SafeChar);
    AllConcat(":", "//" + (netloc + tail), SafeChar);
    AllConcat(scheme, ":" + ("//" + (netloc + tail)), SafeChar);
  }

  /** Parameters belong to the last segment: they start at its first `;`. */
  lemma DropParamsOf(dir: string, segment: string)
    requires '/' !in segment && (dir == "" || dir[|dir| - 1] == '/')
    ensures DropParams(dir + segment) == dir + Partition(segment, ';').0
  {
    LastSlash(dir, segment);
    FirstSemicolon(dir, segment);
    CutBehind(dir, segment, IndexOf(segment, ';'));
    BeforeMark(segment, ';');
  }

  lemma CutBehind(a: string, b: string, i: nat)
    requires i <= |b|
    ensures (a + b)[..|a| + i] == a + b[..i]
  {
  }

  lemma BeforeMark(s: string, c: char)
    ensures Partition(s, c).0 == s[..IndexOf(s, c)]
  {
  }

  lemma LastSlash(dir: string, segment: string)
    requires '/' !in segment && (dir == "" || dir[|dir| - 1] == '/')
    ensures LastIndexOf(dir + segment, '/') == |dir| - 1
  {
    forall k | |dir| <= k < |dir + segment|
      ensures (dir + segment)[k] != '/'
    {
      assert (dir + segment)[k] == segment[k - |dir|];
    }
    LastIndexIs(dir + segment, '/', |dir| - 1);
  }

  lemma FirstSemicolon(dir: string, segment: string)
    requires dir == "" || dir[|dir| - 1] == '/'
    ensures FindFrom(dir + segment, ';', if dir == "" then 0 else |dir| - 1) == |dir| + IndexOf(segment, ';')
  {
    var path, i := dir + segment, IndexOf(segment, ';');
    var start := if dir == "" then 0 else |dir| - 1;
    forall k | start <= k < |dir| + i
      ensures path[k] != ';'
    {
      assert path[k] == if k < |dir| then dir[k] else segment[k - |dir|];
    }
    if i < |segment| {
      assert path[|dir| + i] == segment[i];
    }
    FindFromIs(path, ';', start, |dir| + i);
  }

  lemma LastIndexIs(s: string, c: char, i: int)
    requires -1 <= i < |s| && (i >= 0 ==> s[i] == c)
    requires forall k :: i < k < |s| ==> s[k] != c
    ensures LastIndexOf(s, c) == i
  {
  }

  lemma FindFromIs(s: string, c: char, start: nat, i: nat)
    requires start <= i <= |s| && (forall k :: start <= k < i ==> s[k] != c) && (i < |s| ==> s[i] == c)
    ensures FindFrom(s, c, start) == i
  {
  }

  // ---------- what the parser refuses ----------

  lemma ParseOfNetloc(netloc: string, bad: string -> bool)
    requires All(netloc, NetlocChar) && bad(netloc)
    ensures UrlParse(HttpUrl(netloc), bad) == Refused
  {
    var url := HttpUrl(netloc);
    assert All(url, SafeChar) by {
      AllWeaken(netloc, NetlocChar, SafeChar);
      SchemeSafe("http");
      AllConcat("//", netloc, SafeChar);
      AllConcat(":", "//" + netloc, SafeChar);
      AllConcat("http", ":" + ("//" + netloc), SafeChar);
    }
    CleanId(url);
    SplitSchemeOfPrinted("http", "//" + netloc);
    assert netloc + "" == netloc;
    SplitNetlocOfPrinted(netloc, "");
  }

  lemma RefusedRaises(url: string, bad: string -> bool)
    requires Bare(url) && UrlParse(url, bad) == Refused
    ensures NormalizeCrawlUrl(url, bad) == Raises
  {
    StripId(url);
  }

  /** Every URL whose network location has unbalanced brackets makes the normalisation raise. */
  lemma UnbalancedIsRefused(netloc: string, bad: string -> bool)
    requires RefusesUnbalanced(bad) && Unbalanced(netloc) && All(netloc, NetlocChar)
    requires netloc != "" && !IsSpace(netloc[|netloc| - 1])
    ensures NormalizeCrawlUrl(HttpUrl(netloc), bad) == Raises
  {
    ParseOfNetloc(netloc, bad);
    HttpBare(netloc);
    RefusedRaises(HttpUrl(netloc), bad);
  }

  lemma OpenBracket() returns (netloc: string)
    ensures HttpUrl(netloc) == "http://["
    ensures Unbalanced(netloc) && All(netloc, NetlocChar) && netloc != "" && !IsSpace(netloc[|netloc| - 1])
  {
    netloc := "[";
    assert netloc[0] == '[';
  }

  lemma OpenBracketIsRefused(bad: string -> bool) returns (url: string)
    requires RefusesUnbalanced(bad)
    ensures url == "http://[" && NormalizeCrawlUrl(url, bad) == Raises
  {
    var netloc := OpenBracket();
    url := HttpUrl(netloc);
    UnbalancedIsRefused(netloc, bad);
  }
}
