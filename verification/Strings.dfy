/** String operations of the Python standard library that several models share. */
module Strings {

  /** The least index at which `c` occurs in `s`, or |s|; Python's find, with |s| for -1. */
  function IndexOf(s: string, c: char): (i: nat)
    ensures i <= |s|
    ensures forall k :: 0 <= k < i ==> s[k] != c
    ensures i < |s| ==> s[i] == c
  {
    if s == [] || s[0] == c then 0 else 1 + IndexOf(s[1..], c)
  }

  lemma IndexOfUnique(s: string, c: char, i: nat)
    requires i <= |s|
    requires forall k :: 0 <= k < i ==> s[k] != c
    requires i < |s| ==> s[i] == c
    ensures IndexOf(s, c) == i
  {
    // both indices are the least occurrence, so neither can precede the other
  }

  // ---------- split and join ----------

  function Split(s: string, sep: char): (parts: seq<string>)
    ensures |parts| > 0
    ensures forall p :: p in parts ==> sep !in p
    decreases |s|
  {
    var i := IndexOf(s, sep);
    if i == |s| then [s] else [s[..i]] + Split(s[i + 1..], sep)
  }

  function Join(parts: seq<string>, sep: string): string {
    if parts == [] then ""
    else if |parts| == 1 then parts[0]
    else parts[0] + sep + Join(parts[1..], sep)
  }

  lemma {:induction false} JoinOfSplit(s: string, sep: char)
    ensures Join(Split(s, sep), [sep]) == s
    decreases |s|
  {
    if sep in s {
      var head, rest := CutAt(s, sep);
      JoinOfSplit(rest, sep);
      JoinCons(head, Split(rest, sep), [sep]);
    } else {
      IndexOfUnique(s, sep, |s|);
    }
  }

  /** The first cut of a text at a separator. */
  lemma CutAt(s: string, sep: char) returns (head: string, rest: string)
    requires sep in s
    ensures s == head + [sep] + rest && Split(s, sep) == [head] + Split(rest, sep)
  {
    var i := IndexOf(s, sep);
    head, rest := s[..i], s[i + 1..];
  }

  lemma JoinCons(head: string, rest: seq<string>, sep: string)
    requires rest != []
    ensures Join([head] + rest, sep) == head + sep + Join(rest, sep)
  {
    assert ([head] + rest)[1..] == rest;
  }

  lemma {:induction false} SplitOfJoin(parts: seq<string>, sep: char)
    requires |parts| > 0
    requires forall p :: p in parts ==> sep !in p
    ensures Split(Join(parts, [sep]), sep) == parts
  {
    var s := Join(parts, [sep]);
    if |parts| == 1 {
      assert parts[0] in parts;
      IndexOfUnique(s, sep, |s|);
    } else {
      assert parts[0] in parts;
      IndexOfUnique(s, sep, |parts[0]|);
      assert s[..|parts[0]|] == parts[0];
      assert s[|parts[0]| + 1..] == Join(parts[1..], [sep]);
      SplitOfJoin(parts[1..], sep);
      assert parts == [parts[0]] + parts[1..];
    }
  }

  lemma SplitHead(a: string, b: string, sep: char)
    requires sep !in a
    ensures Split(a + [sep] + b, sep) == [a] + Split(b, sep)
  {
    var s := a + [sep] + b;
    IndexOfUnique(s, sep, |a|);
    assert s[..|a|] == a && s[|a| + 1..] == b;
  }

  lemma Unsplit(a: string, sep: char)
    requires sep !in a
    ensures Split(a, sep) == [a]
  {
    IndexOfUnique(a, sep, |a|);
  }

  lemma Regroup(a: string, b: string, c: string, d: string, e: string)
    ensures a + b + c + d + e == a + b + (c + d + e)
  {
  }

  lemma {:induction false} SplitConcat(a: string, b: string, sep: char)
    ensures Split(a + [sep] + b, sep) == Split(a, sep) + Split(b, sep)
    decreases |a|, 1
  {
    var i := IndexOf(a, sep);
    if i == |a| {
      SplitHead(a, b, sep);
      Unsplit(a, sep);
    } else {
      var head, tail := a[..i], a[i + 1..];
      assert a == head + [sep] + tail;
      SplitConcatStep(head, tail, b, sep);
    }
  }

  lemma {:induction false} SplitConcatStep(head: string, tail: string, b: string, sep: char)
    requires sep !in head
    ensures var a := head + [sep] + tail;
      Split(a + [sep] + b, sep) == Split(a, sep) + Split(b, sep)
    decreases |head + [sep] + tail|, 0
  {
    var rest := tail + [sep] + b;
    SplitHead(head, tail, sep);
    SplitConcat(tail, b, sep);
    SplitHead(head, rest, sep);
    Regroup(head, [sep], tail, [sep], b);
    SeqAssoc([head], Split(tail, sep), Split(b, sep));
  }

  lemma SeqAssoc(a: seq<string>, b: seq<string>, c: seq<string>)
    ensures a + (b + c) == a + b + c
  {
  }

  lemma {:induction false} JoinPush(parts: seq<string>, x: string, sep: string)
    requires parts != []
    ensures Join(parts + [x], sep) == Join(parts, sep) + sep + x
  {
    if |parts| > 1 {
      assert (parts + [x])[1..] == parts[1..] + [x];
      JoinPush(parts[1..], x, sep);
      assert Join(parts, sep) + sep + x == parts[0] + sep + (Join(parts[1..], sep) + sep + x);
    } else {
      assert (parts + [x])[1..] == [x];
    }
  }

  // ---------- case folding (ASCII), whitespace, replacement ----------

  function LowerChar(c: char): char {
    if 'A' <= c <= 'Z' then (c as int + 32) as char else c
  }

  function Lower(s: string): (r: string)
    ensures |r| == |s|
    ensures forall i :: 0 <= i < |s| ==> r[i] == LowerChar(s[i])
  {
    seq(|s|, i requires 0 <= i < |s| => LowerChar(s[i]))
  }

  /** What str.strip removes: the characters for which Python's str.isspace holds. */
  predicate IsSpace(c: char) {
    var n := c as int;
    || 0x9 <= n <= 0xD || 0x1C <= n <= 0x20 || n == 0x85 || n == 0xA0 || n == 0x1680
    || 0x2000 <= n <= 0x200A || n == 0x2028 || n == 0x2029 || n == 0x202F || n == 0x205F || n == 0x3000
  }

  function StripLeft(s: string, drop: char -> bool): (r: string)
    ensures |r| <= |s| && r == s[|s| - |r|..]
    ensures r != [] ==> !drop(r[0])
  {
    if s != [] && drop(s[0]) then StripLeft(s[1..], drop) else s
  }

  function StripRight(s: string, drop: char -> bool): (r: string)
    ensures |r| <= |s| && r == s[..|r|]
    ensures r != [] ==> !drop(r[|r| - 1])
    ensures s != [] && !drop(s[|s| - 1]) ==> r == s
    ensures s != [] && drop(s[|s| - 1]) ==> |r| < |s|
    ensures s != [] && !drop(s[0]) ==> r != []
  {
    if s != [] && drop(s[|s| - 1]) then StripRight(s[..|s| - 1], drop) else s
  }

  /** str.strip() */
  function Strip(s: string): string {
    StripRight(StripLeft(s, IsSpace), IsSpace)
  }

  /** s.replace(from, with) for a one-character `from`. */
  function Replace(s: string, from: char, with: string): string {
    if s == [] then [] else (if s[0] == from then with else [s[0]]) + Replace(s[1..], from, with)
  }

  lemma {:induction false} ReplaceConcat(a: string, b: string, from: char, with: string)
    ensures Replace(a + b, from, with) == Replace(a, from, with) + Replace(b, from, with)
  {
    if a == [] {
      assert a + b == b;
    } else {
      assert (a + b)[1..] == a[1..] + b;
      ReplaceConcat(a[1..], b, from, with);
    }
  }

  lemma {:induction false} ReplaceRemoves(s: string, from: char, with: string)
    requires from !in with
    ensures from !in Replace(s, from, with)
    ensures forall c :: c in Replace(s, from, with) ==> c in s || c in with
  {
    if s != [] {
      ReplaceRemoves(s[1..], from, with);
    }
  }

  lemma {:induction false} ReplaceAbsent(s: string, from: char, with: string)
    requires from !in s
    ensures Replace(s, from, with) == s
  {
    if s != [] {
      ReplaceAbsent(s[1..], from, with);
    }
  }

  // ---------- hexadecimal digits ----------

  predicate IsHex(c: char) {
    '0' <= c <= '9' || 'A' <= c <= 'F' || 'a' <= c <= 'f'
  }

  function HexValue(c: char): (v: int)
    requires IsHex(c)
    ensures 0 <= v < 16
  {
    if c <= '9' then c as int - 0x30 else if c <= 'F' then c as int - 0x37 else c as int - 0x57
  }
}
