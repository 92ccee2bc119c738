/**
 Search terms inside SQL LIKE patterns: the escaping used by the audit-log filters and the help
 search, and a LIKE matcher (ISO/IEC 9075-2, section 8.5) with backslash as the escape character.
 ILIKE compares characters up to a case folding, which is a parameter.
 */
module LikeEscape {
  import opened Strings

  const ESC: char := '\\'

  /** Three replacements, in this order. */
  function EscapeLike(value: string): string {
    Replace(Replace(Replace(value, '\\', "\\\\"), '%', "\\%"), '_', "\\_")
  }

  /** "%" + escaped term + "%", as every filter builds it. */
  function SearchPattern(term: string): string {
    "%" + EscapeLike(term) + "%"
  }

  function EscapeChar(c: char): string {
    if c == '\\' || c == '%' || c == '_' then [ESC, c] else [c]
  }

  // ---------- LIKE ----------

  /** The standard raises an error unless the escape character precedes `%`, `_` or itself. */
  predicate WellFormed(p: string) {
    p == [] ||
    if p[0] == ESC then |p| >= 2 && EscapeChar(p[1]) != [p[1]] && WellFormed(p[2..])
    else WellFormed(p[1..])
  }

  predicate Like(p: string, s: string, fold: char -> char)
    requires WellFormed(p)
    decreases |p|, |s|
  {
    if p == [] then s == []
    else if p[0] == '%' then Like(p[1..], s, fold) || (s != [] && Like(p, s[1..], fold))
    else if p[0] == '_' then s != [] && Like(p[1..], s[1..], fold)
    else if p[0] == ESC then s != [] && fold(s[0]) == fold(p[1]) && Like(p[2..], s[1..], fold)
    else s != [] && fold(s[0]) == fold(p[0]) && Like(p[1..], s[1..], fold)
  }

  /** `v` stands in `s` at index `i`, up to folding. */
  ghost predicate OccursAt(v: string, s: string, i: int, fold: char -> char) {
    0 <= i <= |s| - |v| && forall k :: 0 <= k < |v| ==> fold(s[i + k]) == fold(v[k])
  }

  ghost predicate Occurs(v: string, s: string, fold: char -> char) {
    exists i :: OccursAt(v, s, i, fold)
  }

  // ---------- the escaped text ----------

  /** The three ordered replacements are one escape of each character on its own. */
  lemma {:induction false} EscapeIsPerCharacter(v: string)
    ensures v != [] ==> EscapeLike(v) == EscapeChar(v[0]) + EscapeLike(v[1..])
  {
    if v != [] {
      var c, rest := v[0], v[1..];
      var e1 := Replace([c], '\\', "\\\\");
      var e2 := Replace(e1, '%', "\\%");
      assert v == [c] + rest;
      ReplaceConcat([c], rest, '\\', "\\\\");
      var r1 := Replace(rest, '\\', "\\\\");
      ReplaceConcat(e1, r1, '%', "\\%");
      ReplaceConcat(e2, Replace(r1, '%', "\\%"), '_', "\\_");
      ReplaceOne(c, '\\', "\\\\");
      if c == '\\' {
        ReplaceAbsent(e1, '%', "\\%");
        ReplaceAbsent(e2, '_', "\\_");
      } else {
        ReplaceOne(c, '%', "\\%");
        if c == '%' {
          ReplaceAbsent(e2, '_', "\\_");
        } else {
          ReplaceOne(c, '_', "\\_");
        }
      }
    }
  }

  lemma ReplaceOne(c: char, from: char, with: string)
    ensures Replace([c], from, with) == if c == from then with else [c]
  {
    assert [c][1..] == [];
  }

  /** No pattern built from a search term is malformed, whatever follows the term. */
  lemma {:induction false} EscapedWellFormed(v: string, tail: string)
    requires WellFormed(tail)
    ensures WellFormed(EscapeLike(v) + tail)
  {
    if v == [] {
      assert EscapeLike(v) + tail == tail;
    } else {
      EscapeIsPerCharacter(v);
      EscapedWellFormed(v[1..], tail);
      var p := EscapeLike(v) + tail;
      assert p == EscapeChar(v[0]) + (EscapeLike(v[1..]) + tail);
      assert p[|EscapeChar(v[0])|..] == EscapeLike(v[1..]) + tail;
    }
  }

  lemma PatternWellFormed(term: string)
    ensures WellFormed(SearchPattern(term))
  {
    EscapedWellFormed(term, "%");
    assert SearchPattern(term)[1..] == EscapeLike(term) + "%";
  }

  // ---------- meaning ----------

  lemma {:induction false} PercentMatchesAll(s: string, fold: char -> char)
    ensures Like("%", s, fold)
  {
    if s != [] {
      PercentMatchesAll(s[1..], fold);
    }
  }

  /** An escaped term followed by `%` matches exactly the strings that begin with the term. */
  lemma {:induction false} EscapedPrefix(v: string, s: string, fold: char -> char)
    ensures WellFormed(EscapeLike(v) + "%")
    ensures Like(EscapeLike(v) + "%", s, fold) <==> OccursAt(v, s, 0, fold)
  {
    EscapedWellFormed(v, "%");
    if v == [] {
      assert EscapeLike(v) + "%" == "%";
      PercentMatchesAll(s, fold);
    } else {
      EscapeIsPerCharacter(v);
      EscapedWellFormed(v[1..], "%");
      var p := EscapeLike(v) + "%";
      assert p[|EscapeChar(v[0])|..] == EscapeLike(v[1..]) + "%";
      if s != [] {
        EscapedPrefix(v[1..], s[1..], fold);
        assert OccursAt(v, s, 0, fold) <==> fold(s[0]) == fold(v[0]) && OccursAt(v[1..], s[1..], 0, fold) by {
          OccursUncons(v, s, fold);
        }
      }
    }
  }

  lemma OccursUncons(v: string, s: string, fold: char -> char)
    requires v != [] && s != []
    ensures OccursAt(v, s, 0, fold) <==> fold(s[0]) == fold(v[0]) && OccursAt(v[1..], s[1..], 0, fold)
  {
    if fold(s[0]) == fold(v[0]) && OccursAt(v[1..], s[1..], 0, fold) {
      forall k | 0 <= k < |v|
        ensures fold(s[0 + k]) == fold(v[k])
      {
        if k > 0 {
          assert fold(s[1..][0 + (k - 1)]) == fold(v[1..][k - 1]);
        }
      }
    } else if OccursAt(v, s, 0, fold) {
      assert fold(s[0 + 0]) == fold(v[0]);
      forall k | 0 <= k < |v| - 1
        ensures fold(s[1..][0 + k]) == fold(v[1..][k])
      {
        assert fold(s[0 + (k + 1)]) == fold(v[k + 1]);
      }
    }
  }

  /** A leading `%` lets the rest of the pattern start anywhere. */
  lemma {:induction false} PercentSkips(p: string, s: string, fold: char -> char)
    requires p != [] && p[0] == '%' && WellFormed(p)
    ensures Like(p, s, fold) <==> exists i :: 0 <= i <= |s| && Like(p[1..], s[i..], fold)
  {
    assert s[0..] == s;
    if s != [] {
      PercentSkips(p, s[1..], fold);
      if Like(p, s[1..], fold) {
        var i :| 0 <= i <= |s| - 1 && Like(p[1..], s[1..][i..], fold);
        assert s[1..][i..] == s[i + 1..];
      }
      if exists i :: 0 <= i <= |s| && Like(p[1..], s[i..], fold) {
        var i :| 0 <= i <= |s| && Like(p[1..], s[i..], fold);
        if i > 0 {
          assert s[1..][i - 1..] == s[i..];
        }
      }
    }
  }

  /** Searching with the escaped pattern is plain substring search, for every term and string. */
  lemma SearchIsSubstring(term: string, s: string, fold: char -> char)
    ensures WellFormed(SearchPattern(term))
    ensures Like(SearchPattern(term), s, fold) <==> Occurs(term, s, fold)
  {
    PatternWellFormed(term);
    var p := SearchPattern(term);
    assert p[1..] == EscapeLike(term) + "%";
    PercentSkips(p, s, fold);
    forall i | 0 <= i <= |s|
      ensures Like(p[1..], s[i..], fold) <==> OccursAt(term, s, i, fold)
    {
      EscapedPrefix(term, s[i..], fold);
      OccursShift(term, s, i, fold);
    }
    if Occurs(term, s, fold) {
      var i :| OccursAt(term, s, i, fold);
      assert Like(p[1..], s[i..], fold);
    }
  }

  lemma OccursShift(v: string, s: string, i: nat, fold: char -> char)
    requires i <= |s|
    ensures OccursAt(v, s[i..], 0, fold) <==> OccursAt(v, s, i, fold)
  {
    if OccursAt(v, s[i..], 0, fold) {
      forall k | 0 <= k < |v|
        ensures fold(s[i + k]) == fold(v[k])
      {
        assert s[i..][0 + k] == s[i + k];
      }
    }
  }

  /**
   The order of the replacements is essential: escaping the backslash last turns the term `%` into
   an escaped backslash followed by a live wildcard.
   */
  lemma BackslashLastIsWrong()
    ensures var last := Replace(Replace(Replace("%", '%', "\\%"), '_', "\\_"), '\\', "\\\\");
            last == "\\\\%" && last != EscapeLike("%")
  {
    ReplaceOne('%', '%', "\\%");
    ReplaceAbsent("\\%", '_', "\\_");
    assert "\\%" == "\\" + "%";
    ReplaceConcat("\\", "%", '\\', "\\\\");
    ReplaceOne('\\', '\\', "\\\\");
    ReplaceOne('%', '\\', "\\\\");
    EscapeIsPerCharacter("%");
    assert EscapeLike("%") == "\\%" + EscapeLike("");
  }
}
