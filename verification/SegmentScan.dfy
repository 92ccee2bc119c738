/**
 The greedy scanners of the migration script: candidate JSON objects in a text, by counting braces
 from every `{"`, and windows of float data in a byte string.  Which candidates parse as objects and
 which windows look like embeddings are oracles.
 */
module SegmentScan {

  // ---------- brace counting ----------

  /** Opening minus closing braces in text[start..stop]. */
  function Depth(text: string, start: nat, stop: nat): int
    requires start <= stop <= |text|
    decreases stop
  {
    if start == stop then 0
    else Depth(text, start, stop - 1) + (if text[stop - 1] == '{' then 1 else if text[stop - 1] == '}' then -1 else 0)
  }

  /** The braces opened at `pos` close for the first time at `end`. */
  ghost predicate Closes(text: string, pos: nat, end: nat) {
    && pos < end < |text| && text[pos] == '{' && text[end] == '}'
    && Depth(text, pos, end + 1) == 0
    && forall k :: pos < k <= end ==> Depth(text, pos, k) > 0
  }

  /** No closing brace balances `pos` before index `limit`. */
  ghost predicate StaysOpen(text: string, pos: nat, limit: nat) {
    pos < limit <= |text| && forall k :: pos < k <= limit ==> Depth(text, pos, k) > 0
  }

  predicate StartsObject(text: string, pos: nat) {
    pos + 1 < |text| && text[pos] == '{' && text[pos + 1] == '"'
  }

  /** text.find('{"', from), with |text| when there is none */
  function FindStart(text: string, from: nat): (pos: nat)
    requires from <= |text|
    ensures from <= pos <= |text|
    ensures pos < |text| ==> StartsObject(text, pos)
    ensures forall k :: from <= k < pos ==> !StartsObject(text, k)
    decreases |text| - from
  {
    if from == |text| || StartsObject(text, from) then from else FindStart(text, from + 1)
  }

  const MAX_SPAN: nat := 100000

  /**
   What becomes of a start the scan tries: a candidate up to its matching brace, a start abandoned for its
   length, or one whose braces are still open where the text ends.
   */
  datatype Try = Taken(pos: nat, end: nat) | Abandoned(pos: nat) | Open(pos: nat)

  ghost predicate TryOk(text: string, t: Try) {
    StartsObject(text, t.pos) &&
    match t
    case Taken(pos, end) => Closes(text, pos, end) && end - pos <= MAX_SPAN
    case Abandoned(pos) => pos + MAX_SPAN + 1 < |text| && StaysOpen(text, pos, pos + MAX_SPAN + 1)
    case Open(pos) => |text| <= pos + MAX_SPAN + 1 && StaysOpen(text, pos, |text|)
  }

  /** Where the scan looks next: behind the last character it examined, or behind the start it gave up. */
  function Resume(t: Try): nat {
    match t
    case Taken(_, end) => end + 1
    case Abandoned(pos) => pos + MAX_SPAN + 2
    case Open(pos) => pos + 1
  }

  function ResumeBefore(tries: seq<Try>, n: nat): nat
    requires n <= |tries|
  {
    if n == 0 then 0 else Resume(tries[n - 1])
  }

  /** The tries come in order, each behind the position where the scan resumed. */
  ghost predicate Rising(tries: seq<Try>) {
    forall n {:trigger ResumeBefore(tries, n)} :: 0 <= n < |tries| ==>
      ResumeBefore(tries, n) <= tries[n].pos < Resume(tries[n])
  }

  ghost predicate TriesOk(text: string, tries: seq<Try>) {
    forall n :: 0 <= n < |tries| ==> TryOk(text, tries[n])
  }

  /** `pos` is the first start at or behind `from`, or the end of the text. */
  ghost predicate FoundFrom(text: string, from: nat, pos: nat) {
    from <= |text| && FindStart(text, from) == pos
  }

  /** Each try is the first start at or behind the position where the scan resumed. */
  ghost predicate Linked(text: string, tries: seq<Try>) {
    forall n {:trigger ResumeBefore(tries, n)} :: 0 <= n < |tries| ==>
      FoundFrom(text, ResumeBefore(tries, n), tries[n].pos)
  }

  ghost predicate IsScan(text: string, tries: seq<Try>) {
    TriesOk(text, tries) && Linked(text, tries)
  }

  /** And the scan went on until no start was left. */
  ghost predicate Complete(text: string, tries: seq<Try>) {
    IsScan(text, tries) && FoundFrom(text, ResumeBefore(tries, |tries|), |text|)
  }

  function Segment(text: string, t: Try): string
    requires t.Taken? && t.pos <= t.end < |text|
  {
    text[t.pos..t.end + 1]
  }

  /** Of the first `n` tries, the candidates that parse as objects with two members or more, in order. */
  ghost function Parsed(text: string, tries: seq<Try>, n: nat, parses: string -> bool): seq<string>
    requires n <= |tries|
  {
    if n == 0 then []
    else Parsed(text, tries, n - 1, parses) + Kept(text, tries[n - 1], parses)
  }

  function Kept(text: string, t: Try, parses: string -> bool): seq<string> {
    if t.Taken? && t.pos <= t.end < |text| && parses(Segment(text, t)) then [Segment(text, t)] else []
  }

  /** The objects are those candidates of the complete scan that parse, in order. */
  ghost predicate Extracted(text: string, objects: seq<string>, parses: string -> bool) {
    exists tries :: Complete(text, tries) && objects == Parsed(text, tries, |tries|, parses)
  }

  /** extract_json_objects */
  method ExtractJsonObjects(text: string, parses: string -> bool) returns (objects: seq<string>)
    ensures Extracted(text, objects, parses)
  {
    objects := [];
    ghost var tries: seq<Try> := [];
    var i := 0;
    while i < |text|
      invariant i == ResumeBefore(tries, |tries|) <= |text| && IsScan(text, tries)
      invariant objects == Parsed(text, tries, |tries|, parses)
      decreases |text| - i
    {
      var pos := FindStart(text, i);
      if pos == |text| {
        return;
      }
      ghost var t;
      i, objects, t := TryObject(text, pos, objects, parses);
      ParsedPush(text, tries, t, |tries|, parses);
      ScanPush(text, tries, t);
      tries := tries + [t];
    }
  }

  /** One start: where to look next, and the objects with this one's, if it has one. */
  method TryObject(text: string, pos: nat, objects: seq<string>, parses: string -> bool)
    returns (next: nat, objects': seq<string>, ghost t: Try)
    requires StartsObject(text, pos)
    ensures TryOk(text, t) && t.pos == pos < next == Resume(t) <= |text|
    ensures objects' == objects + Kept(text, t, parses)
  {
    var j, closed := ScanObject(text, pos);
    t := Verdict(text, pos, j, closed);
    objects' := objects;
    if closed && parses(text[pos..j + 1]) {
      objects' := objects + [text[pos..j + 1]];
    }
    next := if j < |text| then Max(pos + 1, j + 1) else pos + 1;
  }

  function Max(a: nat, b: nat): nat {
    if a < b then b else a
  }

  /** The try that the inner loop's result stands for. */
  ghost function Verdict(text: string, pos: nat, j: nat, closed: bool): Try {
    if closed then Taken(pos, j) else if j < |text| then Abandoned(pos) else Open(pos)
  }

  lemma ScanPush(text: string, tries: seq<Try>, t: Try)
    requires IsScan(text, tries) && TryOk(text, t) && FoundFrom(text, ResumeBefore(tries, |tries|), t.pos)
    ensures IsScan(text, tries + [t]) && ResumeBefore(tries + [t], |tries| + 1) == Resume(t)
  {
    LinkedPush(text, tries, t);
  }

  lemma LinkedPush(text: string, tries: seq<Try>, t: Try)
    requires Linked(text, tries) && FoundFrom(text, ResumeBefore(tries, |tries|), t.pos)
    ensures Linked(text, tries + [t])
  {
    var tries' := tries + [t];
    forall n | 0 <= n < |tries'|
      ensures FoundFrom(text, ResumeBefore(tries', n), tries'[n].pos)
    {
      assert ResumeBefore(tries', n) == ResumeBefore(tries, n);
    }
  }

  lemma ScanRises(text: string, tries: seq<Try>)
    requires IsScan(text, tries)
    ensures Rising(tries)
  {
    forall n | 0 <= n < |tries|
      ensures ResumeBefore(tries, n) <= tries[n].pos < Resume(tries[n])
    {
      assert TryOk(text, tries[n]) && FoundFrom(text, ResumeBefore(tries, n), tries[n].pos);
    }
  }

  lemma {:induction false} ParsedPush(text: string, tries: seq<Try>, t: Try, n: nat, parses: string -> bool)
    requires n <= |tries|
    ensures Parsed(text, tries + [t], n, parses) == Parsed(text, tries, n, parses)
    ensures n == |tries| ==>
      Parsed(text, tries + [t], n + 1, parses) == Parsed(text, tries, n, parses) + Kept(text, t, parses)
  {
    if n > 0 {
      ParsedPush(text, tries, t, n - 1, parses);
    }
  }

  /** The braces of the start have stayed open up to `j`. */
  ghost predicate Walked(text: string, pos: nat, j: nat, depth: int) {
    pos <= j <= |text| && depth == Depth(text, pos, j) && forall k :: pos < k <= j ==> Depth(text, pos, k) > 0
  }

  lemma WalkOn(text: string, pos: nat, j: nat, depth: int, next: int)
    requires Walked(text, pos, j, depth) && j < |text| && StartsObject(text, pos)
    requires next == depth + (if text[j] == '{' then 1 else if text[j] == '}' then -1 else 0)
    requires next != 0 || text[j] != '}'
    ensures Walked(text, pos, j + 1, next)
  {
    assert j == pos ==> depth == 0;
    assert Depth(text, pos, j + 1) == next;
  }

  lemma WalkCloses(text: string, pos: nat, j: nat, depth: int)
    requires Walked(text, pos, j, depth) && j < |text| && StartsObject(text, pos)
    requires text[j] == '}' && depth == 1
    ensures Closes(text, pos, j)
  {
    assert Depth(text, pos, j + 1) == 0;
  }

  /** The inner loop: where it stops, and whether at the matching brace. */
  method ScanObject(text: string, pos: nat) returns (j: nat, closed: bool)
    requires StartsObject(text, pos)
    ensures pos < j <= |text| && (closed ==> j < |text|)
    ensures TryOk(text, Verdict(text, pos, j, closed))
    ensures !closed && j < |text| ==> j == pos + MAX_SPAN + 1
  {
    var depth := 0;
    j := pos;
    while j < |text|
      invariant j - pos <= MAX_SPAN && Walked(text, pos, j, depth)
    {
      ghost var depth0 := depth;
      if text[j] == '{' {
        depth := depth + 1;
      } else if text[j] == '}' {
        depth := depth - 1;
        if depth == 0 {
          WalkCloses(text, pos, j, depth0);
          return j, true;
        }
      }
      WalkOn(text, pos, j, depth0, depth);
      j := j + 1;
      if j - pos > MAX_SPAN {
        break;
      }
    }
    closed := false;
  }

  // ---------- what a scan means ----------

  /** A start can be tried in one way only: the shortest balanced segment, and otherwise by how far it stays open. */
  lemma TryUnique(text: string, s: Try, t: Try)
    requires TryOk(text, s) && TryOk(text, t) && s.pos == t.pos
    ensures s == t
  {
    StaysOrCloses(text, s, t);
    StaysOrCloses(text, t, s);
  }

  /** Braces that stay open up to some point close behind it. */
  lemma StaysOrCloses(text: string, s: Try, t: Try)
    requires TryOk(text, s) && TryOk(text, t) && s.pos == t.pos
    ensures s.Taken? ==> t.Taken? && t.end <= s.end
  {
    if s.Taken? {
      assert Depth(text, s.pos, s.end + 1) == 0;
    }
  }

  /** Two scans of a text agree as long as both go on. */
  lemma {:induction false} ScansAgree(text: string, a: seq<Try>, b: seq<Try>, n: nat)
    requires IsScan(text, a) && IsScan(text, b) && n <= |a| && n <= |b|
    ensures a[..n] == b[..n] && ResumeBefore(a, n) == ResumeBefore(b, n)
  {
    if n > 0 {
      ScansAgree(text, a, b, n - 1);
      assert FoundFrom(text, ResumeBefore(a, n - 1), a[n - 1].pos);
      assert FoundFrom(text, ResumeBefore(b, n - 1), b[n - 1].pos);
      assert TryOk(text, a[n - 1]) && TryOk(text, b[n - 1]);
      TryUnique(text, a[n - 1], b[n - 1]);
      assert a[..n] == a[..n - 1] + [a[n - 1]] && b[..n] == b[..n - 1] + [b[n - 1]];
    }
  }

  /** A finished scan has no longer one beside it. */
  lemma NoLonger(text: string, a: seq<Try>, b: seq<Try>)
    requires Complete(text, a) && IsScan(text, b)
    ensures |b| <= |a|
  {
    if |a| < |b| {
      ScansAgree(text, a, b, |a|);
      NextIsStart(text, b, |a|);
    }
  }

  lemma NextIsStart(text: string, tries: seq<Try>, n: nat)
    requires IsScan(text, tries) && n < |tries|
    ensures !FoundFrom(text, ResumeBefore(tries, n), |text|)
  {
    assert TryOk(text, tries[n]);
  }

  /** The scan of a text is determined by the text. */
  lemma ScanUnique(text: string, a: seq<Try>, b: seq<Try>)
    requires Complete(text, a) && Complete(text, b)
    ensures a == b
  {
    NoLonger(text, a, b);
    NoLonger(text, b, a);
    ScansAgree(text, a, b, |a|);
    assert a[..|a|] == a && b[..|a|] == b;
  }

  ghost predicate TriedBefore(tries: seq<Try>, n: nat, k: nat) {
    exists m :: 0 <= m < n <= |tries| && tries[m].pos == k
  }

  /** Position `k` is one the scan jumped over behind a start it tried: inside a candidate or an abandoned stretch. */
  ghost predicate JumpedBefore(tries: seq<Try>, n: nat, k: nat) {
    exists m :: 0 <= m < n <= |tries| && JumpedOver(tries[m], k)
  }

  /** Inside a candidate, or in the stretch an abandoned start was scanned for; nothing behind an open start. */
  predicate JumpedOver(t: Try, k: nat) {
    match t
    case Taken(pos, end) => pos < k <= end
    case Abandoned(pos) => pos < k <= pos + 100001
    case Open(_) => false
  }

  lemma {:induction false} TriedUpTo(text: string, tries: seq<Try>, n: nat, k: nat)
    requires Linked(text, tries) && Rising(tries) && n <= |tries| && k < ResumeBefore(tries, n) && StartsObject(text, k)
    ensures TriedBefore(tries, n, k) <==> !JumpedBefore(tries, n, k)
    decreases n
  {
    Split(tries, n, k);
    if k < ResumeBefore(tries, n - 1) {
      TriedUpTo(text, tries, n - 1, k);
    } else {
      Ordered(tries, n - 1);
      NotInGap(text, tries, n - 1, k);
    }
  }

  /** No start lies between where the scan resumed and the start it found. */
  lemma NotInGap(text: string, tries: seq<Try>, n: nat, k: nat)
    requires Linked(text, tries) && n < |tries| && ResumeBefore(tries, n) <= k && StartsObject(text, k)
    ensures tries[n].pos <= k
  {
    assert FoundFrom(text, ResumeBefore(tries, n), tries[n].pos);
  }

  lemma Split(tries: seq<Try>, n: nat, k: nat)
    requires 0 < n <= |tries| && Rising(tries)
    ensures TriedBefore(tries, n, k) <==> TriedBefore(tries, n - 1, k) || tries[n - 1].pos == k
    ensures JumpedBefore(tries, n, k) <==> JumpedBefore(tries, n - 1, k) || JumpedOver(tries[n - 1], k)
  {
  }

  /** Everything about the first `n` tries lies before the position where the scan resumes after them. */
  lemma {:induction false} Ordered(tries: seq<Try>, n: nat)
    requires Rising(tries) && n <= |tries|
    ensures forall m :: 0 <= m < n ==> tries[m].pos < Resume(tries[m]) <= ResumeBefore(tries, n)
    decreases n
  {
    if n > 0 {
      Ordered(tries, n - 1);
      assert ResumeBefore(tries, n - 1) <= tries[n - 1].pos < Resume(tries[n - 1]);
    }
  }

  /** The scan never goes back: what a try covers lies before every later try. */
  lemma TriesDisjoint(text: string, tries: seq<Try>, m: nat, n: nat)
    requires IsScan(text, tries) && m < n < |tries|
    ensures Resume(tries[m]) <= tries[n].pos && (tries[m].Taken? ==> tries[m].end < tries[n].pos)
  {
    ScanRises(text, tries);
    Ordered(tries, n);
    assert ResumeBefore(tries, n) <= tries[n].pos;
  }

  /** A start is never tried exactly when it lies inside a candidate or inside an abandoned stretch. */
  lemma NeverTried(text: string, tries: seq<Try>, k: nat)
    requires Complete(text, tries) && StartsObject(text, k)
    ensures TriedBefore(tries, |tries|, k) <==> !JumpedBefore(tries, |tries|, k)
  {
    ScanRises(text, tries);
    if k < ResumeBefore(tries, |tries|) {
      TriedUpTo(text, tries, |tries|, k);
    }
  }

  /** A candidate's segment: its braces balance, and those of no shorter text from the same start do. */
  lemma ShortestBalanced(text: string, t: Try)
    requires t.Taken? && TryOk(text, t)
    ensures var s := Segment(text, t);
      Depth(s, 0, |s|) == 0 && forall n :: 0 < n < |s| ==> Depth(s[..n], 0, n) > 0
  {
    var s := Segment(text, t);
    DepthOfSlice(text, t.pos, t.end + 1, s);
    forall n | 0 < n < |s|
      ensures Depth(s[..n], 0, n) > 0
    {
      DepthOfSlice(text, t.pos, t.pos + n, s[..n]);
    }
  }

  lemma {:induction false} DepthOfSlice(text: string, start: nat, stop: nat, s: string)
    requires start <= stop <= |text| && s == text[start..stop]
    ensures Depth(s, 0, |s|) == Depth(text, start, stop)
    decreases stop
  {
    if start < stop {
      var init := text[start..stop - 1];
      DepthOfSlice(text, start, stop - 1, init);
      assert s == init + [text[stop - 1]];
      DepthOfPrefix(s, init, |init|);
    }
  }

  lemma {:induction false} DepthOfPrefix(s: string, init: string, n: nat)
    requires n <= |init| <= |s| && init == s[..|init|]
    ensures Depth(s, 0, n) == Depth(init, 0, n)
  {
    if n > 0 {
      DepthOfPrefix(s, init, n - 1);
    }
  }

  // ---------- an object the scan misses ----------

  /** An unclosed brace, a small object right behind it, and plain text up to the end. */
  ghost predicate Shadowed(text: string) {
    && |text| > MAX_SPAN + 2 && text[0] == '{' && text[1] == '"' && text[2] == '{' && text[3] == '"' && text[5] == '}'
    && text[4] != '{' && text[4] != '}' && forall k :: 6 <= k < |text| ==> text[k] != '{' && text[k] != '}'
  }

  lemma {:induction false} ShadowedDepth(text: string, j: nat)
    requires Shadowed(text) && 0 < j <= |text|
    ensures Depth(text, 0, j) == if 3 <= j <= 5 then 2 else 1
    ensures j > 2 ==> Depth(text, 2, j) == if j <= 5 then 1 else 0
  {
    if j > 1 {
      ShadowedDepth(text, j - 1);
    }
  }

  /** The small object closes at once, and the scan never tries it: it keeps nothing of this text. */
  lemma ShadowedIsMissed(text: string, tries: seq<Try>, parses: string -> bool)
    requires Shadowed(text) && Complete(text, tries)
    ensures StartsObject(text, 2) && Closes(text, 2, 5)
    ensures tries == [Abandoned(0)] && Parsed(text, tries, |tries|, parses) == []
  {
    forall j: nat | 0 < j <= |text|
      ensures Depth(text, 0, j) > 0 && (3 <= j <= 5 ==> Depth(text, 2, j) > 0) && (j == 6 ==> Depth(text, 2, j) == 0)
    {
      ShadowedDepth(text, j);
    }
    var only := [Abandoned(0)];
    assert StartsObject(text, 0) && FindStart(text, 0) == 0;
    assert TryOk(text, only[0]);
    assert IsScan(text, only);
    assert forall k: nat :: 6 <= k ==> !StartsObject(text, k);
    assert FindStart(text, MAX_SPAN + 2) == |text|;
    assert Complete(text, only);
    ScanUnique(text, tries, only);
    assert Parsed(text, only, 0, parses) == [];
  }

  lemma ShadowedExists() returns (text: string)
    ensures Shadowed(text)
  {
    text := "{\"{\"x}" + seq(MAX_SPAN, i => 'x');
  }

  // ---------- vector windows ----------

  /** Window `a` accepted: a full window of plausible floats at that offset. */
  ghost predicate WindowAt(data: nat, window: nat, plausible: nat -> bool, a: nat) {
    a + window <= data && plausible(a)
  }

  ghost predicate WindowsOk(data: nat, window: nat, plausible: nat -> bool, found: seq<nat>, i: nat) {
    WindowsApart(data, window, plausible, found, i) && Swept(data, window, plausible, found, i)
  }

  ghost predicate WindowsApart(data: nat, window: nat, plausible: nat -> bool, found: seq<nat>, i: nat) {
    && (forall n :: 0 <= n < |found| ==>
          found[n] % 4 == 0 && WindowAt(data, window, plausible, found[n]) && found[n] + window <= i)
    && (forall m, n :: 0 <= m < n < |found| ==> found[m] + window <= found[n])
  }

  /** Every aligned offset before `i` is inside an accepted window or was rejected. */
  ghost predicate Swept(data: nat, window: nat, plausible: nat -> bool, found: seq<nat>, i: nat) {
    forall o :: 0 <= o < i && o % 4 == 0 && o + window <= data ==> InWindow(found, window, o) || !plausible(o)
  }

  ghost predicate InWindow(found: seq<nat>, window: nat, o: int) {
    exists n :: 0 <= n < |found| && found[n] <= o < found[n] + window
  }

  /**
   extract_vectors_from_segment over a string of `data` bytes: a window of 4 * dimension bytes is taken
   where it is plausible, and otherwise the scan slides by one float.
   */
  method FindWindows(data: nat, dimension: nat, plausible: nat -> bool) returns (found: seq<nat>)
    requires dimension > 0
    // disjoint aligned windows
    ensures forall n :: 0 <= n < |found| ==>
          found[n] % 4 == 0 && WindowAt(data, 4 * dimension, plausible, found[n])
    ensures forall m, n :: 0 <= m < n < |found| ==> found[m] + 4 * dimension <= found[n]
    // and every aligned offset with a full window is inside one of them or was rejected
    ensures forall o :: 0 <= o && o % 4 == 0 && o + 4 * dimension <= data ==>
      InWindow(found, 4 * dimension, o) || !plausible(o)
  {
    found := ScanWindows(data, 4 * dimension, plausible);
  }

  method ScanWindows(data: nat, window: nat, plausible: nat -> bool) returns (found: seq<nat>)
    requires window > 0 && window % 4 == 0
    ensures exists i: nat :: i + window > data && WindowsOk(data, window, plausible, found, i)
  {
    found := [];
    var i := 0;
    while i + window <= data
      invariant i % 4 == 0 && WindowsOk(data, window, plausible, found, i)
      decreases data + window - i
    {
      if plausible(i) {
        TakeWindow(data, window, plausible, found, i);
        found := found + [i];
        AlignedSum(i, window);
        i := i + window;
      } else {
        Slide(data, window, plausible, found, i);
        AlignedSum(i, 4);
        i := i + 4;
      }
    }
  }

  lemma AlignedSum(a: nat, b: nat)
    requires a % 4 == 0 && b % 4 == 0
    ensures (a + b) % 4 == 0
  {
  }

  lemma Slide(data: nat, window: nat, plausible: nat -> bool, found: seq<nat>, i: nat)
    requires WindowsOk(data, window, plausible, found, i) && i % 4 == 0 && !plausible(i)
    ensures WindowsOk(data, window, plausible, found, i + 4)
  {
    forall o | 0 <= o < i + 4 && o % 4 == 0 && o + window <= data
      ensures InWindow(found, window, o) || !plausible(o)
    {
      assert o < i || o == i;
    }
  }

  lemma TakeWindow(data: nat, window: nat, plausible: nat -> bool, found: seq<nat>, i: nat)
    requires WindowsOk(data, window, plausible, found, i) && i % 4 == 0 && window > 0
    requires WindowAt(data, window, plausible, i)
    ensures WindowsOk(data, window, plausible, found + [i], i + window)
  {
    TakeSwept(data, window, plausible, found, i);
  }

  lemma TakeSwept(data: nat, window: nat, plausible: nat -> bool, found: seq<nat>, i: nat)
    requires Swept(data, window, plausible, found, i)
    ensures Swept(data, window, plausible, found + [i], i + window)
  {
    forall o | 0 <= o < i + window && o % 4 == 0 && o + window <= data
      ensures InWindow(found + [i], window, o) || !plausible(o)
    {
      InWindowPush(found, i, window, o);
    }
  }

  lemma InWindowPush(found: seq<nat>, i: nat, window: nat, o: int)
    ensures InWindow(found + [i], window, o) <==> InWindow(found, window, o) || i <= o < i + window
  {
    var found' := found + [i];
    if InWindow(found, window, o) {
      var n :| 0 <= n < |found| && found[n] <= o < found[n] + window;
      assert found'[n] == found[n];
    }
    if i <= o < i + window {
      assert found'[|found|] == i;
    }
  }
}
