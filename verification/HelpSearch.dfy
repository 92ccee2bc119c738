/** Ranking in the help search: term expansion, and the merge of two result lists. */
module HelpSearch {
  import opened Strings
  import opened Sorting
  import opened HelpScore
  import opened Rounding

  // ---------- _expand_query_terms ----------

  predicate TokenChar(c: char) {
    'a' <= c <= 'z' || '0' <= c <= '9'
  }

  /** The length of the run of token characters a text starts with. */
  function RunLength(s: string): (n: nat)
    ensures n <= |s| && (n < |s| ==> !TokenChar(s[n]))
    ensures forall k :: 0 <= k < n ==> TokenChar(s[k])
  {
    if s == "" || !TokenChar(s[0]) then 0 else 1 + RunLength(s[1..])
  }

  /** re.findall(r"[a-z0-9]+", s) */
  function Tokens(s: string): seq<string>
    decreases |s|
  {
    if s == "" then []
    else if !TokenChar(s[0]) then Tokens(s[1..])
    else [s[..RunLength(s)]] + Tokens(s[RunLength(s)..])
  }

  function Blanked(s: string): (r: string)
    ensures |r| == |s| && forall k :: 0 <= k < |s| ==> r[k] == if TokenChar(s[k]) then s[k] else ' '
  {
    seq(|s|, k requires 0 <= k < |s| => if TokenChar(s[k]) then s[k] else ' ')
  }

  function Nonempty(parts: seq<string>): seq<string> {
    if parts == [] then [] else (if parts[0] == "" then [] else [parts[0]]) + Nonempty(parts[1..])
  }

  /** The tokens are the nonempty parts between the other characters. */
  lemma {:induction false} TokensAreParts(s: string)
    ensures Tokens(s) == Nonempty(Split(Blanked(s), ' '))
    decreases |s|
  {
    if s == "" {
      Unsplit(Blanked(s), ' ');
      NonemptyFirst("", []);
    } else if !TokenChar(s[0]) {
      assert Blanked(s) == "" + [' '] + Blanked(s[1..]);
      SplitHead("", Blanked(s[1..]), ' ');
      NonemptyFirst("", Split(Blanked(s[1..]), ' '));
      TokensAreParts(s[1..]);
    } else {
      if RunLength(s) == |s| {
        TokenAlone(s);
      } else {
        TokenThen(s, RunLength(s));
        TokensAreParts(s[RunLength(s) + 1..]);
      }
    }
  }

  lemma NonemptyFirst(first: string, rest: seq<string>)
    ensures Nonempty([first] + rest) == if first == "" then Nonempty(rest) else [first] + Nonempty(rest)
  {
    assert ([first] + rest)[1..] == rest;
  }

  /** A text that is one run. */
  lemma TokenAlone(s: string)
    requires s != "" && RunLength(s) == |s|
    ensures Tokens(s) == [s] && Nonempty(Split(Blanked(s), ' ')) == [s]
  {
    assert Blanked(s) == s && s[..|s|] == s && s[|s|..] == "";
    Unsplit(s, ' ');
    NonemptyFirst(s, []);
  }

  /** A text that starts with a run: its first token, and the rest behind the character that ends the run. */
  lemma TokenThen(s: string, n: nat)
    requires s != "" && 0 < n == RunLength(s) < |s|
    ensures Tokens(s) == [s[..n]] + Tokens(s[n + 1..])
    ensures Nonempty(Split(Blanked(s), ' ')) == [s[..n]] + Nonempty(Split(Blanked(s[n + 1..]), ' '))
  {
    assert s[n..][1..] == s[n + 1..];
    PartThen(s, s[..n], Blanked(s[n + 1..]), n);
  }

  lemma PartThen(s: string, first: string, rest: string, n: nat)
    requires 0 < n == RunLength(s) < |s| && first == s[..n] && rest == Blanked(s[n + 1..])
    ensures Nonempty(Split(Blanked(s), ' ')) == [first] + Nonempty(Split(rest, ' '))
  {
    BlankedRun(first, s[n], s[n + 1..]);
    assert s == first + [s[n]] + s[n + 1..];
    SplitHead(first, rest, ' ');
    NonemptyFirst(first, Split(rest, ' '));
  }

  lemma BlankedRun(first: string, c: char, tail: string)
    requires (forall k :: 0 <= k < |first| ==> TokenChar(first[k])) && !TokenChar(c)
    ensures Blanked(first + [c] + tail) == first + [' '] + Blanked(tail) && ' ' !in first
  {
    BlankedConcat(first + [c], tail);
    BlankedConcat(first, [c]);
    assert Blanked(first) == first && Blanked([c]) == [' '];
  }

  lemma BlankedConcat(a: string, b: string)
    ensures Blanked(a + b) == Blanked(a) + Blanked(b)
  {
  }

  function Push(terms: seq<string>, t: string): seq<string> {
    if t in terms then terms else terms + [t]
  }

  /** The texts of `all` without repeats, in order of first occurrence. */
  function Firsts(all: seq<string>): seq<string> {
    if all == [] then [] else Push(Firsts(all[..|all| - 1]), all[|all| - 1])
  }

  function Synonyms(token: string, synonyms: map<string, seq<string>>): seq<string> {
    if token in synonyms then synonyms[token] else []
  }

  /** Each token followed by its synonyms. */
  function Related(tokens: seq<string>, synonyms: map<string, seq<string>>): seq<string> {
    if tokens == [] then []
    else
      var last := tokens[|tokens| - 1];
      Related(tokens[..|tokens| - 1], synonyms) + [last] + Synonyms(last, synonyms)
  }

  ghost predicate NoRepeats<T>(xs: seq<T>) {
    forall i, j :: 0 <= i < j < |xs| ==> xs[i] != xs[j]
  }

  lemma {:induction false} FirstsMeans(all: seq<string>)
    ensures NoRepeats(Firsts(all)) && forall t :: t in Firsts(all) <==> t in all
  {
    if all != [] {
      FirstsMeans(all[..|all| - 1]);
      assert all == all[..|all| - 1] + [all[|all| - 1]];
    }
  }

  /** Terms keep the order of their first occurrence: more texts only add terms behind. */
  lemma {:induction false} FirstsPrefix(all: seq<string>, more: seq<string>)
    ensures Firsts(all) <= Firsts(all + more)
  {
    if more == [] {
      assert all + more == all;
    } else {
      var front, last := more[..|more| - 1], more[|more| - 1];
      FirstsPrefix(all, front);
      assert all + more == all + front + [last];
      FirstsPush(all + front, last);
    }
  }

  /** Token by token: a token, then its synonyms. */
  lemma RelatedPush(tokens: seq<string>, token: string, synonyms: map<string, seq<string>>)
    ensures Related([], synonyms) == []
    ensures Related(tokens + [token], synonyms)
         == Related(tokens, synonyms) + ([token] + if token in synonyms then synonyms[token] else [])
  {
    assert (tokens + [token])[..|tokens|] == tokens;
  }

  lemma FirstsPush(all: seq<string>, t: string)
    ensures Firsts(all + [t]) == Push(Firsts(all), t)
  {
    assert (all + [t])[..|all|] == all;
  }

  method ExpandQueryTerms(query: string, synonyms: map<string, seq<string>>) returns (terms: seq<string>)
    ensures NoRepeats(terms) && |terms| <= MAX_TERMS
    ensures var all := Firsts(Related(Tokens(Lower(query)), synonyms));
      Tokens(Lower(query)) != [] ==> terms == if |all| <= MAX_TERMS then all else all[..MAX_TERMS]
    ensures Tokens(Lower(query)) == [] ==> terms == if Strip(query) == "" then [] else [Lower(Strip(query))]
  {
    var tokens := Tokens(Lower(query));
    var expanded: seq<string> := [];
    var i := 0;
    while i < |tokens|
      invariant i <= |tokens| && expanded == Firsts(Related(tokens[..i], synonyms))
      invariant i > 0 ==> expanded != []
    {
      expanded := PushRelated(tokens[..i], tokens[i], expanded, synonyms);
      assert tokens[..i + 1][..i] == tokens[..i];
      i := i + 1;
    }
    assert tokens[..i] == tokens;
    FirstsMeans(Related(tokens, synonyms));
    if expanded == [] && Strip(query) != "" {
      expanded := expanded + [Lower(Strip(query))];
    }
    terms := if |expanded| <= MAX_TERMS then expanded else expanded[..MAX_TERMS];
  }

  method PushRelated(ghost done: seq<string>, token: string, expanded: seq<string>, synonyms: map<string, seq<string>>)
    returns (expanded': seq<string>)
    requires expanded == Firsts(Related(done, synonyms))
    ensures expanded' == Firsts(Related(done, synonyms) + [token] + Synonyms(token, synonyms))
    ensures expanded' != []
  {
    FirstsPush(Related(done, synonyms), token);
    expanded' := PushSynonyms(Related(done, synonyms) + [token], Push(expanded, token), Synonyms(token, synonyms));
  }

  method PushSynonyms(ghost done: seq<string>, expanded: seq<string>, more: seq<string>)
    returns (expanded': seq<string>)
    requires expanded == Firsts(done) != []
    ensures expanded' == Firsts(done + more) != []
  {
    expanded' := expanded;
    assert done + more[..0] == done;
    for k := 0 to |more|
      invariant expanded' == Firsts(done + more[..k]) != []
    {
      FirstsPush(done + more[..k], more[k]);
      assert done + more[..k + 1] == done + more[..k] + [more[k]];
      expanded' := Push(expanded', more[k]);
    }
    assert more[..|more|] == more;
  }

  // ---------- search_help: merge and rank ----------

  datatype Scored = Scored(topic: Topic, score: real)
  datatype Found = Found(topic: Topic, similarity: real)

  ghost predicate Ids(pool: seq<Scored>) {
    forall i, j :: 0 <= i < j < |pool| ==> pool[i].topic.id != pool[j].topic.id
  }

  predicate Has(pool: seq<Scored>, id: nat) {
    exists k :: 0 <= k < |pool| && pool[k].topic.id == id
  }

  /** A dictionary assignment: in place for a known id, at the end for a new one. */
  function Put(pool: seq<Scored>, x: Scored): seq<Scored> {
    if pool == [] then [x]
    else if pool[0].topic.id == x.topic.id then [x] + pool[1..]
    else [pool[0]] + Put(pool[1..], x)
  }

  lemma {:induction false} PutMeans(pool: seq<Scored>, x: Scored)
    requires Ids(pool)
    ensures Ids(Put(pool, x))
    ensures forall y :: y in Put(pool, x) <==> y == x || (y in pool && y.topic.id != x.topic.id)
  {
    if pool != [] && pool[0].topic.id != x.topic.id {
      PutMeans(pool[1..], x);
      forall y
        ensures y in Put(pool, x) <==> y == x || (y in pool && y.topic.id != x.topic.id)
      {
        assert y in pool <==> y == pool[0] || y in pool[1..];
      }
      forall y | y in Put(pool[1..], x)
        ensures y.topic.id != pool[0].topic.id
      {
        assert y == x || y in pool[1..];
      }
    } else if pool != [] {
      assert pool == [pool[0]] + pool[1..];
    }
  }

  predicate Precedes(a: Scored, b: Scored) {
    if a.score != b.score then a.score > b.score
    else PairLe((a.topic.section, a.topic.title), (b.topic.section, b.topic.title))
  }

  lemma PrecedesOrders()
    ensures Total(Precedes) && Transitive(Precedes)
  {
    PairOrder();
  }

  /** The similarity search: clamped scores by topic, the last row of a topic standing. */
  method SemanticScores(rows: seq<Scored>) returns (sem: seq<Scored>)
    ensures Ids(sem) && forall x :: x in sem ==> 0.0 <= x.score <= 1.0
    ensures forall y :: y in sem ==> exists r :: r in rows && y == Scored(r.topic, Clamp(r.score))
    ensures forall r :: r in rows ==> Has(sem, r.topic.id)
  {
    sem := [];
    for i := 0 to |rows|
      invariant Ids(sem) && forall x :: x in sem ==> 0.0 <= x.score <= 1.0
      invariant forall y :: y in sem ==> exists r :: r in rows && y == Scored(r.topic, Clamp(r.score))
      invariant forall k :: 0 <= k < i ==> Has(sem, rows[k].topic.id)
    {
      var x := Scored(rows[i].topic, Clamp(rows[i].score));
      PutMeans(sem, x);
      PutKeepsIds(sem, x);
      sem := Put(sem, x);
    }
  }

  lemma PutKeepsIds(pool: seq<Scored>, x: Scored)
    requires Ids(pool)
    ensures forall id :: Has(Put(pool, x), id) <==> Has(pool, id) || id == x.topic.id
  {
    PutMeans(pool, x);
    forall id
      ensures Has(Put(pool, x), id) <==> Has(pool, id) || id == x.topic.id
    {
      HasMeans(Put(pool, x), id);
      HasMeans(pool, id);
      assert x in Put(pool, x);
    }
  }

  lemma HasMeans(pool: seq<Scored>, id: nat)
    ensures Has(pool, id) <==> exists y :: y in pool && y.topic.id == id
  {
  }

  function ScoreIn(pool: seq<Scored>, id: nat): real {
    if pool == [] then 0.0 else if pool[0].topic.id == id then pool[0].score else ScoreIn(pool[1..], id)
  }

  lemma {:induction false} ScoreInMeans(pool: seq<Scored>, y: Scored)
    requires Ids(pool) && y in pool
    ensures ScoreIn(pool, y.topic.id) == y.score
  {
    if y != pool[0] {
      assert pool == [pool[0]] + pool[1..];
      ScoreInMeans(pool[1..], y);
    }
  }

  /** a * v + b * w, as computed */
  function Blend(fp: Floats, a: real, v: real, b: real, w: real): real {
    fp.add(fp.mul(a, v), fp.mul(b, w))
  }

  /** The score of a topic the text search found. */
  function LexicalBlend(fp: Floats, sem: seq<Scored>, t: Topic, lex: Topic -> real): real {
    if Has(sem, t.id) then Blend(fp, ScoreIn(sem, t.id), 0.7, lex(t), 0.3) else lex(t)
  }

  /** The score of a topic only the similarity search found. */
  function SemanticBlend(fp: Floats, x: Scored, lex: Topic -> real): real {
    Blend(fp, x.score, 0.85, lex(x.topic), 0.15)
  }

  /** The weights: 7 to 3 for a topic both searches found, 17 to 3 for one only the similarity search found. */
  lemma BlendWeights(sem: seq<Scored>, x: Scored, lex: Topic -> real)
    requires Ids(sem) && x in sem
    ensures LexicalBlend(ExactFloats(), sem, x.topic, lex) == 0.7 * x.score + 0.3 * lex(x.topic)
    ensures SemanticBlend(ExactFloats(), x, lex) == 0.85 * x.score + 0.15 * lex(x.topic)
    ensures forall t: Topic :: !Has(sem, t.id) ==> LexicalBlend(ExactFloats(), sem, t, lex) == lex(t)
  {
    ScoreInMeans(sem, x);
    assert Times(x.score, 0.7) == 0.7 * x.score && Times(lex(x.topic), 0.3) == 0.3 * lex(x.topic);
    assert Times(x.score, 0.85) == 0.85 * x.score && Times(lex(x.topic), 0.15) == 0.15 * lex(x.topic);
  }

  // The merged dictionary is built by one assignment per scored row.

  function PutAll(list: seq<Scored>): seq<Scored> {
    if list == [] then [] else Put(PutAll(list[..|list| - 1]), list[|list| - 1])
  }

  lemma PutAllPush(list: seq<Scored>, x: Scored)
    ensures PutAll(list + [x]) == Put(PutAll(list), x)
  {
    assert (list + [x])[..|list|] == list;
  }

  /** Distinct topics, each with one of its own scores, and none lost. */
  lemma {:induction false} PutAllMeans(list: seq<Scored>)
    ensures Ids(PutAll(list))
    ensures forall y :: y in PutAll(list) ==> y in list
    ensures forall id :: Has(PutAll(list), id) <==> Has(list, id)
  {
    if list != [] {
      var init, last := list[..|list| - 1], list[|list| - 1];
      assert list == init + [last];
      PutAllMeans(init);
      PutMeans(PutAll(init), last);
      PutKeepsIds(PutAll(init), last);
      HasPush(init, last);
    }
  }

  lemma HasPush(list: seq<Scored>, x: Scored)
    ensures forall id :: Has(list + [x], id) <==> Has(list, id) || id == x.topic.id
  {
    forall id
      ensures Has(list + [x], id) <==> Has(list, id) || id == x.topic.id
    {
      HasMeans(list + [x], id);
      HasMeans(list, id);
    }
  }

  function FromLexical(fp: Floats, lexical: seq<Topic>, sem: seq<Scored>, lex: Topic -> real): (list: seq<Scored>)
    ensures |list| == |lexical|
    ensures forall i :: 0 <= i < |list| ==> list[i] == Scored(lexical[i], LexicalBlend(fp, sem, lexical[i], lex))
  {
    seq(|lexical|, i requires 0 <= i < |lexical| => Scored(lexical[i], LexicalBlend(fp, sem, lexical[i], lex)))
  }

  /** The rows only the similarity search found. */
  function FromSemantic(fp: Floats, known: seq<Scored>, sem: seq<Scored>, lex: Topic -> real): seq<Scored> {
    if sem == [] then []
    else
      var x := sem[|sem| - 1];
      FromSemantic(fp, known, sem[..|sem| - 1], lex)
      + Addition(fp, known, x, lex)
  }

  method MergeLexical(fp: Floats, lexical: seq<Topic>, sem: seq<Scored>, lex: Topic -> real) returns (pool: seq<Scored>)
    ensures pool == PutAll(FromLexical(fp, lexical, sem, lex))
  {
    pool := [];
    ghost var list := FromLexical(fp, lexical, sem, lex);
    for i := 0 to |lexical|
      invariant pool == PutAll(list[..i])
    {
      var t := lexical[i];
      PutAllPush(list[..i], list[i]);
      assert list[..i + 1] == list[..i] + [list[i]];
      pool := Put(pool, Scored(t, if Has(sem, t.id) then Blend(fp, ScoreIn(sem, t.id), 0.7, lex(t), 0.3) else lex(t)));
    }
    assert list[..|lexical|] == list;
  }

  /** What one row of the similarity search adds. */
  function Addition(fp: Floats, known: seq<Scored>, x: Scored, lex: Topic -> real): seq<Scored> {
    if Has(known, x.topic.id) then [] else [Scored(x.topic, SemanticBlend(fp, x, lex))]
  }

  method MergeSemantic(fp: Floats, known: seq<Scored>, ghost list: seq<Scored>, sem: seq<Scored>, lex: Topic -> real)
    returns (pool: seq<Scored>)
    requires Ids(sem) && known == PutAll(list)
    ensures pool == PutAll(list + FromSemantic(fp, known, sem, lex))
  {
    pool := known;
    assert list + FromSemantic(fp, known, sem[..0], lex) == list;
    for i := 0 to |sem|
      invariant MergedSoFar(fp, known, list, sem, i, lex, pool)
    {
      pool := MergeRow(fp, known, list, sem, i, lex, pool);
    }
    assert sem[..|sem|] == sem;
  }

  /** The dictionary after the first `i` rows of the similarity search, and the topics it then has. */
  ghost predicate MergedSoFar(fp: Floats, known: seq<Scored>, list: seq<Scored>, sem: seq<Scored>, i: nat,
                              lex: Topic -> real,
                              pool: seq<Scored>) {
    && i <= |sem| && pool == PutAll(list + FromSemantic(fp, known, sem[..i], lex))
    && forall id :: Has(pool, id) <==> Has(known, id) || Has(sem[..i], id)
  }

  method MergeRow(fp: Floats, known: seq<Scored>, ghost list: seq<Scored>, sem: seq<Scored>, i: nat, lex: Topic -> real,
                  pool: seq<Scored>)
    returns (pool': seq<Scored>)
    requires Ids(sem) && i < |sem| && MergedSoFar(fp, known, list, sem, i, lex, pool)
    ensures MergedSoFar(fp, known, list, sem, i + 1, lex, pool')
  {
    NewId(sem, i);
    AddedNext(fp, known, list, sem, i, lex);
    pool' := MergeNext(fp, known, pool, list + FromSemantic(fp, known, sem[..i], lex), sem[i], lex);
    IdsNext(known, pool, pool', sem, i);
  }

  lemma IdsNext(known: seq<Scored>, pool: seq<Scored>, more: seq<Scored>, sem: seq<Scored>, i: nat)
    requires i < |sem| && forall id :: Has(pool, id) <==> Has(known, id) || Has(sem[..i], id)
    requires forall id :: Has(more, id) <==> Has(pool, id) || id == sem[i].topic.id
    ensures forall id :: Has(more, id) <==> Has(known, id) || Has(sem[..i + 1], id)
  {
    HasPush(sem[..i], sem[i]);
    assert sem[..i + 1] == sem[..i] + [sem[i]];
  }

  method MergeNext(fp: Floats, known: seq<Scored>, pool: seq<Scored>, ghost list: seq<Scored>, x: Scored,
                   lex: Topic -> real)
    returns (pool': seq<Scored>)
    requires pool == PutAll(list) && (Has(pool, x.topic.id) <==> Has(known, x.topic.id))
    ensures pool' == PutAll(list + Addition(fp, known, x, lex))
    ensures forall id :: Has(pool', id) <==> Has(pool, id) || id == x.topic.id
  {
    if Has(pool, x.topic.id) {
      assert list + [] == list;
      pool' := pool;
    } else {
      var y := Scored(x.topic, Blend(fp, x.score, 0.85, lex(x.topic), 0.15));
      PutAllPush(list, y);
      PutAllMeans(list);
      PutKeepsIds(pool, y);
      pool' := Put(pool, y);
    }
  }

  lemma NewId(sem: seq<Scored>, i: nat)
    requires Ids(sem) && i < |sem|
    ensures !Has(sem[..i], sem[i].topic.id)
  {
  }

  lemma AddedNext(fp: Floats, known: seq<Scored>, list: seq<Scored>, sem: seq<Scored>, i: nat, lex: Topic -> real)
    requires i < |sem|
    ensures list + FromSemantic(fp, known, sem[..i + 1], lex)
         == list + FromSemantic(fp, known, sem[..i], lex) + Addition(fp, known, sem[i], lex)
  {
    assert sem[..i + 1][..i] == sem[..i];
  }

  // ---------- the merged candidates ----------

  ghost predicate UnitScores(pool: seq<Scored>) {
    forall y :: y in pool ==> 0.0 <= y.score <= 1.0
  }

  ghost predicate UnitScorer(lex: Topic -> real) {
    forall t :: 0.0 <= lex(t) <= 1.0
  }

  lemma {:induction false} ScoreInRange(pool: seq<Scored>, id: nat)
    requires UnitScores(pool)
    ensures 0.0 <= ScoreIn(pool, id) <= 1.0
  {
    if pool != [] {
      assert pool[0] in pool;
      ScoreInRange(pool[1..], id);
    }
  }

  /** In 0..1 up to the rounding of two products and a sum; the clamp of the similarity comes later. */
  ghost predicate NearUnit(pool: seq<Scored>, e: real) {
    forall y :: y in pool ==> 0.0 <= y.score <= 1.0 + 3.0 * e
  }

  lemma BlendNearUnit(fp: Floats, e: real, a: real, v: real, b: real, w: real)
    requires Accurate(fp, e) && 0.0 <= a <= 1.0 && 0.0 <= b <= 1.0 && 0.0 <= v && 0.0 <= w && v + w == 1.0
    ensures 0.0 <= Blend(fp, a, v, b, w) <= 1.0 + 3.0 * e
  {
    MulRange(fp, e, a, v);
    MulRange(fp, e, b, w);
    AddRange(fp, e, fp.mul(a, v), fp.mul(b, w));
  }

  lemma MulRange(fp: Floats, e: real, a: real, v: real)
    requires MultipliesClose(fp, e) && 0.0 <= a <= 1.0 && 0.0 <= v <= 1.0
    ensures 0.0 <= fp.mul(a, v) <= v + e
  {
    Shrunk(a, v);
    assert MultipliesAt(fp, e, a, v);
  }

  lemma AddRange(fp: Floats, e: real, p: real, q: real)
    requires AddsClose(fp, e) && 0.0 <= e <= 0.001 && 0.0 <= p <= 2.0 && 0.0 <= q <= 2.0
    ensures 0.0 <= fp.add(p, q) <= p + q + e
  {
    assert Close(fp.add(p, q), p + q, e);
  }

  lemma Shrunk(a: real, v: real)
    requires 0.0 <= a <= 1.0 && 0.0 <= v
    ensures 0.0 <= a * v <= v
  {
    Product(a, v);
    Product(1.0 - a, v);
    assert (1.0 - a) * v == v - a * v;
  }

  ghost predicate TextFound(fp: Floats, y: Scored, lexical: seq<Topic>, sem: seq<Scored>, lex: Topic -> real) {
    y.topic in lexical && y.score == LexicalBlend(fp, sem, y.topic, lex)
  }

  ghost predicate OnlySimilar(fp: Floats, y: Scored, lexical: seq<Topic>, sem: seq<Scored>, lex: Topic -> real) {
    exists x :: x in sem && y == Scored(x.topic, SemanticBlend(fp, x, lex)) && !HasTopic(lexical, x.topic.id)
  }

  ghost predicate HasTopic(topics: seq<Topic>, id: nat) {
    exists t :: t in topics && t.id == id
  }

  /** Every topic found by either search once, with the score its origin gives it. */
  ghost predicate Merged(fp: Floats, pool: seq<Scored>, lexical: seq<Topic>, sem: seq<Scored>, lex: Topic -> real) {
    && Ids(pool)
    && (forall y :: y in pool ==> TextFound(fp, y, lexical, sem, lex) || OnlySimilar(fp, y, lexical, sem, lex))
    && forall id :: Has(pool, id) <==> HasTopic(lexical, id) || Has(sem, id)
  }

  lemma MergedNearUnit(fp: Floats, e: real, pool: seq<Scored>, lexical: seq<Topic>, sem: seq<Scored>,
                       lex: Topic -> real)
    requires Accurate(fp, e) && UnitScores(sem) && UnitScorer(lex) && Merged(fp, pool, lexical, sem, lex)
    ensures NearUnit(pool, e)
  {
    forall y | y in pool
      ensures 0.0 <= y.score <= 1.0 + 3.0 * e
    {
      if TextFound(fp, y, lexical, sem, lex) {
        TextNearUnit(fp, e, sem, y.topic, lex);
      } else {
        var x :| x in sem && y == Scored(x.topic, SemanticBlend(fp, x, lex)) && !HasTopic(lexical, x.topic.id);
        BlendNearUnit(fp, e, x.score, 0.85, lex(x.topic), 0.15);
      }
    }
  }

  lemma TextNearUnit(fp: Floats, e: real, sem: seq<Scored>, t: Topic, lex: Topic -> real)
    requires Accurate(fp, e) && UnitScores(sem) && UnitScorer(lex)
    ensures 0.0 <= LexicalBlend(fp, sem, t, lex) <= 1.0 + 3.0 * e
  {
    ScoreInRange(sem, t.id);
    BlendNearUnit(fp, e, ScoreIn(sem, t.id), 0.7, lex(t), 0.3);
  }

  method MergeBoth(fp: Floats, lexical: seq<Topic>, sem: seq<Scored>, lex: Topic -> real) returns (pool: seq<Scored>)
    requires Ids(sem)
    ensures Merged(fp, pool, lexical, sem, lex)
  {
    var known := MergeLexical(fp, lexical, sem, lex);
    ghost var list := FromLexical(fp, lexical, sem, lex);
    pool := MergeSemantic(fp, known, list, sem, lex);
    ghost var more := FromSemantic(fp, known, sem, lex);
    PutAllMeans(list);
    PutAllMeans(list + more);
    ListIds(fp, lexical, sem, lex);
    MoreMeans(fp, lexical, known, sem, lex);
    HasConcat(list, more);
  }

  lemma ListIds(fp: Floats, lexical: seq<Topic>, sem: seq<Scored>, lex: Topic -> real)
    ensures forall id :: Has(FromLexical(fp, lexical, sem, lex), id) <==> HasTopic(lexical, id)
    ensures forall y :: y in FromLexical(fp, lexical, sem, lex) ==> TextFound(fp, y, lexical, sem, lex)
  {
    var list := FromLexical(fp, lexical, sem, lex);
    forall id
      ensures Has(list, id) <==> HasTopic(lexical, id)
    {
      if HasTopic(lexical, id) {
        var t :| t in lexical && t.id == id;
        var k :| 0 <= k < |lexical| && lexical[k] == t;
        assert list[k].topic.id == id;
      }
    }
  }

  lemma {:induction false} MoreMeans(fp: Floats, lexical: seq<Topic>, known: seq<Scored>, sem: seq<Scored>,
                                     lex: Topic -> real)
    requires forall id :: Has(known, id) <==> HasTopic(lexical, id)
    ensures forall y :: y in FromSemantic(fp, known, sem, lex) ==> OnlySimilar(fp, y, lexical, sem, lex)
    ensures forall id :: Has(FromSemantic(fp, known, sem, lex), id) <==> Has(sem, id) && !Has(known, id)
  {
    if sem != [] {
      var init, last := sem[..|sem| - 1], sem[|sem| - 1];
      MoreMeans(fp, lexical, known, init, lex);
      assert sem == init + [last];
      HasPush(init, last);
      HasConcat(FromSemantic(fp, known, init, lex), Addition(fp, known, last, lex));
      AdditionIds(fp, known, last, lex);
      forall y | y in FromSemantic(fp, known, init, lex)
        ensures OnlySimilar(fp, y, lexical, sem, lex)
      {
        var x :| x in init && y == Scored(x.topic, SemanticBlend(fp, x, lex)) && !HasTopic(lexical, x.topic.id);
        assert x in sem;
      }
    }
  }

  lemma AdditionIds(fp: Floats, known: seq<Scored>, x: Scored, lex: Topic -> real)
    ensures forall id :: Has(Addition(fp, known, x, lex), id) <==> id == x.topic.id && !Has(known, id)
  {
    var added := Addition(fp, known, x, lex);
    if added != [] {
      assert added[0].topic.id == x.topic.id;
    }
  }

  lemma HasConcat(a: seq<Scored>, b: seq<Scored>)
    ensures forall id :: Has(a + b, id) <==> Has(a, id) || Has(b, id)
  {
    forall id
      ensures Has(a + b, id) <==> Has(a, id) || Has(b, id)
    {
      HasMeans(a + b, id);
      HasMeans(a, id);
      HasMeans(b, id);
    }
  }

  function Lex(fp: Floats, terms: seq<string>, query: string): Topic -> real {
    t => Computed(fp, t, terms, query)
  }

  lemma LexIsUnit(fp: Floats, terms: seq<string>, query: string)
    ensures UnitScorer(Lex(fp, terms, query))
  {
  }

  // ---------- the ranked result ----------

  const BONUS: real := 0.02

  /** The bonus of a topic without helpful feedback is zero, which leaves a score as it is. */
  function Similarity(fp: Floats, y: Scored, helpful: nat -> bool): real {
    Clamp(AddIf(fp, y.score, helpful(y.topic.id), BONUS))
  }

  /** The first results of the sorted candidates, each with its similarity. */
  ghost predicate Presents(fp: Floats, results: seq<Found>, ranked: seq<Scored>, helpful: nat -> bool) {
    && |results| <= |ranked|
    && forall i :: 0 <= i < |results| ==> results[i] == Found(ranked[i].topic, Similarity(fp, ranked[i], helpful))
  }

  /** As many of the best candidates as there are, up to `top_k`. */
  ghost predicate Ranked(fp: Floats, pool: seq<Scored>, top_k: nat, helpful: nat -> bool, results: seq<Found>) {
    Presents(fp, results, Sort(pool, Precedes), helpful) && |results| == if |pool| < top_k then |pool| else top_k
  }

  method Rank(fp: Floats, pool: seq<Scored>, top_k: nat, helpful: nat -> bool) returns (results: seq<Found>)
    ensures Ranked(fp, pool, top_k, helpful, results)
  {
    var ranked := Sort(pool, Precedes);
    SortKeeps(pool, Precedes);
    var count := if |ranked| < top_k then |ranked| else top_k;
    results := [];
    for i := 0 to count
      invariant |results| == i && Presents(fp, results, ranked, helpful)
    {
      results := results + [Found(ranked[i].topic, Similarity(fp, ranked[i], helpful))];
    }
  }

  /**
   The ranking a reader sees: each topic once, similarities in 0..1, never out of order by more than the
   bonus and the rounding of one sum, and only where a later topic has the bonus and the earlier has not.
   */
  lemma RankingMeans(fp: Floats, e: real, pool: seq<Scored>, results: seq<Found>, helpful: nat -> bool, i: nat, j: nat)
    requires Accurate(fp, e) && Ids(pool) && NearUnit(pool, e)
    requires Presents(fp, results, Sort(pool, Precedes), helpful) && i < j < |results|
    ensures results[i].topic.id != results[j].topic.id
    ensures 0.0 <= results[i].similarity <= 1.0 && 0.0 <= results[j].similarity <= 1.0
    ensures results[j].similarity <= results[i].similarity + BONUS + e
    ensures results[j].similarity > results[i].similarity ==>
      helpful(results[j].topic.id) && !helpful(results[i].topic.id)
  {
    var a, b := Sort(pool, Precedes)[i], Sort(pool, Precedes)[j];
    SortedFacts(pool, i, j);
    SortedNearUnit(pool, e, i);
    SortedNearUnit(pool, e, j);
    SimilaritiesOrdered(fp, e, a.score, b.score, helpful(a.topic.id), helpful(b.topic.id));
  }

  lemma SimilaritiesOrdered(fp: Floats, e: real, a: real, b: real, helpfulA: bool, helpfulB: bool)
    requires Accurate(fp, e) && 0.0 <= b <= a <= 1.0 + 3.0 * e
    ensures var x, y := Clamp(AddIf(fp, a, helpfulA, BONUS)), Clamp(AddIf(fp, b, helpfulB, BONUS));
      y <= x + BONUS + e && (y > x ==> helpfulB && !helpfulA)
  {
    assert fp.add(b, BONUS) <= fp.add(a, BONUS);
    assert Close(fp.add(b, BONUS), b + BONUS, e);
  }

  /** A topic with helpful feedback gains two hundredths, up to 1; the others keep their score. */
  lemma BonusMeans(y: Scored, helpful: nat -> bool)
    requires 0.0 <= y.score <= 1.0
    ensures Similarity(ExactFloats(), y, helpful) ==
      if !helpful(y.topic.id) then y.score else if y.score <= 0.98 then y.score + 0.02 else 1.0
  {
    assert Plus(y.score, BONUS) == y.score + 0.02;
  }

  /** Topics of equal score stand in the order of their sections, and within a section of their titles. */
  lemma TiesInOrder(pool: seq<Scored>, i: nat, j: nat)
    requires i < j < |Sort(pool, Precedes)| && Sort(pool, Precedes)[i].score == Sort(pool, Precedes)[j].score
    ensures var a, b := Sort(pool, Precedes)[i].topic, Sort(pool, Precedes)[j].topic;
      StringLe(a.section, b.section) && (a.section == b.section ==> StringLe(a.title, b.title))
  {
    var a, b := Sort(pool, Precedes)[i], Sort(pool, Precedes)[j];
    PrecedesOrders();
    SortSorts(pool, Precedes);
    assert Precedes(a, b);
    StringLeTotal(a.topic.section, b.topic.section);
  }

  lemma SortedNearUnit(pool: seq<Scored>, e: real, j: nat)
    requires NearUnit(pool, e) && j < |Sort(pool, Precedes)|
    ensures 0.0 <= Sort(pool, Precedes)[j].score <= 1.0 + 3.0 * e
  {
    SortKeeps(pool, Precedes);
    assert Sort(pool, Precedes)[j] in multiset(pool);
  }

  lemma SortedFacts(pool: seq<Scored>, i: nat, j: nat)
    requires i < j < |Sort(pool, Precedes)| && Ids(pool)
    ensures Sort(pool, Precedes)[j].score <= Sort(pool, Precedes)[i].score
    ensures Sort(pool, Precedes)[i].topic.id != Sort(pool, Precedes)[j].topic.id
  {
    var ranked := Sort(pool, Precedes);
    PrecedesOrders();
    SortSorts(pool, Precedes);
    assert Precedes(ranked[i], ranked[j]);
    SortKeeps(pool, Precedes);
    SameIds(pool, ranked, i, j);
  }

  lemma Twice(xs: seq<Scored>, i: nat, j: nat)
    requires i < j < |xs| && xs[i] == xs[j]
    ensures multiset(xs)[xs[i]] >= 2
  {
    assert xs == xs[..j] + [xs[j]] + xs[j + 1..];
    assert xs[..j][i] == xs[i];
  }

  lemma {:induction false} Once(pool: seq<Scored>, y: Scored)
    requires Ids(pool)
    ensures multiset(pool)[y] <= 1
  {
    if pool != [] {
      Once(pool[1..], y);
      assert pool == [pool[0]] + pool[1..];
    }
  }

  lemma SameIds(pool: seq<Scored>, ranked: seq<Scored>, i: nat, j: nat)
    requires Ids(pool) && multiset(ranked) == multiset(pool) && i < j < |ranked|
    ensures ranked[i].topic.id != ranked[j].topic.id
  {
    assert ranked[i] in multiset(pool) && ranked[j] in multiset(pool);
    if ranked[i] == ranked[j] {
      Twice(ranked, i, j);
      Once(pool, ranked[i]);
    }
  }

  /** A candidate left out scores no more than any topic shown. */
  lemma NothingBetterLeftOut(fp: Floats, pool: seq<Scored>, results: seq<Found>, helpful: nat -> bool, i: nat,
                             y: Scored)
    requires Ids(pool) && Presents(fp, results, Sort(pool, Precedes), helpful) && i < |results|
    requires y in pool && forall m :: 0 <= m < |results| ==> results[m].topic.id != y.topic.id
    ensures Sort(pool, Precedes)[i].topic == results[i].topic
    ensures y.score <= Sort(pool, Precedes)[i].score
  {
    var ranked := Sort(pool, Precedes);
    SortKeeps(pool, Precedes);
    assert y in multiset(ranked);
    var k :| 0 <= k < |ranked| && ranked[k] == y;
    SortedFacts(pool, i, k);
  }

  /** The strict pass scores against the whole query as one term. */
  method StrictPass(fp: Floats, strict: seq<Topic>, query: string) returns (pool: seq<Scored>)
    ensures Merged(fp, pool, strict, [], Lex(fp, [Lower(query)], query))
  {
    pool := MergeBoth(fp, strict, [], Lex(fp, [Lower(query)], query));
  }

  lemma NothingMerged(fp: Floats, pool: seq<Scored>, lexical: seq<Topic>, sem: seq<Scored>, lex: Topic -> real)
    requires Merged(fp, pool, lexical, sem, lex)
    ensures pool == [] <==> lexical == [] && sem == []
  {
    if lexical != [] {
      assert lexical[0] in lexical;
      assert HasTopic(lexical, lexical[0].id);
    }
    if sem != [] {
      HasMeans(sem, sem[0].topic.id);
    }
    if pool != [] {
      HasMeans(pool, pool[0].topic.id);
    }
  }

  /** The similarity scores: the rows' topics, each once, with the clamped score of one of its rows. */
  ghost predicate ScoresOf(similar: seq<Scored>, sem: seq<Scored>) {
    && Ids(sem) && (forall r :: r in similar ==> Has(sem, r.topic.id))
    && forall y :: y in sem ==> exists r :: r in similar && y == Scored(r.topic, Clamp(r.score))
  }

  /** The candidates the ranking starts from. */
  ghost predicate Candidates(fp: Floats, lexical: seq<Topic>, similar: seq<Scored>, strict: seq<Topic>,
                             terms: seq<string>,
                             query: string, pool: seq<Scored>) {
    if lexical == [] && similar == [] then Merged(fp, pool, strict, [], Lex(fp, [Lower(query)], query))
    else exists sem :: ScoresOf(similar, sem) && Merged(fp, pool, lexical, sem, Lex(fp, terms, query))
  }

  /** Whatever the two searches and the strict pass return, the candidates' scores are near 0..1. */
  lemma CandidatesNearUnit(fp: Floats, e: real, lexical: seq<Topic>, similar: seq<Scored>, strict: seq<Topic>,
                           terms: seq<string>, query: string, pool: seq<Scored>)
    requires Accurate(fp, e) && Candidates(fp, lexical, similar, strict, terms, query, pool)
    ensures Ids(pool) && NearUnit(pool, e)
  {
    if lexical == [] && similar == [] {
      LexIsUnit(fp, [Lower(query)], query);
      MergedNearUnit(fp, e, pool, strict, [], Lex(fp, [Lower(query)], query));
    } else {
      var sem :| ScoresOf(similar, sem) && Merged(fp, pool, lexical, sem, Lex(fp, terms, query));
      LexIsUnit(fp, terms, query);
      MergedNearUnit(fp, e, pool, lexical, sem, Lex(fp, terms, query));
    }
  }

  /** search_help after its queries: the rows of the text search, the similarity search and the strict pass. */
  method SearchHelp(fp: Floats, lexical: seq<Topic>, similar: seq<Scored>, strict: seq<Topic>, terms: seq<string>,
                    query: string,
                    top_k: nat, helpful: nat -> bool)
    returns (results: seq<Found>)
    ensures exists pool ::
      Candidates(fp, lexical, similar, strict, terms, query, pool) && Ranked(fp, pool, top_k, helpful, results)
  {
    var scores := SemanticScores(similar);
    var merged := MergeBoth(fp, lexical, scores, Lex(fp, terms, query));
    NothingMerged(fp, merged, lexical, scores, Lex(fp, terms, query));
    NoScores(similar, scores);
    if merged == [] {
      merged := StrictPass(fp, strict, query);
    }
    results := Rank(fp, merged, top_k, helpful);
    assert Candidates(fp, lexical, similar, strict, terms, query, merged);
  }

  lemma NoScores(rows: seq<Scored>, sem: seq<Scored>)
    requires forall y :: y in sem ==> exists r :: r in rows && y == Scored(r.topic, Clamp(r.score))
    requires forall r :: r in rows ==> Has(sem, r.topic.id)
    ensures sem == [] <==> rows == []
  {
    if rows != [] {
      assert rows[0] in rows;
    }
    if sem != [] {
      assert sem[0] in sem;
    }
  }
}
