/**
 Embedding generation for one knowledge-base source: the chunks without an embedding are processed in
 batches of ten with a commit after each, so a run that fails leaves whole batches behind and the next
 run goes on from there.  The embedding service and every commit may fail.
 */
module Embedding {
  import opened Options

  type Vector = seq<real>

  datatype Chunk = Chunk(content: string, embedding: Option<Vector>)

  datatype Status = Pending | Embedding | Embedded | Failed

  /** What one call to the embedding service answers, and whether the commit after it succeeds. */
  datatype Answer = Raises | Answer(vectors: seq<Vector>, commits: bool)

  /** Everything one run depends on besides the table; `batch` is indexed by batch number. */
  datatype RunWorld = RunWorld(startCommits: bool, batch: nat -> Answer, finalCommits: bool, failureCommits: bool)

  datatype Report = Report(status: Status, chunksProcessed: nat)

  const BATCH_SIZE: nat := 10

  // ---------- the chunks still to do, in chunk order ----------

  function Missing(chunks: seq<Chunk>): seq<nat> {
    if chunks == [] then []
    else
      var n := |chunks| - 1;
      Missing(chunks[..n]) + (if chunks[n].embedding.None? then [n] else [])
  }

  /** The list holds exactly the chunks without an embedding. */
  lemma {:induction false} MissingMeans(chunks: seq<Chunk>)
    ensures forall k :: 0 <= k < |Missing(chunks)| ==> IsMissing(chunks, Missing(chunks)[k])
    ensures forall i: nat :: IsMissing(chunks, i) ==> i in Missing(chunks)
  {
    if chunks != [] {
      var front := chunks[..|chunks| - 1];
      MissingMeans(front);
      assert forall i: nat :: IsMissing(front, i) <==> IsMissing(chunks, i) && i < |front|;
    }
  }

  predicate IsMissing(chunks: seq<Chunk>, i: nat) {
    i < |chunks| && chunks[i].embedding.None?
  }

  lemma {:induction false} MissingIncreases(chunks: seq<Chunk>)
    ensures forall j, k :: 0 <= j < k < |Missing(chunks)| ==> Missing(chunks)[j] < Missing(chunks)[k]
  {
    if chunks != [] {
      MissingIncreases(chunks[..|chunks| - 1]);
      MissingMeans(chunks[..|chunks| - 1]);
    }
  }

  /** Giving the first missing chunk its embedding takes it, and only it, off the list. */
  lemma {:induction false} FillFirst(chunks: seq<Chunk>, chunk: Chunk)
    requires Missing(chunks) != [] && chunk.embedding.Some?
    ensures Missing(chunks)[0] < |chunks|
    ensures Missing(chunks[Missing(chunks)[0] := chunk]) == Missing(chunks)[1..]
  {
    var n := |chunks| - 1;
    var front, m := chunks[..n], Missing(chunks)[0];
    MissingMeans(chunks);
    if Missing(front) != [] {
      FillFirst(front, chunk);
      assert chunks[m := chunk][..n] == front[m := chunk];
    } else {
      assert chunks[m := chunk][..n] == front;
    }
  }

  // ---------- one run ----------

  /** Contents and existing embeddings are untouched; only missing embeddings were added. */
  ghost predicate OnlyAdds(before: seq<Chunk>, after: seq<Chunk>) {
    |after| == |before| && forall i :: 0 <= i < |before| ==>
      after[i].content == before[i].content && (before[i].embedding.Some? ==> after[i] == before[i])
  }

  /** A whole-batch prefix of the missing chunks was embedded: the list lost its first `n` entries. */
  ghost predicate Advanced(before: seq<Chunk>, after: seq<Chunk>, n: nat) {
    && OnlyAdds(before, after)
    && n <= |Missing(before)| && Missing(after) == Missing(before)[n..]
    && (n % BATCH_SIZE == 0 || n == |Missing(before)|)
  }

  /** Each of the first `n` missing chunks got the vector its own batch answered at its own place. */
  ghost predicate FilledBy(before: seq<Chunk>, after: seq<Chunk>, w: RunWorld, n: nat) {
    n <= |Missing(before)| && forall k :: 0 <= k < n ==> FilledAt(after, Missing(before)[k], w, k)
  }

  /** Chunk `i`, the `k`-th to do, carries the vector at its place in batch k / 10. */
  ghost predicate FilledAt(after: seq<Chunk>, i: nat, w: RunWorld, k: nat) {
    var a := w.batch(k / BATCH_SIZE);
    i < |after| && a.Answer? && k % BATCH_SIZE < |a.vectors| && after[i].embedding == Some(a.vectors[k % BATCH_SIZE])
  }

  function BatchLength(b: nat, n: nat): nat
    requires b * BATCH_SIZE < n
  {
    if n - b * BATCH_SIZE < BATCH_SIZE then n - b * BATCH_SIZE else BATCH_SIZE
  }

  // ---------- what a run does, as a function of its world ----------

  /** Batch `b` of a run over `n` missing chunks is answered in full and committed. */
  predicate GoodBatch(w: RunWorld, n: nat, b: nat)
    requires b * BATCH_SIZE < n
  {
    w.batch(b).Answer? && w.batch(b).commits && |w.batch(b).vectors| == BatchLength(b, n)
  }

  /** The first batch from `b` on that is not good, or the number of batches. */
  function FirstBad(w: RunWorld, n: nat, b: nat): nat
    decreases n - b * BATCH_SIZE
  {
    if b * BATCH_SIZE >= n || !GoodBatch(w, n, b) then b else FirstBad(w, n, b + 1)
  }

  lemma {:induction false} FirstBadMeans(w: RunWorld, n: nat, b: nat)
    ensures var f := FirstBad(w, n, b);
      && b <= f && (f * BATCH_SIZE >= n || !GoodBatch(w, n, f))
      && forall k :: b <= k < f ==> k * BATCH_SIZE < n && GoodBatch(w, n, k)
    decreases n - b * BATCH_SIZE
  {
    if b * BATCH_SIZE < n && GoodBatch(w, n, b) {
      FirstBadMeans(w, n, b + 1);
    }
  }

  /** How many of `n` missing chunks the run commits: the whole batches before the first bad one. */
  function Committed(w: RunWorld, n: nat): (c: nat)
    ensures c <= n
  {
    var f := FirstBad(w, n, 0);
    if !w.startCommits then 0 else if f * BATCH_SIZE >= n then n else f * BATCH_SIZE
  }

  /** How many it counts without committing them: the vectors paired before the bad batch was given up. */
  function Overcount(w: RunWorld, n: nat): nat {
    var f := FirstBad(w, n, 0);
    if !w.startCommits || f * BATCH_SIZE >= n || w.batch(f).Raises? then 0
    else if |w.batch(f).vectors| < BatchLength(f, n) then |w.batch(f).vectors| else BatchLength(f, n)
  }

  /** Every commit succeeds and every batch is good. */
  predicate Healthy(w: RunWorld, n: nat) {
    w.startCommits && w.finalCommits && FirstBad(w, n, 0) * BATCH_SIZE >= n
  }

  /** A batch of ten, the last perhaps shorter, gets one vector for each of its chunks, and is committed. */
  predicate AnsweredInFull(w: RunWorld, n: nat, b: nat) {
    10 * b < n ==>
      w.batch(b).Answer? && w.batch(b).commits && |w.batch(b).vectors| == if n - 10 * b < 10 then n - 10 * b else 10
  }

  /** A run is healthy exactly when every commit works and every batch is answered in full. */
  lemma HealthyMeans(w: RunWorld, n: nat)
    ensures Healthy(w, n) <==> w.startCommits && w.finalCommits && forall b: nat :: AnsweredInFull(w, n, b)
  {
    FirstBadMeans(w, n, 0);
    var f := FirstBad(w, n, 0);
    if f * BATCH_SIZE >= n {
      forall b: nat
        ensures AnsweredInFull(w, n, b)
      {
        if 10 * b < n {
          assert b < f;
          assert GoodBatch(w, n, b);
        }
      }
    } else {
      assert !AnsweredInFull(w, n, f);
    }
  }

  /** Exactly when the report counts chunks that were not committed: the batch that stops it got a vector. */
  lemma OvercountsWhen(w: RunWorld, n: nat)
    ensures Overcount(w, n) > 0 <==> w.startCommits && exists b: nat ::
      b * BATCH_SIZE < n && StopsAt(w, n, b) && w.batch(b).Answer? && w.batch(b).vectors != []
    ensures Overcount(w, n) <= BATCH_SIZE && Committed(w, n) + Overcount(w, n) <= n
  {
    var f := FirstBad(w, n, 0);
    FirstBadMeans(w, n, 0);
    assert f * BATCH_SIZE < n ==> StopsAt(w, n, f);
    forall b: nat | b * BATCH_SIZE < n && StopsAt(w, n, b)
      ensures b == f
    {
      FirstBadIs(w, n, b);
    }
  }

  lemma FirstBadIs(w: RunWorld, n: nat, b: nat)
    requires b * BATCH_SIZE < n && StopsAt(w, n, b)
    ensures b == FirstBad(w, n, 0)
  {
    FirstBadMeans(w, n, 0);
  }

  predicate StopsAt(w: RunWorld, n: nat, b: nat)
    requires b * BATCH_SIZE < n
  {
    !GoodBatch(w, n, b) && forall k: nat :: k < b ==> GoodBatch(w, n, k)
  }

  /** Three chunks, all answered, and the commit fails: none is stored and three are reported. */
  lemma OvercountExample() returns (w: RunWorld)
    ensures w.startCommits && Committed(w, 3) == 0 && Overcount(w, 3) == 3
  {
    w := RunWorld(true, b => Answer([[], [], []], false), true, true);
    assert !GoodBatch(w, 3, 0);
  }

  /** The table rows of the source and its chunks, as committed. */
  class Source {
    var chunks: seq<Chunk>
    var status: Status

    /** The invariant every run keeps: a source marked embedded is embedded completely. */
    ghost predicate Valid()
      reads this
    {
      status == Embedded ==> Missing(chunks) == []
    }

    constructor (chunks: seq<Chunk>)
      ensures this.chunks == chunks && status == Pending && Valid()
    {
      this.chunks, status := chunks, Pending;
    }

    /** generate_embeddings_task: everything it does is a function of its world and of what was missing. */
    method GenerateEmbeddings(w: RunWorld) returns (r: Report)
      requires Valid()
      modifies this
      ensures Valid()
      ensures var n := |Missing(old(chunks))|;
        && Advanced(old(chunks), chunks, Committed(w, n)) && FilledBy(old(chunks), chunks, w, Committed(w, n))
        && r == Report(if Healthy(w, n) then Embedded else Failed, Committed(w, n) + Overcount(w, n))
        && status == (if Healthy(w, n) then Embedded else if w.failureCommits then Failed
                      else if w.startCommits then Embedding else old(status))
    {
      var raised, processed := Process(w);
      if raised {
        if w.failureCommits {
          status := Failed;
        }
        r := Report(Failed, processed);
      } else {
        r := Report(Embedded, processed);
      }
    }

    /** The body of the job's try block; `raised` when an exception leaves it. */
    method Process(w: RunWorld) returns (raised: bool, processed: nat)
      requires Valid()
      modifies this
      ensures Valid()
      ensures var n := |Missing(old(chunks))|;
        && Advanced(old(chunks), chunks, Committed(w, n)) && FilledBy(old(chunks), chunks, w, Committed(w, n))
        && processed == Committed(w, n) + Overcount(w, n) && (raised <==> !Healthy(w, n))
      ensures status == if !raised then Embedded else if w.startCommits then Embedding else old(status)
    {
      processed := 0;
      if !w.startCommits {
        return true, 0;
      }
      status := Embedding;
      var stopped;
      stopped, processed := ProcessBatches(w);
      if stopped || !w.finalCommits {
        return true, processed;
      }
      status := Embedded;
      raised := false;
    }

    /** The batch loop; `stopped` when a batch is not good. */
    method ProcessBatches(w: RunWorld) returns (stopped: bool, processed: nat)
      requires w.startCommits
      modifies this`chunks
      ensures var n := |Missing(old(chunks))|;
        && Advanced(old(chunks), chunks, Committed(w, n)) && FilledBy(old(chunks), chunks, w, Committed(w, n))
        && processed == Committed(w, n) + Overcount(w, n) && (stopped <==> FirstBad(w, n, 0) * BATCH_SIZE < n)
    {
      processed := 0;
      var missing := Missing(chunks);
      assert Missing(chunks)[0..] == missing;
      var i := 0;
      ghost var b := 0;
      while i < |missing|
        invariant i == (if b * BATCH_SIZE < |missing| then b * BATCH_SIZE else |missing|) && processed == i
        invariant FirstBad(w, |missing|, b) == FirstBad(w, |missing|, 0)
        invariant Advanced(old(chunks), chunks, i) && FilledBy(old(chunks), chunks, w, i)
      {
        var done, size, committed := ProcessNext(w, missing, i, b, old(chunks));
        processed := processed + done;
        if !committed {
          return true, processed;
        }
        i := i + size;
        b := b + 1;
      }
      stopped := false;
    }

    /** The batch that starts at `missing[i]`. */
    method ProcessNext(w: RunWorld, missing: seq<nat>, i: nat, ghost b: nat, ghost before: seq<Chunk>)
      returns (done: nat, size: nat, committed: bool)
      requires missing == Missing(before) && i == b * BATCH_SIZE < |missing|
      requires Advanced(before, chunks, i) && FilledBy(before, chunks, w, i)
      modifies this`chunks
      ensures size == BatchLength(b, |missing|) && (committed <==> GoodBatch(w, |missing|, b))
      ensures done == if w.batch(b).Raises? then 0
                      else if |w.batch(b).vectors| < size then |w.batch(b).vectors| else size
      ensures !committed ==> chunks == old(chunks)
      ensures committed ==> Advanced(before, chunks, i + size) && FilledBy(before, chunks, w, i + size)
    {
      size := if |missing| - i < BATCH_SIZE then |missing| - i else BATCH_SIZE;
      assert i / BATCH_SIZE == b;
      done, committed := ProcessBatch(w.batch(i / BATCH_SIZE), missing[i..i + size]);
      if committed {
        Advance(before, old(chunks), chunks, w, i, size);
      }
    }

    /** One batch: the vectors are paired with the chunks in memory, and the commit makes them count. */
    method ProcessBatch(answer: Answer, batch: seq<nat>) returns (done: nat, committed: bool)
      requires batch != [] && |batch| <= |Missing(chunks)| && batch == Missing(chunks)[..|batch|]
      modifies this`chunks
      ensures done == if answer.Raises? then 0 else if |answer.vectors| < |batch| then |answer.vectors| else |batch|
      ensures committed <==> answer.Answer? && answer.commits && |answer.vectors| == |batch|
      ensures committed ==> Filled(old(chunks), chunks, batch, answer.vectors, |batch|)
      ensures !committed ==> chunks == old(chunks)
    {
      done := 0;
      if answer.Raises? {
        return 0, false;
      }
      var session := chunks;
      ghost var before := chunks;
      assert Missing(before)[0..] == Missing(before);
      // zip(batch, embeddings, strict=True)
      while done < |batch| && done < |answer.vectors|
        invariant done <= |batch| && done <= |answer.vectors|
        invariant Filled(before, session, batch, answer.vectors, done) && chunks == before
      {
        FillNext(before, session, batch, answer.vectors, done);
        session := session[batch[done] := session[batch[done]].(embedding := Some(answer.vectors[done]))];
        done := done + 1;
      }
      if |answer.vectors| != |batch| || !answer.commits {
        return done, false;
      }
      chunks := session;
      committed := true;
    }
  }

  /** The first `n` chunks of the batch carry their vectors; everything else is as before. */
  ghost predicate Filled(before: seq<Chunk>, after: seq<Chunk>, batch: seq<nat>, vectors: seq<Vector>, n: nat) {
    && OnlyAdds(before, after)
    && n <= |batch| && n <= |vectors| && n <= |Missing(before)| && Missing(after) == Missing(before)[n..]
    && forall k :: 0 <= k < n ==> batch[k] < |after| && after[batch[k]].embedding == Some(vectors[k])
  }

  lemma FillNext(before: seq<Chunk>, session: seq<Chunk>, batch: seq<nat>, vectors: seq<Vector>, n: nat)
    requires Filled(before, session, batch, vectors, n) && n < |batch| && n < |vectors|
    requires |batch| <= |Missing(before)| && batch == Missing(before)[..|batch|]
    ensures batch[n] < |session|
    ensures Filled(before, session[batch[n] := session[batch[n]].(embedding := Some(vectors[n]))],
                   batch, vectors, n + 1)
  {
    MissingMeans(session);
    MissingIncreases(before);
    assert batch[n] == Missing(before)[n] == Missing(session)[0];
    FillFirst(session, session[batch[n]].(embedding := Some(vectors[n])));
    assert Missing(before)[n..][1..] == Missing(before)[n + 1..];
    assert forall k :: 0 <= k < n ==> batch[k] == Missing(before)[k] && batch[k] != batch[n];
  }

  lemma Advance(before: seq<Chunk>, mid: seq<Chunk>, after: seq<Chunk>, w: RunWorld, n: nat, size: nat)
    requires Advanced(before, mid, n) && FilledBy(before, mid, w, n) && n % BATCH_SIZE == 0
    requires 0 < size <= BATCH_SIZE && n + size <= |Missing(before)|
    requires size == BATCH_SIZE || n + size == |Missing(before)|
    requires w.batch(n / BATCH_SIZE).Answer?
    requires Filled(mid, after, Missing(before)[n..n + size], w.batch(n / BATCH_SIZE).vectors, size)
    ensures Advanced(before, after, n + size) && FilledBy(before, after, w, n + size)
  {
    assert Missing(before)[n..][size..] == Missing(before)[n + size..];
    forall k | 0 <= k < n + size
      ensures FilledAt(after, Missing(before)[k], w, k)
    {
      if k >= n {
        BatchPlace(n, k);
        assert Missing(before)[n..n + size][k - n] == Missing(before)[k];
      } else {
        assert FilledAt(mid, Missing(before)[k], w, k);
      }
    }
  }

  lemma BatchPlace(n: nat, k: nat)
    requires n % BATCH_SIZE == 0 && n <= k < n + BATCH_SIZE
    ensures k / BATCH_SIZE == n / BATCH_SIZE && k % BATCH_SIZE == k - n
  {
  }

  // ---------- any sequence of runs ----------

  /** The chunks the first `i` runs commit, when `n` were missing at their start. */
  function CommittedBy(worlds: seq<RunWorld>, i: nat, n: nat): (total: nat)
    requires i <= |worlds|
    ensures total <= n
  {
    if i == 0 then 0
    else
      var earlier := CommittedBy(worlds, i - 1, n);
      earlier + Committed(worlds[i - 1], n - earlier)
  }

  /** After `i` runs; a healthy last one completed the source. */
  ghost predicate RanSoFar(source: Source, start: seq<Chunk>, worlds: seq<RunWorld>, i: nat)
    reads source
  {
    && i <= |worlds| && source.Valid()
    && Advanced(start, source.chunks, CommittedBy(worlds, i, |Missing(start)|))
    && (i > 0 && Healthy(worlds[i - 1], |Missing(start)| - CommittedBy(worlds, i - 1, |Missing(start)|)) ==>
          source.status == Embedded)
  }

  /** Runs the job once for every element of `worlds`. */
  method RunAll(source: Source, worlds: seq<RunWorld>)
    requires source.Valid()
    modifies source
    ensures RanSoFar(source, old(source.chunks), worlds, |worlds|)
  {
    NothingRan(source, worlds);
    for i := 0 to |worlds|
      invariant RanSoFar(source, old(source.chunks), worlds, i)
    {
      RunOnce(source, worlds, i, old(source.chunks));
    }
  }

  lemma NothingRan(source: Source, worlds: seq<RunWorld>)
    requires source.Valid()
    ensures RanSoFar(source, source.chunks, worlds, 0)
  {
    AdvancedNone(source.chunks);
  }

  lemma AdvancedNone(chunks: seq<Chunk>)
    ensures Advanced(chunks, chunks, 0)
  {
    assert Missing(chunks)[0..] == Missing(chunks);
  }

  method RunOnce(source: Source, worlds: seq<RunWorld>, i: nat, ghost start: seq<Chunk>)
    requires i < |worlds| && RanSoFar(source, start, worlds, i)
    modifies source
    ensures RanSoFar(source, start, worlds, i + 1)
  {
    RunNext(source, worlds[i], start, CommittedBy(worlds, i, |Missing(start)|));
    RanNext(source, start, worlds, i, |Missing(start)|);
  }

  lemma RanNext(source: Source, start: seq<Chunk>, worlds: seq<RunWorld>, i: nat, n: nat)
    requires i < |worlds| && n == |Missing(start)| && source.Valid()
    requires var earlier := CommittedBy(worlds, i, n);
      && Advanced(start, source.chunks, earlier + Committed(worlds[i], n - earlier))
      && (Healthy(worlds[i], n - earlier) ==> source.status == Embedded)
    ensures RanSoFar(source, start, worlds, i + 1)
  {
    CommittedNext(worlds, i, n);
  }

  lemma CommittedNext(worlds: seq<RunWorld>, i: nat, n: nat)
    requires i < |worlds|
    ensures var earlier := CommittedBy(worlds, i, n);
      CommittedBy(worlds, i + 1, n) == earlier + Committed(worlds[i], n - earlier)
  {
  }

  /** One more run after `earlier` of the missing chunks were committed. */
  method RunNext(source: Source, w: RunWorld, ghost start: seq<Chunk>, ghost earlier: nat)
    requires source.Valid() && Advanced(start, source.chunks, earlier)
    modifies source
    ensures source.Valid()
    ensures Advanced(start, source.chunks, earlier + Committed(w, |Missing(start)| - earlier))
    ensures Healthy(w, |Missing(start)| - earlier) ==> source.status == Embedded
  {
    ghost var mid := source.chunks;
    AdvancedCount(start, mid, earlier);
    var _ := source.GenerateEmbeddings(w);
    AdvancedTrans(start, mid, source.chunks, earlier, Committed(w, |Missing(mid)|));
  }

  lemma AdvancedCount(a: seq<Chunk>, b: seq<Chunk>, n: nat)
    requires Advanced(a, b, n)
    ensures |Missing(b)| == |Missing(a)| - n
  {
  }

  /** Progress adds up: two runs in a row advance by whole batches of what was missing at the start. */
  lemma AdvancedTrans(a: seq<Chunk>, b: seq<Chunk>, c: seq<Chunk>, m: nat, n: nat)
    requires Advanced(a, b, m) && Advanced(b, c, n)
    ensures Advanced(a, c, m + n)
  {
    assert Missing(a)[m..][n..] == Missing(a)[m + n..];
  }
}
