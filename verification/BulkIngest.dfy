/**
 Bulk ingestion of knowledge-base files: counters and per-file statuses kept by one loop, published
 to the batch record after some of the files and at the end.  Extraction, embedding, commits and the
 record store may fail at any file.
 */
module BulkIngest {

  /** What one call to the embedding service does with a batch: raise, or answer with so many vectors. */
  datatype Answer = Raises | Vectors(count: nat)

  /** What becomes of a file, up to the point where its text is known. */
  datatype File =
    | InvalidId
    | NotOnDisk
    | ListingRaises
    | ExtractionRaises
    | SkippedImage
    | NoText
    | Chunked(chunks: nat, answers: seq<Answer>, commits: bool)

  datatype Reason = BadIdentifier | FileNotFound | NothingExtracted | Exception

  datatype FileStatus = Completed(chunks: nat) | Skipped | FailedWith(reason: Reason)

  datatype BatchStatus = Pending | Processing | Done | DoneWithErrors | Broken

  /** What the job finds of its batch: the record, nothing, or a store that cannot be read. */
  datatype Lookup = Found | Missing | Unreadable

  /**
   What a run meets, step by step: the record; whether the store takes the first status; whether the settings
   parse and the services start; whether the store takes the publication after each file and the last one;
   whether everything behind that one works; and whether the store takes the status of the failure handler.
   */
  datatype World = World(
    lookup: Lookup, starts: bool, prepares: bool, takes: seq<bool>, takesLast: bool, closes: bool, takesFailure: bool)

  /** What the job returns. */
  datatype Report = Failed | Finished(status: BatchStatus, filesCompleted: nat, totalChunks: nat)

  /** The counters and statuses, as the loop keeps them and as the record holds them. */
  datatype Progress = Progress(
    filesCompleted: nat, filesFailed: nat, totalChunks: nat, chunksEmbedded: nat, statuses: seq<FileStatus>)

  const BATCH_SIZE: nat := 10

  // ---------- conservation ----------

  function ChunkSum(statuses: seq<FileStatus>): nat {
    if statuses == [] then 0
    else
      var s := statuses[|statuses| - 1];
      ChunkSum(statuses[..|statuses| - 1]) + (if s.Completed? then s.chunks else 0)
  }

  function FailureCount(statuses: seq<FileStatus>): nat {
    if statuses == [] then 0
    else FailureCount(statuses[..|statuses| - 1]) + (if statuses[|statuses| - 1].FailedWith? then 1 else 0)
  }

  /** The counters say what the statuses say. */
  ghost predicate Conserved(p: Progress) {
    && p.filesCompleted + p.filesFailed == |p.statuses|
    && p.filesFailed == FailureCount(p.statuses)
    && p.totalChunks == p.chunksEmbedded == ChunkSum(p.statuses)
  }

  /** A status is the one its file calls for: completed exactly when every chunk was embedded and committed. */
  ghost predicate Judged(f: File, s: FileStatus) {
    match f
    case InvalidId => s == FailedWith(BadIdentifier)
    case NotOnDisk => s == FailedWith(FileNotFound)
    case ListingRaises => false
    case ExtractionRaises => s == FailedWith(Exception)
    case SkippedImage => s == Skipped
    case NoText => s == FailedWith(NothingExtracted)
    case Chunked(n, answers, commits) =>
      s == if commits && FullyAnswered(n, answers) then Completed(n) else FailedWith(Exception)
  }

  /** The answer to batch `b`; a service that stops answering raises. */
  function AnswerTo(answers: seq<Answer>, b: nat): Answer {
    if b < |answers| then answers[b] else Raises
  }

  ghost predicate FullyAnswered(n: nat, answers: seq<Answer>) {
    forall b: nat :: b * BATCH_SIZE < n ==> AnswerTo(answers, b) == Vectors(BatchLength(b, n))
  }

  function BatchLength(b: nat, n: nat): nat
    requires b * BATCH_SIZE < n
  {
    if n - b * BATCH_SIZE < BATCH_SIZE then n - b * BATCH_SIZE else BATCH_SIZE
  }

  /** The statuses are those of the first files, in order. */
  ghost predicate JudgedAll(files: seq<File>, statuses: seq<FileStatus>) {
    |statuses| <= |files| && forall i :: 0 <= i < |statuses| ==> Judged(files[i], statuses[i])
  }

  /** A version of the record: counters that agree with the statuses of the first files, in order. */
  ghost predicate VersionOk(files: seq<File>, p: Progress) {
    Conserved(p) && JudgedAll(files, p.statuses)
  }

  ghost predicate VersionsOk(files: seq<File>, versions: seq<Progress>) {
    forall i :: 0 <= i < |versions| ==> VersionOk(files, versions[i])
  }

  lemma PushVersion(files: seq<File>, versions: seq<Progress>, p: Progress)
    requires VersionsOk(files, versions) && VersionOk(files, p)
    ensures VersionsOk(files, versions + [p])
  {
  }

  predicate IsStart(p: Progress) {
    |p.statuses| == p.filesCompleted == p.filesFailed == p.totalChunks == p.chunksEmbedded == 0
  }

  method NewProgress() returns (p: Progress)
    ensures IsStart(p)
  {
    p := Progress(0, 0, 0, 0, []);
  }

  lemma StartOk(files: seq<File>, p: Progress)
    requires IsStart(p)
    ensures VersionOk(files, p)
  {
  }

  /** One more file judged in order. */
  lemma NextOk(files: seq<File>, p: Progress, q: Progress)
    requires VersionOk(files, p) && Conserved(q) && |p.statuses| < |files|
    requires |q.statuses| == |p.statuses| + 1 && q.statuses[..|p.statuses|] == p.statuses
    requires Judged(files[|p.statuses|], q.statuses[|p.statuses|])
    ensures VersionOk(files, q)
  {
    forall i | 0 <= i < |q.statuses|
      ensures Judged(files[i], q.statuses[i])
    {
      if i < |p.statuses| {
        assert q.statuses[i] == p.statuses[i];
      }
    }
  }

  lemma Push(p: Progress, s: FileStatus)
    requires Conserved(p)
    ensures Conserved(Count(p, s))
  {
    assert (p.statuses + [s])[..|p.statuses|] == p.statuses;
  }

  /** The counter updates that go with appending a status. */
  ghost function Count(p: Progress, s: FileStatus): Progress {
    Progress(p.filesCompleted + (if s.FailedWith? then 0 else 1), p.filesFailed + (if s.FailedWith? then 1 else 0),
             p.totalChunks + (if s.Completed? then s.chunks else 0),
             p.chunksEmbedded + (if s.Completed? then s.chunks else 0), p.statuses + [s])
  }

  // ---------- the job ----------

  /** The outcomes that reach the publication at the end of the loop body. */
  predicate Publishes(f: File) {
    f.Chunked? || f.ExtractionRaises?
  }

  /** Nothing stops the loop at the first `n` files. */
  ghost predicate RunsThrough(files: seq<File>, works: seq<bool>, n: nat) {
    n <= |files| && n <= |works| &&
    forall i :: 0 <= i < n ==> !files[i].ListingRaises? && (Publishes(files[i]) ==> works[i])
  }

  /** File `n` stops the loop, or with `n` files behind it the final publication fails. */
  ghost predicate Stops(files: seq<File>, works: seq<bool>, n: nat) {
    RunsThrough(files, works, n) && !RunsThrough(files, works, n + 1)
  }

  /** The first status is written, and then the loop is entered. */
  predicate Starts(w: World) {
    w.lookup.Found? && w.starts
  }

  predicate Enters(w: World) {
    Starts(w) && w.prepares
  }

  /** The final publication takes place. */
  ghost predicate Completes(files: seq<File>, w: World) {
    Enters(w) && RunsThrough(files, w.takes, |files|) && w.takesLast
  }

  /** The status of a complete record. */
  function Verdict(record: Progress): BatchStatus {
    if record.filesFailed == 0 then Done else DoneWithErrors
  }

  /** The status a run leaves: the last one the store took. */
  ghost function LastStatus(files: seq<File>, w: World, before: BatchStatus, record: Progress): BatchStatus {
    if w.lookup.Missing? then before
    else if !(Completes(files, w) && w.closes) && w.takesFailure then Broken
    else if Completes(files, w) then Verdict(record)
    else if Starts(w) then Processing
    else before
  }

  /** The chunks a file adds to the database. */
  ghost function ChunksOf(f: File): nat {
    if f.Chunked? && f.commits && FullyAnswered(f.chunks, f.answers) then f.chunks else 0
  }

  ghost function StoredBy(files: seq<File>, n: nat): nat
    requires n <= |files|
  {
    if n == 0 then 0 else StoredBy(files, n - 1) + ChunksOf(files[n - 1])
  }

  /** The files a run stores chunks of: one that stops the loop has stored its own. */
  function Handled(files: seq<File>, n: nat): nat {
    if n < |files| then n + 1 else |files|
  }

  /** The record counts the chunks its files stored. */
  lemma {:induction false} CountedIsStored(files: seq<File>, p: Progress)
    requires VersionOk(files, p)
    ensures p.totalChunks == StoredBy(files, |p.statuses|)
  {
    SumIsStored(files, p.statuses);
  }

  lemma {:induction false} SumIsStored(files: seq<File>, statuses: seq<FileStatus>)
    requires JudgedAll(files, statuses)
    ensures ChunkSum(statuses) == StoredBy(files, |statuses|)
  {
    if statuses != [] {
      var n := |statuses| - 1;
      SumIsStored(files, statuses[..n]);
      assert Judged(files[n], statuses[n]);
    }
  }

  /** How many of the first `n` files the last publication among them covers. */
  ghost function LastPublished(files: seq<File>, n: nat): nat
    requires n <= |files|
  {
    if n == 0 then 0 else if Publishes(files[n - 1]) then n else LastPublished(files, n - 1)
  }

  /** What `n` files leave in the record: the last published version, or what was there before. */
  ghost predicate Left(files: seq<File>, n: nat, before: Progress, record: Progress) {
    n <= |files| &&
    if LastPublished(files, n) == 0 then record == before
    else VersionOk(files, record) && |record.statuses| == LastPublished(files, n)
  }

  lemma LeftNext(files: seq<File>, n: nat, start: Progress, before: Progress, after: Progress, q: Progress)
    requires Left(files, n, start, before) && n < |files| && VersionOk(files, q) && |q.statuses| == n + 1
    requires after == if Publishes(files[n]) then q else before
    ensures Left(files, n + 1, start, after)
  {
  }

  lemma RunsNext(files: seq<File>, works: seq<bool>, n: nat)
    requires RunsThrough(files, works, n) && n < |files| && n < |works|
    requires !files[n].ListingRaises? && (Publishes(files[n]) ==> works[n])
    ensures RunsThrough(files, works, n + 1) && StoredBy(files, n + 1) == StoredBy(files, n) + ChunksOf(files[n])
  {
  }

  class Batch {
    const totalFiles: nat
    var status: BatchStatus
    /** The counters in the record, every version of them so far, and the chunks in the database. */
    var record: Progress
    ghost var published: seq<Progress>
    var storedChunks: nat

    /** Every published version conserves, never runs ahead, and describes the first files in order. */
    ghost predicate Valid(files: seq<File>)
      reads this
    {
      && |files| == totalFiles
      && published != [] && published[|published| - 1] == record
      && VersionsOk(files, published)
    }

    /** The record as the upload endpoint creates it. */
    constructor (files: seq<File>)
      ensures Valid(files) && status == Pending && IsStart(record) && storedChunks == 0
    {
      totalFiles, status, storedChunks := |files|, Pending, 0;
      var p := NewProgress();
      StartOk(files, p);
      record, published := p, [p];
    }

    method Publish(p: Progress, files: seq<File>, works: bool)
      requires Valid(files) && VersionOk(files, p)
      modifies this`record, this`published
      ensures Valid(files) && record == (if works then p else old(record))
    {
      if works {
        PushVersion(files, published, p);
        record, published := p, published + [p];
      }
    }

    /** bulk_ingest_kb_task.  The record may come from an earlier run of the job: the counters start from zero. */
    method Ingest(files: seq<File>, w: World) returns (report: Report)
      requires |w.takes| == |files| && Valid(files)
      modifies this
      ensures Valid(files)
      // the job succeeds exactly when nothing outside the files fails
      ensures report == if Completes(files, w) && w.closes
        then Finished(Verdict(record), record.filesCompleted, record.totalChunks) else Failed
      ensures status == LastStatus(files, w, old(status), record)
      // the final publication accounts for every file, whatever comes after it
      ensures Completes(files, w) ==> |record.statuses| == totalFiles == record.filesCompleted + record.filesFailed
      ensures Completes(files, w) ==> storedChunks == old(storedChunks) + record.totalChunks
      // a loop that is entered and stops leaves the version of the last file that published
      ensures Enters(w) && !Completes(files, w) ==>
        exists n :: Stops(files, w.takes, n) && Left(files, n, old(record), record)
          && storedChunks == old(storedChunks) + StoredBy(files, Handled(files, n))
      ensures !Enters(w) ==> record == old(record) && storedChunks == old(storedChunks)
    {
      if w.lookup.Missing? {
        return Failed;
      }
      var finished := false;
      if Starts(w) {
        status := Processing;
        if w.prepares {
          finished := IngestAll(files, w);
        }
      }
      if finished {
        return Finished(status, record.filesCompleted, record.totalChunks);
      }
      if w.takesFailure {
        status := Broken;
      }
      report := Failed;
    }

    /** The loop, the final publication and what comes after it. */
    method IngestAll(files: seq<File>, w: World) returns (finished: bool)
      requires |w.takes| == |files| && Valid(files) && Enters(w)
      modifies this
      ensures Valid(files) && finished == (Completes(files, w) && w.closes)
      ensures status == if Completes(files, w) then Verdict(record) else old(status)
      ensures Completes(files, w) ==> |record.statuses| == totalFiles == record.filesCompleted + record.filesFailed
      ensures Completes(files, w) ==> storedChunks == old(storedChunks) + record.totalChunks
      ensures !Completes(files, w) ==>
        exists n :: Stops(files, w.takes, n) && Left(files, n, old(record), record)
          && storedChunks == old(storedChunks) + StoredBy(files, Handled(files, n))
    {
      var p, stops, n := IngestFiles(files, w.takes);
      assert !stops ==> StoredBy(files, Handled(files, n)) == StoredBy(files, |files|);
      if stops || !w.takesLast {
        assert Stops(files, w.takes, n);
        return false;
      }
      CountedIsStored(files, p);
      Publish(p, files, true);
      status := Verdict(p);
      finished := w.closes;
    }

    /** The loop over the files, up to the one that stops it. */
    method IngestFiles(files: seq<File>, works: seq<bool>) returns (p: Progress, stops: bool, ghost n: nat)
      requires |works| == |files| && Valid(files)
      modifies this`record, this`published, this`storedChunks
      ensures Valid(files) && RunsThrough(files, works, n) && Left(files, n, old(record), record)
      ensures stops ==> n < |files| && !RunsThrough(files, works, n + 1)
      ensures !stops ==> n == |files| == |p.statuses| && VersionOk(files, p)
      ensures storedChunks == old(storedChunks) + StoredBy(files, Handled(files, n))
    {
      p := NewProgress();
      StartOk(files, p);
      n := 0;
      while |p.statuses| < |files|
        invariant n == |p.statuses| && Valid(files) && VersionOk(files, p)
        invariant storedChunks == old(storedChunks) + StoredBy(files, n)
        invariant Left(files, n, old(record), record) && RunsThrough(files, works, n)
        decreases |files| - |p.statuses|
      {
        ghost var before := record;
        p, stops := IngestFile(files, works, p);
        if stops {
          return;
        }
        LeftNext(files, n, old(record), before, record, p);
        RunsNext(files, works, n);
        n := n + 1;
      }
      stops := false;
    }

    /** One pass of the loop: `stops` when an exception leaves it. */
    method IngestFile(files: seq<File>, works: seq<bool>, p: Progress) returns (q: Progress, stops: bool)
      requires |works| == |files| && Valid(files) && VersionOk(files, p) && |p.statuses| < |files|
      modifies this`record, this`published, this`storedChunks
      ensures Valid(files)
      ensures var f := files[|p.statuses|]; stops <==> f.ListingRaises? || (Publishes(f) && !works[|p.statuses|])
      ensures stops ==> record == old(record)
      ensures !stops ==> VersionOk(files, q) && |q.statuses| == |p.statuses| + 1
      ensures !stops ==> record == if Publishes(files[|p.statuses|]) then q else old(record)
      // the chunks are stored even when the publication stops the loop
      ensures storedChunks == old(storedChunks) + ChunksOf(files[|p.statuses|])
    {
      q, stops := p, true;
      var file, stores := files[|p.statuses|], works[|p.statuses|];
      if file.ListingRaises? {
        return;
      }
      var publishes;
      q, publishes := HandleFile(file, p);
      NextOk(files, p, q);
      if publishes {
        Publish(q, files, stores);
      }
      stops := publishes && !stores;
    }

    /** One file; the early exits of the loop body skip the publication. */
    method HandleFile(file: File, p0: Progress) returns (p: Progress, publishes: bool)
      requires !file.ListingRaises? && Conserved(p0)
      modifies this`storedChunks
      ensures Conserved(p) && |p.statuses| == |p0.statuses| + 1 && p.statuses[..|p0.statuses|] == p0.statuses
      ensures Judged(file, p.statuses[|p0.statuses|])
      ensures storedChunks == old(storedChunks) + ChunksOf(file)
      ensures publishes <==> Publishes(file)
    {
      p, publishes := p0, false;
      match file {
        case InvalidId =>
          Push(p, FailedWith(BadIdentifier));
          p := p.(statuses := p.statuses + [FailedWith(BadIdentifier)], filesFailed := p.filesFailed + 1);
        case NotOnDisk =>
          Push(p, FailedWith(FileNotFound));
          p := p.(statuses := p.statuses + [FailedWith(FileNotFound)], filesFailed := p.filesFailed + 1);
        case SkippedImage =>
          Push(p, Skipped);
          p := p.(statuses := p.statuses + [Skipped], filesCompleted := p.filesCompleted + 1);
        case NoText =>
          Push(p, FailedWith(NothingExtracted));
          p := p.(statuses := p.statuses + [FailedWith(NothingExtracted)], filesFailed := p.filesFailed + 1);
        case ExtractionRaises =>
          Push(p, FailedWith(Exception));
          p, publishes := p.(statuses := p.statuses + [FailedWith(Exception)], filesFailed := p.filesFailed + 1), true;
        case Chunked(_, _, _) =>
          publishes := true;
          p := HandleChunks(file, p0);
      }
    }

    /** A file whose text was cut into chunks: all of them are embedded and committed, or none is. */
    method HandleChunks(file: File, p0: Progress) returns (p: Progress)
      requires file.Chunked? && Conserved(p0)
      modifies this`storedChunks
      ensures Conserved(p) && |p.statuses| == |p0.statuses| + 1 && p.statuses[..|p0.statuses|] == p0.statuses
      ensures Judged(file, p.statuses[|p0.statuses|])
      ensures storedChunks == old(storedChunks) + ChunksOf(file)
    {
      var n := file.chunks;
      var raised, embedded := EmbedChunks(n, file.answers);
      if raised || !file.commits {
        Push(p0, FailedWith(Exception));
        p := p0.(statuses := p0.statuses + [FailedWith(Exception)], filesFailed := p0.filesFailed + 1);
      } else {
        storedChunks := storedChunks + n;
        Push(p0, Completed(n));
        p := p0.(totalChunks := p0.totalChunks + n, chunksEmbedded := p0.chunksEmbedded + embedded,
                 filesCompleted := p0.filesCompleted + 1, statuses := p0.statuses + [Completed(n)]);
      }
    }
  }

  /** The embedding loop of one file: batches of ten, each answered in full or the file fails. */
  method EmbedChunks(n: nat, answers: seq<Answer>) returns (raised: bool, embedded: nat)
    ensures raised <==> !FullyAnswered(n, answers)
    ensures !raised ==> embedded == n
  {
    var i := 0;
    embedded := 0;
    while i < n
      invariant i % BATCH_SIZE == 0 && embedded == (if i < n then i else n)
      invariant forall b: nat :: b * BATCH_SIZE < i && b * BATCH_SIZE < n ==>
        AnswerTo(answers, b) == Vectors(BatchLength(b, n))
    {
      var b := i / BATCH_SIZE;
      var size := BatchLength(b, n);
      if AnswerTo(answers, b) != Vectors(size) {
        return true, embedded;
      }
      embedded := embedded + size;
      i := i + BATCH_SIZE;
    }
    raised := false;
  }
}
