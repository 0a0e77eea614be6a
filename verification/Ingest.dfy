/** Checkpointed ingestion: the kernel (searchkernel/kernel.py) and the resumable coordinator
    (searchkernel/indexing/coordinator.py) over one source and one durable cursor.

    A source numbers its records 0, 1, 2, ...; `at` gives the position a cursor stands for, that is how many records
    lie at or before it, and a stream resumed from a cursor starts at that position. */
module Ingest {
  import opened Base

  type Cursor = Option<string>

  datatype Status = Committed | Skipped | Failed | Cancelled
  {
    predicate Successful() { Committed? || Skipped? }
  }

  datatype Outcome = Outcome(status: Status, cursor: Cursor)

  /** What an ingestor answers to one batch. */
  datatype Reply = Raised | Receipt(outcomes: seq<Outcome>)

  datatype Source = Source(cursors: seq<string>, at: Cursor -> nat)
  {
    /** Every record's cursor stands for the position just behind that record. */
    ghost predicate Lawful() {
      at(None) == 0 && forall i | 0 <= i < |cursors| :: at(Some(cursors[i])) == i + 1
    }
  }

  /** Where a run may be cut off around one batch. */
  datatype Crash = NoCrash | BeforeIndexing | AfterIndexing

  /** What outlives a run: the persisted cursor, and the records some run has indexed successfully. */
  class Durable {
    var checkpoint: Cursor
    ghost var indexed: set<nat>

    constructor ()
      ensures checkpoint == None && indexed == {}
    {
      checkpoint, indexed := None, {};
    }

    /** No record at or before the persisted cursor is missing. */
    ghost predicate Safe(src: Source)
      reads this
    {
      Covered(src, checkpoint)
    }

    ghost predicate Covered(src: Source, cursor: Cursor)
      reads this
    {
      UpTo(indexed, src.at(cursor))
    }
  }

  ghost predicate UpTo(indexed: set<nat>, n: nat) {
    forall i: nat :: i < n ==> i in indexed
  }

  predicate AllSuccessful(results: seq<Outcome>) {
    forall j | 0 <= j < |results| :: results[j].status.Successful()
  }

  /** The length of the successful prefix. */
  function SuccessfulPrefix(results: seq<Outcome>): (m: nat)
    ensures m <= |results|
    ensures forall j | 0 <= j < m :: results[j].status.Successful()
    ensures m < |results| ==> !results[m].status.Successful()
  {
    if results == [] || !results[0].status.Successful() then 0 else 1 + SuccessfulPrefix(results[1..])
  }

  /** The outcomes of a batch that starts at position `from` carry cursors of their own records, if any. */
  ghost predicate OwnCursors(src: Source, from: nat, outcomes: seq<Outcome>) {
    forall j | 0 <= j < |outcomes| ::
      outcomes[j].cursor.Some? && outcomes[j].cursor.value != "" ==> src.at(outcomes[j].cursor) == from + j + 1
  }

  // ----- One kernel batch -----

  /** `_normalize_results`: one result per record; a missing outcome is a failure, a surplus one an error. */
  method NormalizeResults(src: Source, from: nat, n: nat, outcomes: seq<Outcome>) returns (r: Option<seq<Outcome>>)
    requires src.Lawful() && from + n <= |src.cursors| && OwnCursors(src, from, outcomes)
    ensures r.None? <==> |outcomes| > n
    ensures r.Some? ==> |r.value| == n
    ensures r.Some? ==> forall j | 0 <= j < n ::
      && r.value[j].status == (if j < |outcomes| then outcomes[j].status else Failed)
      && src.at(r.value[j].cursor) == from + j + 1
  {
    if |outcomes| > n {
      return None;
    }
    var normalized: seq<Outcome> := [];
    for j := 0 to n
      invariant |normalized| == j
      invariant forall m | 0 <= m < j ::
        && normalized[m].status == (if m < |outcomes| then outcomes[m].status else Failed)
        && src.at(normalized[m].cursor) == from + m + 1
    {
      var own := Some(src.cursors[from + j]);
      if j >= |outcomes| {
        normalized := normalized + [Outcome(Failed, own)];
      } else {
        var given := outcomes[j].cursor;
        normalized := normalized + [
          Outcome(outcomes[j].status, if given.Some? && given.value != "" then given else own)];
      }
    }
    return Some(normalized);
  }

  /** `_safe_batch_checkpoint`: the cursor behind the successful prefix, or in strict mode none behind a batch that is
      not successful throughout. */
  method SafeBatchCheckpoint(results: seq<Outcome>, current: Cursor, strict: bool) returns (candidate: Cursor)
    ensures strict && !AllSuccessful(results) ==> candidate == current
    ensures !(strict && !AllSuccessful(results)) ==>
      var m := SuccessfulPrefix(results);
      candidate == if m == 0 then current else results[m - 1].cursor
  {
    if strict && !AllSuccessful(results) {
      return current;
    }
    candidate := current;
    var j := 0;
    while j < |results|
      invariant j <= |results| && SuccessfulPrefix(results) == j + SuccessfulPrefix(results[j..])
      invariant candidate == if j == 0 then current else results[j - 1].cursor
    {
      if !results[j].status.Successful() {
        return;
      }
      candidate := results[j].cursor;
      assert results[j..][1..] == results[j + 1..];
      j := j + 1;
    }
  }

  /** The positions a batch reports as indexed. */
  ghost function IndexedBy(from: nat, results: seq<Outcome>): (r: set<nat>)
    ensures forall i: nat :: i in r <==> from <= i < from + |results| && results[i - from].status.Successful()
  {
    var r := set j: nat | j < |results| && results[j].status.Successful() :: from + j;
    assert forall j: nat | j < |results| && results[j].status.Successful() :: from + j in r;
    r
  }

  /** The positions an ingestor reports as indexed when asked for n records from position `from` on: the successful ones,
      unless it raises or answers more than it was asked. */
  ghost function ReportedBy(from: nat, n: nat, reply: Reply): set<nat> {
    if reply.Receipt? && |reply.outcomes| <= n then IndexedBy(from, reply.outcomes) else {}
  }

  lemma NormalizedReport(from: nat, n: nat, outcomes: seq<Outcome>, results: seq<Outcome>)
    requires |outcomes| <= n == |results|
    requires forall j | 0 <= j < n :: results[j].status == (if j < |outcomes| then outcomes[j].status else Failed)
    ensures IndexedBy(from, results) == IndexedBy(from, outcomes)
  {
    forall i: nat ensures i in IndexedBy(from, results) <==> i in IndexedBy(from, outcomes) {
    }
  }

  /** One status per record: the reported one, or a failure where none is reported. */
  ghost predicate Normalized(results: seq<Outcome>, n: nat, reply: Reply) {
    && |results| == n
    && forall j :: 0 <= j < n ==>
      results[j].status == if reply.Receipt? && j < |reply.outcomes| then reply.outcomes[j].status else Failed
  }

  /** Every record of the batch is reported, and with success. */
  predicate Clean(n: nat, reply: Reply) {
    n == 0 || (reply.Receipt? && |reply.outcomes| == n && AllSuccessful(reply.outcomes))
  }

  /** The run ends at this batch: the process dies, the ingestor answers too much, or a strict run meets a failure. */
  predicate Stops(n: nat, reply: Reply, strict: bool, crash: Crash) {
    if crash.BeforeIndexing? then true
    else if n == 0 then crash.AfterIndexing?
    else if reply.Raised? then strict
    else
      || |reply.outcomes| > n || crash.AfterIndexing?
      || (strict && (|reply.outcomes| < n || AnyFailed(reply.outcomes)))
  }

  lemma NormalizedAgrees(results: seq<Outcome>, n: nat, reply: Reply)
    requires Normalized(results, n, reply) && n > 0 && (reply.Receipt? ==> |reply.outcomes| <= n)
    ensures AllSuccessful(results) <==> Clean(n, reply)
    ensures reply.Receipt? ==> (AnyFailed(results) <==> |reply.outcomes| < n || AnyFailed(reply.outcomes))
  {
    if reply.Receipt? {
      if |reply.outcomes| < n {
        assert results[n - 1].status.Failed?;
      } else {
        assert forall j :: 0 <= j < n ==> results[j].status == reply.outcomes[j].status;
        assert AnyFailed(results) <==> AnyFailed(reply.outcomes) by {
          if j :| 0 <= j < n && results[j].status.Failed? {
            assert reply.outcomes[j].status.Failed?;
          }
          if j :| 0 <= j < n && reply.outcomes[j].status.Failed? {
            assert results[j].status.Failed?;
          }
        }
      }
    } else {
      assert results[0].status.Failed?;
    }
  }

  datatype BatchResult = Aborted | Ingested(checkpoint: Cursor, blocked: bool, results: seq<Outcome>)

  /** Any failed outcome; a cancelled one is neither failed nor successful. */
  predicate AnyFailed(results: seq<Outcome>) {
    exists j | 0 <= j < |results| :: results[j].status.Failed?
  }

  /** `_ingest_batch` for the records from position `from` on. Whatever the ingestor answers and wherever the process
      dies, no cursor passes a record that was not indexed; a blocked run keeps its cursor; a batch without failure
      moves it to the end of the batch. */
  method IngestBatch(
      d: Durable, src: Source, from: nat, n: nat, current: Cursor, blocked: bool, strict: bool, stored: bool,
      terminal: Cursor, reply: Reply, crash: Crash)
    returns (r: BatchResult)
    requires src.Lawful() && from + n <= |src.cursors|
    requires reply.Receipt? ==> OwnCursors(src, from, reply.outcomes)
    requires terminal.Some? ==> src.at(terminal) == from + n
    requires d.Safe(src) && d.Covered(src, current) && src.at(current) <= from
    requires !blocked ==> UpTo(d.indexed, from)
    modifies d
    ensures d.Safe(src)
    ensures d.indexed == old(d.indexed) + (if crash.BeforeIndexing? then {} else ReportedBy(from, n, reply))
    ensures r.Ingested? ==>
      && d.Covered(src, r.checkpoint) && src.at(r.checkpoint) <= from + n
      && (blocked ==> r.blocked && r.checkpoint == current)
      && (r.blocked || UpTo(d.indexed, from + n))
      && (!r.blocked && n > 0 ==> src.at(r.checkpoint) == from + n)
      && (!r.blocked && n == 0 ==> r.checkpoint == if terminal.Some? then terminal else current)
      && Normalized(r.results, n, reply) && (r.blocked <==> blocked || !Clean(n, reply))
      && (!blocked && r.blocked ==>
            var m := SuccessfulPrefix(r.results);
            if strict || m == 0 then r.checkpoint == current else src.at(r.checkpoint) == from + m)
    ensures r.Ingested? && stored && r.checkpoint != current ==> d.checkpoint == r.checkpoint
    ensures !stored || r.Aborted? || r.checkpoint == current ==> d.checkpoint == old(d.checkpoint)
    ensures r.Aborted? <==> Stops(n, reply, strict, crash)
  {
    if crash.BeforeIndexing? {
      return Aborted;
    }
    if n == 0 {
      if crash.AfterIndexing? {
        return Aborted;
      }
      var candidate := if blocked || terminal.None? then current else terminal;
      if candidate != current && stored {
        d.checkpoint := candidate;
      }
      return Ingested(candidate, blocked, []);
    }
    if reply.Raised? {
      if strict {
        return Aborted;
      }
      var failed := seq(n, j requires 0 <= j < n => Outcome(Failed, Some(src.cursors[from + j])));
      NormalizedAgrees(failed, n, reply);
      return Ingested(current, true, failed);
    }
    var normalized := NormalizeResults(src, from, n, reply.outcomes);
    if normalized.None? {
      return Aborted;
    }
    var results := normalized.value;
    NormalizedReport(from, n, reply.outcomes, results);
    NormalizedAgrees(results, n, reply);
    d.indexed := d.indexed + IndexedBy(from, results);
    if crash.AfterIndexing? {
      return Aborted;
    }
    var candidate: Cursor;
    if blocked {
      candidate := current;
    } else if terminal.Some? && AllSuccessful(results) {
      candidate := terminal;
    } else {
      candidate := SafeBatchCheckpoint(results, current, strict);
    }
    if strict && AnyFailed(results) {
      return Aborted;
    }
    if candidate != current && stored {
      d.checkpoint := candidate;
    }
    return Ingested(candidate, blocked || !AllSuccessful(results), results);
  }

  // ----- Kernel runs -----

  /** One batch of a `BatchContentSource`: how many records it holds and the cursor behind it, if any. */
  datatype SourceBatch = SourceBatch(count: nat, terminal: Cursor)

  /** The batches of a stream that starts at position `from` follow each other to the end of the source, and each
      terminal cursor stands for the end of its batch. */
  ghost predicate Streams(src: Source, batches: seq<SourceBatch>, from: nat)
    decreases |batches|
  {
    if batches == [] then from == |src.cursors|
    else
      var end := from + batches[0].count;
      && (batches[0].terminal.Some? ==> src.at(batches[0].terminal) == end)
      && Streams(src, batches[1..], end)
  }

  lemma {:induction false} StreamsWithin(src: Source, batches: seq<SourceBatch>, from: nat)
    requires Streams(src, batches, from)
    ensures from <= |src.cursors|
    decreases |batches|
  {
    if batches != [] {
      StreamsWithin(src, batches[1..], from + batches[0].count);
    }
  }

  lemma StreamsNext(src: Source, batches: seq<SourceBatch>, i: nat, from: nat)
    requires i < |batches| && Streams(src, batches[i..], from)
    ensures
      var end := from + batches[i].count;
      && Streams(src, batches[i + 1..], end) && end <= |src.cursors|
      && (batches[i].terminal.Some? ==> src.at(batches[i].terminal) == end)
  {
    assert batches[i..][1..] == batches[i + 1..] && batches[i..][0] == batches[i];
    StreamsWithin(src, batches[i + 1..], from + batches[i].count);
  }

  /** One batch a run has come to. */
  datatype Asked = Asked(from: nat, count: nat)

  /** Where the batches end, if the first one starts at `from`. */
  function End(asked: seq<Asked>, from: nat): nat {
    if asked == [] then from else asked[|asked| - 1].from + asked[|asked| - 1].count
  }

  /** Each batch starts where the one before ended. */
  predicate Consecutive(asked: seq<Asked>, from: nat) {
    asked != [] ==>
      var n := |asked| - 1;
      Consecutive(asked[..n], from) && asked[n].from == End(asked[..n], from)
  }

  lemma NextBatch(asked: seq<Asked>, from: nat, b: Asked)
    requires Consecutive(asked, from) && b.from == End(asked, from)
    ensures Consecutive(asked + [b], from) && End(asked + [b], from) == b.from + b.count
  {
    assert (asked + [b])[..|asked|] == asked;
  }

  lemma OneMoreOfSizes(asked: seq<Asked>, batches: seq<SourceBatch>, b: Asked)
    requires OfSizes(asked, batches) && |asked| < |batches| && b.count == batches[|asked|].count
    ensures OfSizes(asked + [b], batches)
  {
    assert (asked + [b])[..|asked|] == asked;
  }

  lemma {:induction false} OfSizesMeans(asked: seq<Asked>, batches: seq<SourceBatch>)
    requires OfSizes(asked, batches)
    ensures |asked| <= |batches| && forall k :: 0 <= k < |asked| ==> asked[k].count == batches[k].count
  {
    if asked != [] {
      OfSizesMeans(asked[..|asked| - 1], batches);
    }
  }

  /** Every batch is full, or the last of the source. */
  predicate FilledUp(asked: seq<Asked>, batchSize: nat, total: nat) {
    asked != [] ==>
      var b := asked[|asked| - 1];
      && FilledUp(asked[..|asked| - 1], batchSize, total)
      && (b.count == batchSize || (b.count < batchSize && b.from + b.count == total))
  }

  lemma OneMoreFilled(asked: seq<Asked>, batchSize: nat, total: nat, b: Asked)
    requires FilledUp(asked, batchSize, total)
    requires b.count == batchSize || (b.count < batchSize && b.from + b.count == total)
    ensures FilledUp(asked + [b], batchSize, total)
  {
    assert (asked + [b])[..|asked|] == asked;
  }

  /** The first batches of the stream, of these sizes. */
  predicate OfSizes(asked: seq<Asked>, batches: seq<SourceBatch>) {
    asked != [] ==>
      var n := |asked| - 1;
      n < |batches| && OfSizes(asked[..n], batches) && asked[n].count == batches[n].count
  }

  /** What the outside does in one run: the ingestor's answers, by position and size of the batch, and where the
      process dies. */
  datatype World = World(answer: (nat, nat) -> Reply, crash: nat -> Crash)
  {
    ghost predicate Lawful(src: Source) {
      forall from, n :: answer(from, n).Receipt? ==> OwnCursors(src, from, answer(from, n).outcomes)
    }

    /** What the batch adds to the indexed records. */
    ghost function Reported(b: Asked): set<nat> {
      if crash(b.from).BeforeIndexing? then {} else ReportedBy(b.from, b.count, answer(b.from, b.count))
    }

    /** What is indexed after these batches. */
    ghost function Indexed(before: set<nat>, asked: seq<Asked>): set<nat> {
      if asked == [] then before else Indexed(before, asked[..|asked| - 1]) + Reported(asked[|asked| - 1])
    }

    lemma IndexesMore(before: set<nat>, asked: seq<Asked>, b: Asked)
      ensures Indexed(before, asked + [b]) == Indexed(before, asked) + Reported(b)
    {
      assert (asked + [b])[..|asked|] == asked;
    }

    predicate StopsAt(b: Asked, strict: bool) {
      Stops(b.count, answer(b.from, b.count), strict, crash(b.from))
    }

    predicate CleanAt(b: Asked) {
      Clean(b.count, answer(b.from, b.count))
    }

    /** A run stops at the first batch that stops it, and is blocked by the first that is not clean. */
    ghost predicate Decides(asked: seq<Asked>, strict: bool, r: RunResult) {
      && (r.Died? ==> asked != [] && StopsAt(asked[|asked| - 1], strict) && NoStop(asked[..|asked| - 1], strict))
      && (r.Finished? ==> NoStop(asked, strict) && (r.blocked <==> !AllClean(asked)))
    }

    predicate NoStop(asked: seq<Asked>, strict: bool) {
      asked != [] ==> NoStop(asked[..|asked| - 1], strict) && !StopsAt(asked[|asked| - 1], strict)
    }

    predicate AllClean(asked: seq<Asked>) {
      asked != [] ==> AllClean(asked[..|asked| - 1]) && CleanAt(asked[|asked| - 1])
    }

    lemma OneMore(asked: seq<Asked>, b: Asked, strict: bool)
      ensures NoStop(asked + [b], strict) <==> NoStop(asked, strict) && !StopsAt(b, strict)
      ensures AllClean(asked + [b]) <==> AllClean(asked) && CleanAt(b)
      ensures (asked + [b])[..|asked|] == asked && (asked + [b])[|asked|] == b
    {
      assert (asked + [b])[..|asked|] == asked;
    }

    /** No crash, and every record of every batch is answered with success. */
    ghost predicate Flawless() {
      && (forall from :: crash(from).NoCrash?)
      && forall from, n :: answer(from, n).Receipt? && |answer(from, n).outcomes| == n
                           && AllSuccessful(answer(from, n).outcomes)
    }

    lemma FlawlessFinishes(asked: seq<Asked>, strict: bool, r: RunResult)
      requires Decides(asked, strict, r)
      ensures Flawless() ==> r.Finished? && !r.blocked
    {
      if Flawless() {
        FlawlessIsClean(asked, strict);
      }
    }

    lemma {:induction false} FlawlessIsClean(asked: seq<Asked>, strict: bool)
      requires Flawless()
      ensures NoStop(asked, strict) && AllClean(asked)
    {
      if asked != [] {
        var b := asked[|asked| - 1];
        FlawlessIsClean(asked[..|asked| - 1], strict);
        assert crash(b.from).NoCrash? && AllSuccessful(answer(b.from, b.count).outcomes);
      }
    }
  }

  datatype RunResult = Died | Finished(checkpoint: Cursor, blocked: bool)

  /** The persisted cursor is the run's current one, unless nothing is stored or the run has not moved its own. */
  predicate Saved(was: Cursor, now: Cursor, since: Cursor, current: Cursor, stored: bool) {
    (now == was || (stored && now == current)) && (stored && since == was ==> now == current)
  }

  /** What one run, however it ends, owes the durable state: the batches it has come to follow each other from its
      cursor on, and exactly what they are reported to have indexed is new. */
  twostate predicate RunKeeps(
      d: Durable, src: Source, since: Cursor, stored: bool, r: RunResult, asked: seq<Asked>, indexed: set<nat>)
    reads d
  {
    && d.Safe(src) && d.indexed == indexed
    && Consecutive(asked, src.at(since)) && End(asked, src.at(since)) <= |src.cursors|
    && (r.Finished? ==> End(asked, src.at(since)) == |src.cursors|)
    && (r.Finished? ==> d.Covered(src, r.checkpoint))
    && (!stored ==> d.checkpoint == old(d.checkpoint))
    && (r.Finished? ==> Saved(old(d.checkpoint), d.checkpoint, since, r.checkpoint, stored))
  }

  /** The batches a run has come to lead from its cursor to `from`. */
  predicate Leads(asked: seq<Asked>, start: nat, from: nat) {
    Consecutive(asked, start) && End(asked, start) == from
  }

  /** Where a kernel run stands with its cursor, which has not passed a record that is not indexed. */
  ghost predicate CursorStands(src: Source, indexed: set<nat>, from: nat, current: Cursor, blocked: bool) {
    && UpTo(indexed, src.at(current)) && src.at(current) <= from
    && (blocked || (src.at(current) == from && UpTo(indexed, from)))
  }

  /** Everything the loop of a kernel run keeps. */
  ghost predicate KernelStands(
      src: Source, asked: seq<Asked>, since: Cursor, from: nat, current: Cursor, blocked: bool, strict: bool,
      w: World, before: set<nat>, indexed: set<nat>)
  {
    && CursorStands(src, indexed, from, current, blocked)
    && Leads(asked, src.at(since), from) && indexed == w.Indexed(before, asked)
    && w.NoStop(asked, strict) && (blocked <==> !w.AllClean(asked))
  }

  /** The next batch of a kernel run. */
  method IngestNext(
      d: Durable, src: Source, from: nat, n: nat, current: Cursor, blocked: bool, strict: bool, stored: bool,
      terminal: Cursor, w: World, ghost since: Cursor, ghost asked: seq<Asked>, ghost was: Cursor,
      ghost before: set<nat>)
    returns (r: BatchResult, ghost more: seq<Asked>)
    requires src.Lawful() && w.Lawful(src) && from + n <= |src.cursors|
    requires terminal.Some? ==> src.at(terminal) == from + n
    requires d.Safe(src) && Saved(was, d.checkpoint, since, current, stored)
    requires KernelStands(src, asked, since, from, current, blocked, strict, w, before, d.indexed)
    modifies d
    ensures d.Safe(src) && more == asked + [Asked(from, n)] && (!stored ==> d.checkpoint == old(d.checkpoint))
    ensures r.Aborted? ==>
      && Leads(more, src.at(since), from + n) && d.indexed == w.Indexed(before, more)
      && w.Decides(more, strict, Died)
    ensures r.Ingested? ==>
      && KernelStands(src, more, since, from + n, r.checkpoint, r.blocked, strict, w, before, d.indexed)
      && Saved(was, d.checkpoint, since, r.checkpoint, stored)
  {
    more := asked + [Asked(from, n)];
    w.OneMore(asked, Asked(from, n), strict);
    NextBatch(asked, src.at(since), Asked(from, n));
    w.IndexesMore(before, asked, Asked(from, n));
    r := IngestBatch(d, src, from, n, current, blocked, strict, stored, terminal, w.answer(from, n), w.crash(from));
  }

  /** `iter_ingest_source` over a batched source. */
  method RunBatchedSource(
      d: Durable, src: Source, batches: seq<SourceBatch>, since: Cursor, strict: bool, stored: bool, w: World)
    returns (r: RunResult, ghost asked: seq<Asked>)
    requires src.Lawful() && w.Lawful(src) && d.Safe(src) && d.Covered(src, since)
    requires Streams(src, batches, src.at(since))
    modifies d
    ensures RunKeeps(d, src, since, stored, r, asked, w.Indexed(old(d.indexed), asked))
    ensures w.Decides(asked, strict, r)
    ensures w.Flawless() ==> r.Finished? && !r.blocked
    ensures r.Finished? && !r.blocked ==>
      && UpTo(d.indexed, |src.cursors|)
      && src.at(r.checkpoint) == |src.cursors|
    ensures OfSizes(asked, batches)
  {
    var current, blocked, from := since, false, src.at(since);
    ghost var was, before := d.checkpoint, d.indexed;
    asked := [];
    for i := 0 to |batches|
      invariant |asked| == i && OfSizes(asked, batches)
      invariant Streams(src, batches[i..], from)
      invariant KernelStands(src, asked, since, from, current, blocked, strict, w, before, d.indexed)
      invariant d.Safe(src) && Saved(was, d.checkpoint, since, current, stored)
    {
      var n := batches[i].count;
      StreamsNext(src, batches, i, from);
      OneMoreOfSizes(asked, batches, Asked(from, n));
      var batch: BatchResult;
      batch, asked := IngestNext(
        d, src, from, n, current, blocked, strict, stored, batches[i].terminal, w, since, asked, was, before);
      if batch.Aborted? {
        w.FlawlessFinishes(asked, strict, Died);
        return Died, asked;
      }
      current, blocked := batch.checkpoint, batch.blocked;
      from := from + n;
    }
    w.FlawlessFinishes(asked, strict, Finished(current, blocked));
    return Finished(current, blocked), asked;
  }

  /** `iter_ingest_source` over a record source: batches are filled as the records come in. */
  method RunRecordSource(
      d: Durable, src: Source, batchSize: nat, since: Cursor, strict: bool, stored: bool, w: World)
    returns (r: RunResult, ghost asked: seq<Asked>)
    requires src.Lawful() && w.Lawful(src) && d.Safe(src) && d.Covered(src, since)
    requires 0 < batchSize && src.at(since) <= |src.cursors|
    modifies d
    ensures RunKeeps(d, src, since, stored, r, asked, w.Indexed(old(d.indexed), asked))
    ensures w.Decides(asked, strict, r)
    ensures w.Flawless() ==> r.Finished? && !r.blocked
    ensures r.Finished? && !r.blocked ==>
      && UpTo(d.indexed, |src.cursors|)
      && src.at(r.checkpoint) == |src.cursors|
    ensures FilledUp(asked, batchSize, |src.cursors|)
  {
    var current, blocked := since, false;
    var from: nat, buffered: nat := src.at(since), 0;
    ghost var was, before := d.checkpoint, d.indexed;
    asked := [];
    for i := from to |src.cursors|
      invariant from + buffered == i && buffered < batchSize && FilledUp(asked, batchSize, |src.cursors|)
      invariant KernelStands(src, asked, since, from, current, blocked, strict, w, before, d.indexed)
      invariant d.Safe(src) && Saved(was, d.checkpoint, since, current, stored)
    {
      buffered := buffered + 1;
      if buffered >= batchSize {
        OneMoreFilled(asked, batchSize, |src.cursors|, Asked(from, buffered));
        var batch: BatchResult;
        batch, asked := IngestNext(
          d, src, from, buffered, current, blocked, strict, stored, None, w, since, asked, was, before);
        if batch.Aborted? {
          w.FlawlessFinishes(asked, strict, Died);
          return Died, asked;
        }
        current, blocked := batch.checkpoint, batch.blocked;
        from, buffered := from + buffered, 0;
      }
    }
    if buffered > 0 {
      OneMoreFilled(asked, batchSize, |src.cursors|, Asked(from, buffered));
      var batch: BatchResult;
      batch, asked := IngestNext(
        d, src, from, buffered, current, blocked, strict, stored, None, w, since, asked, was, before);
      if batch.Aborted? {
        w.FlawlessFinishes(asked, strict, Died);
        return Died, asked;
      }
      current, blocked := batch.checkpoint, batch.blocked;
    }
    w.FlawlessFinishes(asked, strict, Finished(current, blocked));
    return Finished(current, blocked), asked;
  }

  // ----- The coordinator -----

  /** How the stages of one coordinator batch end. */
  datatype StageWorld = StageWorld(prepared: bool, reply: Reply, semantic: bool)

  /** `_BatchStageRunner.run` with a record ingestor: record stage, then semantic stage. The gate looks at failed
      outcomes only. */
  function BatchSucceeds(stages: StageWorld): bool {
    stages.prepared && stages.reply.Receipt? && !AnyFailed(stages.reply.outcomes) && stages.semantic
  }

  /** The ingestor reports every record of the batch, and no record as cancelled unless another one failed. */
  predicate Complete(reply: Reply, n: nat) {
    reply.Receipt? && !AnyFailed(reply.outcomes) ==>
      |reply.outcomes| == n && forall j | 0 <= j < |reply.outcomes| :: !reply.outcomes[j].status.Cancelled?
  }

  /** For batches answered with at most one outcome per record, the gate opens for indexed batches only exactly when
      the answer is complete. */
  lemma GateIsSoundExactlyWhen(stages: StageWorld, from: nat, n: nat)
    requires stages.prepared && stages.semantic
    requires stages.reply.Receipt? ==> |stages.reply.outcomes| <= n
    ensures
      (BatchSucceeds(stages) ==> forall i: nat :: from <= i < from + n ==> i in IndexedBy(from, stages.reply.outcomes))
      <==> Complete(stages.reply, n)
  {
    if BatchSucceeds(stages) {
      var outcomes := stages.reply.outcomes;
      if forall i: nat :: from <= i < from + n ==> i in IndexedBy(from, outcomes) {
        assert |outcomes| < n ==> from + |outcomes| in IndexedBy(from, outcomes);
        forall j | 0 <= j < |outcomes| ensures !outcomes[j].status.Cancelled? {
          assert from + j in IndexedBy(from, outcomes);
        }
      }
    }
  }

  /** One cancelled record opens the gate: the cursor behind it would be saved without the record being indexed. */
  lemma CancelledOpensGate()
    ensures
      var stages := StageWorld(true, Receipt([Outcome(Cancelled, None)]), true);
      BatchSucceeds(stages) && 0 !in IndexedBy(0, stages.reply.outcomes)
  {
  }

  /** `_iter_source_batches`, batched source: a source batch is cut into pieces of at most `batchSize` records, and
      only the last piece carries the terminal cursor. An empty batch is one empty piece. */
  method CutBatch(batch: SourceBatch, batchSize: nat) returns (pieces: seq<SourceBatch>)
    requires 0 < batchSize
    ensures pieces != [] && Total(pieces) == batch.count
    ensures forall j | 0 <= j < |pieces| :: pieces[j].count <= batchSize
    ensures forall j | 0 <= j < |pieces| - 1 :: pieces[j].terminal.None?
    ensures pieces[|pieces| - 1].terminal == batch.terminal
  {
    pieces := [];
    var offset := 0;
    while offset < batch.count || pieces == []
      invariant offset <= batch.count && Total(pieces) == offset
      invariant forall j | 0 <= j < |pieces| :: pieces[j].count <= batchSize
      invariant forall j | 0 <= j < |pieces| - 1 :: pieces[j].terminal.None?
      invariant pieces != [] ==> pieces[|pieces| - 1].terminal == if offset == batch.count then batch.terminal else None
      decreases batch.count - offset, if pieces == [] then 1 else 0
    {
      var n := if batch.count - offset < batchSize then batch.count - offset else batchSize;
      var terminal := if offset + n == batch.count then batch.terminal else None;
      TotalAppend(pieces, SourceBatch(n, terminal));
      pieces := pieces + [SourceBatch(n, terminal)];
      offset := offset + n;
    }
  }

  function Total(pieces: seq<SourceBatch>): nat {
    if pieces == [] then 0 else pieces[0].count + Total(pieces[1..])
  }

  lemma {:induction false} TotalAppend(pieces: seq<SourceBatch>, piece: SourceBatch)
    ensures Total(pieces + [piece]) == Total(pieces) + piece.count
  {
    if pieces != [] {
      TotalAppend(pieces[1..], piece);
      assert (pieces + [piece])[1..] == pieces[1..] + [piece];
    }
  }

  lemma StreamsHead(src: Source, head: SourceBatch, rest: seq<SourceBatch>, from: nat)
    ensures Streams(src, [head] + rest, from) <==>
      (head.terminal.Some? ==> src.at(head.terminal) == from + head.count) && Streams(src, rest, from + head.count)
  {
    assert ([head] + rest)[1..] == rest;
  }

  lemma {:induction false} PiecesStream(src: Source, pieces: seq<SourceBatch>, batch: SourceBatch, rest: seq<SourceBatch>, from: nat)
    requires pieces != [] && Total(pieces) == batch.count
    requires forall j | 0 <= j < |pieces| - 1 :: pieces[j].terminal.None?
    requires pieces[|pieces| - 1].terminal == batch.terminal
    requires Streams(src, [batch] + rest, from)
    ensures Streams(src, pieces + rest, from)
    decreases |pieces|
  {
    StreamsHead(src, batch, rest, from);
    StreamsHead(src, pieces[0], pieces[1..] + rest, from);
    assert pieces + rest == [pieces[0]] + (pieces[1..] + rest);
    if |pieces| == 1 {
      assert Total(pieces[1..]) == 0 && pieces[1..] + rest == rest;
    } else {
      var remaining := SourceBatch(batch.count - pieces[0].count, batch.terminal);
      StreamsHead(src, remaining, rest, from + pieces[0].count);
      PiecesStream(src, pieces[1..], remaining, rest, from + pieces[0].count);
    }
  }

  /** Cutting every batch of a stream yields the same stream in smaller batches. */
  method CutBatches(src: Source, batches: seq<SourceBatch>, batchSize: nat, from: nat) returns (pieces: seq<SourceBatch>)
    requires 0 < batchSize && Streams(src, batches, from)
    ensures Streams(src, pieces, from) && forall j | 0 <= j < |pieces| :: pieces[j].count <= batchSize
    decreases |batches|
  {
    if batches == [] {
      return [];
    }
    var head := CutBatch(batches[0], batchSize);
    var tail := CutBatches(src, batches[1..], batchSize, from + batches[0].count);
    assert ([batches[0]] + tail)[1..] == tail;
    PiecesStream(src, head, batches[0], tail, from);
    return head + tail;
  }

  /** The positions a non-empty batch that passes both stages reports as indexed. */
  ghost function StagesReport(from: nat, n: nat, stages: StageWorld): set<nat> {
    if n > 0 && BatchSucceeds(stages) then IndexedBy(from, stages.reply.outcomes) else {}
  }

  /** The run ends at this batch: the process dies, or a strict run meets a batch that does not succeed. */
  predicate StagesStop(n: nat, stages: StageWorld, strict: bool, crash: Crash) {
    crash.BeforeIndexing? || if n == 0 || BatchSucceeds(stages) then crash.AfterIndexing? else strict
  }

  /** What the outside does in one coordinator run. */
  datatype CoordinatorWorld = CoordinatorWorld(stages: (nat, nat) -> StageWorld, crash: nat -> Crash)
  {
    ghost predicate Lawful() {
      forall from, n :: Complete(stages(from, n).reply, n)
    }

    /** What the batch adds to the indexed records. */
    ghost function Reported(b: Asked): set<nat> {
      if crash(b.from).BeforeIndexing? then {} else StagesReport(b.from, b.count, stages(b.from, b.count))
    }

    /** What is indexed after these batches. */
    ghost function Indexed(before: set<nat>, asked: seq<Asked>): set<nat> {
      if asked == [] then before else Indexed(before, asked[..|asked| - 1]) + Reported(asked[|asked| - 1])
    }

    lemma IndexesMore(before: set<nat>, asked: seq<Asked>, b: Asked)
      ensures Indexed(before, asked + [b]) == Indexed(before, asked) + Reported(b)
    {
      assert (asked + [b])[..|asked|] == asked;
    }

    predicate StopsAt(b: Asked, strict: bool) {
      StagesStop(b.count, stages(b.from, b.count), strict, crash(b.from))
    }

    predicate CleanAt(b: Asked) {
      b.count == 0 || BatchSucceeds(stages(b.from, b.count))
    }

    /** A run stops at the first batch that stops it, and is blocked by the first that is not clean. */
    ghost predicate Decides(asked: seq<Asked>, strict: bool, r: RunResult) {
      && (r.Died? ==> asked != [] && StopsAt(asked[|asked| - 1], strict) && NoStop(asked[..|asked| - 1], strict))
      && (r.Finished? ==> NoStop(asked, strict) && (r.blocked <==> !AllClean(asked)))
    }

    predicate NoStop(asked: seq<Asked>, strict: bool) {
      asked != [] ==> NoStop(asked[..|asked| - 1], strict) && !StopsAt(asked[|asked| - 1], strict)
    }

    predicate AllClean(asked: seq<Asked>) {
      asked != [] ==> AllClean(asked[..|asked| - 1]) && CleanAt(asked[|asked| - 1])
    }

    lemma OneMore(asked: seq<Asked>, b: Asked, strict: bool)
      ensures NoStop(asked + [b], strict) <==> NoStop(asked, strict) && !StopsAt(b, strict)
      ensures AllClean(asked + [b]) <==> AllClean(asked) && CleanAt(b)
      ensures (asked + [b])[..|asked|] == asked && (asked + [b])[|asked|] == b
    {
      assert (asked + [b])[..|asked|] == asked;
    }

    ghost predicate Flawless() {
      (forall from :: crash(from).NoCrash?) && forall from, n :: BatchSucceeds(stages(from, n))
    }

    lemma FlawlessFinishes(asked: seq<Asked>, strict: bool, r: RunResult)
      requires Decides(asked, strict, r)
      ensures Flawless() ==> r.Finished? && !r.blocked
    {
      if Flawless() {
        FlawlessIsClean(asked, strict);
      }
    }

    lemma {:induction false} FlawlessIsClean(asked: seq<Asked>, strict: bool)
      requires Flawless()
      ensures NoStop(asked, strict) && AllClean(asked)
    {
      if asked != [] {
        var b := asked[|asked| - 1];
        FlawlessIsClean(asked[..|asked| - 1], strict);
        assert crash(b.from).NoCrash? && BatchSucceeds(stages(b.from, b.count));
      }
    }
  }

  /** One non-empty batch through the stages: `None` when a strict run ends here or the process dies, else whether
      the batch succeeded. */
  method RunStages(d: Durable, from: nat, n: nat, strict: bool, stages: StageWorld, crash: Crash) returns (r: Option<bool>)
    requires Complete(stages.reply, n)
    modifies d`indexed
    ensures d.indexed == old(d.indexed) + (if crash.BeforeIndexing? then {} else StagesReport(from, n, stages))
    ensures r == Some(true) ==> forall i: nat :: from <= i < from + n ==> i in d.indexed
    ensures r.Some? ==> (r.value <==> n == 0 || BatchSucceeds(stages))
    ensures r.None? <==> StagesStop(n, stages, strict, crash)
  {
    if crash.BeforeIndexing? {
      return None;
    }
    if n > 0 {
      if !BatchSucceeds(stages) {
        return if strict then None else Some(false);
      }
      d.indexed := d.indexed + IndexedBy(from, stages.reply.outcomes);
    }
    return if crash.AfterIndexing? then None else Some(true);
  }

  /** The next batch of a coordinator run; `blocked` then tells whether the cursor may follow. */
  method RunNext(
      d: Durable, src: Source, from: nat, n: nat, blocked: bool, strict: bool, w: CoordinatorWorld,
      ghost current: Cursor, ghost asked: seq<Asked>, ghost start: nat, ghost before: set<nat>)
    returns (died: bool, after: bool)
    requires w.Lawful() && Leads(asked, start, from) && d.indexed == w.Indexed(before, asked)
    requires w.NoStop(asked, strict) && (blocked <==> !w.AllClean(asked))
    requires d.Safe(src) && d.Covered(src, current) && (blocked || UpTo(d.indexed, from))
    modifies d`indexed
    ensures
      var more := asked + [Asked(from, n)];
      && Leads(more, start, from + n) && d.indexed == w.Indexed(before, more)
      && if died then w.Decides(more, strict, Died) else w.NoStop(more, strict) && (after <==> !w.AllClean(more))
    ensures d.Safe(src) && d.Covered(src, current)
    ensures !died ==> (blocked ==> after) && (after || UpTo(d.indexed, from + n))
  {
    w.OneMore(asked, Asked(from, n), strict);
    NextBatch(asked, start, Asked(from, n));
    w.IndexesMore(before, asked, Asked(from, n));
    var r := RunStages(d, from, n, strict, w.stages(from, n), w.crash(from));
    died, after := r.None?, blocked || r == Some(false);
  }

  /** The cursor moves to a candidate behind which everything is indexed, and is persisted if it is another one. */
  method MoveCursor(
      d: Durable, src: Source, current: Cursor, candidate: Cursor, stored: bool, ghost since: Cursor, ghost was: Cursor)
    requires d.Safe(src) && d.Covered(src, candidate) && Saved(was, d.checkpoint, since, current, stored)
    modifies d`checkpoint
    ensures d.Safe(src) && Saved(was, d.checkpoint, since, candidate, stored)
    ensures d.checkpoint == if stored && candidate != current then candidate else old(d.checkpoint)
  {
    if candidate != current && stored {
      d.checkpoint := candidate;
    }
  }

  /** The batch loop of `run_source`, over the cut stream: commit, then semantic work, then the cursor; one batch that
      does not succeed blocks the cursor for the rest of a lenient run and ends a strict one. */
  method RunCoordinator(
      d: Durable, src: Source, batches: seq<SourceBatch>, since: Cursor, strict: bool, stored: bool, w: CoordinatorWorld)
    returns (r: RunResult, ghost asked: seq<Asked>)
    requires src.Lawful() && w.Lawful() && d.Safe(src) && d.Covered(src, since)
    requires Streams(src, batches, src.at(since))
    modifies d
    ensures RunKeeps(d, src, since, stored, r, asked, w.Indexed(old(d.indexed), asked))
    ensures w.Decides(asked, strict, r)
    ensures w.Flawless() ==> r.Finished? && !r.blocked
    ensures r.Finished? && !r.blocked ==> UpTo(d.indexed, |src.cursors|)
    ensures r.Finished? && !r.blocked && (batches == [] || batches[|batches| - 1].terminal.Some?) ==>
      src.at(r.checkpoint) == |src.cursors|
    ensures OfSizes(asked, batches)
  {
    var current, blocked, from := since, false, src.at(since);
    ghost var arrived, before := true, d.indexed;
    asked := [];
    for i := 0 to |batches|
      invariant |asked| == i && OfSizes(asked, batches)
      invariant Streams(src, batches[i..], from) && src.at(current) <= from
      invariant d.Safe(src) && d.Covered(src, current)
      invariant Leads(asked, src.at(since), from) && d.indexed == w.Indexed(before, asked)
      invariant blocked || UpTo(d.indexed, from)
      invariant Saved(old(d.checkpoint), d.checkpoint, since, current, stored)
      invariant w.NoStop(asked, strict) && (blocked <==> !w.AllClean(asked))
      invariant arrived <==> i == 0 || batches[i - 1].terminal.Some?
      invariant arrived && !blocked ==> src.at(current) == from
    {
      StreamsNext(src, batches, i, from);
      var n, terminal := batches[i].count, batches[i].terminal;
      OneMoreOfSizes(asked, batches, Asked(from, n));
      var died, next := RunNext(d, src, from, n, blocked, strict, w, current, asked, src.at(since), before);
      asked := asked + [Asked(from, n)];
      if died {
        w.FlawlessFinishes(asked, strict, Died);
        return Died, asked;
      }
      blocked := next;
      if terminal.Some? && !blocked {
        MoveCursor(d, src, current, terminal, stored, since, old(d.checkpoint));
        current := terminal;
      }
      from, arrived := from + n, terminal.Some?;
    }
    w.FlawlessFinishes(asked, strict, Finished(current, blocked));
    return Finished(current, blocked), asked;
  }

  /** `run_batches`: prepared batches with a caller's cursor for each. Unlike a source's terminal cursor, an absent
      one is saved too. */
  method RunPreparedBatches(
      d: Durable, src: Source, batches: seq<SourceBatch>, since: Cursor, strict: bool, stored: bool, w: CoordinatorWorld)
    returns (r: RunResult, ghost asked: seq<Asked>)
    requires src.Lawful() && w.Lawful() && d.Safe(src) && d.Covered(src, since)
    requires Streams(src, batches, src.at(since))
    modifies d
    ensures RunKeeps(d, src, since, stored, r, asked, w.Indexed(old(d.indexed), asked))
    ensures w.Decides(asked, strict, r)
    ensures w.Flawless() ==> r.Finished? && !r.blocked
    ensures r.Finished? && !r.blocked ==> UpTo(d.indexed, |src.cursors|)
    ensures r.Finished? && !r.blocked && batches != [] ==> r.checkpoint == batches[|batches| - 1].terminal
    ensures OfSizes(asked, batches)
  {
    var current, blocked, from := since, false, src.at(since);
    ghost var before := d.indexed;
    asked := [];
    for i := 0 to |batches|
      invariant |asked| == i && OfSizes(asked, batches)
      invariant Streams(src, batches[i..], from) && d.Safe(src) && d.Covered(src, current)
      invariant Leads(asked, src.at(since), from) && d.indexed == w.Indexed(before, asked)
      invariant blocked || UpTo(d.indexed, from)
      invariant Saved(old(d.checkpoint), d.checkpoint, since, current, stored)
      invariant w.NoStop(asked, strict) && (blocked <==> !w.AllClean(asked))
      invariant i > 0 && !blocked ==> current == batches[i - 1].terminal
    {
      StreamsNext(src, batches, i, from);
      var n, candidate := batches[i].count, batches[i].terminal;
      OneMoreOfSizes(asked, batches, Asked(from, n));
      var died, next := RunNext(d, src, from, n, blocked, strict, w, current, asked, src.at(since), before);
      asked := asked + [Asked(from, n)];
      if died {
        w.FlawlessFinishes(asked, strict, Died);
        return Died, asked;
      }
      blocked := next;
      if !blocked {
        MoveCursor(d, src, current, candidate, stored, since, old(d.checkpoint));
        current := candidate;
      }
      from := from + n;
    }
    w.FlawlessFinishes(asked, strict, Finished(current, blocked));
    return Finished(current, blocked), asked;
  }

  // ----- Any sequence of runs -----

  /** One run against the persisted cursor: the kernel over a record or a batched source, or the coordinator
      over a source or over prepared batches. */
  datatype Run =
    | KernelRecords(batchSize: nat, strict: bool, kernel: World)
    | KernelBatches(batches: seq<SourceBatch>, strict: bool, kernel: World)
    | Coordinator(batches: seq<SourceBatch>, batchSize: nat, strict: bool, stages: CoordinatorWorld)
    | Prepared(batches: seq<SourceBatch>, strict: bool, stages: CoordinatorWorld)
  {
    ghost predicate Lawful(src: Source) {
      match this
      case KernelRecords(size, _, w) => 0 < size && w.Lawful(src)
      case KernelBatches(_, _, w) => w.Lawful(src)
      case Coordinator(_, size, _, w) => 0 < size && w.Lawful()
      case Prepared(_, _, w) => w.Lawful()
    }

    /** The ingestor's answer to a batch of this run. */
    function Answer(b: Asked): Reply {
      match this
      case KernelRecords(_, _, w) => w.answer(b.from, b.count)
      case KernelBatches(_, _, w) => w.answer(b.from, b.count)
      case Coordinator(_, _, _, w) => w.stages(b.from, b.count).reply
      case Prepared(_, _, w) => w.stages(b.from, b.count).reply
    }

    function CrashAt(b: Asked): Crash {
      match this
      case KernelRecords(_, _, w) => w.crash(b.from)
      case KernelBatches(_, _, w) => w.crash(b.from)
      case Coordinator(_, _, _, w) => w.crash(b.from)
      case Prepared(_, _, w) => w.crash(b.from)
    }

    ghost function Reported(b: Asked): set<nat> {
      match this
      case KernelRecords(_, _, w) => w.Reported(b)
      case KernelBatches(_, _, w) => w.Reported(b)
      case Coordinator(_, _, _, w) => w.Reported(b)
      case Prepared(_, _, w) => w.Reported(b)
    }

    ghost predicate Decides(asked: seq<Asked>, r: RunResult) {
      match this
      case KernelRecords(_, strict, w) => w.Decides(asked, strict, r)
      case KernelBatches(_, strict, w) => w.Decides(asked, strict, r)
      case Coordinator(_, _, strict, w) => w.Decides(asked, strict, r)
      case Prepared(_, strict, w) => w.Decides(asked, strict, r)
    }

    ghost function Indexed(before: set<nat>, asked: seq<Asked>): set<nat> {
      match this
      case KernelRecords(_, _, w) => w.Indexed(before, asked)
      case KernelBatches(_, _, w) => w.Indexed(before, asked)
      case Coordinator(_, _, _, w) => w.Indexed(before, asked)
      case Prepared(_, _, w) => w.Indexed(before, asked)
    }

    ghost predicate Flawless() {
      match this
      case KernelRecords(_, _, w) => w.Flawless()
      case KernelBatches(_, _, w) => w.Flawless()
      case Coordinator(_, _, _, w) => w.Flawless()
      case Prepared(_, _, w) => w.Flawless()
    }
  }

  /** What outlives the runs, at one moment. */
  datatype Moment = Moment(checkpoint: Cursor, indexed: set<nat>)

  /** The run continues the persisted cursor; another stream is not one the source would produce. */
  ghost predicate Continues(src: Source, run: Run, since: Cursor) {
    src.at(since) <= |src.cursors| && (run.KernelRecords? || Streams(src, run.batches, src.at(since)))
  }

  ghost predicate SafeAt(src: Source, m: Moment) {
    UpTo(m.indexed, src.at(m.checkpoint))
  }

  ghost predicate AllIndexed(src: Source, m: Moment) {
    UpTo(m.indexed, |src.cursors|)
  }

  /** The batches are those the run makes of its stream. */
  ghost predicate Divides(src: Source, run: Run, asked: seq<Asked>) {
    match run
    case KernelRecords(size, _, _) => FilledUp(asked, size, |src.cursors|)
    case KernelBatches(batches, _, _) => OfSizes(asked, batches)
    case Coordinator(_, size, _, _) => forall k :: 0 <= k < |asked| ==> asked[k].count <= size
    case Prepared(batches, _, _) => OfSizes(asked, batches)
  }

  /** One run between two moments, with its result and the batches it came to; a run that does not continue the
      persisted cursor is skipped. */
  ghost predicate Ran(
      src: Source, before: Moment, run: Run, asked: seq<Asked>, result: Option<RunResult>, after: Moment)
  {
    && (result.None? <==> !Continues(src, run, before.checkpoint))
    && (result.None? ==> after == before && asked == [])
    && (result.Some? ==> run.Decides(asked, result.value))
    && Divides(src, run, asked) && Consecutive(asked, src.at(before.checkpoint))
    && after.indexed == run.Indexed(before.indexed, asked)
    && (result.Some? && result.value.Finished? ==>
          && after.checkpoint == result.value.checkpoint
          && End(asked, src.at(before.checkpoint)) == |src.cursors|
          && (!result.value.blocked ==> AllIndexed(src, after))
          && (!result.value.blocked && (run.KernelRecords? || run.KernelBatches?) ==>
                src.at(after.checkpoint) == |src.cursors|))
    && (result.Some? && run.Flawless() ==> result.value.Finished? && !result.value.blocked)
  }

  ghost predicate History(
      src: Source, history: seq<Moment>, runs: seq<Run>, asked: seq<seq<Asked>>, results: seq<Option<RunResult>>)
  {
    && |history| == |runs| + 1 && |asked| == |results| == |runs| && history[0] == Moment(None, {})
    && forall i :: 0 <= i < |runs| ==> Ran(src, history[i], runs[i], asked[i], results[i], history[i + 1])
  }

  /** One of the first n runs had this position in a batch whose answer reported it successful. */
  ghost predicate WasReported(runs: seq<Run>, asked: seq<seq<Asked>>, n: nat, i: nat)
    requires n <= |runs| == |asked|
  {
    exists j, k :: 0 <= j < n && 0 <= k < |asked[j]| && i in runs[j].Reported(asked[j][k])
  }

  /** Nothing counts as indexed that no run was told so. */
  lemma {:induction false} IndexedWasReported(
      src: Source, history: seq<Moment>, runs: seq<Run>, asked: seq<seq<Asked>>, results: seq<Option<RunResult>>,
      n: nat, i: nat)
    requires History(src, history, runs, asked, results) && n <= |runs|
    requires i in history[n].indexed
    ensures WasReported(runs, asked, n, i)
  {
    if n > 0 {
      assert Ran(src, history[n - 1], runs[n - 1], asked[n - 1], results[n - 1], history[n]);
      if i in history[n - 1].indexed {
        IndexedWasReported(src, history, runs, asked, results, n - 1, i);
        var j, k :| 0 <= j < n - 1 && 0 <= k < |asked[j]| && i in runs[j].Reported(asked[j][k]);
      } else {
        var k := IndexedInBatch(runs[n - 1], history[n - 1].indexed, asked[n - 1], i);
        assert i in runs[n - 1].Reported(asked[n - 1][k]);
      }
    }
  }

  lemma {:induction false} IndexedGrows(run: Run, before: set<nat>, asked: seq<Asked>)
    ensures before <= run.Indexed(before, asked)
  {
    if asked != [] {
      IndexedGrows(run, before, asked[..|asked| - 1]);
    }
  }

  lemma {:induction false} IndexedInBatch(run: Run, before: set<nat>, asked: seq<Asked>, i: nat) returns (k: nat)
    requires i in run.Indexed(before, asked) && i !in before
    ensures k < |asked| && i in run.Reported(asked[k])
  {
    var n := |asked| - 1;
    if i in run.Reported(asked[n]) {
      k := n;
    } else {
      k := IndexedInBatch(run, before, asked[..n], i);
    }
  }

  /** What a report is: the ingestor answered for this very record, and with success; a coordinator's batch also passed
      both stages. */
  lemma ReportedMeans(run: Run, b: Asked, i: nat)
    requires i in run.Reported(b)
    ensures run.Answer(b).Receipt? && b.from <= i < b.from + |run.Answer(b).outcomes|
    ensures run.Answer(b).outcomes[i - b.from].status.Successful()
    ensures !run.CrashAt(b).BeforeIndexing?
    ensures run.Coordinator? || run.Prepared? ==> BatchSucceeds(run.stages.stages(b.from, b.count))
    ensures run.KernelRecords? || run.KernelBatches? ==> |run.Answer(b).outcomes| <= b.count
  {
  }

  /** At-least-once: before and after every one of any sequence of runs of either kind, strict or lenient, in any
      batching, each of them cut off by a crash anywhere or not, every record at or before the persisted cursor has
      been reported successful to one of the runs so far; and after a flawless run every record has. */
  method AnyRuns(src: Source, runs: seq<Run>)
      returns (d: Durable, ghost history: seq<Moment>, ghost asked: seq<seq<Asked>>,
               ghost results: seq<Option<RunResult>>)
    requires src.Lawful() && forall run <- runs :: run.Lawful(src)
    ensures fresh(d) && History(src, history, runs, asked, results)
    ensures history[|runs|] == Moment(d.checkpoint, d.indexed)
    ensures forall n, i: nat :: 0 <= n <= |runs| && i < src.at(history[n].checkpoint) ==> WasReported(runs, asked, n, i)
    ensures forall i, j :: 0 <= i < j < |history| && results[i].Some? && runs[i].Flawless() ==>
      AllIndexed(src, history[j])
  {
    d := new Durable();
    history, asked, results := [Moment(d.checkpoint, d.indexed)], [], [];
    for i := 0 to |runs|
      invariant fresh(d) && d.Safe(src) && History(src, history, runs[..i], asked, results)
      invariant history[i] == Moment(d.checkpoint, d.indexed)
      invariant forall j :: 0 <= j < |history| ==> SafeAt(src, history[j])
    {
      assert runs[i] in runs;
      ghost var came: seq<Asked>;
      var result: Option<RunResult>;
      result, came := OneRun(d, src, runs[i]);
      HistoryGrows(src, history, runs, asked, results, i, came, result, Moment(d.checkpoint, d.indexed));
      history, asked, results := history + [Moment(d.checkpoint, d.indexed)], asked + [came], results + [result];
    }
    assert runs[..|runs|] == runs;
    forall n, i: nat | 0 <= n <= |runs| && i < src.at(history[n].checkpoint) ensures WasReported(runs, asked, n, i) {
      assert SafeAt(src, history[n]);
      IndexedWasReported(src, history, runs, asked, results, n, i);
    }
    forall i, j | 0 <= i < j < |history| && results[i].Some? && runs[i].Flawless()
      ensures AllIndexed(src, history[j])
    {
      StaysIndexed(src, history, runs, asked, results, i + 1, j);
    }
  }

  lemma HistoryGrows(
      src: Source, history: seq<Moment>, runs: seq<Run>, asked: seq<seq<Asked>>, results: seq<Option<RunResult>>,
      i: nat, came: seq<Asked>, result: Option<RunResult>, next: Moment)
    requires i < |runs| && History(src, history, runs[..i], asked, results)
    requires Ran(src, history[i], runs[i], came, result, next)
    ensures History(src, history + [next], runs[..i + 1], asked + [came], results + [result])
  {
    var longer, further, more := history + [next], asked + [came], results + [result];
    forall j | 0 <= j < i + 1 ensures Ran(src, longer[j], runs[..i + 1][j], further[j], more[j], longer[j + 1]) {
      if j < i {
        assert Ran(src, history[j], runs[..i][j], asked[j], results[j], history[j + 1]);
      }
    }
  }

  lemma {:induction false} StaysIndexed(
      src: Source, history: seq<Moment>, runs: seq<Run>, asked: seq<seq<Asked>>, results: seq<Option<RunResult>>,
      i: nat, j: nat)
    requires History(src, history, runs, asked, results) && i <= j < |history|
    ensures history[i].indexed <= history[j].indexed
    decreases j
  {
    if i < j {
      IndexedGrows(runs[j - 1], history[j - 1].indexed, asked[j - 1]);
      StaysIndexed(src, history, runs, asked, results, i, j - 1);
      assert Ran(src, history[j - 1], runs[j - 1], asked[j - 1], results[j - 1], history[j]);
    }
  }

  method OneRun(d: Durable, src: Source, run: Run) returns (result: Option<RunResult>, ghost asked: seq<Asked>)
    requires src.Lawful() && run.Lawful(src) && d.Safe(src)
    modifies d
    ensures d.Safe(src)
    ensures Ran(src, old(Moment(d.checkpoint, d.indexed)), run, asked, result, Moment(d.checkpoint, d.indexed))
  {
    var since := d.checkpoint;
    if src.at(since) > |src.cursors| {
      return None, [];
    }
    var r: RunResult;
    if run.KernelRecords? {
      r, asked := RunRecordSource(d, src, run.batchSize, since, run.strict, true, run.kernel);
      return Some(r), asked;
    }
    var streams := CheckStream(src, run.batches, src.at(since));
    if !streams {
      return None, [];
    }
    match run {
      case KernelBatches(batches, strict, w) =>
        r, asked := RunBatchedSource(d, src, batches, since, strict, true, w);
      case Coordinator(batches, size, strict, w) =>
        var pieces := CutBatches(src, batches, size, src.at(since));
        r, asked := RunCoordinator(d, src, pieces, since, strict, true, w);
        OfSizesMeans(asked, pieces);
      case Prepared(batches, strict, w) =>
        r, asked := RunPreparedBatches(d, src, batches, since, strict, true, w);
    }
    return Some(r), asked;
  }

  method CheckStream(src: Source, batches: seq<SourceBatch>, from: nat) returns (ok: bool)
    ensures ok <==> Streams(src, batches, from)
    decreases |batches|
  {
    if batches == [] {
      return from == |src.cursors|;
    }
    var end := from + batches[0].count;
    if batches[0].terminal.Some? && src.at(batches[0].terminal) != end {
      return false;
    }
    ok := CheckStream(src, batches[1..], end);
  }
}
