/** The block window a portable history lookup reads, and the chunks it is read in. */
module HistoryWindow {
  import opened Basics
  import opened Selection
  import opened History

  /** The window [first, last] and whether it was capped. */
  function BoundedWindow(startBlock: int, endBlock: int, anchorBlock: int, maxBlocks: int): (int, int, bool) {
    if endBlock < startBlock then (startBlock, startBlock - 1, false)
    else if endBlock - startBlock + 1 <= maxBlocks then (startBlock, endBlock, false)
    else
      var anchor := Min(endBlock, Max(startBlock, anchorBlock));
      var leftBudget := (maxBlocks - 1) / 2;
      var first := Max(startBlock, anchor - leftBudget);
      var last := Min(endBlock, first + maxBlocks - 1);
      (Max(startBlock, last - maxBlocks + 1), last, true)
  }

  /** The distance from the anchor to the far end of a window. */
  function Reach(anchor: int, first: int, last: int): int {
    Max(anchor - first, last - anchor)
  }

  /** The window is the whole range when it fits; otherwise it has exactly `maxBlocks` blocks of the
      range, holds the anchor (moved into the range), and no window of that size inside the range
      stays closer to it. */
  lemma WindowIsBestCentered(startBlock: int, endBlock: int, anchorBlock: int, maxBlocks: int, first: int)
    requires maxBlocks >= 1 && startBlock <= endBlock
    ensures var (s, e, capped) := BoundedWindow(startBlock, endBlock, anchorBlock, maxBlocks);
            var anchor := Min(endBlock, Max(startBlock, anchorBlock));
            && startBlock <= s <= anchor <= e <= endBlock
            && (capped <==> endBlock - startBlock + 1 > maxBlocks)
            && (!capped ==> s == startBlock && e == endBlock)
            && (capped ==> e - s + 1 == maxBlocks)
            && (capped && startBlock <= first && first + maxBlocks - 1 <= endBlock ==>
                  Reach(anchor, s, e) <= Reach(anchor, first, first + maxBlocks - 1))
  {
    var half := (maxBlocks - 1) / 2;
    assert 2 * half <= maxBlocks - 1 <= 2 * half + 1;
  }

  /** An empty range stays empty, uncapped. */
  lemma EmptyRange(startBlock: int, endBlock: int, anchorBlock: int, maxBlocks: int)
    requires endBlock < startBlock
    ensures BoundedWindow(startBlock, endBlock, anchorBlock, maxBlocks) == (startBlock, startBlock - 1, false)
  {
  }

  type Chunk = (int, int)

  /** Consecutive chunks of at most `size` blocks. */
  function Chunks(startBlock: int, endBlock: int, size: nat): seq<Chunk>
    requires size >= 1
    decreases endBlock - startBlock
  {
    if startBlock > endBlock then []
    else [(startBlock, Min(endBlock, startBlock + size - 1))] + Chunks(startBlock + size, endBlock, size)
  }

  predicate Holds(chunk: Chunk, block: int) {
    chunk.0 <= block <= chunk.1
  }

  /** The chunks tile the window: every block of it is in exactly one chunk, no other block is in
      any, and no chunk is longer than `size`. */
  lemma {:induction false} ChunksTile(startBlock: int, endBlock: int, size: nat, block: int) returns (at: int)
    requires size >= 1
    ensures var chunks := Chunks(startBlock, endBlock, size);
            && (startBlock <= block <= endBlock <==> 0 <= at < |chunks|)
            && (forall i :: 0 <= i < |chunks| ==> (Holds(chunks[i], block) <==> i == at))
            && (forall i :: 0 <= i < |chunks| ==> chunks[i].1 - chunks[i].0 < size)
    decreases endBlock - startBlock
  {
    at := -1;
    if startBlock <= endBlock {
      var chunks, later := Chunks(startBlock, endBlock, size), Chunks(startBlock + size, endBlock, size);
      var rest := ChunksTile(startBlock + size, endBlock, size, block);
      if startBlock <= block <= Min(endBlock, startBlock + size - 1) {
        at := 0;
      } else if 0 <= rest < |later| {
        at := rest + 1;
      }
      assert |chunks| == |later| + 1 && chunks[0] == (startBlock, Min(endBlock, startBlock + size - 1));
      forall i | 0 <= i < |chunks|
        ensures (Holds(chunks[i], block) <==> i == at) && chunks[i].1 - chunks[i].0 < size
      {
        assert i > 0 ==> chunks[i] == later[i - 1];
      }
    }
  }

  // ----- the log queries: every topic filter over every chunk

  type Filter = nat
  type Log = nat
  type Query = (Filter, Chunk)

  /** The endpoint's answers, `None` for a failed query, and the record a log is read as, `None`
      for a malformed one. */
  datatype Endpoint = Endpoint(answer: Query -> Option<seq<Log>>, record: (Filter, Log) -> Option<HistoryRecord>)

  function FilterQueries(f: Filter, chunks: seq<Chunk>): seq<Query> {
    if chunks == [] then [] else [(f, chunks[0])] + FilterQueries(f, chunks[1..])
  }

  function AllQueries(filters: seq<Filter>, chunks: seq<Chunk>): seq<Query> {
    if filters == [] then [] else FilterQueries(filters[0], chunks) + AllQueries(filters[1..], chunks)
  }

  function RecordsOf(e: Endpoint, f: Filter, logs: seq<Log>): seq<HistoryRecord> {
    if logs == [] then []
    else
      var first := e.record(f, logs[0]);
      (if first.Some? then [first.value] else []) + RecordsOf(e, f, logs[1..])
  }

  function AnswerTo(e: Endpoint, q: Query): seq<HistoryRecord> {
    if e.answer(q).None? then [] else RecordsOf(e, q.0, e.answer(q).value)
  }

  /** The records of all answers, in query order. */
  function Gathered(e: Endpoint, queries: seq<Query>): seq<HistoryRecord> {
    if queries == [] then [] else AnswerTo(e, queries[0]) + Gathered(e, queries[1..])
  }

  function Unanswered(e: Endpoint, queries: seq<Query>): seq<Query> {
    if queries == [] then []
    else if e.answer(queries[0]).None? then [queries[0]] + Unanswered(e, queries[1..])
    else Unanswered(e, queries[1..])
  }

  /** What reading some queries did: the records up to the cap, whether it was reached, and the
      failed queries reported, all of them unless the cap stopped the reading. */
  predicate Read(e: Endpoint, queries: seq<Query>, cap: nat, before: seq<HistoryRecord>,
                 records: seq<HistoryRecord>, full: bool, unavailable: seq<Query>)
  {
    var all := before + Gathered(e, queries);
    && (full <==> |all| >= cap) && records == Take(all, cap)
    && unavailable <= Unanswered(e, queries) && (!full ==> unavailable == Unanswered(e, queries))
  }

  /** The loop over the logs of one answer, with its early return. */
  method AppendLogs(before: seq<HistoryRecord>, e: Endpoint, f: Filter, logs: seq<Log>, cap: nat)
    returns (records: seq<HistoryRecord>, full: bool)
    requires |before| < cap
    ensures records == Take(before + RecordsOf(e, f, logs), cap)
    ensures full <==> |before + RecordsOf(e, f, logs)| >= cap
  {
    records, full := before, false;
    assert logs[0..] == logs;
    for i := 0 to |logs|
      invariant |records| < cap && records + RecordsOf(e, f, logs[i..]) == before + RecordsOf(e, f, logs)
    {
      assert logs[i..][0] == logs[i] && logs[i..][1..] == logs[i + 1..];
      var record := e.record(f, logs[i]);
      if record.Some? {
        Associate(records, [record.value], RecordsOf(e, f, logs[i + 1..]));
        records := records + [record.value];
      }
      if |records| >= cap {
        TakeExactly(records, RecordsOf(e, f, logs[i + 1..]));
        full := true;
        return;
      }
    }
    assert logs[|logs|..] == [];
  }

  lemma TakeExactly<T>(done: seq<T>, rest: seq<T>)
    ensures Take(done + rest, |done|) == done
  {
  }

  lemma ReadNothing(e: Endpoint, cap: nat, before: seq<HistoryRecord>)
    requires |before| < cap
    ensures Read(e, [], cap, before, before, false, [])
  {
  }

  /** Reading two lists of queries one after the other is reading their concatenation. */
  lemma ReadOn(e: Endpoint, first: seq<Query>, second: seq<Query>, cap: nat, before: seq<HistoryRecord>,
               middle: seq<HistoryRecord>, failed: seq<Query>, records: seq<HistoryRecord>, full: bool,
               unavailable: seq<Query>)
    requires Read(e, first, cap, before, middle, false, failed)
             && Read(e, second, cap, middle, records, full, unavailable)
    ensures Read(e, first + second, cap, before, records, full, failed + unavailable)
  {
    GatheredAppend(e, first, second);
    UnansweredAppend(e, first, second);
    assert middle == before + Gathered(e, first);
    Associate(before, Gathered(e, first), Gathered(e, second));
  }

  /** The cap stops the reading: what follows is never asked. */
  lemma ReadStops(e: Endpoint, first: seq<Query>, second: seq<Query>, cap: nat, before: seq<HistoryRecord>,
                  records: seq<HistoryRecord>, unavailable: seq<Query>)
    requires Read(e, first, cap, before, records, true, unavailable)
    ensures Read(e, first + second, cap, before, records, true, unavailable)
  {
    GatheredAppend(e, first, second);
    UnansweredAppend(e, first, second);
    Associate(before, Gathered(e, first), Gathered(e, second));
    TakeOfLonger(before + Gathered(e, first), Gathered(e, second), cap);
  }

  lemma TakeOfLonger<T>(a: seq<T>, b: seq<T>, n: nat)
    requires |a| >= n
    ensures Take(a + b, n) == Take(a, n)
  {
  }

  lemma {:induction false} GatheredAppend(e: Endpoint, a: seq<Query>, b: seq<Query>)
    ensures Gathered(e, a + b) == Gathered(e, a) + Gathered(e, b)
  {
    hide AnswerTo;
    if a == [] {
      assert a + b == b;
    } else {
      GatheredAppend(e, a[1..], b);
      assert (a + b)[0] == a[0] && (a + b)[1..] == a[1..] + b;
      Associate(AnswerTo(e, a[0]), Gathered(e, a[1..]), Gathered(e, b));
    }
  }

  lemma {:induction false} UnansweredAppend(e: Endpoint, a: seq<Query>, b: seq<Query>)
    ensures Unanswered(e, a + b) == Unanswered(e, a) + Unanswered(e, b)
  {
    if a == [] {
      assert a + b == b;
    } else {
      UnansweredAppend(e, a[1..], b);
      assert (a + b)[0] == a[0] && (a + b)[1..] == a[1..] + b;
    }
  }

  /** One query. */
  method ReadQuery(before: seq<HistoryRecord>, e: Endpoint, q: Query, cap: nat)
    returns (records: seq<HistoryRecord>, full: bool, unavailable: seq<Query>)
    requires |before| < cap
    ensures Read(e, [q], cap, before, records, full, unavailable)
  {
    assert [q][1..] == [];
    assert AnswerTo(e, q) + [] == AnswerTo(e, q);
    var answer := e.answer(q);
    if answer.None? {
      records, full, unavailable := before, false, [q];
      assert before + [] == before;
    } else {
      records, full := AppendLogs(before, e, q.0, answer.value, cap);
      unavailable := [];
    }
  }

  /** The chunk loop of one filter. */
  method ReadFilter(before: seq<HistoryRecord>, e: Endpoint, f: Filter, startBlock: int, endBlock: int, size: nat,
                    cap: nat)
    returns (records: seq<HistoryRecord>, full: bool, unavailable: seq<Query>)
    requires size >= 1 && |before| < cap
    ensures Read(e, FilterQueries(f, Chunks(startBlock, endBlock, size)), cap, before, records, full, unavailable)
  {
    hide Read;
    ghost var done: seq<Query> := [];
    ghost var all := FilterQueries(f, Chunks(startBlock, endBlock, size));
    records, full, unavailable := before, false, [];
    ReadNothing(e, cap, before);
    var chunkStart := startBlock;
    while chunkStart <= endBlock
      invariant !full && |records| < cap && Read(e, done, cap, before, records, false, unavailable)
      invariant done + FilterQueries(f, Chunks(chunkStart, endBlock, size)) == all
      decreases endBlock - chunkStart
    {
      var q := (f, (chunkStart, Min(endBlock, chunkStart + size - 1)));
      ghost var rest := FilterQueries(f, Chunks(chunkStart + size, endBlock, size));
      assert FilterQueries(f, Chunks(chunkStart, endBlock, size)) == [q] + rest by {
        assert Chunks(chunkStart, endBlock, size)[1..] == Chunks(chunkStart + size, endBlock, size);
      }
      Associate(done, [q], rest);
      var failed;
      ghost var middle := records;
      records, full, failed := ReadQuery(records, e, q, cap);
      ReadOn(e, done, [q], cap, before, middle, unavailable, records, full, failed);
      unavailable := unavailable + failed;
      done := done + [q];
      NotFull(e, done, cap, before, records, full, unavailable);
      if full {
        ReadStops(e, done, rest, cap, before, records, unavailable);
        return;
      }
      chunkStart := chunkStart + size;
    }
    assert done + [] == done;
  }

  lemma NotFull(e: Endpoint, queries: seq<Query>, cap: nat, before: seq<HistoryRecord>, records: seq<HistoryRecord>,
                full: bool, unavailable: seq<Query>)
    requires Read(e, queries, cap, before, records, full, unavailable)
    ensures !full ==> |records| < cap
  {
  }

  /** `_log_records`: every filter over every chunk until the cap, then the best distinct records. */
  method LogRecords(e: Endpoint, filters: seq<Filter>, startBlock: int, endBlock: int, size: nat, cap: nat)
    returns (selected: seq<HistoryRecord>, capped: bool, unavailable: seq<Query>)
    requires size >= 1 && cap >= 1
    ensures exists records ::
              && Read(e, AllQueries(filters, Chunks(startBlock, endBlock, size)), cap, [], records, capped, unavailable)
              && selected == Selected(records, cap, None)
  {
    hide Read;
    var records: seq<HistoryRecord> := [];
    capped, unavailable := false, [];
    ghost var chunks, done: seq<Query> := Chunks(startBlock, endBlock, size), [];
    ghost var all := AllQueries(filters, chunks);
    ReadNothing(e, cap, records);
    assert filters[0..] == filters;
    for i := 0 to |filters|
      invariant !capped && |records| < cap && Read(e, done, cap, [], records, false, unavailable)
      invariant done + AllQueries(filters[i..], chunks) == all
    {
      ghost var now, rest := FilterQueries(filters[i], chunks), AllQueries(filters[i + 1..], chunks);
      assert filters[i..][0] == filters[i] && filters[i..][1..] == filters[i + 1..];
      Associate(done, now, rest);
      var failed;
      ghost var middle := records;
      records, capped, failed := ReadFilter(records, e, filters[i], startBlock, endBlock, size, cap);
      ReadOn(e, done, now, cap, [], middle, unavailable, records, capped, failed);
      unavailable := unavailable + failed;
      done := done + now;
      NotFull(e, done, cap, [], records, capped, unavailable);
      if capped {
        ReadStops(e, done, rest, cap, [], records, unavailable);
        selected := BoundedUnique(records, cap, None);
        return;
      }
    }
    assert filters[|filters|..] == [] && done + [] == done;
    selected := BoundedUnique(records, cap, None);
  }

  // ----- nothing is missed silently

  lemma {:induction false} QueryIsAsked(filters: seq<Filter>, chunks: seq<Chunk>, f: Filter, chunk: Chunk)
    requires f in filters && chunk in chunks
    ensures (f, chunk) in AllQueries(filters, chunks)
  {
    if f == filters[0] {
      FilterIsAsked(f, chunks, chunk);
    } else {
      QueryIsAsked(filters[1..], chunks, f, chunk);
    }
  }

  lemma {:induction false} FilterIsAsked(f: Filter, chunks: seq<Chunk>, chunk: Chunk)
    requires chunk in chunks
    ensures (f, chunk) in FilterQueries(f, chunks)
  {
    if chunk != chunks[0] {
      FilterIsAsked(f, chunks[1..], chunk);
    }
  }

  lemma {:induction false} AnswerIsGathered(e: Endpoint, queries: seq<Query>, q: Query)
    requires q in queries
    ensures e.answer(q).None? ==> q in Unanswered(e, queries)
    ensures forall r :: r in AnswerTo(e, q) ==> r in Gathered(e, queries)
  {
    hide AnswerTo;
    if q != queries[0] {
      AnswerIsGathered(e, queries[1..], q);
    }
  }

  lemma {:induction false} LogIsRecorded(e: Endpoint, f: Filter, logs: seq<Log>, log: Log)
    requires log in logs && e.record(f, log).Some?
    ensures e.record(f, log).value in RecordsOf(e, f, logs)
  {
    if log != logs[0] {
      LogIsRecorded(e, f, logs[1..], log);
    }
  }

  /** A selection that was not cut short keeps a record of every identity. */
  lemma KeepsEveryIdentity(records: seq<HistoryRecord>, cap: nat, r: HistoryRecord)
    requires r in records && |records| < cap
    ensures Represented(Selected(records, cap, None), r)
  {
    IdsSize(records);
    NothingLostExactly(records, cap, None);
  }

  lemma {:induction false} UnansweredExactly(e: Endpoint, queries: seq<Query>, q: Query)
    ensures q in Unanswered(e, queries) <==> q in queries && e.answer(q).None?
  {
    if queries != [] {
      UnansweredExactly(e, queries[1..], q);
      assert queries == [queries[0]] + queries[1..];
    }
  }

  /** Only failures are reported unavailable, and without the cap all of them. */
  lemma ReportedExactly(e: Endpoint, queries: seq<Query>, cap: nat, before: seq<HistoryRecord>,
                        records: seq<HistoryRecord>, full: bool, unavailable: seq<Query>, q: Query)
    requires Read(e, queries, cap, before, records, full, unavailable)
    ensures q in unavailable ==> q in queries && e.answer(q).None?
    ensures !full && q in queries && e.answer(q).None? ==> q in unavailable
  {
    hide Gathered;
    UnansweredExactly(e, queries, q);
  }

  /** For every block of the window and every filter: the cap was announced, or the chunk holding
      the block was reported unavailable, or every readable log of its answer is represented in
      the selection. */
  lemma NothingMissedSilently(e: Endpoint, filters: seq<Filter>, startBlock: int, endBlock: int, size: nat, cap: nat,
                              records: seq<HistoryRecord>, capped: bool, unavailable: seq<Query>,
                              f: Filter, block: int, log: Log) returns (chunk: Chunk)
    requires size >= 1 && cap >= 1 && f in filters && startBlock <= block <= endBlock
    requires Read(e, AllQueries(filters, Chunks(startBlock, endBlock, size)), cap, [], records, capped, unavailable)
    ensures chunk in Chunks(startBlock, endBlock, size) && Holds(chunk, block)
    ensures || capped || (f, chunk) in unavailable
            || (e.answer((f, chunk)).Some?
                && (log in e.answer((f, chunk)).value && e.record(f, log).Some? ==>
                    exists i :: 0 <= i < |Selected(records, cap, None)|
                                && IdentityOf(Selected(records, cap, None)[i]) == IdentityOf(e.record(f, log).value)))
  {
    var chunks := Chunks(startBlock, endBlock, size);
    var at := ChunksTile(startBlock, endBlock, size, block);
    chunk := chunks[at];
    var queries := AllQueries(filters, chunks);
    hide Chunks, AllQueries, Selected, Gathered, Unanswered, Represented;
    QueryIsAsked(filters, chunks, f, chunk);
    AnswerIsGathered(e, queries, (f, chunk));
    if !capped && e.answer((f, chunk)).Some? && log in e.answer((f, chunk)).value && e.record(f, log).Some? {
      LogIsRecorded(e, f, e.answer((f, chunk)).value, log);
      assert [] + Gathered(e, queries) == Gathered(e, queries);
      KeepsEveryIdentity(records, cap, e.record(f, log).value);
    }
  }

  // ----- the whole lookup, and its second selection

  /** The scanned transactions the address takes part in. */
  function Touching(records: seq<HistoryRecord>, address: Address): seq<HistoryRecord> {
    if records == [] then []
    else
      var last := records[|records| - 1];
      Touching(records[..|records| - 1], address)
      + (if last.sender == Some(address) || last.recipient == Some(address) then [last] else [])
  }

  /** Exactly the records sent or received by the address, as often as they were scanned. */
  lemma {:induction false} TouchingMeaning(records: seq<HistoryRecord>, address: Address, r: HistoryRecord)
    ensures multiset(Touching(records, address))[r]
         == if r.sender == Some(address) || r.recipient == Some(address) then multiset(records)[r] else 0
  {
    if records != [] {
      TouchingMeaning(records[..|records| - 1], address, r);
      assert records == records[..|records| - 1] + [records[|records| - 1]];
    }
  }

  /** What the lookup selects from: the scanned transactions of the address and the log records. */
  function Found(scanned: seq<HistoryRecord>, address: Address, logged: seq<HistoryRecord>,
                 cap: nat): seq<HistoryRecord>
  {
    Touching(scanned, address) + Selected(logged, cap, None)
  }

  /** `records_for_address`: narrow the window, read it twice, and select again, nearest to the
      anchor first, up to the caller's limit. */
  method RecordsForAddress(e: Endpoint, filters: seq<Filter>, scan: (int, int) -> seq<HistoryRecord>, address: Address,
                           startBlock: int, endBlock: int, anchorBlock: nat, maxBlocks: int, size: nat, cap: nat,
                           limit: int)
    returns (selected: seq<HistoryRecord>, narrowed: bool, capped: bool, unavailable: seq<Query>)
    requires size >= 1 && cap >= 1
    ensures var (first, last, cut) := BoundedWindow(startBlock, endBlock, anchorBlock, maxBlocks);
            && narrowed == cut
            && exists logged ::
                 && Read(e, AllQueries(filters, Chunks(first, last, size)), cap, [], logged, capped, unavailable)
                 && selected
                    == Selected(Found(scan(first, last), address, logged, cap), Max(1, limit), Some(anchorBlock))
  {
    hide Read, Selected;
    var (first, last, cut) := BoundedWindow(startBlock, endBlock, anchorBlock, maxBlocks);
    narrowed := cut;
    var normal := Touching(scan(first, last), address);
    var logs;
    logs, capped, unavailable := LogRecords(e, filters, first, last, size, cap);
    selected := BoundedUnique(normal + logs, Max(1, limit), Some(anchorBlock));
  }

  /** The lookup's own selection loses a record exactly when it found more distinct identities than
      the caller's limit. It gives no warning of that; only a selection shorter than the limit
      shows that nothing was lost. */
  lemma LookupLosesExactly(found: seq<HistoryRecord>, limit: int, anchorBlock: nat)
    ensures var selected := Selected(found, Max(1, limit), Some(anchorBlock));
            && ((exists r :: r in found && !Represented(selected, r)) <==> |Ids(found, RECORD_ID)| > Max(1, limit))
            && (|selected| < Max(1, limit) ==> forall r :: r in found ==> Represented(selected, r))
  {
    NothingLostExactly(found, Max(1, limit), Some(anchorBlock));
  }

  /** With both selections: for every block of the window and every filter, the cap was announced,
      the chunk was reported unavailable, more identities were found than the limit allows, or each
      readable log of the answer is represented in what the caller receives. */
  lemma NothingLostToTheCaller(e: Endpoint, filters: seq<Filter>, first: int, last: int, size: nat, cap: nat,
                               logged: seq<HistoryRecord>, capped: bool, unavailable: seq<Query>,
                               scanned: seq<HistoryRecord>, address: Address, anchorBlock: nat, limit: int,
                               f: Filter, block: int, log: Log) returns (chunk: Chunk)
    requires size >= 1 && cap >= 1 && f in filters && first <= block <= last
    requires Read(e, AllQueries(filters, Chunks(first, last, size)), cap, [], logged, capped, unavailable)
    ensures chunk in Chunks(first, last, size) && Holds(chunk, block)
    ensures var found := Found(scanned, address, logged, cap);
            || capped || (f, chunk) in unavailable || |Ids(found, RECORD_ID)| > Max(1, limit)
            || (e.answer((f, chunk)).Some?
                && (log in e.answer((f, chunk)).value && e.record(f, log).Some? ==>
                   Represented(Selected(found, Max(1, limit), Some(anchorBlock)), e.record(f, log).value)))
  {
    hide Chunks, AllQueries, Selected, Read, Ids;
    chunk := NothingMissedSilently(e, filters, first, last, size, cap, logged, capped, unavailable, f, block, log);
    var found := Found(scanned, address, logged, cap);
    NothingLostExactly(found, Max(1, limit), Some(anchorBlock));
    var logs := Selected(logged, cap, None);
    if e.record(f, log).Some? && Represented(logs, e.record(f, log).value) {
      var i :| 0 <= i < |logs| && IdentityOf(logs[i]) == IdentityOf(e.record(f, log).value);
      assert found[|Touching(scanned, address)| + i] == logs[i] && logs[i] in found;
    }
  }
}
