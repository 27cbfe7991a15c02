/** The confirmed-block scanner: a stored cursor that advances block by block, with failures. */
module Scanner {
  import opened Basics

  /** `globalUpgrades` and `watched` decide whether a range's logs are queried at all: without
      global monitoring (the default) and without a watched address, they are not. */
  datatype Config = Config(
    confirmations: nat, initialLookbackBlocks: nat, maxBlocksPerCycle: nat, globalUpgrades: bool, watched: set<Address>)

  predicate QueriesLogs(c: Config) {
    c.globalUpgrades || c.watched != {}
  }

  /** The bounds configuration loading enforces. */
  predicate ValidConfig(c: Config) {
    c.initialLookbackBlocks >= 1 && c.maxBlocksPerCycle >= 1
  }

  /** Where a cycle fails: before its range is known, while monitoring the range's logs (if it
      does), at any block, or in the alerts sent at the end. */
  datatype Outcome = Outcome(early: bool, logs: bool, block: nat -> bool, late: bool)

  ghost predicate Quiet(o: Outcome) {
    !o.early && !o.logs && !o.late && forall n :: !o.block(n)
  }

  datatype Step = Queried(first: nat, last: nat) | Completed(number: nat)

  /** The stored cursor, and a history variable: the log ranges queried and the blocks completed,
      in order. */
  datatype State = State(cursor: Option<nat>, trace: seq<Step>)

  const FRESH: State := State(None, [])

  /** `range` is `None` when there was nothing to scan. */
  datatype ScanResult = Scanned(range: Option<(nat, nat)>, blocks: nat) | Failed

  // ----- one cycle

  function SafeHead(c: Config, head: nat): nat {
    Max(0, head - c.confirmations)
  }

  function StartOf(c: Config, cursor: Option<nat>, safeHead: nat): nat {
    if cursor.None? then Max(0, safeHead - c.initialLookbackBlocks + 1) else cursor.value + 1
  }

  function EndOf(c: Config, start: nat, safeHead: nat): int {
    Min(safeHead, start + c.maxBlocksPerCycle - 1)
  }

  /** Complete the blocks from `number` on until one fails. */
  function Advance(s: State, number: nat, end: nat, o: Outcome): State
    decreases end + 1 - number
  {
    if number > end || o.block(number) then s
    else Advance(State(Some(number), s.trace + [Completed(number)]), number + 1, end, o)
  }

  /** The trace once the range's logs have been queried, if they are. */
  function Monitored(c: Config, trace: seq<Step>, start: nat, end: nat): seq<Step> {
    if QueriesLogs(c) then trace + [Queried(start, end)] else trace
  }

  predicate LogsFail(c: Config, o: Outcome) {
    QueriesLogs(c) && o.logs
  }

  function Cycle(c: Config, s: State, head: nat, o: Outcome): State
    requires ValidConfig(c)
  {
    var safeHead := SafeHead(c, head);
    var start := StartOf(c, s.cursor, safeHead);
    var end := EndOf(c, start, safeHead);
    if o.early || start > safeHead || LogsFail(c, o) then s
    else Advance(s.(trace := Monitored(c, s.trace, start, end)), start, end, o)
  }

  class ChainScanner {
    const config: Config
    var cursor: Option<nat>
    var trace: seq<Step>

    constructor (config: Config)
      requires ValidConfig(config)
      ensures this.config == config && Contents() == FRESH
    {
      this.config := config;
      cursor, trace := None, [];
    }

    function Contents(): State
      reads this
    {
      State(cursor, trace)
    }

    method Scan(head: nat, o: Outcome) returns (r: ScanResult)
      requires ValidConfig(config)
      modifies this`cursor, this`trace
      ensures Contents() == Cycle(config, old(Contents()), head, o)
      ensures var safeHead := SafeHead(config, head);
              var start := StartOf(config, old(cursor), safeHead);
              var end := EndOf(config, start, safeHead);
              && (r.Failed? <==> o.early || (start <= safeHead && (LogsFail(config, o) || o.late
                                                                    || exists n :: start <= n <= end && o.block(n))))
              && (r.Scanned? ==> r.range == (if start <= safeHead then Some((start, end)) else None))
      ensures r.Scanned? ==> r.blocks == |Completions(trace)| - |Completions(old(trace))|
    {
      hide Advance, Completions;
      if o.early {
        return Failed;
      }
      var safeHead := SafeHead(config, head);
      var start := if cursor.None? then Max(0, safeHead - config.initialLookbackBlocks + 1) else cursor.value + 1;
      if start > safeHead {
        return Scanned(None, 0);
      }
      var end := Min(safeHead, start + config.maxBlocksPerCycle - 1);
      if config.globalUpgrades || config.watched != {} {
        if o.logs {
          return Failed;
        }
        CompletionsAppend(trace, Queried(start, end));
        trace := trace + [Queried(start, end)];
      }
      var blocks, failed := ScanBlocks(start, end, o);
      r := if failed || o.late then Failed else Scanned(Some((start, end)), blocks);
    }

    method ScanBlocks(start: nat, end: nat, o: Outcome) returns (blocks: nat, failed: bool)
      requires start <= end
      modifies this`cursor, this`trace
      ensures Contents() == Advance(old(Contents()), start, end, o)
      ensures failed <==> exists n :: start <= n <= end && o.block(n)
      ensures blocks == |Completions(trace)| - |Completions(old(trace))|
    {
      hide Completions;
      blocks, failed := 0, false;
      for number := start to end + 1
        invariant Advance(Contents(), number, end, o) == Advance(old(Contents()), start, end, o)
        invariant blocks == |Completions(trace)| - |Completions(old(trace))|
        invariant forall n :: start <= n < number ==> !o.block(n)
      {
        if o.block(number) {
          failed := true;
          return;
        }
        CompletionsAppend(trace, Completed(number));
        trace := trace + [Completed(number)];
        cursor := Some(number);
        blocks := blocks + 1;
      }
    }
  }

  // ----- the blocks completed

  function Completions(trace: seq<Step>): seq<nat> {
    if trace == [] then []
    else
      Completions(trace[..|trace| - 1]) + (if trace[|trace| - 1].Completed? then [trace[|trace| - 1].number] else [])
  }

  lemma CompletionsAppend(trace: seq<Step>, step: Step)
    ensures Completions(trace + [step])
            == if step.Completed? then Completions(trace) + [step.number] else Completions(trace)
  {
    assert (trace + [step])[..|trace|] == trace;
  }

  predicate GapFree(blocks: seq<nat>) {
    forall i :: 0 <= i < |blocks| - 1 ==> blocks[i + 1] == blocks[i] + 1
  }

  /** An earlier step queried the logs of a range that holds the block. */
  ghost predicate QueriedBefore(trace: seq<Step>, i: nat, number: nat) {
    exists j :: 0 <= j < i && j < |trace| && trace[j].Queried? && trace[j].first <= number <= trace[j].last
  }

  ghost predicate AllQueried(trace: seq<Step>) {
    forall i :: 0 <= i < |trace| && trace[i].Completed? ==> QueriedBefore(trace, i, trace[i].number)
  }

  predicate NoneQueried(trace: seq<Step>) {
    forall i :: 0 <= i < |trace| ==> trace[i].Completed?
  }

  /** Completed blocks are one gap-free interval ending at the cursor; each was inside a range
      whose logs were queried earlier if logs are queried, and otherwise none ever was. */
  ghost predicate Sound(c: Config, s: State) {
    var done := Completions(s.trace);
    && GapFree(done) && (if QueriesLogs(c) then AllQueried(s.trace) else NoneQueried(s.trace))
    && s.cursor == (if done == [] then None else Some(done[|done| - 1]))
  }

  lemma StepKeepsQueried(trace: seq<Step>, step: Step)
    requires AllQueried(trace) && (step.Completed? ==> QueriedBefore(trace, |trace|, step.number))
    ensures AllQueried(trace + [step])
  {
    var longer := trace + [step];
    forall i | 0 <= i < |longer| && longer[i].Completed? ensures QueriedBefore(longer, i, longer[i].number) {
      assert i < |trace| ==> QueriedBefore(trace, i, trace[i].number);
      var j :| 0 <= j < i && j < |trace| && trace[j].Queried? && trace[j].first <= longer[i].number <= trace[j].last;
      assert longer[j] == trace[j];
    }
  }

  /** A range still open from `number` on: some step queried it. */
  ghost predicate Open(trace: seq<Step>, number: nat, end: nat) {
    exists j :: 0 <= j < |trace| && trace[j].Queried? && trace[j].first <= number && end <= trace[j].last
  }

  /** Whether a block may be completed: the range still open was queried, if logs are. */
  ghost predicate MayComplete(c: Config, trace: seq<Step>, number: nat, end: nat) {
    QueriesLogs(c) ==> Open(trace, number, end)
  }

  lemma GapFreeNext(done: seq<nat>, number: nat)
    requires GapFree(done) && (done == [] || done[|done| - 1] + 1 == number)
    ensures GapFree(done + [number])
  {
  }

  lemma QueriedNow(trace: seq<Step>, number: nat, end: nat)
    requires Open(trace, number, end) && number <= end
    ensures QueriedBefore(trace, |trace|, number)
  {
  }

  lemma CompleteKeeps(c: Config, s: State, number: nat, end: nat)
    requires Sound(c, s) && number <= end && MayComplete(c, s.trace, number, end)
    requires s.cursor.Some? ==> number == s.cursor.value + 1
    ensures Sound(c, State(Some(number), s.trace + [Completed(number)]))
    ensures MayComplete(c, s.trace + [Completed(number)], number + 1, end)
  {
    hide Completions, QueriedBefore;
    var step := Completed(number);
    CompletionsAppend(s.trace, step);
    GapFreeNext(Completions(s.trace), number);
    if QueriesLogs(c) {
      QueriedNow(s.trace, number, end);
      var j :| 0 <= j < |s.trace| && s.trace[j].Queried? && s.trace[j].first <= number && end <= s.trace[j].last;
      assert (s.trace + [step])[j] == s.trace[j];
      StepKeepsQueried(s.trace, step);
    }
  }

  /** A cycle's advance: where the cursor ends, how many blocks it completed. */
  lemma {:induction false} AdvanceKeeps(c: Config, s: State, number: nat, end: nat, o: Outcome)
    requires Sound(c, s) && MayComplete(c, s.trace, number, end)
    requires s.cursor.Some? ==> number == s.cursor.value + 1
    ensures var s' := Advance(s, number, end, o);
            && Sound(c, s') && s.trace <= s'.trace
            && (s' == s || (s'.cursor.Some? && number <= s'.cursor.value <= end
                            && |Completions(s'.trace)| == |Completions(s.trace)| + s'.cursor.value - number + 1))
    decreases end + 1 - number
  {
    hide Sound, MayComplete;
    if number <= end && !o.block(number) {
      CompleteKeeps(c, s, number, end);
      CompletionsAppend(s.trace, Completed(number));
      AdvanceKeeps(c, State(Some(number), s.trace + [Completed(number)]), number + 1, end, o);
    }
  }

  /** One cycle, whatever fails in it: the state stays sound, nothing recorded is lost, at most
      `maxBlocksPerCycle` blocks complete, and the cursor moves only forward, and except to block 0
      only to a block with its confirmations. */
  lemma CycleKeeps(c: Config, s: State, head: nat, o: Outcome)
    requires ValidConfig(c) && Sound(c, s)
    ensures var s' := Cycle(c, s, head, o);
            && Sound(c, s') && s.trace <= s'.trace
            && |Completions(s'.trace)| <= |Completions(s.trace)| + c.maxBlocksPerCycle
            && (s'.cursor == s.cursor
                || (s'.cursor.Some? && (s'.cursor.value == 0 || s'.cursor.value + c.confirmations <= head)
                    && (s.cursor.Some? ==> s'.cursor.value > s.cursor.value)))
  {
    hide Sound, MayComplete, Advance, Completions, Monitored;
    var safeHead := SafeHead(c, head);
    var start := StartOf(c, s.cursor, safeHead);
    if !o.early && start <= safeHead && !LogsFail(c, o) {
      var end := EndOf(c, start, safeHead);
      MonitorKeeps(c, s, start, end);
      AdvanceKeeps(c, s.(trace := Monitored(c, s.trace, start, end)), start, end, o);
    }
  }

  lemma MonitorKeeps(c: Config, s: State, start: nat, end: nat)
    requires Sound(c, s)
    ensures var trace := Monitored(c, s.trace, start, end);
            && Sound(c, s.(trace := trace)) && MayComplete(c, trace, start, end)
            && Completions(trace) == Completions(s.trace) && s.trace <= trace
  {
    if QueriesLogs(c) {
      var step := Queried(start, end);
      CompletionsAppend(s.trace, step);
      StepKeepsQueried(s.trace, step);
      assert (s.trace + [step])[|s.trace|] == step;
    }
  }

  // ----- runs

  datatype Attempt = Attempt(head: nat, outcome: Outcome)

  function Run(c: Config, s: State, attempts: seq<Attempt>): State
    requires ValidConfig(c)
    decreases attempts
  {
    if attempts == [] then s else Run(c, Cycle(c, s, attempts[0].head, attempts[0].outcome), attempts[1..])
  }

  lemma {:induction false} RunKeeps(c: Config, s: State, attempts: seq<Attempt>, highest: nat)
    requires ValidConfig(c) && Sound(c, s)
    requires s.cursor.Some? ==> s.cursor.value <= highest
    requires forall i :: 0 <= i < |attempts| ==> attempts[i].head <= highest + c.confirmations
    ensures var s' := Run(c, s, attempts);
            && Sound(c, s') && s.trace <= s'.trace
            && (s'.cursor.Some? ==> s'.cursor.value <= highest)
            && (s.cursor.Some? ==> s'.cursor.Some? && s.cursor.value <= s'.cursor.value)
    decreases attempts
  {
    if attempts != [] {
      hide Cycle, Sound;
      CycleKeeps(c, s, attempts[0].head, attempts[0].outcome);
      var next := Cycle(c, s, attempts[0].head, attempts[0].outcome);
      assert forall i :: 0 <= i < |attempts[1..]| ==> attempts[1..][i] == attempts[i + 1];
      RunKeeps(c, next, attempts[1..], highest);
    }
  }

  lemma FreshIsSound(c: Config, s: State)
    requires s == FRESH
    ensures Sound(c, s)
  {
  }

  // ----- what a run completes, in the numbers of the configuration

  /** A cycle completes only blocks that have all their confirmations, and whatever it completes
      was not completed before. */
  lemma {:induction false} AdvanceCompletes(s: State, number: nat, end: nat, o: Outcome, n: nat)
    requires n in Completions(Advance(s, number, end, o).trace) && n !in Completions(s.trace)
    ensures number <= n <= end
    decreases end + 1 - number
  {
    hide Completions;
    if number <= end && !o.block(number) {
      CompletionsAppend(s.trace, Completed(number));
      if n != number {
        AdvanceCompletes(State(Some(number), s.trace + [Completed(number)]), number + 1, end, o, n);
      }
    }
  }

  lemma CycleConfirms(c: Config, s: State, head: nat, o: Outcome, n: nat)
    requires ValidConfig(c)
    requires n in Completions(Cycle(c, s, head, o).trace) && n !in Completions(s.trace)
    ensures n == 0 || n + c.confirmations <= head
  {
    hide Advance, Completions;
    var safeHead := SafeHead(c, head);
    var start := StartOf(c, s.cursor, safeHead);
    if !o.early && start <= safeHead && !LogsFail(c, o) {
      var end := EndOf(c, start, safeHead);
      var monitored := s.(trace := Monitored(c, s.trace, start, end));
      CompletionsAppend(s.trace, Queried(start, end));
      AdvanceCompletes(monitored, start, end, o, n);
    }
  }

  /** The i-th attempt of a run from a fresh cursor is the one that completes block n. */
  predicate CompletedIn(c: Config, attempts: seq<Attempt>, i: nat, n: nat)
    requires ValidConfig(c) && i < |attempts|
  {
    && n !in Completions(Run(c, FRESH, attempts[..i]).trace)
    && n in Completions(Run(c, FRESH, attempts[..i + 1]).trace)
  }

  lemma {:induction false} RunSnoc(c: Config, s: State, attempts: seq<Attempt>, last: Attempt)
    requires ValidConfig(c)
    ensures Run(c, s, attempts + [last]) == Cycle(c, Run(c, s, attempts), last.head, last.outcome)
    decreases attempts
  {
    hide Cycle;
    var longer := attempts + [last];
    if attempts == [] {
      assert longer[1..] == [];
    } else {
      assert longer[0] == attempts[0] && longer[1..] == attempts[1..] + [last];
      RunSnoc(c, Cycle(c, s, attempts[0].head, attempts[0].outcome), attempts[1..], last);
    }
  }

  lemma {:induction false} CompletedOnce(c: Config, attempts: seq<Attempt>, m: nat, n: nat) returns (i: nat)
    requires ValidConfig(c) && m <= |attempts| && n in Completions(Run(c, FRESH, attempts[..m]).trace)
    ensures i < m && CompletedIn(c, attempts, i, n)
  {
    hide Cycle, Run;
    NothingRun(c);
    assert attempts[..0] == [];
    assert m > 0;
    i := m - 1;
    if n in Completions(Run(c, FRESH, attempts[..i]).trace) {
      i := CompletedOnce(c, attempts, i, n);
    }
  }

  lemma NothingRun(c: Config)
    requires ValidConfig(c)
    ensures Completions(Run(c, FRESH, []).trace) == []
  {
  }

  lemma CompletionIsConfirmed(c: Config, attempts: seq<Attempt>, i: nat, n: nat)
    requires ValidConfig(c) && i < |attempts| && CompletedIn(c, attempts, i, n)
    ensures n == 0 || n + c.confirmations <= attempts[i].head
  {
    hide Cycle, Run, Completions;
    assert attempts[..i + 1] == attempts[..i] + [attempts[i]];
    RunSnoc(c, FRESH, attempts[..i], attempts[i]);
    CycleConfirms(c, Run(c, FRESH, attempts[..i]), attempts[i].head, attempts[i].outcome, n);
  }

  /** Every block a run completes from a fresh cursor was completed in some attempt, and in any
      attempt that completes it, it has its confirmations: the head is at least `confirmations`
      blocks beyond it. Only block 0 may be completed with fewer. */
  lemma CompletedBlocksAreConfirmed(c: Config, attempts: seq<Attempt>, n: nat)
    requires ValidConfig(c)
    ensures n in Completions(Run(c, FRESH, attempts).trace) ==>
              exists i :: 0 <= i < |attempts| && CompletedIn(c, attempts, i, n)
    ensures forall i :: 0 <= i < |attempts| && CompletedIn(c, attempts, i, n) ==>
              n == 0 || n + c.confirmations <= attempts[i].head
  {
    hide Cycle, Run, Completions, CompletedIn;
    assert attempts[..|attempts|] == attempts;
    if n in Completions(Run(c, FRESH, attempts).trace) {
      var i := CompletedOnce(c, attempts, |attempts|, n);
    }
    forall i | 0 <= i < |attempts| && CompletedIn(c, attempts, i, n)
      ensures n == 0 || n + c.confirmations <= attempts[i].head
    {
      CompletionIsConfirmed(c, attempts, i, n);
    }
  }

  /** Every run from a fresh cursor, with any heads and failures: the completed blocks form one
      gap-free interval that ends at the cursor, which never passes the largest safe head seen.
      When logs are queried, each block lies in a range queried before it was completed. */
  lemma EveryRunIsSound(c: Config, s: State, attempts: seq<Attempt>, highest: nat)
    requires ValidConfig(c) && s == FRESH
    requires forall i :: 0 <= i < |attempts| ==> attempts[i].head <= highest + c.confirmations
    ensures var s' := Run(c, s, attempts);
            var done := Completions(s'.trace);
            && GapFree(done) && s'.cursor == (if done == [] then None else Some(done[|done| - 1]))
            && (s'.cursor.Some? ==> s'.cursor.value <= highest)
            && (c.globalUpgrades || c.watched != {} ==> AllQueried(s'.trace))
  {
    FreshIsSound(c, s);
    hide Run;
    RunKeeps(c, s, attempts, highest);
  }

  lemma CompletedSomewhere(trace: seq<Step>) returns (i: nat)
    requires Completions(trace) != []
    ensures i < |trace| && trace[i].Completed?
  {
    i := |trace| - 1;
    if !trace[i].Completed? {
      i := CompletedSomewhere(trace[..i]);
    }
  }

  /** The exact condition for completed blocks to have been monitored: the configuration queries
      logs. Without global monitoring or a watched address, a run that completes any block
      completes it with no earlier query. */
  lemma MonitoredExactly(c: Config, s: State, attempts: seq<Attempt>)
    requires ValidConfig(c) && s == FRESH
    ensures var s' := Run(c, s, attempts);
            Completions(s'.trace) != [] ==> (AllQueried(s'.trace) <==> c.globalUpgrades || c.watched != {})
  {
    FreshIsSound(c, s);
    var highest := HighestHead(c, attempts);
    hide Run, HighestHead;
    RunKeeps(c, s, attempts, highest);
    var s' := Run(c, s, attempts);
    if Completions(s'.trace) != [] && !QueriesLogs(c) {
      var i := CompletedSomewhere(s'.trace);
      assert !QueriedBefore(s'.trace, i, s'.trace[i].number);
    }
  }

  function HighestHead(c: Config, attempts: seq<Attempt>): (highest: nat)
    ensures forall i :: 0 <= i < |attempts| ==> attempts[i].head <= highest + c.confirmations
  {
    if attempts == [] then 0
    else Max(HighestHead(c, attempts[..|attempts| - 1]), attempts[|attempts| - 1].head - c.confirmations)
  }

  /** One quiet cycle of such a configuration: a block completes unmonitored. */
  lemma UnmonitoredBlock(c: Config, o: Outcome)
    requires c == Config(0, 1, 1, false, {}) && Quiet(o)
    ensures Cycle(c, FRESH, 5, o) == State(Some(5), [Completed(5)])
  {
    var one := State(Some(5), [] + [Completed(5)]);
    assert Advance(one, 6, 5, o) == one;
  }

  // ----- catching up

  lemma {:induction false} QuietAdvance(s: State, number: nat, end: nat, o: Outcome)
    requires Quiet(o) && number <= end
    ensures Advance(s, number, end, o).cursor == Some(end)
    decreases end - number
  {
    var next := State(Some(number), s.trace + [Completed(number)]);
    if number < end {
      QuietAdvance(next, number + 1, end, o);
    } else {
      assert Advance(next, number + 1, end, o) == next;
    }
  }

  lemma QuietCycle(c: Config, s: State, head: nat, o: Outcome)
    requires ValidConfig(c) && Quiet(o)
    ensures var safeHead := SafeHead(c, head);
            var start := StartOf(c, s.cursor, safeHead);
            Cycle(c, s, head, o).cursor ==
              if start > safeHead then s.cursor else Some(Min(safeHead, start + c.maxBlocksPerCycle - 1))
  {
    var safeHead := SafeHead(c, head);
    var start := StartOf(c, s.cursor, safeHead);
    if start <= safeHead {
      var end := EndOf(c, start, safeHead);
      QuietAdvance(s.(trace := Monitored(c, s.trace, start, end)), start, end, o);
    }
  }

  function Times(k: nat, n: nat): nat {
    k * n
  }

  lemma TimesNext(k: nat, n: nat)
    requires k > 0
    ensures Times(k, n) == n + Times(k - 1, n)
  {
  }

  /** Failure-free cycles at a fixed head: each moves the cursor by `maxBlocksPerCycle`, and the
      last one stops at the safe head. */
  lemma {:induction false} QuietRun(c: Config, s: State, attempts: seq<Attempt>, head: nat)
    requires ValidConfig(c)
    requires forall i :: 0 <= i < |attempts| ==> attempts[i].head == head && Quiet(attempts[i].outcome)
    ensures var safeHead := SafeHead(c, head);
            var start := StartOf(c, s.cursor, safeHead);
            Run(c, s, attempts).cursor ==
              if attempts == [] || start > safeHead then s.cursor
              else Some(Min(safeHead, start - 1 + Times(|attempts|, c.maxBlocksPerCycle)))
    decreases attempts
  {
    hide Cycle, Times;
    if attempts != [] {
      var next := Cycle(c, s, head, attempts[0].outcome);
      QuietCycle(c, s, head, attempts[0].outcome);
      assert forall i :: 0 <= i < |attempts[1..]| ==> attempts[1..][i] == attempts[i + 1];
      QuietRun(c, next, attempts[1..], head);
      TimesNext(|attempts|, c.maxBlocksPerCycle);
      if |attempts| == 1 {
        TimesZero(c.maxBlocksPerCycle);
      }
    }
  }

  lemma TimesZero(n: nat)
    ensures Times(0, n) == 0
  {
  }

  function CeilDivide(lag: nat, n: nat): nat
    requires n > 0
  {
    (lag + n - 1) / n
  }

  lemma CeilIsLeast(k: nat, lag: nat, n: nat)
    requires n > 0
    ensures Times(k, n) >= lag <==> k >= CeilDivide(lag, n)
  {
    var q, r := (lag + n - 1) / n, (lag + n - 1) % n;
    assert lag + n - 1 == n * q + r;
    if k >= q {
      TimesMonotone(q, k, n);
    } else {
      TimesMonotone(k, q - 1, n);
      assert Times(q - 1, n) == n * q - n;
    }
  }

  lemma TimesMonotone(a: nat, b: nat, n: nat)
    requires a <= b
    ensures Times(a, n) <= Times(b, n)
  {
    assert Times(b, n) == Times(a, n) + Times(b - a, n);
  }

  /** A fixed head is caught up by exactly ceil(lag / maxBlocksPerCycle) failure-free cycles. */
  lemma CaughtUpExactly(c: Config, s: State, attempts: seq<Attempt>, head: nat)
    requires ValidConfig(c)
    requires forall i :: 0 <= i < |attempts| ==> attempts[i].head == head && Quiet(attempts[i].outcome)
    requires StartOf(c, s.cursor, SafeHead(c, head)) <= SafeHead(c, head)
    ensures var safeHead := SafeHead(c, head);
            var lag := safeHead - StartOf(c, s.cursor, safeHead) + 1;
            Run(c, s, attempts).cursor == Some(safeHead) <==> |attempts| >= CeilDivide(lag, c.maxBlocksPerCycle)
  {
    hide Run, CeilDivide, Times;
    var safeHead := SafeHead(c, head);
    var lag := safeHead - StartOf(c, s.cursor, safeHead) + 1;
    QuietRun(c, s, attempts, head);
    CeilIsLeast(|attempts|, lag, c.maxBlocksPerCycle);
    TimesZero(c.maxBlocksPerCycle);
  }

  // ----- the same in the numbers of the configuration

  /** `count` consecutive blocks. */
  function Consecutive(first: nat, count: nat): seq<nat> {
    seq(count, k requires 0 <= k < count => first + k)
  }

  lemma {:induction false} QuietCompletes(s: State, number: nat, end: nat, o: Outcome)
    requires Quiet(o) && number <= end + 1
    ensures Completions(Advance(s, number, end, o).trace)
         == Completions(s.trace) + Consecutive(number, end + 1 - number)
    decreases end + 1 - number
  {
    hide Completions;
    if number <= end {
      CompletionsAppend(s.trace, Completed(number));
      QuietCompletes(State(Some(number), s.trace + [Completed(number)]), number + 1, end, o);
      assert Consecutive(number, end + 1 - number) == [number] + Consecutive(number + 1, end - number);
      Associate(Completions(s.trace), [number], Consecutive(number + 1, end - number));
    } else {
      assert Consecutive(number, 0) == [];
    }
  }

  /** A quiet cycle completes consecutive confirmed blocks, up to `maxBlocksPerCycle` of them: the
      ones after the cursor, or from a fresh cursor those that begin with the last
      `initialLookbackBlocks` confirmed blocks, of which there are head - confirmations + 1. */
  lemma QuietCycleCompletes(c: Config, s: State, head: nat, o: Outcome)
    requires ValidConfig(c) && Quiet(o) && head >= c.confirmations
    ensures var before, after := Completions(s.trace), Completions(Cycle(c, s, head, o).trace);
            var confirmed := head - c.confirmations + 1;
            && (s.cursor.Some? && s.cursor.value + 1 <= confirmed ==>
                  after == before + Consecutive(s.cursor.value + 1,
                                                Min(c.maxBlocksPerCycle, confirmed - 1 - s.cursor.value)))
            && (s.cursor.Some? && s.cursor.value + 1 > confirmed ==> after == before)
            && (s.cursor.None? && confirmed <= c.initialLookbackBlocks ==>
                  after == before + Consecutive(0, Min(c.maxBlocksPerCycle, confirmed)))
            && (s.cursor.None? && confirmed > c.initialLookbackBlocks ==>
                  after == before + Consecutive(confirmed - c.initialLookbackBlocks,
                                                Min(c.maxBlocksPerCycle, c.initialLookbackBlocks)))
  {
    hide Completions, Advance, Consecutive;
    var safeHead := SafeHead(c, head);
    var start := StartOf(c, s.cursor, safeHead);
    NoBlocks(start, Completions(s.trace));
    if start <= safeHead {
      var end := EndOf(c, start, safeHead);
      CompletionsAppend(s.trace, Queried(start, end));
      QuietCompletes(s.(trace := Monitored(c, s.trace, start, end)), start, end, o);
    }
  }

  lemma NoBlocks(first: nat, blocks: seq<nat>)
    ensures blocks + Consecutive(first, 0) == blocks
  {
  }

  /** With fewer blocks than confirmations a quiet cycle from a fresh cursor still completes block 0,
      which does not have its confirmations. */
  lemma GenesisIsUnconfirmed(c: Config, head: nat, o: Outcome)
    requires ValidConfig(c) && Quiet(o) && head < c.confirmations
    ensures Completions(Cycle(c, FRESH, head, o).trace) == [0]
  {
    hide Completions, Advance;
    CompletionsAppend([], Queried(0, 0));
    QuietCompletes(FRESH.(trace := Monitored(c, [], 0, 0)), 0, 0, o);
    NothingRun(c);
    assert Consecutive(0, 1) == [0];
    assert [] + [Queried(0, 0)] == [Queried(0, 0)];
  }

  /** Failure-free cycles at a fixed head advance the cursor by `maxBlocksPerCycle` each and end at
      exactly head - confirmations; from a fresh cursor the count starts before the last
      `initialLookbackBlocks` confirmed blocks. */
  lemma CatchesUpToConfirmed(c: Config, s: State, attempts: seq<Attempt>, head: nat)
    requires ValidConfig(c) && head >= c.confirmations && attempts != []
    requires forall i :: 0 <= i < |attempts| ==> attempts[i].head == head && Quiet(attempts[i].outcome)
    ensures var confirmed := head - c.confirmations;
            var cursor := Run(c, s, attempts).cursor;
            var gained := |attempts| * c.maxBlocksPerCycle;
            && (s.cursor.Some? && s.cursor.value <= confirmed ==>
                  cursor == Some(Min(confirmed, s.cursor.value + gained)))
            && (s.cursor.None? ==>
                  cursor == Some(Min(confirmed, Max(-1, confirmed - c.initialLookbackBlocks) + gained)))
  {
    hide Run;
    QuietRun(c, s, attempts, head);
  }

  /** When logs are not queried, their failure changes nothing; when they are, it stops the cycle
      before any block. */
  lemma LogFailures(c: Config, s: State, head: nat, o: Outcome)
    requires ValidConfig(c)
    ensures !c.globalUpgrades && c.watched == {} ==>
              Cycle(c, s, head, o.(logs := true)) == Cycle(c, s, head, o.(logs := false))
    ensures (c.globalUpgrades || c.watched != {}) && o.logs ==> Cycle(c, s, head, o) == s
  {
    var quiet, failing := o.(logs := false), o.(logs := true);
    var safeHead := SafeHead(c, head);
    var start := StartOf(c, s.cursor, safeHead);
    if !c.globalUpgrades && c.watched == {} && start <= safeHead {
      SameAdvance(s, start, EndOf(c, start, safeHead), quiet, failing);
    }
  }

  lemma {:induction false} SameAdvance(s: State, number: nat, end: nat, o: Outcome, p: Outcome)
    requires o.block == p.block
    ensures Advance(s, number, end, o) == Advance(s, number, end, p)
    decreases end + 1 - number
  {
    if number <= end && !o.block(number) {
      SameAdvance(State(Some(number), s.trace + [Completed(number)]), number + 1, end, o, p);
    }
  }
}
