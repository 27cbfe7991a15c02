/** The investigations of a run one by one: in which order candidates are tried, and what the address
    flag says of the addresses their expansions reach. */
module ReconstructionTrials {
  import opened Basics
  import opened Sorting
  import opened Keys
  import opened History
  import opened Linking
  import opened Candidates
  import opened Reconstruction
  import opened ReconstructionInvariant
  import opened ReconstructionSteps
  import opened ReconstructionRun
  import opened ReconstructionCoverage

  /** An investigation of `hash`, and the state it started from. */
  datatype Trial = Trial(before: State, hash: Hash)

  function RoundTrials(setup: Setup, s: State, order: seq<Hash>): seq<Trial>
    requires forall h :: h in order ==> h in s.candidates
    decreases order
  {
    if order == [] || |s.cases| >= setup.limits.maxTransactions then []
    else
      InvestigateFrame(setup, s, order[0]);
      [Trial(s, order[0])] + RoundTrials(setup, Investigate(setup, s, order[0]), order[1..])
  }

  /** The investigations of the search from hop `hop` on. */
  function Trials(setup: Setup, s: State, hop: nat): seq<Trial>
    decreases setup.limits.maxHops - hop
  {
    if hop >= setup.limits.maxHops || Frontier(s, hop) == [] then []
    else
      var asked := QueryAll(setup, s, hop, Frontier(s, hop));
      if asked.addressLimit then []
      else
        OrderKnown(setup, asked, hop + 1);
        var order := AvailableInOrder(setup, asked, hop + 1);
        var done := InvestigateAll(setup, asked, order);
        RoundTrials(setup, asked, order)
        + (if |done.cases| >= setup.limits.maxTransactions then [] else Trials(setup, done, hop + 1))
  }

  /** The investigations of a whole run. */
  function TrialsOf(setup: Setup): seq<Trial> {
    Trials(setup, Start(setup), 0)
  }

  function Hashes(trials: seq<Trial>): seq<Hash> {
    seq(|trials|, i requires 0 <= i < |trials| => trials[i].hash)
  }

  // ----- the order of investigations

  /** The trial takes a best-ranked one of the candidates not tried before it. */
  ghost predicate Greedy(setup: Setup, trial: Trial) {
    var s := trial.before;
    && trial.hash in s.candidates && trial.hash !in s.investigated
    && forall left :: left in s.candidates && left !in s.investigated ==>
         KeyLe(RankKey(s.candidates, setup.seed.block)(trial.hash), RankKey(s.candidates, setup.seed.block)(left))
  }

  /** The trials carry the investigations from `first` to `last`, each of them greedy. */
  ghost predicate Chronicle(setup: Setup, first: seq<Hash>, trials: seq<Trial>, last: seq<Hash>) {
    && last == first + Hashes(trials)
    && forall i :: 0 <= i < |trials| ==>
         trials[i].before.investigated == last[..|first| + i] && Greedy(setup, trials[i])
  }

  lemma ChronicleNone(setup: Setup, first: seq<Hash>)
    ensures Chronicle(setup, first, [], first)
  {
  }

  lemma ChronicleOne(setup: Setup, trial: Trial)
    requires Greedy(setup, trial)
    ensures Chronicle(setup, trial.before.investigated, [trial], trial.before.investigated + [trial.hash])
  {
    hide Greedy;
    var first := trial.before.investigated;
    assert Hashes([trial]) == [trial.hash];
    assert (first + [trial.hash])[..|first|] == first;
  }

  lemma ChronicleJoins(setup: Setup, a: seq<Hash>, t: seq<Trial>, b: seq<Hash>, u: seq<Trial>, c: seq<Hash>)
    requires Chronicle(setup, a, t, b) && Chronicle(setup, b, u, c)
    ensures Chronicle(setup, a, t + u, c)
  {
    hide Greedy;
    assert Hashes(t + u) == Hashes(t) + Hashes(u);
    Associate(a, Hashes(t), Hashes(u));
    forall i | 0 <= i < |t + u|
      ensures (t + u)[i].before.investigated == c[..|a| + i] && Greedy(setup, (t + u)[i])
    {
      if i < |t| {
        assert b[..|a| + i] == c[..|a| + i];
      } else {
        assert (t + u)[i] == u[i - |t|];
      }
    }
  }

  /** The order lists every candidate not tried yet, the best-ranked first. */
  ghost predicate Covers(setup: Setup, s: State, order: seq<Hash>) {
    && (forall h :: h in s.candidates && h !in s.investigated ==> h in order)
    && forall i, j :: 0 <= i <= j < |order| ==>
         KeyLe(RankKey(s.candidates, setup.seed.block)(order[i]), RankKey(s.candidates, setup.seed.block)(order[j]))
  }

  lemma FirstIsGreedy(setup: Setup, s: State, k: nat, order: seq<Hash>)
    requires Covers(setup, s, order) && Offers(s, k, order) && order != []
    ensures Greedy(setup, Trial(s, order[0]))
  {
    hide RankKey, KeyLe;
    assert Fresh(s, k, order[0]);
    var key := RankKey(s.candidates, setup.seed.block);
    forall left | left in s.candidates && left !in s.investigated ensures KeyLe(key(order[0]), key(left)) {
      var j :| 0 <= j < |order| && order[j] == left;
    }
  }

  lemma CoversNext(setup: Setup, s: State, order: seq<Hash>, s': State)
    requires Covers(setup, s, order) && order != []
    requires s'.candidates == s.candidates && s'.investigated == s.investigated + [order[0]]
    ensures Covers(setup, s', order[1..])
  {
    hide RankKey, KeyLe;
    assert order == [order[0]] + order[1..];
    forall h | h in s'.candidates && h !in s'.investigated ensures h in order[1..] {
      assert h !in s.investigated && h != order[0] by {
        assert s'.investigated[|s.investigated|] == order[0];
      }
    }
  }

  lemma {:induction false} RoundChronicle(setup: Setup, s: State, k: nat, order: seq<Hash>)
    requires Faithful(setup) && Inv(setup, s, k, k, k) && Offers(s, k, order) && Covers(setup, s, order)
    requires forall h :: h in order ==> h in s.candidates
    ensures Chronicle(setup, s.investigated, RoundTrials(setup, s, order), InvestigateAll(setup, s, order).investigated)
    decreases order
  {
    hide Inv, Investigate, Chronicle, Greedy, Covers, Faithful;
    if order == [] || |s.cases| >= setup.limits.maxTransactions {
      ChronicleNone(setup, s.investigated);
    } else {
      var s' := Investigate(setup, s, order[0]);
      InvestigateFrame(setup, s, order[0]);
      assert Fresh(s, k, order[0]);
      FirstIsGreedy(setup, s, k, order);
      InvestigateKeeps(setup, s, k, order[0]);
      OffersNext(s, k, order, s');
      CoversNext(setup, s, order, s');
      RoundChronicle(setup, s', k, order[1..]);
      ChronicleOne(setup, Trial(s, order[0]));
      ChronicleJoins(setup, s.investigated, [Trial(s, order[0])], s'.investigated,
                     RoundTrials(setup, s', order[1..]), InvestigateAll(setup, s, order).investigated);
    }
  }

  lemma RankingCovers(setup: Setup, s: State, order: seq<Hash>, untried: set<Hash>)
    requires RanksAll(order, untried, RankKey(s.candidates, setup.seed.block))
    requires forall h :: h in s.candidates && h !in s.investigated ==> h in untried
    ensures Covers(setup, s, order)
  {
    hide RankKey, KeyLe;
  }

  /** When a round begins, its order covers every candidate not tried yet. */
  lemma OrderCovers(setup: Setup, s: State, k: nat)
    requires Inv(setup, s, k, k + 1, k) && AllDone(s.candidates, s.investigated, k)
    ensures Covers(setup, s, AvailableInOrder(setup, s, k + 1))
  {
    hide Inv, AllDone, AvailableInOrder, RankKey, KeyLe, Available, Covers, RanksAll;
    UntriedIsAvailable(setup, s, k);
    OrderIsRanking(setup, s, k + 1);
    RankingCovers(setup, s, AvailableInOrder(setup, s, k + 1), Available(s, k + 1));
  }

  lemma UntriedIsAvailable(setup: Setup, s: State, k: nat)
    requires Inv(setup, s, k, k + 1, k) && AllDone(s.candidates, s.investigated, k)
    ensures forall h :: h in s.candidates && h !in s.investigated ==> h in Available(s, k + 1)
  {
    hide AddressesOk, LinksOk, InvestigatedOk, Budgets;
    forall h | h in s.candidates && h !in s.investigated ensures h in Available(s, k + 1) {
      CandidatePick(s.candidates, h, k + 1, s.queried, s.addressHops);
      FreshIsUnopened(setup.seed, s.cases, s.contexts, s.candidates, s.investigated, h);
    }
  }

  lemma InvWeakensCandidates(setup: Setup, s: State, k: nat)
    requires Inv(setup, s, k, k, k)
    ensures Inv(setup, s, k, k + 1, k)
  {
    hide CasesOk, LinksOk, Budgets, AddressesOk, InvestigatedOk;
    CandidatesStayOk(s.candidates, k, s.queried, s.addressHops, k + 1, s.queried, s.addressHops);
  }

  lemma AskingTriesNothing(setup: Setup, s: State, k: nat)
    requires BetweenHops(setup, s, k)
    ensures QueryAll(setup, s, k, Frontier(s, k)).investigated == s.investigated
  {
    hide Inv, AllDone, Accounted, QueryAll;
    InvWeakensCandidates(setup, s, k);
    QueryAllKeeps(setup, s, k, Frontier(s, k));
  }

  lemma {:induction false} HopsChronicle(setup: Setup, s: State, k: nat)
    requires Faithful(setup) && BetweenHops(setup, s, k) && k <= setup.limits.maxHops
    ensures Chronicle(setup, s.investigated, Trials(setup, s, k), HopsFrom(setup, s, k).investigated)
    decreases setup.limits.maxHops - k
  {
    hide Inv, AllDone, Accounted, Frontier, QueryAll, InvestigateAll, Faithful, Available, AvailableInOrder,
         Chronicle, RoundTrials, Covers, Offers, InvestigatedOk;
    ChronicleNone(setup, s.investigated);
    if k < setup.limits.maxHops && Frontier(s, k) != [] {
      AskedKeeps(setup, s, k);
      AskingTriesNothing(setup, s, k);
      var asked := QueryAll(setup, s, k, Frontier(s, k));
      if !asked.addressLimit {
        OrderWithin(setup, asked, k + 1);
        RoundKeeps(setup, asked, k);
        InvestigatedPart(setup, asked, k, k + 1, k);
        AvailableIsOffered(setup, asked, k);
        InvWeakens(setup, asked, k, k + 1, k, k + 1);
        OrderCovers(setup, asked, k);
        var order := AvailableInOrder(setup, asked, k + 1);
        var done := InvestigateAll(setup, asked, order);
        var trials := RoundTrials(setup, asked, order);
        RoundChronicle(setup, asked, k + 1, order);
        if |done.cases| >= setup.limits.maxTransactions {
          assert trials + [] == trials;
        } else {
          HopsChronicle(setup, done, k + 1);
          ChronicleJoins(setup, s.investigated, trials, done.investigated,
                         Trials(setup, done, k + 1), HopsFrom(setup, done, k + 1).investigated);
        }
      }
    }
  }

  /** A run takes the best candidate it knows at every moment: its trials are its investigations, in
      order, and no candidate known and untried when the i-th began ranks before it. */
  lemma TrialsTakeBestFirst(setup: Setup)
    requires Faithful(setup)
    ensures Hashes(TrialsOf(setup)) == Run(setup).investigated
    ensures forall i, left :: 0 <= i < |TrialsOf(setup)| && left in TrialsOf(setup)[i].before.candidates
                              && left !in Run(setup).investigated[..i] ==>
              var key := RankKey(TrialsOf(setup)[i].before.candidates, setup.seed.block);
              KeyLe(key(Run(setup).investigated[i]), key(left))
  {
    hide TrialsOf, Run, Faithful, RankKey, KeyLe, Chronicle;
    RunChronicle(setup);
    ChronicleMeans(setup, TrialsOf(setup), Run(setup).investigated);
    forall i, left | 0 <= i < |TrialsOf(setup)| && left in TrialsOf(setup)[i].before.candidates
                     && left !in Run(setup).investigated[..i]
      ensures var key := RankKey(TrialsOf(setup)[i].before.candidates, setup.seed.block);
              KeyLe(key(Run(setup).investigated[i]), key(left))
    {
      assert Greedy(setup, TrialsOf(setup)[i]);
    }
  }

  lemma RunChronicle(setup: Setup)
    requires Faithful(setup)
    ensures Chronicle(setup, [], TrialsOf(setup), Run(setup).investigated)
  {
    hide BetweenHops, HopsFrom, Faithful, Start, Trials, Chronicle;
    StartKeeps(setup);
    StartsUntried(setup);
    HopsChronicle(setup, Start(setup), 0);
  }

  lemma ChronicleMeans(setup: Setup, trials: seq<Trial>, last: seq<Hash>)
    requires Chronicle(setup, [], trials, last)
    ensures Hashes(trials) == last
    ensures forall i :: 0 <= i < |trials| ==>
              trials[i].before.investigated == last[..i] && last[i] == trials[i].hash && Greedy(setup, trials[i])
  {
    hide Greedy;
    var none: seq<Hash> := [];
    assert none + Hashes(trials) == Hashes(trials);
    forall i | 0 <= i < |trials|
      ensures trials[i].before.investigated == last[..i] && last[i] == trials[i].hash && Greedy(setup, trials[i])
    {
      assert last[..|none| + i] == last[..i];
    }
  }

  lemma StartsUntried(setup: Setup)
    ensures Start(setup).investigated == []
  {
  }

  // ----- what "best" means

  /** Each record scores at least 60, so the penalty of 55 never meets the floor of a rank at 0. */
  predicate Scored(candidates: map<Hash, Candidate>) {
    forall h :: h in candidates ==> candidates[h].score >= 60
  }

  lemma {:induction false} RecordAllScored(setup: Setup, s: State, hop: nat, address: Address, isHub: bool,
                                           records: seq<HistoryRecord>)
    requires Scored(s.candidates)
    ensures Scored(RecordAll(setup, s, hop, address, isHub, records).candidates)
    decreases records
  {
    if records != [] {
      var next := RecordOne(setup, s, hop, address, isHub, records[0]);
      assert RecordScore(records[0], address, setup.seed.block) >= 60;
      RecordAllScored(setup, next, hop, address, isHub, records[1..]);
    }
  }

  lemma QueryScored(setup: Setup, s: State, hop: nat, address: Address)
    requires Scored(s.candidates)
    ensures Scored(Query(setup, s, hop, address).candidates)
  {
    hide RecordAll, IsHub, Used, Suppressed, Scored;
    var answer := setup.history(address);
    if answer.Some? {
      var records := answer.value;
      var isHub := IsHub(setup, address, records);
      RecordAllScored(setup, Tallied(s, address, |records|, isHub, Suppressed(setup, address, records)),
                      hop, address, isHub, Used(setup, address, records));
    }
  }

  lemma {:induction false} QueryAllScored(setup: Setup, s: State, hop: nat, frontier: seq<Address>)
    requires Scored(s.candidates)
    ensures Scored(QueryAll(setup, s, hop, frontier).candidates)
    decreases frontier
  {
    hide Query, Scored;
    if frontier != [] && |s.queried| < setup.limits.maxFrontierAddresses {
      QueryScored(setup, s, hop, frontier[0]);
      var next := if frontier[0] in s.queried then s else Query(setup, s, hop, frontier[0]);
      QueryAllScored(setup, next, hop, frontier[1..]);
    }
  }

  /** Every trial starts from scored candidates. */
  ghost predicate AllScored(trials: seq<Trial>) {
    forall i :: 0 <= i < |trials| ==> Scored(trials[i].before.candidates)
  }

  lemma {:induction false} RoundScored(setup: Setup, s: State, order: seq<Hash>)
    requires Scored(s.candidates) && forall h :: h in order ==> h in s.candidates
    ensures AllScored(RoundTrials(setup, s, order))
    ensures InvestigateAll(setup, s, order).candidates == s.candidates
    decreases order
  {
    hide Investigate, Scored;
    if order != [] && |s.cases| < setup.limits.maxTransactions {
      InvestigateFrame(setup, s, order[0]);
      RoundScored(setup, Investigate(setup, s, order[0]), order[1..]);
    }
  }

  lemma {:induction false} HopsScored(setup: Setup, s: State, k: nat)
    requires Scored(s.candidates)
    ensures AllScored(Trials(setup, s, k))
    decreases setup.limits.maxHops - k
  {
    hide Frontier, QueryAll, InvestigateAll, AvailableInOrder, Available, RoundTrials, Scored;
    if k < setup.limits.maxHops && Frontier(s, k) != [] {
      var asked := QueryAll(setup, s, k, Frontier(s, k));
      QueryAllScored(setup, s, k, Frontier(s, k));
      if !asked.addressLimit {
        OrderWithin(setup, asked, k + 1);
        var order := AvailableInOrder(setup, asked, k + 1);
        RoundScored(setup, asked, order);
        HopsScored(setup, InvestigateAll(setup, asked, order), k + 1);
      }
    }
  }

  /** A candidate all of whose evidence comes from hubs. */
  predicate OnlyFromHubs(c: Candidate) {
    c.hubSources != {} && c.nonHubSources == {}
  }

  /** Seven points per reason, up to eight of them, and 55 off when only hubs name it. */
  function Points(c: Candidate): int {
    c.score + (if |c.reasons| < 8 then 7 * |c.reasons| else 56) - (if OnlyFromHubs(c) then 55 else 0)
  }

  /** c may go before d: more points, or as many and nearer to the seed, or as near and in an earlier
      block, or in the same block with a smaller hash. */
  predicate MayGoBefore(c: Candidate, g: Hash, d: Candidate, h: Hash, seedBlock: nat) {
    var near, far := Abs(c.block - seedBlock), Abs(d.block - seedBlock);
    || Points(c) > Points(d)
    || (Points(c) == Points(d)
        && (near < far || (near == far && (c.block < d.block || (c.block == d.block && g <= h)))))
  }

  lemma KeyIsPoints(candidates: map<Hash, Candidate>, seedBlock: nat, g: Hash, h: Hash)
    requires Scored(candidates) && g in candidates && h in candidates
    requires KeyLe(RankKey(candidates, seedBlock)(g), RankKey(candidates, seedBlock)(h))
    ensures MayGoBefore(candidates[g], g, candidates[h], h, seedBlock)
  {
    hide KeyLe;
    KeyOfFour(RankKey(candidates, seedBlock)(g), RankKey(candidates, seedBlock)(h));
  }

  /** The trial takes a candidate that may go before each one known and not tried before it. */
  ghost predicate TakesMostPoints(setup: Setup, trial: Trial) {
    var s := trial.before;
    && trial.hash in s.candidates && trial.hash !in s.investigated
    && forall left :: left in s.candidates && left !in s.investigated ==>
         MayGoBefore(s.candidates[trial.hash], trial.hash, s.candidates[left], left, setup.seed.block)
  }

  lemma GreedyTakesMost(setup: Setup, trial: Trial)
    requires Greedy(setup, trial) && Scored(trial.before.candidates)
    ensures TakesMostPoints(setup, trial)
  {
    hide RankKey, KeyLe, MayGoBefore, Scored;
    var s := trial.before;
    forall left | left in s.candidates && left !in s.investigated
      ensures MayGoBefore(s.candidates[trial.hash], trial.hash, s.candidates[left], left, setup.seed.block)
    {
      KeyIsPoints(s.candidates, setup.seed.block, trial.hash, left);
    }
  }

  /** The order of a whole run in the numbers of its candidates: at every moment it takes one that
      may go before every candidate known and untried. */
  lemma TrialsTakeMostPoints(setup: Setup)
    requires Faithful(setup)
    ensures Hashes(TrialsOf(setup)) == Run(setup).investigated
    ensures forall i :: 0 <= i < |TrialsOf(setup)| ==>
              && TrialsOf(setup)[i].before.investigated == Run(setup).investigated[..i]
              && TakesMostPoints(setup, TrialsOf(setup)[i])
  {
    hide TrialsOf, Run, Faithful, TakesMostPoints, Greedy, Chronicle;
    RunChronicle(setup);
    ChronicleMeans(setup, TrialsOf(setup), Run(setup).investigated);
    RunScored(setup);
    forall i | 0 <= i < |TrialsOf(setup)| ensures TakesMostPoints(setup, TrialsOf(setup)[i]) {
      GreedyTakesMost(setup, TrialsOf(setup)[i]);
    }
  }

  lemma RunScored(setup: Setup)
    ensures forall i :: 0 <= i < |TrialsOf(setup)| ==> Scored(TrialsOf(setup)[i].before.candidates)
  {
    hide Scored, Start, Trials;
    StartScored(setup);
    HopsScored(setup, Start(setup), 0);
  }

  lemma StartScored(setup: Setup)
    ensures Scored(Start(setup).candidates)
  {
  }

  /** So of two candidates with equally many reasons and the same hub status, the one taken has no
      smaller score, and with the same score is no farther from the seed; and one that only hubs name
      goes before one that others name, with equally many reasons, only for at least 55 points more. */
  lemma BestInPlainTerms(c: Candidate, g: Hash, d: Candidate, h: Hash, seedBlock: nat)
    requires MayGoBefore(c, g, d, h, seedBlock) && |c.reasons| == |d.reasons|
    ensures OnlyFromHubs(c) == OnlyFromHubs(d) ==>
              c.score >= d.score && (c.score == d.score ==> Abs(c.block - seedBlock) <= Abs(d.block - seedBlock))
    ensures OnlyFromHubs(c) && !OnlyFromHubs(d) ==> c.score >= d.score + 55
  {
  }

  // ----- what the address flag means

  /** The addresses the expansion of a trial reaches, with the evidence known at that moment; none
      when the investigation fails or its candidate is not expanded. */
  function ReachedAt(setup: Setup, trial: Trial): set<Address> {
    var h, candidates := trial.hash, trial.before.candidates;
    if h in candidates && setup.investigate(h).Some?
       && candidates[h].hop < setup.limits.maxHops && !OnlyFromHubs(candidates[h])
    then Reached(candidates[h], setup.investigate(h).value.transfers) - {ZERO_ADDRESS}
    else {}
  }

  /** Some trial reached an address that is not known. */
  predicate Dropped(setup: Setup, trials: seq<Trial>, hops: Hops) {
    exists i :: 0 <= i < |trials| && !(ReachedAt(setup, trials[i]) <= hops.Keys)
  }

  predicate Full(setup: Setup, hops: Hops) {
    |hops| >= setup.limits.maxFrontierAddresses
  }

  /** How a search may change the known addresses: a full frontier stays as it is, and only a full
      frontier drops anything. */
  predicate Grows(setup: Setup, hops: Hops, trials: seq<Trial>, hops': Hops) {
    && Extends(hops', hops) && (Full(setup, hops) ==> hops' == hops)
    && (Dropped(setup, trials, hops') ==> Full(setup, hops'))
  }

  lemma DroppedNone(setup: Setup, hops: Hops)
    ensures !Dropped(setup, [], hops) && Grows(setup, hops, [], hops)
  {
  }

  lemma DroppedOne(setup: Setup, trial: Trial, hops: Hops)
    ensures Dropped(setup, [trial], hops) <==> !(ReachedAt(setup, trial) <= hops.Keys)
  {
    hide ReachedAt;
    assert [trial][0] == trial;
  }

  lemma DroppedJoins(setup: Setup, t: seq<Trial>, u: seq<Trial>, hops: Hops)
    ensures Dropped(setup, t + u, hops) <==> Dropped(setup, t, hops) || Dropped(setup, u, hops)
  {
    hide ReachedAt;
    assert forall i :: 0 <= i < |t| ==> (t + u)[i] == t[i];
    assert forall i :: 0 <= i < |u| ==> (t + u)[|t| + i] == u[i];
    if Dropped(setup, t + u, hops) {
      var i :| 0 <= i < |t + u| && !(ReachedAt(setup, (t + u)[i]) <= hops.Keys);
      assert if i < |t| then !(ReachedAt(setup, t[i]) <= hops.Keys) else !(ReachedAt(setup, u[i - |t|]) <= hops.Keys);
    }
  }

  /** What was dropped stays dropped: the frontier is full and stays as it is. */
  lemma DroppedStays(setup: Setup, hops: Hops, t: seq<Trial>, hops1: Hops, u: seq<Trial>, hops2: Hops)
    requires Grows(setup, hops, t, hops1) && Grows(setup, hops1, u, hops2)
    ensures Dropped(setup, t, hops1) <==> Dropped(setup, t, hops2)
    ensures Grows(setup, hops, t + u, hops2)
  {
    hide ReachedAt;
    DroppedJoins(setup, t, u, hops2);
    if Dropped(setup, t, hops2) {
      var i :| 0 <= i < |t| && !(ReachedAt(setup, t[i]) <= hops2.Keys);
      assert hops1.Keys <= hops2.Keys;
    }
  }

  predicate AllEntered(linked: seq<Address>, hops: Hops) {
    forall a :: a in linked && a != ZERO_ADDRESS ==> a in hops
  }

  lemma EnteredFirst(linked: seq<Address>, hops: Hops)
    requires linked != []
    ensures AllEntered(linked, hops) <==>
            (linked[0] == ZERO_ADDRESS || linked[0] in hops) && AllEntered(linked[1..], hops)
  {
    assert linked == [linked[0]] + linked[1..];
  }

  /** Entering addresses sets the flag exactly when one of them stays out. */
  lemma {:induction false} AddLinksFlags(setup: Setup, s: State, hash: Hash, hop: nat, linked: seq<Address>)
    ensures var s' := AddLinks(setup, s, hash, hop, linked);
            && Extends(s'.addressHops, s.addressHops)
            && (Full(setup, s.addressHops) ==> s'.addressHops == s.addressHops)
            && (s'.addressLimit <==> s.addressLimit || !AllEntered(linked, s'.addressHops))
            && (AllEntered(linked, s'.addressHops) || Full(setup, s'.addressHops))
    decreases linked
  {
    if linked != [] {
      hide AllEntered;
      var a := linked[0];
      EnteredFirst(linked, AddLinks(setup, s, hash, hop, linked).addressHops);
      if a == ZERO_ADDRESS {
        AddLinksFlags(setup, s, hash, hop, linked[1..]);
      } else if a in s.addressHops {
        AddLinksFlags(setup, s.(links := s.links + {(hash, a)}), hash, hop, linked[1..]);
      } else if |s.addressHops| < setup.limits.maxFrontierAddresses {
        AddLinksFlags(setup, s.(addressHops := s.addressHops[a := hop], links := s.links + {(hash, a)}),
                      hash, hop, linked[1..]);
      }
    }
  }

  lemma ExpandsWhen(setup: Setup, c: Candidate)
    ensures Expands(setup, c) <==> c.hop < setup.limits.maxHops && !OnlyFromHubs(c)
  {
  }

  lemma InvestigateFlags(setup: Setup, s: State, h: Hash)
    requires h in s.candidates && s.candidates[h].hash == h
    ensures var s' := Investigate(setup, s, h);
            && Grows(setup, s.addressHops, [Trial(s, h)], s'.addressHops)
            && (s'.addressLimit <==> s.addressLimit || Dropped(setup, [Trial(s, h)], s'.addressHops))
  {
    hide AddLinks, Grow, Named, ContextOf, Dropped, Expands, OnlyFromHubs;
    var c := s.candidates[h];
    var answer := setup.investigate(h);
    ExpandsWhen(setup, c);
    DroppedOne(setup, Trial(s, h), Investigate(setup, s, h).addressHops);
    if answer.Some? && Expands(setup, c) {
      var reached := Reached(c, answer.value.transfers);
      AddLinksFlags(setup, Opened(setup, s, c, answer.value), h, c.hop, Ascending(reached));
      assert AllEntered(Ascending(reached), Investigate(setup, s, h).addressHops)
          <==> reached - {ZERO_ADDRESS} <= Investigate(setup, s, h).addressHops.Keys;
      assert ReachedAt(setup, Trial(s, h)) == reached - {ZERO_ADDRESS};
    } else {
      assert ReachedAt(setup, Trial(s, h)) == {};
    }
  }

  /** Each candidate is filed under its own hash. */
  predicate Filed(candidates: map<Hash, Candidate>) {
    forall h :: h in candidates ==> candidates[h].hash == h
  }

  lemma {:induction false} RoundFlags(setup: Setup, s: State, order: seq<Hash>)
    requires Filed(s.candidates) && forall h :: h in order ==> h in s.candidates
    ensures var s' := InvestigateAll(setup, s, order);
            var trials := RoundTrials(setup, s, order);
            && Grows(setup, s.addressHops, trials, s'.addressHops)
            && (s'.addressLimit <==> s.addressLimit || Dropped(setup, trials, s'.addressHops))
    decreases order
  {
    hide Investigate, Grows, Dropped;
    if order == [] || |s.cases| >= setup.limits.maxTransactions {
      DroppedNone(setup, s.addressHops);
    } else {
      var s1 := Investigate(setup, s, order[0]);
      InvestigateFrame(setup, s, order[0]);
      InvestigateFlags(setup, s, order[0]);
      RoundFlags(setup, s1, order[1..]);
      var first, rest := [Trial(s, order[0])], RoundTrials(setup, s1, order[1..]);
      var end := InvestigateAll(setup, s1, order[1..]).addressHops;
      DroppedStays(setup, s.addressHops, first, s1.addressHops, rest, end);
      DroppedJoins(setup, first, rest, end);
    }
  }

  predicate AllAsked(frontier: seq<Address>, queried: set<Address>) {
    forall a :: a in frontier ==> a in queried
  }

  lemma AskedFirst(frontier: seq<Address>, queried: set<Address>)
    requires frontier != []
    ensures AllAsked(frontier, queried) <==> frontier[0] in queried && AllAsked(frontier[1..], queried)
  {
    assert frontier == [frontier[0]] + frontier[1..];
  }

  /** Asking about a layer sets the flag exactly when an address of it is left unasked. */
  lemma {:induction false} QueryAllFlags(setup: Setup, s: State, hop: nat, frontier: seq<Address>)
    requires forall a :: a in frontier ==> a !in s.queried
    requires forall i, j :: 0 <= i < j < |frontier| ==> frontier[i] != frontier[j]
    ensures var s' := QueryAll(setup, s, hop, frontier);
            && s'.queried <= s.queried + (set a | a in frontier)
            && (s'.addressLimit <==> s.addressLimit || !AllAsked(frontier, s'.queried))
    decreases frontier
  {
    hide Query, AllAsked;
    if frontier == [] {
      NothingToAsk(s.queried);
    } else {
      AskedFirst(frontier, QueryAll(setup, s, hop, frontier).queried);
      if |s.queried| < setup.limits.maxFrontierAddresses {
        QueryAsks(setup, s, hop, frontier[0]);
        QueryKeepsFlag(setup, s, hop, frontier[0]);
        QueryAllFlags(setup, Query(setup, s, hop, frontier[0]), hop, frontier[1..]);
        QueryAllAsks(setup, Query(setup, s, hop, frontier[0]), hop, frontier[1..]);
      }
    }
  }

  lemma NothingToAsk(queried: set<Address>)
    ensures AllAsked([], queried)
  {
  }

  lemma {:induction false} RecordAllKeepsFlag(setup: Setup, s: State, hop: nat, address: Address, isHub: bool,
                                              records: seq<HistoryRecord>)
    ensures RecordAll(setup, s, hop, address, isHub, records).addressLimit == s.addressLimit
    decreases records
  {
    if records != [] {
      RecordAllKeepsFlag(setup, RecordOne(setup, s, hop, address, isHub, records[0]), hop, address, isHub,
                         records[1..]);
    }
  }

  lemma QueryKeepsFlag(setup: Setup, s: State, hop: nat, address: Address)
    ensures Query(setup, s, hop, address).addressLimit == s.addressLimit
  {
    hide RecordAll, IsHub, Used, Suppressed;
    var answer := setup.history(address);
    if answer.Some? {
      var records := answer.value;
      var isHub := IsHub(setup, address, records);
      RecordAllKeepsFlag(setup, Tallied(s, address, |records|, isHub, Suppressed(setup, address, records)),
                         hop, address, isHub, Used(setup, address, records));
    }
  }

  /** The number of layers the search from hop `hop` on begins to ask about, those before included. */
  function LayersBegun(setup: Setup, s: State, hop: nat): nat
    decreases setup.limits.maxHops - hop
  {
    if hop >= setup.limits.maxHops || Frontier(s, hop) == [] then hop
    else
      var asked := QueryAll(setup, s, hop, Frontier(s, hop));
      if asked.addressLimit then hop + 1
      else
        OrderKnown(setup, asked, hop + 1);
        var done := InvestigateAll(setup, asked, AvailableInOrder(setup, asked, hop + 1));
        if |done.cases| >= setup.limits.maxTransactions then hop + 1 else LayersBegun(setup, done, hop + 1)
  }

  lemma {:induction false} LayersWithin(setup: Setup, s: State, hop: nat)
    requires hop <= setup.limits.maxHops
    ensures LayersBegun(setup, s, hop) <= setup.limits.maxHops
    decreases setup.limits.maxHops - hop
  {
    hide Frontier, QueryAll, InvestigateAll, AvailableInOrder, Available;
    if hop < setup.limits.maxHops && Frontier(s, hop) != [] {
      var asked := QueryAll(setup, s, hop, Frontier(s, hop));
      OrderWithin(setup, asked, hop + 1);
      LayersWithin(setup, InvestigateAll(setup, asked, AvailableInOrder(setup, asked, hop + 1)), hop + 1);
    }
  }

  /** Only addresses below distance k were asked about. */
  predicate AskedOnlyBelow(s: State, k: nat) {
    forall a :: a in s.queried ==> a in s.addressHops && s.addressHops[a] < k
  }

  /** One layer of the search: its flag, and what was asked about. */
  lemma LayerFlags(setup: Setup, s: State, k: nat)
    requires AskedBelow(s, k) && AskedOnlyBelow(s, k)
    ensures var s' := QueryAll(setup, s, k, Frontier(s, k));
            && (s'.addressLimit <==> s.addressLimit || !AskedBelow(s', k + 1))
            && s'.addressHops == s.addressHops && AskedOnlyBelow(s', k + 1)
  {
    hide QueryAll;
    var frontier := Frontier(s, k);
    QueryAllFlags(setup, s, k, frontier);
    QueryAllAsks(setup, s, k, frontier);
    var s' := QueryAll(setup, s, k, frontier);
    assert AllAsked(frontier, s'.queried) <==> AskedBelow(s', k + 1);
  }

  lemma RoundAsksNothing(asked: State, done: State, k: nat)
    requires AskedBelow(asked, k + 1) && AskedOnlyBelow(asked, k + 1) && done.queried == asked.queried
    requires Extends(done.addressHops, asked.addressHops)
    requires forall a :: a in done.addressHops && a !in asked.addressHops ==> done.addressHops[a] == k + 1
    ensures AskedBelow(done, k + 1) && AskedOnlyBelow(done, k + 1)
  {
  }

  /** What the flag at the end of a search that starts with `flag` says. */
  predicate FlagIsExact(setup: Setup, flag: bool, trials: seq<Trial>, layers: nat, end: State) {
    end.addressLimit <==> flag || Dropped(setup, trials, end.addressHops) || !AskedBelow(end, layers)
  }

  lemma CandidatesFiled(setup: Setup, s: State, a: nat, c: nat, i: nat)
    requires Inv(setup, s, a, c, i)
    ensures Filed(s.candidates)
  {
    hide CasesOk, AddressesOk, LinksOk, InvestigatedOk, Budgets;
    forall h | h in s.candidates ensures s.candidates[h].hash == h {
      CandidatePick(s.candidates, h, c, s.queried, s.addressHops);
    }
  }

  lemma GrownIsNews(maxHops: nat, wider: Hops, hops: Hops, k: nat)
    requires GrownAt(maxHops, wider, hops, k)
    ensures Extends(wider, hops) && forall a :: a in wider && a !in hops ==> wider[a] == k
  {
  }

  /** One round: its flag, and what it enters and asks about. */
  lemma RoundFlagged(setup: Setup, asked: State, k: nat)
    requires Inv(setup, asked, k, k + 1, k) && AskedBelow(asked, k + 1) && AskedOnlyBelow(asked, k + 1)
    requires forall h :: h in AvailableInOrder(setup, asked, k + 1) ==> h in asked.candidates
    ensures var order := AvailableInOrder(setup, asked, k + 1);
            var done := InvestigateAll(setup, asked, order);
            && Grows(setup, asked.addressHops, RoundTrials(setup, asked, order), done.addressHops)
            && FlagIsExact(setup, asked.addressLimit, RoundTrials(setup, asked, order), k + 1, done)
            && AskedBelow(done, k + 1) && AskedOnlyBelow(done, k + 1)
  {
    hide Inv, Grows, Dropped, AvailableInOrder, InvestigateAll, RoundTrials, AskedBelow, AskedOnlyBelow, GrownAt, Filed;
    var order := AvailableInOrder(setup, asked, k + 1);
    CandidatesFiled(setup, asked, k, k + 1, k);
    RoundFlags(setup, asked, order);
    OrderAtHop(setup, asked, k + 1);
    InvestigateAllGrows(setup, asked, k + 1, order);
    var done := InvestigateAll(setup, asked, order);
    GrownIsNews(setup.limits.maxHops, done.addressHops, asked.addressHops, k + 1);
    RoundAsksNothing(asked, done, k);
  }

  lemma {:induction false} HopsFlags(setup: Setup, s: State, k: nat)
    requires Faithful(setup) && BetweenHops(setup, s, k) && k <= setup.limits.maxHops
    requires AskedBelow(s, k) && AskedOnlyBelow(s, k)
    ensures Grows(setup, s.addressHops, Trials(setup, s, k), HopsFrom(setup, s, k).addressHops)
    ensures FlagIsExact(setup, s.addressLimit, Trials(setup, s, k), LayersBegun(setup, s, k), HopsFrom(setup, s, k))
    decreases setup.limits.maxHops - k
  {
    hide Inv, AllDone, Accounted, Frontier, QueryAll, InvestigateAll, Faithful, Available, AvailableInOrder,
         RoundTrials, AskedBelow, AskedOnlyBelow, Grows, Dropped, Extends;
    DroppedNone(setup, s.addressHops);
    if k < setup.limits.maxHops && Frontier(s, k) != [] {
      AskedKeeps(setup, s, k);
      LayerFlags(setup, s, k);
      var asked := QueryAll(setup, s, k, Frontier(s, k));
      if !asked.addressLimit {
        OrderWithin(setup, asked, k + 1);
        RoundFlagged(setup, asked, k);
        RoundKeeps(setup, asked, k);
        var order := AvailableInOrder(setup, asked, k + 1);
        var done := InvestigateAll(setup, asked, order);
        var trials := RoundTrials(setup, asked, order);
        if |done.cases| >= setup.limits.maxTransactions {
          assert trials + [] == trials;
        } else {
          HopsFlags(setup, done, k + 1);
          var rest, end := Trials(setup, done, k + 1), HopsFrom(setup, done, k + 1).addressHops;
          DroppedStays(setup, asked.addressHops, trials, done.addressHops, rest, end);
          DroppedJoins(setup, trials, rest, end);
        }
      }
    }
  }

  /** The address flag is set exactly when an expansion reached an address that the run does not
      know, or a layer was begun of which an address was not asked about. */
  lemma AddressFlagExactly(setup: Setup)
    requires Faithful(setup)
    ensures Run(setup).addressLimit <==>
            || Dropped(setup, TrialsOf(setup), Run(setup).addressHops)
            || !AskedBelow(Run(setup), LayersBegun(setup, Start(setup), 0))
  {
    StartKeeps(setup);
    hide BetweenHops, HopsFrom, Faithful, Trials, LayersBegun, Dropped, AskedBelow, AskedOnlyBelow, Grows, SeedFrontier;
    NothingBelowZero(Start(setup));
    NothingAskedYet(setup);
    HopsFlags(setup, Start(setup), 0);
  }

  lemma NothingAskedYet(setup: Setup)
    ensures AskedOnlyBelow(Start(setup), 0) && !Start(setup).addressLimit
  {
  }

  /** So the flag is no false alarm: some address was dropped or left unasked. And a run without it
      knows every address that any expansion reached when it was made. */
  lemma AddressFlagMeans(setup: Setup)
    requires Faithful(setup)
    ensures Run(setup).addressLimit ==>
              Dropped(setup, TrialsOf(setup), Run(setup).addressHops) || Unasked(setup, Run(setup)) != {}
    ensures !Run(setup).addressLimit ==>
              forall i :: 0 <= i < |TrialsOf(setup)| ==>
                ReachedAt(setup, TrialsOf(setup)[i]) <= Run(setup).addressHops.Keys
  {
    hide Run, TrialsOf, ReachedAt, Start, LayersBegun, Faithful;
    AddressFlagExactly(setup);
    LayersWithin(setup, Start(setup), 0);
    var s, layers := Run(setup), LayersBegun(setup, Start(setup), 0);
    if a :| a in s.addressHops && s.addressHops[a] < layers && a !in s.queried {
      assert a in Unasked(setup, s);
    }
  }
}
