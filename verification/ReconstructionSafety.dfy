/** The guarantees of a finished run: evidence chains, shortest distances, balanced accounts,
    budgets, and what the completeness flags say of candidates. */
module ReconstructionSafety {
  import opened Basics
  import opened History
  import opened Reconstruction
  import opened ReconstructionInvariant
  import opened ReconstructionRun

  // ----- evidence chains

  datatype Step = Step(address: Address, transaction: Hash)

  /** A record of the address's history names the transaction. */
  ghost predicate Evidence(s: State, step: Step) {
    && step.transaction in s.candidates && step.address in s.queried
    && exists i :: 0 <= i < |s.candidates[step.transaction].records|
                   && s.candidates[step.transaction].records[i].0 == step.address
  }

  /** A chain of address-to-transaction links that starts at the seed frontier; between two
      links, the reconstructed transaction of one was expanded to the address of the next. */
  ghost predicate IsChain(frontier: set<Address>, s: State, chain: seq<Step>) {
    chain != [] && Evidence(s, chain[|chain| - 1]) &&
    if |chain| == 1 then chain[0].address in frontier
    else
      && IsChain(frontier, s, chain[..|chain| - 1])
      && chain[|chain| - 2].transaction in s.cases
      && (chain[|chain| - 2].transaction, chain[|chain| - 1].address) in s.links
  }

  ghost predicate ChainTo(frontier: set<Address>, s: State, chain: seq<Step>, h: Hash) {
    IsChain(frontier, s, chain) && chain[|chain| - 1].transaction == h
  }

  /** The record that set a candidate's distance. */
  lemma TightEvidence(setup: Setup, s: State, d: nat, h: Hash) returns (a: Address)
    requires Inv(setup, s, d, d, d) && h in s.candidates
    ensures Evidence(s, Step(a, h)) && a in s.addressHops && s.addressHops[a] + 1 == s.candidates[h].hop
  {
    var c := s.candidates[h];
    CandidatePick(s.candidates, h, d, s.queried, s.addressHops);
    hide CandidatesOk, CasesOk, LinksOk, AddressesOk, Budgets, InvestigatedOk;
    var i :| 0 <= i < |c.records| && Tight(c.hop, c.records[i].0, s.addressHops);
    a := c.records[i].0;
    assert RecordOk(h, c.hop, c.records[i], s.queried, s.addressHops);
  }

  /** The expansion that set an address's distance. */
  lemma LinkedBack(setup: Setup, s: State, d: nat, a: Address) returns (t: Hash)
    requires Inv(setup, s, d, d, d) && a in s.addressHops && s.addressHops[a] > 0
    ensures (t, a) in s.links && t in s.cases && t in s.candidates && s.candidates[t].hop == s.addressHops[a]
  {
    hide CandidatesOk, CasesOk, Budgets, InvestigatedOk;
    assert AddressOk(SeedFrontier(setup.seed), a, s.addressHops[a], d, s.links, s.contexts);
    t :| (t, a) in s.links && t in s.contexts && s.contexts[t].hop == s.addressHops[a];
    assert LinkOk(setup.limits.maxHops, t, a, s.cases, s.contexts, s.candidates, s.addressHops);
    ExpandedDistance(setup, s, d, t);
  }

  lemma SeedAddress(setup: Setup, s: State, d: nat, a: Address)
    requires Inv(setup, s, d, d, d) && a in s.addressHops
    ensures a in SeedFrontier(setup.seed) <==> s.addressHops[a] == 0
  {
    hide CandidatesOk, CasesOk, Budgets, InvestigatedOk, LinksOk;
    assert AddressOk(SeedFrontier(setup.seed), a, s.addressHops[a], d, s.links, s.contexts);
  }

  lemma {:induction false} ChainExists(setup: Setup, s: State, d: nat, h: Hash) returns (chain: seq<Step>)
    requires Inv(setup, s, d, d, d) && h in s.candidates
    ensures ChainTo(SeedFrontier(setup.seed), s, chain, h) && |chain| == s.candidates[h].hop
    decreases s.candidates[h].hop
  {
    hide Inv, Evidence, SeedFrontier;
    var a := TightEvidence(setup, s, d, h);
    SeedAddress(setup, s, d, a);
    if s.addressHops[a] == 0 {
      chain := [Step(a, h)];
    } else {
      var t := LinkedBack(setup, s, d, a);
      var before := ChainExists(setup, s, d, t);
      chain := before + [Step(a, h)];
      assert chain[..|chain| - 1] == before;
    }
  }

  lemma ExpandedDistance(setup: Setup, s: State, d: nat, t: Hash)
    requires Inv(setup, s, d, d, d) && t in s.cases && t in s.candidates
    ensures s.contexts[t].hop == s.candidates[t].hop
  {
  }

  /** A transaction is at most one link beyond any address with evidence for it. */
  lemma EvidenceBound(setup: Setup, s: State, d: nat, step: Step)
    requires Inv(setup, s, d, d, d) && Evidence(s, step)
    ensures step.address in s.addressHops && s.candidates[step.transaction].hop <= s.addressHops[step.address] + 1
  {
    hide CandidatesOk, CasesOk, LinksOk, AddressesOk, Budgets, InvestigatedOk;
    var h := step.transaction;
    CandidatePick(s.candidates, h, d, s.queried, s.addressHops);
    var c := s.candidates[h];
    var i :| 0 <= i < |c.records| && c.records[i].0 == step.address;
    assert RecordOk(h, c.hop, c.records[i], s.queried, s.addressHops);
  }

  /** An address is no farther than any transaction expanded to it. */
  lemma LinkBound(setup: Setup, s: State, d: nat, t: Hash, a: Address)
    requires Inv(setup, s, d, d, d) && (t, a) in s.links
    ensures t in s.candidates && a in s.addressHops && s.addressHops[a] <= s.candidates[t].hop
  {
    LinkFacts(setup.limits.maxHops, s, t, a);
    hide Inv, LinkOk;
    ExpandedDistance(setup, s, d, t);
  }

  lemma LinkFacts(maxHops: nat, s: State, t: Hash, a: Address)
    requires LinksOk(maxHops, s.links, s.cases, s.contexts, s.candidates, s.addressHops) && (t, a) in s.links
    ensures t in s.cases && t in s.contexts && t in s.candidates && a in s.addressHops
            && s.addressHops[a] <= s.contexts[t].hop
  {
    assert LinkOk(maxHops, t, a, s.cases, s.contexts, s.candidates, s.addressHops);
  }

  lemma {:induction false} ChainIsNotShorter(setup: Setup, s: State, d: nat, chain: seq<Step>)
    requires Inv(setup, s, d, d, d) && IsChain(SeedFrontier(setup.seed), s, chain)
    ensures Evidence(s, chain[|chain| - 1]) && s.candidates[chain[|chain| - 1].transaction].hop <= |chain|
    decreases |chain|
  {
    hide Inv, Evidence, SeedFrontier;
    var last := chain[|chain| - 1];
    EvidenceBound(setup, s, d, last);
    if |chain| == 1 {
      SeedAddress(setup, s, d, last.address);
    } else {
      ChainIsNotShorter(setup, s, d, chain[..|chain| - 1]);
      LinkBound(setup, s, d, chain[|chain| - 2].transaction, last.address);
    }
    KnownCandidate(s, last);
  }

  lemma KnownCandidate(s: State, step: Step)
    requires Evidence(s, step)
    ensures step.transaction in s.candidates
  {
  }

  /** The distance of h is between 1 and `maxHops` and is the length of a shortest evidence
      chain to it; its case is the one its own investigation returned. */
  ghost predicate HopIsShortest(setup: Setup, s: State, h: Hash) {
    && h in s.contexts && h in s.cases && 1 <= s.contexts[h].hop <= setup.limits.maxHops && s.cases[h].hash == h
    && (exists chain :: ChainTo(SeedFrontier(setup.seed), s, chain, h) && |chain| == s.contexts[h].hop)
    && (forall chain :: ChainTo(SeedFrontier(setup.seed), s, chain, h) ==> |chain| >= s.contexts[h].hop)
  }

  lemma FinishedHops(setup: Setup, s: State, h: Hash)
    requires Finished(setup, s) && h in s.cases && h != setup.seed.hash
    ensures HopIsShortest(setup, s, h)
  {
    hide SeedFrontier, CandidatesOk, AddressesOk, LinksOk, InvestigatedOk, Budgets, IsChain, Completed, Accounted;
    var d := setup.limits.maxHops;
    CandidatePick(s.candidates, h, d, s.queried, s.addressHops);
    ExpandedDistance(setup, s, d, h);
    var chain := ChainExists(setup, s, d, h);
    forall other | ChainTo(SeedFrontier(setup.seed), s, other, h) ensures |other| >= s.contexts[h].hop {
      ChainIsNotShorter(setup, s, d, other);
    }
  }

  /** So it is for every reconstructed transaction of every run, other than the seed. */
  lemma HopsAreShortestChains(setup: Setup, h: Hash)
    requires Faithful(setup)
    ensures h in Run(setup).cases && h != setup.seed.hash ==> HopIsShortest(setup, Run(setup), h)
  {
    hide Run, Faithful, Finished, HopIsShortest;
    RunFinishes(setup);
    if h in Run(setup).cases && h != setup.seed.hash {
      FinishedHops(setup, Run(setup), h);
    }
  }

  /** The transactions marked as core. */
  predicate IsCore(setup: Setup, s: State, h: Hash) {
    h in s.contexts && (h == setup.seed.hash || s.contexts[h].hop == 1)
  }

  /** Besides the seed, the core is exactly the reconstructed transactions that one piece of
      history evidence ties to an address of the seed. */
  lemma CoreIsOneEvidenceHop(setup: Setup, h: Hash)
    requires Faithful(setup)
    ensures h in Run(setup).cases && h != setup.seed.hash ==>
              (IsCore(setup, Run(setup), h) <==>
               exists a :: a in SeedFrontier(setup.seed) && Evidence(Run(setup), Step(a, h)))
  {
    hide Run, SeedFrontier, Faithful, Evidence;
    HopsAreShortestChains(setup, h);
    var s, frontier := Run(setup), SeedFrontier(setup.seed);
    if h in s.cases && h != setup.seed.hash {
      if IsCore(setup, s, h) {
        var chain: seq<Step> :| ChainTo(frontier, s, chain, h) && |chain| == 1;
        assert chain[0] == Step(chain[0].address, h);
      }
      if a :| a in frontier && Evidence(s, Step(a, h)) {
        assert ChainTo(frontier, s, [Step(a, h)], h);
      }
    }
  }

  // ----- accounting

  lemma {:induction false} DistinctWithin(list: seq<Hash>, all: set<Hash>)
    requires forall i, j :: 0 <= i < j < |list| ==> list[i] != list[j]
    requires forall h :: h in list ==> h in all
    ensures |list| <= |all|
    ensures (forall h :: h in all ==> h in list) ==> |list| == |all|
    decreases list
  {
    if list == [] {
      assert (forall h :: h in all ==> h in list) ==> all == {};
    } else {
      var last := list[|list| - 1];
      var init := list[..|list| - 1];
      DistinctWithin(init, all - {last});
      assert last in all;
      assert (forall h :: h in all ==> h in list) ==> forall h :: h in all - {last} ==> h in init;
    }
  }

  lemma SplitByCases(seed: Hash, cases: set<Hash>, candidates: set<Hash>)
    requires seed in cases && seed !in candidates && cases <= candidates + {seed}
    ensures |cases| + |candidates - cases| == |candidates| + 1
  {
    var others := cases - {seed};
    assert candidates == others + (candidates - cases);
  }

  lemma CasesAndRest(setup: Setup, s: State, d: nat)
    requires Inv(setup, s, d, d, d)
    ensures |s.cases| + |NotReconstructed(s)| == |s.candidates| + 1
  {
    hide CandidatesOk, AddressesOk, LinksOk, InvestigatedOk, Budgets;
    SplitByCases(setup.seed.hash, s.cases.Keys, s.candidates.Keys);
    assert NotReconstructed(s) == s.candidates.Keys - s.cases.Keys;
  }

  /** Reconstructed and not reconstructed make up the candidates and the seed; each candidate is
      tried at most once, and each trial is a case or a failure; every record considered is
      evidence of one candidate, names the seed or was suppressed at a hub. */
  lemma RunBalances(setup: Setup)
    requires Faithful(setup)
    ensures var s := Run(setup);
            && |s.cases| + |NotReconstructed(s)| == |s.candidates| + 1
            && |s.investigated| + 1 == |s.cases| + s.failures
            && (forall i, j :: 0 <= i < j < |s.investigated| ==> s.investigated[i] != s.investigated[j])
            && (forall h :: h in s.investigated ==> h in s.candidates)
            && s.considered == RecordCount(s.candidates) + s.seedRecords + s.suppressed
  {
    hide Run, SeedFrontier, Faithful;
    RunFinishes(setup);
    CasesAndRest(setup, Run(setup), setup.limits.maxHops);
  }

  /** No budget is exceeded. The frontier bound is the larger of its limit and the uncapped seed
      frontier. */
  lemma RunStaysWithinBudgets(setup: Setup)
    requires Faithful(setup)
    ensures var s := Run(setup);
            && |s.cases| <= setup.limits.maxTransactions
            && |s.queried| <= setup.limits.maxFrontierAddresses
            && |s.addressHops| <= Max(setup.limits.maxFrontierAddresses, |SeedFrontier(setup.seed)|)
            && s.queried <= s.addressHops.Keys
  {
    hide Run, SeedFrontier, Faithful;
    RunFinishes(setup);
  }

  lemma FinishedFrontier(setup: Setup, s: State)
    requires Finished(setup, s)
    ensures SeedFrontier(setup.seed) <= s.addressHops.Keys
    ensures |s.addressHops| <= Max(setup.limits.maxFrontierAddresses, |SeedFrontier(setup.seed)|)
  {
    hide SeedFrontier, CandidatesOk, CasesOk, LinksOk, InvestigatedOk, Completed, Accounted;
  }

  lemma SubsetSize(a: set<Address>, b: set<Address>)
    requires a <= b
    ensures |a| <= |b|
  {
    assert b == a + (b - a);
  }

  /** The frontier stays within its limit exactly when the seed frontier does; a seed frontier
      beyond the limit is never extended. */
  lemma FrontierLimitExactly(setup: Setup)
    requires Faithful(setup)
    ensures var limit, seed := setup.limits.maxFrontierAddresses, |SeedFrontier(setup.seed)|;
            && (|Run(setup).addressHops| <= limit <==> seed <= limit)
            && (seed > limit ==> |Run(setup).addressHops| == seed)
  {
    hide Run, SeedFrontier, Faithful, Finished;
    RunFinishes(setup);
    FinishedFrontier(setup, Run(setup));
    SubsetSize(SeedFrontier(setup.seed), Run(setup).addressHops.Keys);
  }

  lemma FinishedFlags(setup: Setup, s: State)
    requires Finished(setup, s)
    requires !CoverageOf(setup, s).transactionLimitReached && !CoverageOf(setup, s).addressLimitReached
    ensures CoverageOf(setup, s).candidatesNotReconstructed == CoverageOf(setup, s).transactionFailures
  {
    CasesAndRest(setup, s, setup.limits.maxHops);
    DistinctWithin(s.investigated, s.candidates.Keys);
    if |s.cases| < setup.limits.maxTransactions {
      forall h | h in s.candidates ensures h in s.investigated {
        CandidatePick(s.candidates, h, setup.limits.maxHops, s.queried, s.addressHops);
      }
    }
  }

  /** What the completeness flags say of candidates: with neither set, the only ones not
      reconstructed are the failures. What they say of addresses is a matter of its own. */
  lemma NoLimitMeansOnlyFailures(setup: Setup)
    requires Faithful(setup)
    ensures var c := CoverageOf(setup, Run(setup));
            !c.transactionLimitReached && !c.addressLimitReached ==>
              c.candidatesNotReconstructed == c.transactionFailures
  {
    hide Run, Faithful, Finished, CoverageOf;
    RunFinishes(setup);
    var c := CoverageOf(setup, Run(setup));
    if !c.transactionLimitReached && !c.addressLimitReached {
      FinishedFlags(setup, Run(setup));
    }
  }

  /** The candidates never investigated. */
  function Untried(s: State): set<Hash> {
    set h | h in s.candidates && h !in s.investigated
  }

  lemma UntriedCount(setup: Setup, s: State)
    requires Finished(setup, s)
    ensures |Untried(s)| + s.failures == |NotReconstructed(s)|
  {
    hide CandidatesOk, AddressesOk, LinksOk, Completed, Accounted;
    CasesAndRest(setup, s, setup.limits.maxHops);
    var tried := set h | h in s.investigated;
    DistinctWithin(s.investigated, tried);
    assert s.candidates.Keys == tried + Untried(s);
  }

  lemma UntriedFlagged(setup: Setup, s: State)
    requires Finished(setup, s) && Untried(s) != {}
    ensures s.addressLimit || |s.cases| >= setup.limits.maxTransactions
  {
    hide CasesOk, AddressesOk, LinksOk, Budgets, InvestigatedOk, Accounted;
    var h :| h in Untried(s);
    CandidatePick(s.candidates, h, setup.limits.maxHops, s.queried, s.addressHops);
  }

  /** What the transaction flag leaves open, and the coverage counts decide: the candidates not
      reconstructed are the failures and those never tried. So a set flag is a false alarm, every
      candidate having been tried, exactly when the two counts agree; and a candidate left untried
      is always flagged, if not by this flag then by the address flag. */
  lemma FlaggedButAllTried(setup: Setup)
    requires Faithful(setup)
    ensures var s := Run(setup);
            var c := CoverageOf(setup, s);
            && |Untried(s)| + c.transactionFailures == c.candidatesNotReconstructed
            && (Untried(s) == {} <==> c.candidatesNotReconstructed == c.transactionFailures)
            && (Untried(s) != {} ==> c.transactionLimitReached || c.addressLimitReached)
  {
    hide Run, Faithful, Finished, Untried, NotReconstructed;
    RunFinishes(setup);
    UntriedCount(setup, Run(setup));
    if Untried(Run(setup)) != {} {
      UntriedFlagged(setup, Run(setup));
      assert |NotReconstructed(Run(setup))| > 0;
    }
  }
}
