/** What holds of every run of the expansion, whatever the two services answer. */
module ReconstructionRun {
  import opened Basics
  import opened CallTrace
  import opened Keys
  import opened History
  import opened Linking
  import opened Candidates
  import opened Reconstruction
  import opened ReconstructionInvariant
  import opened ReconstructionSteps

  // ----- one hop

  /** The candidates an ordered list offers: all untried, each once. */
  predicate Offers(s: State, k: nat, order: seq<Hash>) {
    && (forall i, j :: 0 <= i < j < |order| ==> order[i] != order[j])
    && (forall i :: 0 <= i < |order| ==> Fresh(s, k, order[i]))
  }

  /** After an investigation round: a prefix of the offer was tried, all of it unless the
      transaction budget ran out. */
  predicate Tried(setup: Setup, s: State, order: seq<Hash>, s': State, n: nat) {
    n <= |order| && s'.investigated == s.investigated + order[..n]
    && (n == |order| || |s'.cases| >= setup.limits.maxTransactions)
  }

  lemma OffersNext(s: State, k: nat, order: seq<Hash>, s': State)
    requires Offers(s, k, order) && order != [] && SameButInvestigated(s', s)
             && s'.investigated == s.investigated + [order[0]]
    ensures Offers(s', k, order[1..])
  {
    forall i | 0 <= i < |order| - 1 ensures Fresh(s', k, order[1..][i]) {
      assert Fresh(s, k, order[i + 1]) && order[0] != order[i + 1];
    }
  }

  lemma {:induction false} InvestigateAllKeeps(setup: Setup, s: State, k: nat, order: seq<Hash>) returns (n: nat)
    requires Faithful(setup) && Inv(setup, s, k, k, k) && Offers(s, k, order)
    requires forall h :: h in order ==> h in s.candidates
    ensures var s' := InvestigateAll(setup, s, order);
            Inv(setup, s', k, k, k) && SameButInvestigated(s', s) && Tried(setup, s, order, s', n)
    decreases order
  {
    hide Inv, Investigate;
    n := 0;
    if order != [] && |s.cases| < setup.limits.maxTransactions {
      var s' := Investigate(setup, s, order[0]);
      assert Fresh(s, k, order[0]);
      InvestigateKeeps(setup, s, k, order[0]);
      OffersNext(s, k, order, s');
      var m := InvestigateAllKeeps(setup, s', k, order[1..]);
      n := m + 1;
      assert s.investigated + order[..n] == s'.investigated + order[1..][..m];
    }
  }

  lemma AvailableIsFresh(s: State, k: nat, h: Hash)
    requires InvestigatedOk(s.candidates, s.investigated, k) && h in Available(s, k + 1)
    ensures Fresh(s, k + 1, h)
  {
  }

  lemma OrderWithin(setup: Setup, s: State, k: nat)
    ensures forall h :: h in AvailableInOrder(setup, s, k) ==> h in s.candidates
  {
    OrderKnown(setup, s, k);
  }

  lemma OrderIsRanking(setup: Setup, s: State, k: nat)
    ensures RanksAll(AvailableInOrder(setup, s, k), Available(s, k), RankKey(s.candidates, setup.seed.block))
  {
    hide Available, RankKey;
    SortRanksAll(Available(s, k), RankKey(s.candidates, setup.seed.block));
  }

  lemma AvailableIsOffered(setup: Setup, s: State, k: nat)
    requires InvestigatedOk(s.candidates, s.investigated, k)
    ensures Offers(s, k + 1, AvailableInOrder(setup, s, k + 1))
  {
    hide InvestigatedOk, Available, Fresh, RankKey, AvailableInOrder;
    var order := AvailableInOrder(setup, s, k + 1);
    OrderIsRanking(setup, s, k + 1);
    forall i | 0 <= i < |order| ensures Fresh(s, k + 1, order[i]) {
      AvailableIsFresh(s, k, order[i]);
    }
  }

  lemma OrderRanks(setup: Setup, s: State, k: nat, n: nat, tried: Hash, left: Hash)
    requires n <= |AvailableInOrder(setup, s, k)|
    requires tried in AvailableInOrder(setup, s, k)[..n] && left in AvailableInOrder(setup, s, k)[n..]
    ensures KeyLe(RankKey(s.candidates, setup.seed.block)(tried), RankKey(s.candidates, setup.seed.block)(left))
  {
    hide Available, RankKey, AvailableInOrder, KeyLe;
    var order := AvailableInOrder(setup, s, k);
    OrderIsRanking(setup, s, k);
    var i :| 0 <= i < n && order[i] == tried;
    var j :| n <= j < |order| && order[j] == left;
  }

  /** `tried` was investigated in this round, and `left` was available to it but was not. */
  predicate Preferred(s: State, s': State, k: nat, tried: Hash, left: Hash) {
    && tried in s'.investigated && tried !in s.investigated
    && left in Available(s, k) && left !in s'.investigated
  }

  lemma InvWeakens(setup: Setup, s: State, a: nat, c: nat, i: nat, d: nat)
    requires Inv(setup, s, a, c, i) && a <= d && c <= d && i <= d
    ensures Inv(setup, s, d, d, d)
  {
    hide CasesOk, LinksOk, Budgets;
    CandidatesStayOk(s.candidates, c, s.queried, s.addressHops, d, s.queried, s.addressHops);
    AddressesWeaken(SeedFrontier(setup.seed), s.addressHops, a, s.links, s.contexts, d);
    InvestigatedWeakens(s.candidates, s.investigated, i, d);
  }

  /** Within a hop the best-ranked candidates are tried first: whatever the budget leaves untried
      ranks no better than anything tried. */
  lemma RoundTriesBestFirst(setup: Setup, s: State, k: nat, tried: Hash, left: Hash)
    requires Faithful(setup) && Inv(setup, s, k, k + 1, k)
    requires forall h :: h in AvailableInOrder(setup, s, k + 1) ==> h in s.candidates
    ensures Preferred(s, InvestigateAll(setup, s, AvailableInOrder(setup, s, k + 1)), k + 1, tried, left) ==>
              KeyLe(RankKey(s.candidates, setup.seed.block)(tried), RankKey(s.candidates, setup.seed.block)(left))
  {
    hide Inv, Available, RankKey, Offers, SameButInvestigated, Preferred, Faithful, InvestigatedOk, AvailableInOrder,
         InvestigateAll, KeyLe;
    InvestigatedPart(setup, s, k, k + 1, k);
    AvailableIsOffered(setup, s, k);
    InvWeakens(setup, s, k, k + 1, k, k + 1);
    var order := AvailableInOrder(setup, s, k + 1);
    var n := InvestigateAllKeeps(setup, s, k + 1, order);
    var s' := InvestigateAll(setup, s, order);
    if Preferred(s, s', k + 1, tried, left) {
      PreferredSplits(setup, s, s', k + 1, n, tried, left);
      OrderRanks(setup, s, k + 1, n, tried, left);
    }
  }

  lemma InvestigatedPart(setup: Setup, s: State, a: nat, c: nat, i: nat)
    requires Inv(setup, s, a, c, i)
    ensures InvestigatedOk(s.candidates, s.investigated, i)
  {
  }

  lemma PreferredSplits(setup: Setup, s: State, s': State, k: nat, n: nat, tried: Hash, left: Hash)
    requires Tried(setup, s, AvailableInOrder(setup, s, k), s', n) && Preferred(s, s', k, tried, left)
    ensures n <= |AvailableInOrder(setup, s, k)|
    ensures tried in AvailableInOrder(setup, s, k)[..n] && left in AvailableInOrder(setup, s, k)[n..]
  {
    OrderKnown(setup, s, k);
    hide Available, AvailableInOrder;
    var order := AvailableInOrder(setup, s, k);
    assert order == order[..n] + order[n..];
  }

  lemma AddressesWeaken(frontier: set<Address>, hops: Hops, a: nat, links: set<(Hash, Address)>,
                        contexts: map<Hash, Context>, d: nat)
    requires AddressesOk(frontier, hops, a, links, contexts) && a <= d
    ensures AddressesOk(frontier, hops, d, links, contexts)
  {
    forall b | b in hops ensures AddressOk(frontier, b, hops[b], d, links, contexts) {
      assert AddressOk(frontier, b, hops[b], a, links, contexts);
    }
  }

  lemma InvestigatedWeakens(candidates: map<Hash, Candidate>, investigated: seq<Hash>, i: nat, d: nat)
    requires InvestigatedOk(candidates, investigated, i) && i <= d
    ensures InvestigatedOk(candidates, investigated, d)
  {
    forall h | h in investigated ensures h in candidates && candidates[h].hop <= d {
    }
  }

  // ----- the whole run

  /** Every candidate was tried, unless the address limit was reached or the budget is full. */
  ghost predicate Completed(setup: Setup, s: State) {
    || s.addressLimit || |s.cases| >= setup.limits.maxTransactions
    || AllDone(s.candidates, s.investigated, setup.limits.maxHops)
  }

  lemma RoundDone(setup: Setup, s: State, k: nat, s': State, n: nat)
    requires CasesOk(setup.seed, s.cases, s.contexts, s.candidates, s.investigated)
    requires AllDone(s.candidates, s.investigated, k) && s'.candidates == s.candidates
    requires Tried(setup, s, AvailableInOrder(setup, s, k + 1), s', n) && n == |AvailableInOrder(setup, s, k + 1)|
    ensures AllDone(s'.candidates, s'.investigated, k + 1)
  {
    var order := AvailableInOrder(setup, s, k + 1);
    OrderKnown(setup, s, k + 1);
    assert order[..n] == order;
    forall h | h in s.candidates && s.candidates[h].hop <= k + 1 ensures h in s'.investigated {
      if s.candidates[h].hop == k + 1 && h !in s.cases {
        assert h in Available(s, k + 1);
      } else {
        assert h in s.investigated;
      }
    }
  }

  lemma AllDoneWithin(setup: Setup, s: State, k: nat)
    requires Inv(setup, s, k, k, k) && AllDone(s.candidates, s.investigated, k)
    ensures AllDone(s.candidates, s.investigated, setup.limits.maxHops)
  {
    forall h | h in s.candidates ensures h in s.investigated {
      assert CandidateOk(h, s.candidates[h], k, s.queried, s.addressHops);
    }
  }

  /** The state between two hops. */
  ghost predicate BetweenHops(setup: Setup, s: State, k: nat) {
    Inv(setup, s, k, k, k) && AllDone(s.candidates, s.investigated, k) && Accounted(s, 0)
  }

  ghost predicate Finished(setup: Setup, s: State) {
    Inv(setup, s, setup.limits.maxHops, setup.limits.maxHops, setup.limits.maxHops) && Accounted(s, 0)
      && Completed(setup, s)
  }

  lemma AskedKeeps(setup: Setup, s: State, k: nat)
    requires BetweenHops(setup, s, k)
    ensures var s' := QueryAll(setup, s, k, Frontier(s, k));
            Inv(setup, s', k, k + 1, k) && AllDone(s'.candidates, s'.investigated, k) && Accounted(s', 0)
  {
    assert Inv(setup, s, k, k + 1, k) by {
      hide CasesOk, LinksOk, Budgets, AddressesOk, InvestigatedOk;
      CandidatesStayOk(s.candidates, k, s.queried, s.addressHops, k + 1, s.queried, s.addressHops);
    }
    hide Inv, AllDone, Accounted, QueryAll;
    QueryAllKeeps(setup, s, k, Frontier(s, k));
  }

  lemma SameAccount(s: State, s': State)
    requires Accounted(s, 0) && SameButInvestigated(s', s)
    ensures Accounted(s', 0) && s'.candidates == s.candidates
  {
  }

  lemma RoundKeeps(setup: Setup, s: State, k: nat)
    requires Faithful(setup) && Inv(setup, s, k, k + 1, k) && AllDone(s.candidates, s.investigated, k)
             && Accounted(s, 0)
    requires forall h :: h in AvailableInOrder(setup, s, k + 1) ==> h in s.candidates
    ensures var s' := InvestigateAll(setup, s, AvailableInOrder(setup, s, k + 1));
            && Inv(setup, s', k + 1, k + 1, k + 1) && Accounted(s', 0)
            && (|s'.cases| >= setup.limits.maxTransactions || AllDone(s'.candidates, s'.investigated, k + 1))
  {
    var order := AvailableInOrder(setup, s, k + 1);
    AvailableIsOffered(setup, s, k);
    InvWeakens(setup, s, k, k + 1, k, k + 1);
    assert CasesOk(setup.seed, s.cases, s.contexts, s.candidates, s.investigated);
    hide Inv, AllDone, Accounted, InvestigateAll, AvailableInOrder, CasesOk, Offers, SameButInvestigated;
    var n := InvestigateAllKeeps(setup, s, k + 1, order);
    var s' := InvestigateAll(setup, s, order);
    SameAccount(s, s');
    if n == |order| {
      RoundDone(setup, s, k, s', n);
    }
  }

  lemma {:induction false} HopsFinish(setup: Setup, s: State, k: nat)
    requires Faithful(setup) && BetweenHops(setup, s, k) && k <= setup.limits.maxHops
    ensures Finished(setup, HopsFrom(setup, s, k))
    decreases setup.limits.maxHops - k
  {
    hide Inv, AllDone, Accounted, Frontier, QueryAll, InvestigateAll, Faithful, Available, AvailableInOrder;
    if k >= setup.limits.maxHops || Frontier(s, k) == [] {
      AllDoneWithin(setup, s, k);
      InvWeakens(setup, s, k, k, k, setup.limits.maxHops);
    } else {
      AskedKeeps(setup, s, k);
      var asked := QueryAll(setup, s, k, Frontier(s, k));
      if asked.addressLimit {
        InvWeakens(setup, asked, k, k + 1, k, setup.limits.maxHops);
      } else {
        OrderWithin(setup, asked, k + 1);
        RoundKeeps(setup, asked, k);
        var done := InvestigateAll(setup, asked, AvailableInOrder(setup, asked, k + 1));
        if |done.cases| >= setup.limits.maxTransactions {
          InvWeakens(setup, done, k + 1, k + 1, k + 1, setup.limits.maxHops);
        } else {
          HopsFinish(setup, done, k + 1);
        }
      }
    }
  }

  lemma {:induction false} SeedTransfersNonZero(transfers: seq<Transfer>)
    ensures ZERO_ADDRESS !in TransferEndpoints(transfers)
  {
    if transfers != [] {
      SeedTransfersNonZero(transfers[..|transfers| - 1]);
    }
  }

  predicate MovesCommitted(t: Transfer, a: Address) {
    t.effect == Committed && (t.sender == a || t.recipient == a)
  }

  lemma {:induction false} TransferEndpointsMeaning(transfers: seq<Transfer>, a: Address)
    ensures a in TransferEndpoints(transfers) <==>
            a != ZERO_ADDRESS && exists i :: 0 <= i < |transfers| && MovesCommitted(transfers[i], a)
  {
    if transfers != [] {
      var n := |transfers| - 1;
      TransferEndpointsMeaning(transfers[..n], a);
      assert forall i :: 0 <= i < n ==> transfers[..n][i] == transfers[i];
      assert MovesCommitted(transfers[n], a) ==> exists i :: 0 <= i < |transfers| && MovesCommitted(transfers[i], a);
      if a in TransferEndpoints(transfers[..n]) {
        var i :| 0 <= i < n && MovesCommitted(transfers[..n][i], a);
        assert MovesCommitted(transfers[i], a);
      }
    }
  }

  /** The seed frontier: the parties of the transaction and of its committed transfers, never the
      zero address; attempted and unknown transfers contribute nothing. */
  lemma SeedFrontierMeaning(seed: Case, a: Address)
    ensures a in SeedFrontier(seed) <==>
            a != 0
            && (seed.sender == Some(a) || seed.recipient == Some(a)
                || exists i :: 0 <= i < |seed.transfers| && MovesCommitted(seed.transfers[i], a))
  {
    TransferEndpointsMeaning(seed.transfers, a);
  }

  lemma StartKeeps(setup: Setup)
    requires Faithful(setup)
    ensures BetweenHops(setup, Start(setup), 0)
  {
    hide CasesOk, CandidatesOk, AddressesOk, LinksOk, InvestigatedOk, Budgets, AllDone, SeedFrontier, ZeroHops;
    var s := Start(setup);
    SeedCasesOk(setup.seed, s.cases, s.contexts);
    NothingYet(setup.limits.maxHops, s);
    SeedAddressesOk(setup, s);
    SeedBudgets(setup, s);
  }

  lemma SeedCasesOk(seed: Case, cases: map<Hash, Case>, contexts: map<Hash, Context>)
    requires cases == map[seed.hash := seed]
    requires contexts == map[seed.hash := Context(seed.block, Seed, 0, 10000, {OperatorSeed})]
    ensures CasesOk(seed, cases, contexts, map[], [])
  {
    assert contexts[seed.hash].hop == 0;
  }

  lemma NothingYet(maxHops: nat, s: State)
    requires s.candidates == map[] && s.links == {} && s.investigated == []
    ensures CandidatesOk(s.candidates, 0, s.queried, s.addressHops)
    ensures LinksOk(maxHops, s.links, s.cases, s.contexts, s.candidates, s.addressHops)
    ensures InvestigatedOk(s.candidates, s.investigated, 0) && AllDone(s.candidates, s.investigated, 0)
    ensures RecordCount(s.candidates) == 0
  {
  }

  lemma SeedAddressesOk(setup: Setup, s: State)
    requires s.addressHops == ZeroHops(SeedFrontier(setup.seed))
    ensures AddressesOk(SeedFrontier(setup.seed), s.addressHops, 0, s.links, s.contexts)
  {
    SeedTransfersNonZero(setup.seed.transfers);
  }

  lemma SeedBudgets(setup: Setup, s: State)
    requires ValidLimits(setup.limits) && s.cases == map[setup.seed.hash := setup.seed]
    requires s.addressHops == ZeroHops(SeedFrontier(setup.seed)) && s.queried == {} && s.investigated == []
             && s.failures == 0
    ensures Budgets(setup, s.cases, s.queried, s.addressHops, s.investigated, s.failures)
  {
    hide SeedFrontier;
    assert s.cases.Keys == {setup.seed.hash};
    assert ZeroHops(SeedFrontier(setup.seed)).Keys == SeedFrontier(setup.seed);
  }

  /** Every run keeps the invariant and balances its records, and leaves a candidate untried only at
      the address limit or a full transaction budget. */
  lemma RunFinishes(setup: Setup)
    requires Faithful(setup)
    ensures Finished(setup, Run(setup))
  {
    hide BetweenHops, Finished, HopsFrom, Start, Faithful;
    StartKeeps(setup);
    HopsFinish(setup, Start(setup), 0);
  }
}
