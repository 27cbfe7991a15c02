/** What a run leaves unexplored: when every discovered address was asked about, and when not. */
module ReconstructionCoverage {
  import opened Basics
  import opened Sorting
  import opened History
  import opened Linking
  import opened Reconstruction
  import opened ReconstructionInvariant
  import opened ReconstructionRun

  /** Discovered addresses a further hop would ask about. */
  function Unasked(setup: Setup, s: State): set<Address> {
    set a | a in s.addressHops && s.addressHops[a] < setup.limits.maxHops && a !in s.queried
  }

  /** The state in which the round that filled the transaction budget began to investigate;
      `None` when the search ended otherwise. */
  function FillingRound(setup: Setup, s: State, hop: nat): Option<State>
    decreases setup.limits.maxHops - hop
  {
    if hop >= setup.limits.maxHops || Frontier(s, hop) == [] then None
    else
      var asked := QueryAll(setup, s, hop, Frontier(s, hop));
      if asked.addressLimit then None
      else
        OrderKnown(setup, asked, hop + 1);
        var done := InvestigateAll(setup, asked, AvailableInOrder(setup, asked, hop + 1));
        if |done.cases| >= setup.limits.maxTransactions then Some(asked) else FillingRound(setup, done, hop + 1)
  }

  /** The filling round entered an address that was not known when it began. */
  predicate FilledWithNews(filling: Option<State>, end: State) {
    filling.Some? && filling.value.addressHops.Keys != end.addressHops.Keys
  }

  // ----- asking about a layer

  lemma {:induction false} RecordAllFrame(setup: Setup, s: State, hop: nat, address: Address, isHub: bool,
                                          records: seq<HistoryRecord>)
    ensures RecordAll(setup, s, hop, address, isHub, records).queried == s.queried
    ensures RecordAll(setup, s, hop, address, isHub, records).addressHops == s.addressHops
    decreases records
  {
    if records != [] {
      RecordAllFrame(setup, RecordOne(setup, s, hop, address, isHub, records[0]), hop, address, isHub, records[1..]);
    }
  }

  lemma QueryAsks(setup: Setup, s: State, hop: nat, address: Address)
    ensures Query(setup, s, hop, address).queried == s.queried + {address}
    ensures Query(setup, s, hop, address).addressHops == s.addressHops
  {
    hide RecordAll, IsHub, Used, Suppressed;
    var answer := setup.history(address);
    if answer.Some? {
      var records := answer.value;
      var isHub := IsHub(setup, address, records);
      RecordAllFrame(setup, Tallied(s, address, |records|, isHub, Suppressed(setup, address, records)),
                     hop, address, isHub, Used(setup, address, records));
    }
  }

  /** Unless the limit is flagged, the whole layer is asked about, and nothing is forgotten. */
  lemma {:induction false} QueryAllAsks(setup: Setup, s: State, hop: nat, frontier: seq<Address>)
    ensures var s' := QueryAll(setup, s, hop, frontier);
            && s'.addressHops == s.addressHops && s.queried <= s'.queried
            && (!s'.addressLimit ==> forall a :: a in frontier ==> a in s'.queried)
    decreases frontier
  {
    hide Query;
    if frontier != [] && |s.queried| < setup.limits.maxFrontierAddresses {
      if frontier[0] in s.queried {
        QueryAllAsks(setup, s, hop, frontier[1..]);
      } else {
        QueryAsks(setup, s, hop, frontier[0]);
        QueryAllAsks(setup, Query(setup, s, hop, frontier[0]), hop, frontier[1..]);
      }
      assert forall a :: a in frontier ==> a == frontier[0] || a in frontier[1..];
    }
  }

  // ----- what a round of investigations enters

  /** `wider` knows what `hops` knows, and what is new stands at distance k, below `maxHops`. */
  predicate GrownAt(maxHops: nat, wider: Hops, hops: Hops, k: nat) {
    Extends(wider, hops) && forall a :: a in wider && a !in hops ==> wider[a] == k < maxHops
  }

  lemma {:induction false} AddLinksGrows(setup: Setup, s: State, hash: Hash, hop: nat, linked: seq<Address>)
    requires hop < setup.limits.maxHops
    ensures GrownAt(setup.limits.maxHops, AddLinks(setup, s, hash, hop, linked).addressHops, s.addressHops, hop)
    ensures AddLinks(setup, s, hash, hop, linked).queried == s.queried
    decreases linked
  {
    if linked != [] && linked[0] != ZERO_ADDRESS {
      var a := linked[0];
      if a in s.addressHops {
        AddLinksGrows(setup, s.(links := s.links + {(hash, a)}), hash, hop, linked[1..]);
      } else if |s.addressHops| < setup.limits.maxFrontierAddresses {
        AddLinksGrows(setup, s.(addressHops := s.addressHops[a := hop], links := s.links + {(hash, a)}), hash, hop,
                      linked[1..]);
      }
    } else if linked != [] {
      AddLinksGrows(setup, s, hash, hop, linked[1..]);
    }
  }

  lemma InvestigateGrows(setup: Setup, s: State, h: Hash)
    requires h in s.candidates
    ensures GrownAt(setup.limits.maxHops, Investigate(setup, s, h).addressHops, s.addressHops, s.candidates[h].hop)
    ensures Investigate(setup, s, h).queried == s.queried
  {
    hide AddLinks, GrownAt, Grow, Named, ContextOf;
    NothingGrown(setup.limits.maxHops, s.addressHops, s.candidates[h].hop);
    var c := s.candidates[h];
    var answer := setup.investigate(c.hash);
    if answer.Some? && Expands(setup, c) {
      AddLinksGrows(setup, Opened(setup, s, c, answer.value), c.hash, c.hop,
                    Ascending(Grow(Named(c.records), answer.value.transfers)));
    }
  }

  lemma NothingGrown(maxHops: nat, hops: Hops, k: nat)
    ensures GrownAt(maxHops, hops, hops, k)
  {
  }

  lemma GrownTwice(maxHops: nat, widest: Hops, wider: Hops, hops: Hops, k: nat)
    requires GrownAt(maxHops, widest, wider, k) && GrownAt(maxHops, wider, hops, k)
    ensures GrownAt(maxHops, widest, hops, k)
  {
  }

  lemma {:induction false} InvestigateAllGrows(setup: Setup, s: State, k: nat, order: seq<Hash>)
    requires forall h :: h in order ==> h in s.candidates && s.candidates[h].hop == k
    ensures GrownAt(setup.limits.maxHops, InvestigateAll(setup, s, order).addressHops, s.addressHops, k)
    ensures InvestigateAll(setup, s, order).queried == s.queried
    decreases order
  {
    hide Investigate, GrownAt;
    if order == [] || |s.cases| >= setup.limits.maxTransactions {
      NothingGrown(setup.limits.maxHops, s.addressHops, k);
    } else {
      var next := Investigate(setup, s, order[0]);
      InvestigateFrame(setup, s, order[0]);
      InvestigateGrows(setup, s, order[0]);
      InvestigateAllGrows(setup, next, k, order[1..]);
      GrownTwice(setup.limits.maxHops, InvestigateAll(setup, s, order).addressHops, next.addressHops, s.addressHops, k);
    }
  }

  // ----- hop by hop

  /** Every address below distance k has been asked about. */
  predicate AskedBelow(s: State, k: nat) {
    forall a :: a in s.addressHops && s.addressHops[a] < k ==> a in s.queried
  }

  /** Every address known stands at most at distance k, and only known addresses were asked about. */
  predicate KnownWithin(s: State, k: nat) {
    (forall a :: a in s.addressHops ==> s.addressHops[a] <= k) && s.queried <= s.addressHops.Keys
  }

  lemma InvKnowsWithin(setup: Setup, s: State, a: nat, c: nat, i: nat)
    requires Inv(setup, s, a, c, i)
    ensures KnownWithin(s, a)
  {
    hide CasesOk, CandidatesOk, LinksOk, InvestigatedOk;
    forall b | b in s.addressHops ensures s.addressHops[b] <= a {
      assert AddressOk(SeedFrontier(setup.seed), b, s.addressHops[b], a, s.links, s.contexts);
    }
  }

  lemma LayerAsked(setup: Setup, s: State, k: nat)
    requires AskedBelow(s, k)
    ensures var s' := QueryAll(setup, s, k, Frontier(s, k)); !s'.addressLimit ==> AskedBelow(s', k + 1)
  {
    hide QueryAll;
    QueryAllAsks(setup, s, k, Frontier(s, k));
  }

  /** A round that starts with everything known asked about leaves exactly its news unasked. */
  lemma RoundLeavesNews(setup: Setup, asked: State, done: State, k: nat)
    requires KnownWithin(asked, k) && AskedBelow(asked, k + 1) && done.queried == asked.queried
    requires GrownAt(setup.limits.maxHops, done.addressHops, asked.addressHops, k + 1)
    ensures AskedBelow(done, k + 1)
    ensures Unasked(setup, done) == done.addressHops.Keys - asked.addressHops.Keys
  {
  }

  lemma NothingUnasked(setup: Setup, s: State, k: nat)
    requires KnownWithin(s, k) && AskedBelow(s, k)
    requires k >= setup.limits.maxHops || Frontier(s, k) == []
    ensures Unasked(setup, s) == {}
  {
    assert forall a :: a in s.addressHops && s.addressHops[a] == k ==> a in Frontier(s, k);
  }

  lemma OrderAtHop(setup: Setup, s: State, k: nat)
    ensures forall h :: h in AvailableInOrder(setup, s, k) ==> h in s.candidates && s.candidates[h].hop == k
  {
    OrderKnown(setup, s, k);
  }

  /** What a search that starts at hop k leaves unasked. */
  predicate UnaskedIsNews(setup: Setup, end: State, filling: Option<State>) {
    && (!end.addressLimit ==> (Unasked(setup, end) != {} <==> FilledWithNews(filling, end)))
    && (filling.Some? ==> |end.cases| >= setup.limits.maxTransactions)
  }

  lemma {:induction false} HopsLeaveNews(setup: Setup, s: State, k: nat)
    requires Faithful(setup) && BetweenHops(setup, s, k) && k <= setup.limits.maxHops && AskedBelow(s, k)
    ensures UnaskedIsNews(setup, HopsFrom(setup, s, k), FillingRound(setup, s, k))
    decreases setup.limits.maxHops - k
  {
    hide Inv, AllDone, Accounted, Frontier, QueryAll, InvestigateAll, Faithful, Available, AvailableInOrder, Unasked,
         AskedBelow, KnownWithin, GrownAt;
    if k >= setup.limits.maxHops || Frontier(s, k) == [] {
      InvKnowsWithin(setup, s, k, k, k);
      NothingUnasked(setup, s, k);
    } else {
      AskedKeeps(setup, s, k);
      LayerAsked(setup, s, k);
      var asked := QueryAll(setup, s, k, Frontier(s, k));
      if !asked.addressLimit {
        InvKnowsWithin(setup, asked, k, k + 1, k);
        OrderWithin(setup, asked, k + 1);
        RoundKeeps(setup, asked, k);
        OrderAtHop(setup, asked, k + 1);
        var order := AvailableInOrder(setup, asked, k + 1);
        var done := InvestigateAll(setup, asked, order);
        InvestigateAllGrows(setup, asked, k + 1, order);
        RoundLeavesNews(setup, asked, done, k);
        NewsIsMore(setup.limits.maxHops, done.addressHops, asked.addressHops, k + 1);
        if |done.cases| < setup.limits.maxTransactions {
          HopsLeaveNews(setup, done, k + 1);
        }
      }
    }
  }

  lemma NewsIsMore(maxHops: nat, wider: Hops, hops: Hops, k: nat)
    requires GrownAt(maxHops, wider, hops, k)
    ensures wider.Keys - hops.Keys != {} <==> hops.Keys != wider.Keys
  {
    assert hops.Keys <= wider.Keys;
    assert wider.Keys == hops.Keys + (wider.Keys - hops.Keys);
  }

  /** The exact condition for a run to leave discovered addresses unasked without flagging the
      address limit: the transaction budget was filled, by a round that entered a new address. */
  lemma UnaskedExactly(setup: Setup)
    requires Faithful(setup)
    ensures UnaskedIsNews(setup, Run(setup), FillingRound(setup, Start(setup), 0))
  {
    StartKeeps(setup);
    hide BetweenHops, HopsFrom, FillingRound, Faithful, Start, UnaskedIsNews;
    NothingBelowZero(Start(setup));
    HopsLeaveNews(setup, Start(setup), 0);
  }

  lemma NothingBelowZero(s: State)
    ensures AskedBelow(s, 0)
  {
    forall a | a in s.addressHops ensures s.addressHops[a] < 0 ==> a in s.queried {
      var hop: nat := s.addressHops[a];
      assert s.addressHops[a] == hop;
    }
  }

  /** Below the transaction budget and without the address flag, every discovered address within
      reach was asked about. */
  lemma BelowBudgetAllAsked(setup: Setup)
    requires Faithful(setup)
    ensures !Run(setup).addressLimit && |Run(setup).cases| < setup.limits.maxTransactions ==>
              forall a :: a in Run(setup).addressHops && Run(setup).addressHops[a] < setup.limits.maxHops ==>
                a in Run(setup).queried
  {
    UnaskedExactly(setup);
    hide Run, FillingRound, Start, Faithful;
    var s := Run(setup);
    if !s.addressLimit && |s.cases| < setup.limits.maxTransactions {
      forall a | a in s.addressHops && s.addressHops[a] < setup.limits.maxHops ensures a in s.queried {
        assert a !in Unasked(setup, s);
      }
    }
  }
}
