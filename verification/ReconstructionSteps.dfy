/** Every step of the expansion keeps the invariant. */
module ReconstructionSteps {
  import opened Basics
  import opened Sorting
  import opened History
  import opened Linking
  import opened Reconstruction
  import opened ReconstructionInvariant

  // ----- querying

  lemma QueriedGrows(setup: Setup, s: State, hop: nat, address: Address, asked: State)
    requires Inv(setup, s, hop, hop + 1, hop)
    requires address in s.addressHops && address !in s.queried && |s.queried| < setup.limits.maxFrontierAddresses
    requires asked.cases == s.cases && asked.contexts == s.contexts && asked.candidates == s.candidates
    requires asked.investigated == s.investigated && asked.addressHops == s.addressHops && asked.links == s.links
    requires asked.failures == s.failures && asked.queried == s.queried + {address}
    ensures Inv(setup, asked, hop, hop + 1, hop)
  {
    hide CasesOk, LinksOk, AddressesOk, InvestigatedOk, CandidatesOk;
    CandidatesStayOk(s.candidates, hop + 1, s.queried, s.addressHops, hop + 1, asked.queried, s.addressHops);
  }

  /** What a query leaves alone. */
  predicate SameButAsked(s': State, s: State) {
    s' == s.(candidates := s'.candidates, queried := s'.queried, considered := s'.considered, hubs := s'.hubs,
             suppressed := s'.suppressed, seedRecords := s'.seedRecords, addressLimit := s'.addressLimit)
  }

  lemma QueryKeeps(setup: Setup, s: State, hop: nat, address: Address)
    requires Inv(setup, s, hop, hop + 1, hop) && AllDone(s.candidates, s.investigated, hop) && Accounted(s, 0)
    requires address in s.addressHops && s.addressHops[address] == hop
    requires address !in s.queried && |s.queried| < setup.limits.maxFrontierAddresses
    ensures var s' := Query(setup, s, hop, address);
            && Inv(setup, s', hop, hop + 1, hop) && AllDone(s'.candidates, s'.investigated, hop) && Accounted(s', 0)
            && SameButAsked(s', s)
  {
    hide Inv, AllDone, IsHub, Used;
    var answer := setup.history(address);
    if answer.None? {
      QueriedGrows(setup, s, hop, address, s.(queried := s.queried + {address}));
    } else {
      var records := answer.value;
      var isHub := IsHub(setup, address, records);
      var tallied := Tallied(s, address, |records|, isHub, Suppressed(setup, address, records));
      var used := Used(setup, address, records);
      QueriedGrows(setup, s, hop, address, tallied);
      assert Accounted(tallied, |used|);
      RecordAllKeeps(setup, tallied, hop, address, isHub, used);
    }
  }

  lemma {:induction false} QueryAllKeeps(setup: Setup, s: State, hop: nat, frontier: seq<Address>)
    requires Inv(setup, s, hop, hop + 1, hop) && AllDone(s.candidates, s.investigated, hop) && Accounted(s, 0)
    requires forall a :: a in frontier ==> a in s.addressHops && s.addressHops[a] == hop
    ensures var s' := QueryAll(setup, s, hop, frontier);
            && Inv(setup, s', hop, hop + 1, hop) && AllDone(s'.candidates, s'.investigated, hop) && Accounted(s', 0)
            && SameButAsked(s', s)
    decreases frontier
  {
    if frontier == [] {
    } else if |s.queried| >= setup.limits.maxFrontierAddresses {
      LimitKeeps(setup, s, hop);
    } else {
      hide Inv, AllDone, Accounted, Query;
      var s' := s;
      if frontier[0] !in s.queried {
        QueryKeeps(setup, s, hop, frontier[0]);
        s' := Query(setup, s, hop, frontier[0]);
      }
      QueryAllKeeps(setup, s', hop, frontier[1..]);
    }
  }

  lemma LimitKeeps(setup: Setup, s: State, hop: nat)
    requires Inv(setup, s, hop, hop + 1, hop) && Accounted(s, 0)
    ensures Inv(setup, s.(addressLimit := true), hop, hop + 1, hop) && Accounted(s.(addressLimit := true), 0)
  {
    hide CasesOk, LinksOk, AddressesOk, InvestigatedOk, CandidatesOk, Budgets;
  }

  // ----- entering linked addresses

  /** What an investigation leaves alone. */
  predicate SameButInvestigated(s': State, s: State) {
    s' == s.(cases := s'.cases, contexts := s'.contexts, failures := s'.failures, investigated := s'.investigated,
             addressHops := s'.addressHops, links := s'.links, addressLimit := s'.addressLimit)
  }

  lemma NewAddressOk(frontier: set<Address>, hops: Hops, k: nat, links: set<(Hash, Address)>,
                     contexts: map<Hash, Context>,
                     t: Hash, a: Address)
    requires AddressesOk(frontier, hops, k, links, contexts)
    requires a != ZERO_ADDRESS && k > 0 && t in contexts && contexts[t].hop == k
    ensures AddressesOk(frontier, hops, k, links + {(t, a)}, contexts)
    ensures a !in hops ==> AddressesOk(frontier, hops[a := k], k, links + {(t, a)}, contexts)
  {
    var longer := links + {(t, a)};
    forall b | b in hops ensures AddressOk(frontier, b, hops[b], k, longer, contexts) {
      assert AddressOk(frontier, b, hops[b], k, links, contexts);
      if hops[b] > 0 {
        var u :| (u, b) in links && u in contexts && contexts[u].hop == hops[b];
        assert (u, b) in longer;
      }
    }
    assert (t, a) in longer;
    assert LinkedFrom(a, k, longer, contexts);
  }

  lemma NewLinkOk(maxHops: nat, links: set<(Hash, Address)>, cases: map<Hash, Case>, contexts: map<Hash, Context>,
                  candidates: map<Hash, Candidate>, hops: Hops, k: nat, t: Hash, a: Address)
    requires LinksOk(maxHops, links, cases, contexts, candidates, hops)
    requires t in cases && t in contexts && t in candidates && contexts[t].hop == k < maxHops
    requires candidates[t].nonHubSources != {} && a in Reached(candidates[t], cases[t].transfers)
    ensures a in hops && hops[a] <= k ==> LinksOk(maxHops, links + {(t, a)}, cases, contexts, candidates, hops)
    ensures a !in hops ==> LinksOk(maxHops, links + {(t, a)}, cases, contexts, candidates, hops[a := k])
  {
    var longer := links + {(t, a)};
    forall u, b | (u, b) in links
      ensures LinkOk(maxHops, u, b, cases, contexts, candidates, hops)
      ensures a !in hops ==> LinkOk(maxHops, u, b, cases, contexts, candidates, hops[a := k])
    {
      assert LinkOk(maxHops, u, b, cases, contexts, candidates, hops);
    }
    forall u, b | (u, b) in longer ensures (u, b) in links || (u == t && b == a) {
    }
  }

  /** The transaction being expanded at distance k. */
  ghost predicate Expanding(s: State, maxHops: nat, k: nat, t: Hash) {
    && t in s.cases && t in s.contexts && t in s.candidates && 0 < k == s.contexts[t].hop < maxHops
    && s.candidates[t].nonHubSources != {}
  }

  lemma NewAddressInBudget(setup: Setup, s: State, a: Address, k: nat)
    requires Budgets(setup, s.cases, s.queried, s.addressHops, s.investigated, s.failures)
    requires a !in s.addressHops && |s.addressHops| < setup.limits.maxFrontierAddresses
    ensures Budgets(setup, s.cases, s.queried, s.addressHops[a := k], s.investigated, s.failures)
  {
    assert s.addressHops[a := k].Keys == s.addressHops.Keys + {a};
  }

  lemma AddressPick(frontier: set<Address>, hops: Hops, k: nat, links: set<(Hash, Address)>,
                    contexts: map<Hash, Context>, a: Address)
    requires AddressesOk(frontier, hops, k, links, contexts) && a in hops
    ensures hops[a] <= k
  {
    assert AddressOk(frontier, a, hops[a], k, links, contexts);
  }

  lemma AddLinkKeeps(setup: Setup, s: State, k: nat, t: Hash, a: Address, s': State)
    requires Inv(setup, s, k, k, k) && Expanding(s, setup.limits.maxHops, k, t)
    requires a != ZERO_ADDRESS && a in Reached(s.candidates[t], s.cases[t].transfers)
    requires a in s.addressHops || |s.addressHops| < setup.limits.maxFrontierAddresses
    requires s' == s.(links := s.links + {(t, a)},
                      addressHops := if a in s.addressHops then s.addressHops else s.addressHops[a := k])
    ensures Inv(setup, s', k, k, k)
  {
    hide CasesOk, LinksOk, AddressesOk, InvestigatedOk, CandidatesOk, Reached, Budgets;
    if a in s.addressHops {
      AddressPick(SeedFrontier(setup.seed), s.addressHops, k, s.links, s.contexts, a);
    } else {
      NewAddressInBudget(setup, s, a, k);
    }
    NewAddressOk(SeedFrontier(setup.seed), s.addressHops, k, s.links, s.contexts, t, a);
    NewLinkOk(setup.limits.maxHops, s.links, s.cases, s.contexts, s.candidates, s.addressHops, k, t, a);
    CandidatesStayOk(s.candidates, k, s.queried, s.addressHops, k, s.queried, s'.addressHops);
  }

  /** A followed link is never lost, and each linked address is followed unless the limit stops it. */
  lemma {:induction false} AddLinksKeeps(setup: Setup, s: State, k: nat, t: Hash, linked: seq<Address>)
    requires Inv(setup, s, k, k, k) && Expanding(s, setup.limits.maxHops, k, t)
    requires forall a :: a in linked ==> a in Reached(s.candidates[t], s.cases[t].transfers)
    ensures var s' := AddLinks(setup, s, t, k, linked);
            && Inv(setup, s', k, k, k)
            && s' == s.(addressHops := s'.addressHops, links := s'.links, addressLimit := s'.addressLimit)
            && s.links <= s'.links && (s.addressLimit ==> s'.addressLimit)
            && (forall a :: a in linked && a != ZERO_ADDRESS && !s'.addressLimit ==> (t, a) in s'.links)
    decreases linked
  {
    hide Inv, Reached;
    if linked == [] {
    } else if linked[0] == ZERO_ADDRESS {
      AddLinksKeeps(setup, s, k, t, linked[1..]);
    } else if linked[0] !in s.addressHops && |s.addressHops| >= setup.limits.maxFrontierAddresses {
      LimitKeepsInvestigation(setup, s, k);
    } else {
      var a := linked[0];
      var s' := s.(links := s.links + {(t, a)},
                   addressHops := if a in s.addressHops then s.addressHops else s.addressHops[a := k]);
      AddLinkKeeps(setup, s, k, t, a, s');
      AddLinksKeeps(setup, s', k, t, linked[1..]);
    }
  }

  lemma LimitKeepsInvestigation(setup: Setup, s: State, k: nat)
    requires Inv(setup, s, k, k, k)
    ensures Inv(setup, s.(addressLimit := true), k, k, k)
  {
    hide CasesOk, LinksOk, AddressesOk, InvestigatedOk, CandidatesOk, Budgets;
  }

  // ----- one investigation

  /** The candidate about to be investigated: at distance k and not tried before. */
  predicate Fresh(s: State, k: nat, h: Hash) {
    h in s.candidates && s.candidates[h].hop == k && h !in s.investigated
  }

  lemma FreshIsUnopened(seed: Case, cases: map<Hash, Case>, contexts: map<Hash, Context>,
                        candidates: map<Hash, Candidate>,
                        investigated: seq<Hash>, h: Hash)
    requires CasesOk(seed, cases, contexts, candidates, investigated) && h in candidates && h !in investigated
    ensures h !in cases && h != seed.hash
  {
  }

  lemma InvestigatedGrows(candidates: map<Hash, Candidate>, investigated: seq<Hash>, k: nat, h: Hash)
    requires InvestigatedOk(candidates, investigated, k)
    requires h in candidates && candidates[h].hop <= k && h !in investigated
    ensures InvestigatedOk(candidates, investigated + [h], k)
  {
    var longer := investigated + [h];
    forall g | g in longer ensures g in candidates && candidates[g].hop <= k {
      assert g in investigated || g == h;
    }
  }

  lemma CasesGrow(seed: Case, cases: map<Hash, Case>, contexts: map<Hash, Context>, candidates: map<Hash, Candidate>,
                  investigated: seq<Hash>, h: Hash, related: Case, context: Context)
    requires CasesOk(seed, cases, contexts, candidates, investigated) && h in candidates && h != seed.hash
    requires related.hash == h && context.hop == candidates[h].hop
    ensures CasesOk(seed, cases, contexts, candidates, investigated + [h])
    ensures CasesOk(seed, cases[h := related], contexts[h := context], candidates, investigated + [h])
  {
    var cases', contexts', longer := cases[h := related], contexts[h := context], investigated + [h];
    assert cases'.Keys == contexts'.Keys;
    forall t | t in cases' && t != seed.hash
      ensures t in candidates && contexts'[t].hop == candidates[t].hop && cases'[t].hash == t && t in longer
    {
      assert t != h ==> t in investigated;
      assert longer[|investigated|] == h;
    }
  }

  lemma ContextsGrow(setup: Setup, frontier: set<Address>, s: State, k: nat, h: Hash, related: Case, context: Context)
    requires AddressesOk(frontier, s.addressHops, k, s.links, s.contexts) && h !in s.contexts
    requires LinksOk(setup.limits.maxHops, s.links, s.cases, s.contexts, s.candidates, s.addressHops)
    ensures AddressesOk(frontier, s.addressHops, k, s.links, s.contexts[h := context])
    ensures LinksOk(setup.limits.maxHops, s.links, s.cases[h := related], s.contexts[h := context], s.candidates,
                    s.addressHops)
  {
    var cases', contexts' := s.cases[h := related], s.contexts[h := context];
    forall a | a in s.addressHops ensures AddressOk(frontier, a, s.addressHops[a], k, s.links, contexts') {
      assert AddressOk(frontier, a, s.addressHops[a], k, s.links, s.contexts);
      if s.addressHops[a] > 0 {
        var t :| (t, a) in s.links && t in s.contexts && s.contexts[t].hop == s.addressHops[a];
        assert contexts'[t].hop == s.addressHops[a];
      }
    }
    forall t, a | (t, a) in s.links
      ensures LinkOk(setup.limits.maxHops, t, a, cases', contexts', s.candidates, s.addressHops)
    {
      assert LinkOk(setup.limits.maxHops, t, a, s.cases, s.contexts, s.candidates, s.addressHops);
    }
  }

  lemma CaseInBudget(setup: Setup, s: State, h: Hash, related: Case)
    requires Budgets(setup, s.cases, s.queried, s.addressHops, s.investigated, s.failures)
    requires h !in s.cases && |s.cases| < setup.limits.maxTransactions
    ensures Budgets(setup, s.cases[h := related], s.queried, s.addressHops, s.investigated + [h], s.failures)
    ensures Budgets(setup, s.cases, s.queried, s.addressHops, s.investigated + [h], s.failures + 1)
  {
    assert s.cases[h := related].Keys == s.cases.Keys + {h};
  }

  lemma EntryKeeps(setup: Setup, s: State, k: nat, h: Hash, related: Case, context: Context)
    requires Inv(setup, s, k, k, k) && Fresh(s, k, h) && |s.cases| < setup.limits.maxTransactions
    requires related.hash == h && context.hop == s.candidates[h].hop
    ensures Inv(setup, s.(cases := s.cases[h := related], contexts := s.contexts[h := context],
                          investigated := s.investigated + [h]), k, k, k)
    ensures Inv(setup, s.(failures := s.failures + 1, investigated := s.investigated + [h]), k, k, k)
  {
    hide CasesOk, LinksOk, AddressesOk, InvestigatedOk, CandidatesOk, Budgets, SeedFrontier;
    FreshIsUnopened(setup.seed, s.cases, s.contexts, s.candidates, s.investigated, h);
    ContextsAreCases(setup.seed, s.cases, s.contexts, s.candidates, s.investigated);
    InvestigatedGrows(s.candidates, s.investigated, k, h);
    CasesGrow(setup.seed, s.cases, s.contexts, s.candidates, s.investigated, h, related, context);
    ContextsGrow(setup, SeedFrontier(setup.seed), s, k, h, related, context);
    CaseInBudget(setup, s, h, related);
  }

  lemma OpenedKeeps(setup: Setup, s: State, k: nat, h: Hash, related: Case)
    requires Inv(setup, s, k, k, k) && Fresh(s, k, h) && |s.cases| < setup.limits.maxTransactions
    requires related.hash == h
    ensures Inv(setup, Opened(setup, s, s.candidates[h], related), k, k, k)
    ensures Inv(setup, s.(failures := s.failures + 1, investigated := s.investigated + [h]), k, k, k)
  {
    var context := ContextOf(setup, related, s.candidates[h]);
    assert context.hop == s.candidates[h].hop && s.candidates[h].hash == h by {
      hide CasesOk, LinksOk, AddressesOk, InvestigatedOk, Budgets, CandidateRank, PhaseOf;
      CandidatePick(s.candidates, h, k, s.queried, s.addressHops);
    }
    hide Inv, ContextOf;
    EntryKeeps(setup, s, k, h, related, context);
  }

  lemma ContextsAreCases(seed: Case, cases: map<Hash, Case>, contexts: map<Hash, Context>,
                         candidates: map<Hash, Candidate>,
                         investigated: seq<Hash>)
    requires CasesOk(seed, cases, contexts, candidates, investigated)
    ensures cases.Keys == contexts.Keys
  {
  }

  lemma ExpandKeeps(setup: Setup, s: State, k: nat, h: Hash, related: Case)
    requires Inv(setup, s, k, k, k) && h in s.candidates && h in s.cases && h in s.contexts && s.cases[h] == related
    requires s.contexts[h].hop == k > 0 && Expands(setup, s.candidates[h]) && s.candidates[h].hop == k
    requires s.candidates[h].hubSources + s.candidates[h].nonHubSources != {}
    ensures var s' := AddLinks(setup, s, h, k, Ascending(Grow(Named(s.candidates[h].records), related.transfers)));
            && Inv(setup, s', k, k, k)
            && s' == s.(addressHops := s'.addressHops, links := s'.links, addressLimit := s'.addressLimit)
            && (!s'.addressLimit ==> Followed(h, Reached(s.candidates[h], related.transfers), s'.links))
  {
    hide Inv, Grow, Named;
    AddLinksKeeps(setup, s, k, h, Ascending(Reached(s.candidates[h], related.transfers)));
  }

  /** Every non-zero address reached from h has been linked to it. */
  predicate Followed(h: Hash, reached: set<Address>, links: set<(Hash, Address)>) {
    forall a :: a in reached && a != ZERO_ADDRESS ==> (h, a) in links
  }

  /** One investigation: the candidate is tried once; on success it is opened, and unless it rests
      on hub evidence alone or is at the last hop, every address it reaches is linked to it. */
  lemma InvestigateKeeps(setup: Setup, s: State, k: nat, h: Hash)
    requires Faithful(setup) && Inv(setup, s, k, k, k) && Fresh(s, k, h) && |s.cases| < setup.limits.maxTransactions
    ensures var s' := Investigate(setup, s, h);
            && Inv(setup, s', k, k, k) && SameButInvestigated(s', s) && s'.investigated == s.investigated + [h]
            && (setup.investigate(h).Some? && Expands(setup, s.candidates[h]) && !s'.addressLimit ==>
                  Followed(h, Reached(s.candidates[h], setup.investigate(h).value.transfers), s'.links))
  {
    CandidatePick(s.candidates, h, k, s.queried, s.addressHops);
    hide Inv, Reached, Followed, Grow, Named, CandidateRank, PhaseOf, Expands, CandidateOk;
    var c := s.candidates[h];
    CandidateFacts(h, c, k, s.queried, s.addressHops);
    var answer := setup.investigate(h);
    if answer.None? {
      OpenedKeeps(setup, s, k, h, setup.seed.(hash := h));
    } else {
      var related := answer.value;
      OpenedKeeps(setup, s, k, h, related);
      var entered := Opened(setup, s, c, related);
      if Expands(setup, c) {
        ExpandKeeps(setup, entered, k, h, related);
      }
    }
  }

  lemma CandidateFacts(h: Hash, c: Candidate, bound: nat, queried: set<Address>, hops: Hops)
    requires CandidateOk(h, c, bound, queried, hops)
    ensures c.hash == h && 1 <= c.hop && c.hubSources + c.nonHubSources != {}
  {
  }
}
