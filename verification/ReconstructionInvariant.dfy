/** What every step of the expansion keeps. */
module ReconstructionInvariant {
  import opened Basics
  import opened History
  import opened Linking
  import opened Reconstruction

  type Hops = map<Address, nat>

  // ----- candidates: each rests on evidence from queried addresses

  predicate RecordOk(h: Hash, hop: nat, entry: (Address, HistoryRecord), queried: set<Address>, hops: Hops) {
    entry.1.hash == h && entry.0 in queried && entry.0 in hops && hop <= hops[entry.0] + 1
  }

  predicate Tight(hop: nat, address: Address, hops: Hops) {
    address in hops && hops[address] + 1 == hop
  }

  ghost predicate CandidateOk(h: Hash, c: Candidate, bound: nat, queried: set<Address>, hops: Hops) {
    && c.hash == h && 1 <= c.hop <= bound
    && c.hubSources + c.nonHubSources != {}
    && (forall i :: 0 <= i < |c.records| ==> RecordOk(h, c.hop, c.records[i], queried, hops))
    && (exists i :: 0 <= i < |c.records| && Tight(c.hop, c.records[i].0, hops))
  }

  ghost predicate CandidatesOk(candidates: map<Hash, Candidate>, bound: nat, queried: set<Address>, hops: Hops) {
    forall h :: h in candidates ==> CandidateOk(h, candidates[h], bound, queried, hops)
  }

  /** `wider` knows at least what `hops` knows, with the same distances. */
  predicate Extends(wider: Hops, hops: Hops) {
    forall a :: a in hops ==> a in wider && wider[a] == hops[a]
  }

  lemma CandidatesStayOk(candidates: map<Hash, Candidate>, bound: nat, queried: set<Address>, hops: Hops,
                         bound': nat, queried': set<Address>, hops': Hops)
    requires CandidatesOk(candidates, bound, queried, hops)
    requires bound <= bound' && queried <= queried' && Extends(hops', hops)
    ensures CandidatesOk(candidates, bound', queried', hops')
  {
    forall h | h in candidates ensures CandidateOk(h, candidates[h], bound', queried', hops') {
      var c := candidates[h];
      assert CandidateOk(h, c, bound, queried, hops);
      var i :| 0 <= i < |c.records| && Tight(c.hop, c.records[i].0, hops);
      assert Tight(c.hop, c.records[i].0, hops');
      forall j | 0 <= j < |c.records| ensures RecordOk(h, c.hop, c.records[j], queried', hops') {
        assert RecordOk(h, c.hop, c.records[j], queried, hops);
      }
    }
  }

  // ----- addresses: distances, and where each was linked from

  ghost predicate LinkedFrom(a: Address, hop: nat, links: set<(Hash, Address)>, contexts: map<Hash, Context>) {
    exists t :: (t, a) in links && t in contexts && contexts[t].hop == hop
  }

  ghost predicate AddressOk(frontier: set<Address>, a: Address, hop: nat, bound: nat, links: set<(Hash, Address)>,
                            contexts: map<Hash, Context>) {
    && a != ZERO_ADDRESS && hop <= bound && (hop == 0 <==> a in frontier)
    && (hop > 0 ==> LinkedFrom(a, hop, links, contexts))
  }

  ghost predicate AddressesOk(frontier: set<Address>, hops: Hops, bound: nat, links: set<(Hash, Address)>,
                              contexts: map<Hash, Context>) {
    frontier <= hops.Keys && forall a :: a in hops ==> AddressOk(frontier, a, hops[a], bound, links, contexts)
  }

  // ----- links: followed only from expanded transactions, to addresses their evidence reaches

  ghost predicate LinkOk(maxHops: nat, t: Hash, a: Address, cases: map<Hash, Case>, contexts: map<Hash, Context>,
                         candidates: map<Hash, Candidate>, hops: Hops) {
    && t in cases && t in contexts && t in candidates && a in hops
    && hops[a] <= contexts[t].hop < maxHops
    && candidates[t].nonHubSources != {}
    && a in Grow(Named(candidates[t].records), cases[t].transfers)
  }

  ghost predicate LinksOk(maxHops: nat, links: set<(Hash, Address)>, cases: map<Hash, Case>,
                          contexts: map<Hash, Context>,
                          candidates: map<Hash, Candidate>, hops: Hops) {
    forall t, a :: (t, a) in links ==> LinkOk(maxHops, t, a, cases, contexts, candidates, hops)
  }

  // ----- cases and investigations

  ghost predicate CasesOk(seed: Case, cases: map<Hash, Case>, contexts: map<Hash, Context>,
                          candidates: map<Hash, Candidate>, investigated: seq<Hash>) {
    && seed.hash in cases && cases[seed.hash] == seed && seed.hash !in candidates
    && cases.Keys == contexts.Keys && contexts[seed.hash].hop == 0
    && forall t :: t in cases && t != seed.hash ==>
         t in candidates && contexts[t].hop == candidates[t].hop && cases[t].hash == t && t in investigated
  }

  ghost predicate InvestigatedOk(candidates: map<Hash, Candidate>, investigated: seq<Hash>, bound: nat) {
    && (forall i, j :: 0 <= i < j < |investigated| ==> investigated[i] != investigated[j])
    && (forall h :: h in investigated ==> h in candidates && candidates[h].hop <= bound)
  }

  predicate Budgets(setup: Setup, cases: map<Hash, Case>, queried: set<Address>, hops: Hops, investigated: seq<Hash>,
                    failures: nat)
  {
    && |cases| <= setup.limits.maxTransactions
    && |queried| <= setup.limits.maxFrontierAddresses
    && |hops| <= Max(setup.limits.maxFrontierAddresses, |SeedFrontier(setup.seed)|)
    && |investigated| + 1 == |cases| + failures
    && queried <= hops.Keys
  }

  /** The invariant: address distances up to `a`, candidates up to `c`, investigations up to `i`. */
  ghost predicate Inv(setup: Setup, s: State, a: nat, c: nat, i: nat) {
    && CasesOk(setup.seed, s.cases, s.contexts, s.candidates, s.investigated)
    && CandidatesOk(s.candidates, c, s.queried, s.addressHops)
    && AddressesOk(SeedFrontier(setup.seed), s.addressHops, a, s.links, s.contexts)
    && LinksOk(setup.limits.maxHops, s.links, s.cases, s.contexts, s.candidates, s.addressHops)
    && InvestigatedOk(s.candidates, s.investigated, i)
    && Budgets(setup, s.cases, s.queried, s.addressHops, s.investigated, s.failures)
  }

  /** Every candidate within distance d has been investigated. */
  ghost predicate AllDone(candidates: map<Hash, Candidate>, investigated: seq<Hash>, d: nat) {
    forall h :: h in candidates && candidates[h].hop <= d ==> h in investigated
  }

  // ----- the record accounting

  ghost function RecordCount(candidates: map<Hash, Candidate>): nat
    decreases |candidates|
  {
    if candidates == map[] then 0
    else var h :| h in candidates; |candidates[h].records| + RecordCount(candidates - {h})
  }

  lemma {:induction false} RecordCountPick(candidates: map<Hash, Candidate>, h: Hash)
    requires h in candidates
    ensures RecordCount(candidates) == |candidates[h].records| + RecordCount(candidates - {h})
    decreases |candidates|
  {
    var g :| g in candidates && RecordCount(candidates) == |candidates[g].records| + RecordCount(candidates - {g});
    if g != h {
      RecordCountPick(candidates - {g}, h);
      RecordCountPick(candidates - {h}, g);
      assert candidates - {g} - {h} == candidates - {h} - {g};
    }
  }

  lemma RecordCountUpdate(candidates: map<Hash, Candidate>, h: Hash, c: Candidate)
    ensures RecordCount(candidates[h := c]) ==
            RecordCount(candidates) - (if h in candidates then |candidates[h].records| else 0) + |c.records|
  {
    RecordCountPick(candidates[h := c], h);
    assert candidates[h := c] - {h} == candidates - {h};
    if h in candidates {
      RecordCountPick(candidates, h);
    } else {
      assert candidates - {h} == candidates;
    }
  }

  /** Of the records considered, `pending` are still to be recorded; the rest are evidence, name
      the seed or were suppressed. */
  ghost predicate Accounted(s: State, pending: int) {
    s.considered == RecordCount(s.candidates) + s.seedRecords + s.suppressed + pending
  }

  // ----- recording evidence

  lemma AttachOk(setup: Setup, c: Candidate, h: Hash, hop: nat, address: Address, isHub: bool, record: HistoryRecord,
                 queried: set<Address>, hops: Hops)
    requires record.hash == h && address in queried && address in hops && hops[address] == hop
    requires CandidateOk(h, c, hop + 1, queried, hops) || c == NewCandidate(record, hop)
    ensures CandidateOk(h, Attach(c, setup, hop, address, isHub, record), hop + 1, queried, hops)
    ensures Attach(c, setup, hop, address, isHub, record).hop == c.hop
  {
    var d := Attach(c, setup, hop, address, isHub, record);
    assert address in d.hubSources + d.nonHubSources;
    forall i | 0 <= i < |d.records| ensures RecordOk(h, d.hop, d.records[i], queried, hops) {
      assert i < |c.records| ==> RecordOk(h, c.hop, c.records[i], queried, hops);
    }
    if c == NewCandidate(record, hop) {
      assert Tight(d.hop, d.records[0].0, hops);
    } else {
      var i :| 0 <= i < |c.records| && Tight(c.hop, c.records[i].0, hops);
      assert d.records[i] == c.records[i];
    }
  }

  /** The addresses a candidate's expansion may enter. */
  function Reached(c: Candidate, transfers: seq<Transfer>): set<Address> {
    Grow(Named(c.records), transfers)
  }

  lemma AttachLinks(setup: Setup, c: Candidate, hop: nat, address: Address, isHub: bool, record: HistoryRecord,
                    transfers: seq<Transfer>)
    ensures Reached(c, transfers) <= Reached(Attach(c, setup, hop, address, isHub, record), transfers)
    ensures c.nonHubSources <= Attach(c, setup, hop, address, isHub, record).nonHubSources
  {
    var d := Attach(c, setup, hop, address, isHub, record);
    assert d.records[..|d.records| - 1] == c.records;
    GrowMonotone(Named(c.records), Named(d.records), transfers);
  }

  // Each part of the invariant survives an update of one candidate.

  lemma CandidatePick(candidates: map<Hash, Candidate>, h: Hash, bound: nat, queried: set<Address>, hops: Hops)
    requires CandidatesOk(candidates, bound, queried, hops) && h in candidates
    ensures CandidateOk(h, candidates[h], bound, queried, hops)
  {
  }

  lemma CandidatesUpdate(candidates: map<Hash, Candidate>, h: Hash, d: Candidate, bound: nat, queried: set<Address>,
                         hops: Hops)
    requires CandidatesOk(candidates, bound, queried, hops) && CandidateOk(h, d, bound, queried, hops)
    ensures CandidatesOk(candidates[h := d], bound, queried, hops)
  {
    var updated := candidates[h := d];
    forall g | g in updated ensures CandidateOk(g, updated[g], bound, queried, hops) {
      assert g != h ==> CandidateOk(g, candidates[g], bound, queried, hops);
    }
  }

  lemma CasesUpdate(seed: Case, cases: map<Hash, Case>, contexts: map<Hash, Context>, candidates: map<Hash, Candidate>,
                    investigated: seq<Hash>, h: Hash, d: Candidate)
    requires CasesOk(seed, cases, contexts, candidates, investigated)
    requires h != seed.hash && (h in candidates ==> d.hop == candidates[h].hop)
    ensures CasesOk(seed, cases, contexts, candidates[h := d], investigated)
  {
    forall t | t in cases && t != seed.hash
      ensures t in candidates[h := d] && contexts[t].hop == candidates[h := d][t].hop && cases[t].hash == t
              && t in investigated
    {
    }
  }

  lemma LinksUpdate(maxHops: nat, links: set<(Hash, Address)>, cases: map<Hash, Case>, contexts: map<Hash, Context>,
                    candidates: map<Hash, Candidate>, hops: Hops, h: Hash, d: Candidate)
    requires LinksOk(maxHops, links, cases, contexts, candidates, hops)
    requires h in candidates && h in cases ==>
               candidates[h].nonHubSources <= d.nonHubSources
               && Reached(candidates[h], cases[h].transfers) <= Reached(d, cases[h].transfers)
    ensures LinksOk(maxHops, links, cases, contexts, candidates[h := d], hops)
  {
    forall t, a | (t, a) in links ensures LinkOk(maxHops, t, a, cases, contexts, candidates[h := d], hops) {
      assert LinkOk(maxHops, t, a, cases, contexts, candidates, hops);
    }
  }

  lemma InvestigatedUpdate(candidates: map<Hash, Candidate>, investigated: seq<Hash>, bound: nat, h: Hash, d: Candidate)
    requires InvestigatedOk(candidates, investigated, bound)
    requires h in candidates ==> d.hop == candidates[h].hop
    ensures InvestigatedOk(candidates[h := d], investigated, bound)
  {
    forall g | g in investigated ensures g in candidates[h := d] && candidates[h := d][g].hop <= bound {
      assert g in candidates && candidates[g].hop <= bound;
    }
  }

  lemma AllDoneUpdate(candidates: map<Hash, Candidate>, investigated: seq<Hash>, d: nat, h: Hash, c: Candidate)
    requires AllDone(candidates, investigated, d)
    requires if h in candidates then c.hop == candidates[h].hop else c.hop > d
    ensures AllDone(candidates[h := c], investigated, d)
  {
  }

  lemma RecordOneKeeps(setup: Setup, s: State, hop: nat, address: Address, isHub: bool, record: HistoryRecord)
    requires Inv(setup, s, hop, hop + 1, hop) && AllDone(s.candidates, s.investigated, hop)
    requires address in s.queried && address in s.addressHops && s.addressHops[address] == hop
    ensures Inv(setup, RecordOne(setup, s, hop, address, isHub, record), hop, hop + 1, hop)
    ensures AllDone(RecordOne(setup, s, hop, address, isHub, record).candidates, s.investigated, hop)
  {
    hide CandidatesOk, CasesOk, LinksOk, AddressesOk, InvestigatedOk, AllDone, CandidateOk, Attach, Reached, Budgets;
    var h := record.hash;
    if h != setup.seed.hash {
      var c := if h in s.candidates then s.candidates[h] else NewCandidate(record, hop);
      var d := Attach(c, setup, hop, address, isHub, record);
      if h in s.candidates {
        CandidatePick(s.candidates, h, hop + 1, s.queried, s.addressHops);
      }
      AttachOk(setup, c, h, hop, address, isHub, record, s.queried, s.addressHops);
      if h in s.candidates && h in s.cases {
        AttachLinks(setup, c, hop, address, isHub, record, s.cases[h].transfers);
      }
      CandidatesUpdate(s.candidates, h, d, hop + 1, s.queried, s.addressHops);
      CasesUpdate(setup.seed, s.cases, s.contexts, s.candidates, s.investigated, h, d);
      LinksUpdate(setup.limits.maxHops, s.links, s.cases, s.contexts, s.candidates, s.addressHops, h, d);
      InvestigatedUpdate(s.candidates, s.investigated, hop, h, d);
      AllDoneUpdate(s.candidates, s.investigated, hop, h, d);
    }
  }

  lemma RecordOneCounts(setup: Setup, s: State, hop: nat, address: Address, isHub: bool, record: HistoryRecord,
                        pending: int)
    requires Accounted(s, pending)
    ensures Accounted(RecordOne(setup, s, hop, address, isHub, record), pending - 1)
  {
    if record.hash != setup.seed.hash {
      var c := if record.hash in s.candidates then s.candidates[record.hash] else NewCandidate(record, hop);
      RecordCountUpdate(s.candidates, record.hash, Attach(c, setup, hop, address, isHub, record));
    }
  }

  lemma {:induction false} RecordAllKeeps(setup: Setup, s: State, hop: nat, address: Address, isHub: bool,
                                          records: seq<HistoryRecord>)
    requires Inv(setup, s, hop, hop + 1, hop) && AllDone(s.candidates, s.investigated, hop) && Accounted(s, |records|)
    requires address in s.queried && address in s.addressHops && s.addressHops[address] == hop
    ensures var s' := RecordAll(setup, s, hop, address, isHub, records);
            && Inv(setup, s', hop, hop + 1, hop) && AllDone(s'.candidates, s'.investigated, hop) && Accounted(s', 0)
            && s' == s.(candidates := s'.candidates, seedRecords := s'.seedRecords)
    decreases records
  {
    hide Inv, AllDone, Accounted;
    if records != [] {
      RecordOneKeeps(setup, s, hop, address, isHub, records[0]);
      RecordOneCounts(setup, s, hop, address, isHub, records[0], |records|);
      RecordAllKeeps(setup, RecordOne(setup, s, hop, address, isHub, records[0]), hop, address, isHub, records[1..]);
    }
  }
}
