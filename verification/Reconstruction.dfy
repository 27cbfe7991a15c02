/** The bounded cross-transaction expansion: its state, its steps and the loops that run them. */
module Reconstruction {
  import opened Basics
  import opened CallTrace
  import opened Sorting
  import opened Keys
  import opened History
  import opened Linking
  import opened Candidates

  // ----- data

  datatype Limits = Limits(
    maxHops: nat, maxTransactions: nat, maxFrontierAddresses: nat,
    hubMinRecords: nat, hubMinCounterparties: nat, maxHubCandidateTransactions: nat)

  /** The bounds `ReconstructionLimits` enforces. */
  predicate ValidLimits(l: Limits) {
    && l.maxHops <= 8 && 1 <= l.maxTransactions <= 2000 && 1 <= l.maxFrontierAddresses <= 2000
    && 2 <= l.hubMinRecords <= 5000 && 2 <= l.hubMinCounterparties <= 5000
    && 1 <= l.maxHubCandidateTransactions <= 500
  }

  datatype Case = Case(hash: Hash, block: nat, sender: Option<Address>, recipient: Option<Address>,
                       transfers: seq<Transfer>)

  datatype Reason =
    | SentBy(recordType: string, address: Address)
    | ReceivedBy(recordType: string, address: Address)
    | LinkedTo(recordType: string, address: Address)
    | HubBounded(address: Address)
    | OperatorSeed

  datatype Candidate = Candidate(
    hash: Hash, block: nat, hop: nat, score: nat, reasons: set<Reason>,
    records: seq<(Address, HistoryRecord)>, hubSources: set<Address>, nonHubSources: set<Address>)

  datatype Phase = Seed | PreSeed | PostSeed | SameBlock

  datatype Context = Context(block: nat, phase: Phase, hop: nat, score: nat, reasons: set<Reason>)

  /** One run: the seed, the limits and the answers of the two services it calls. Each address is
      asked about once and each transaction at most once, so an answer is a function of the
      question; `None` is a failure. */
  datatype Setup = Setup(
    limits: Limits, seed: Case,
    history: Address -> Option<seq<HistoryRecord>>,
    investigate: Hash -> Option<Case>)

  /** An investigation answers for the transaction it was asked about. */
  ghost predicate Faithful(setup: Setup) {
    ValidLimits(setup.limits) &&
    forall h :: setup.investigate(h).Some? ==> setup.investigate(h).value.hash == h
  }

  /** The collections the expansion updates. The last three are history variables: the order of
      investigations, the expansion links followed and the records naming the seed itself. */
  datatype State = State(
    cases: map<Hash, Case>,
    contexts: map<Hash, Context>,
    addressHops: map<Address, nat>,
    queried: set<Address>,
    candidates: map<Hash, Candidate>,
    considered: nat,
    failures: nat,
    addressLimit: bool,
    hubs: set<Address>,
    suppressed: int,
    investigated: seq<Hash>,
    links: set<(Hash, Address)>,
    seedRecords: nat)

  // ----- the seed

  function Endpoint(a: Option<Address>): set<Address> {
    if a.Some? && a.value != ZERO_ADDRESS then {a.value} else {}
  }

  function TransferEndpoints(transfers: seq<Transfer>): set<Address> {
    if transfers == [] then {}
    else
      var t := transfers[|transfers| - 1];
      TransferEndpoints(transfers[..|transfers| - 1])
      + (if t.effect == Committed then Endpoint(Some(t.sender)) + Endpoint(Some(t.recipient)) else {})
  }

  function SeedFrontier(seed: Case): set<Address> {
    Endpoint(seed.sender) + Endpoint(seed.recipient) + TransferEndpoints(seed.transfers)
  }

  function ZeroHops(addresses: set<Address>): map<Address, nat> {
    map a | a in addresses :: 0
  }

  /** Enter one party of the seed, unless it is missing or the zero address. */
  method SelectParty(before: map<Address, nat>, party: Option<Address>, ghost known: set<Address>)
    returns (selected: map<Address, nat>)
    requires before == ZeroHops(known)
    ensures selected == ZeroHops(known + Endpoint(party))
  {
    selected := before;
    if party.Some? && party.value != ZERO_ADDRESS {
      selected := selected[party.value := 0];
    }
  }

  lemma NoParties()
    ensures ZeroHops({}) == map[] && TransferEndpoints([]) == {}
  {
  }

  lemma EndpointsNext(transfers: seq<Transfer>, i: nat)
    requires i < |transfers|
    ensures TransferEndpoints(transfers[..i + 1]) ==
            TransferEndpoints(transfers[..i])
            + (if transfers[i].effect == Committed
               then Endpoint(Some(transfers[i].sender)) + Endpoint(Some(transfers[i].recipient))
               else {})
  {
    assert transfers[..i + 1][..i] == transfers[..i];
  }

  method CollectSeedFrontier(seed: Case) returns (selected: map<Address, nat>)
    ensures selected == ZeroHops(SeedFrontier(seed))
  {
    hide ZeroHops, Endpoint, TransferEndpoints;
    NoParties();
    selected := map[];
    selected := SelectParty(selected, seed.sender, {});
    selected := SelectParty(selected, seed.recipient, {} + Endpoint(seed.sender));
    ghost var known := {} + Endpoint(seed.sender) + Endpoint(seed.recipient);
    for i := 0 to |seed.transfers|
      invariant selected == ZeroHops(known)
      invariant known == Endpoint(seed.sender) + Endpoint(seed.recipient) + TransferEndpoints(seed.transfers[..i])
    {
      var transfer := seed.transfers[i];
      EndpointsNext(seed.transfers, i);
      if transfer.effect != Committed {
        continue;
      }
      selected := SelectParty(selected, Some(transfer.sender), known);
      known := known + Endpoint(Some(transfer.sender));
      selected := SelectParty(selected, Some(transfer.recipient), known);
      known := known + Endpoint(Some(transfer.recipient));
    }
    assert seed.transfers[..|seed.transfers|] == seed.transfers;
  }

  function Start(setup: Setup): State {
    var cases: map<Hash, Case> := map[setup.seed.hash := setup.seed];
    var contexts: map<Hash, Context> :=
      map[setup.seed.hash := Context(setup.seed.block, Seed, 0, 10000, {OperatorSeed})];
    State(cases, contexts, ZeroHops(SeedFrontier(setup.seed)), {}, map[], 0, 0, false, {}, 0, [], {}, 0)
  }

  // ----- recording evidence

  function ReasonOf(address: Address, record: HistoryRecord): Reason {
    if record.sender == Some(address) then SentBy(record.recordType, address)
    else if record.recipient == Some(address) then ReceivedBy(record.recordType, address)
    else LinkedTo(record.recordType, address)
  }

  function NewCandidate(record: HistoryRecord, hop: nat): Candidate {
    Candidate(record.hash, record.block, hop + 1, 0, {}, [], {}, {})
  }

  /** The updates one record makes to its candidate. */
  function Attach(c: Candidate, setup: Setup, hop: nat, address: Address, isHub: bool, record: HistoryRecord): Candidate
  {
    c.(reasons := c.reasons + {ReasonOf(address, record)} + (if isHub then {HubBounded(address)} else {}),
       hubSources := c.hubSources + (if isHub then {address} else {}),
       nonHubSources := c.nonHubSources + (if isHub then {} else {address}),
       records := c.records + [(address, record)],
       score := Max(c.score, RecordScore(record, address, setup.seed.block)),
       hop := Min(c.hop, hop + 1))
  }

  function RecordOne(setup: Setup, s: State, hop: nat, address: Address, isHub: bool, record: HistoryRecord): State {
    if record.hash == setup.seed.hash then s.(seedRecords := s.seedRecords + 1)
    else
      var c := if record.hash in s.candidates then s.candidates[record.hash] else NewCandidate(record, hop);
      s.(candidates := s.candidates[record.hash := Attach(c, setup, hop, address, isHub, record)])
  }

  function RecordAll(setup: Setup, s: State, hop: nat, address: Address, isHub: bool,
                     records: seq<HistoryRecord>): State
    decreases records
  {
    if records == [] then s
    else RecordAll(setup, RecordOne(setup, s, hop, address, isHub, records[0]), hop, address, isHub, records[1..])
  }

  method RecordEvidence(setup: Setup, before: State, hop: nat, address: Address, isHub: bool,
                        records: seq<HistoryRecord>)
    returns (s: State)
    ensures s == RecordAll(setup, before, hop, address, isHub, records)
  {
    s := before;
    assert records[0..] == records;
    for i := 0 to |records|
      invariant RecordAll(setup, s, hop, address, isHub, records[i..])
                == RecordAll(setup, before, hop, address, isHub, records)
    {
      var record := records[i];
      ghost var entry := s;
      assert records[i..][0] == record && records[i..][1..] == records[i + 1..];
      if record.hash == setup.seed.hash {
        s := s.(seedRecords := s.seedRecords + 1);
      } else {
        var c := if record.hash in s.candidates then s.candidates[record.hash] else NewCandidate(record, hop);
        c := c.(reasons := c.reasons + {ReasonOf(address, record)});
        if isHub {
          c := c.(reasons := c.reasons + {HubBounded(address)}, hubSources := c.hubSources + {address});
        } else {
          c := c.(nonHubSources := c.nonHubSources + {address});
        }
        c := c.(records := c.records + [(address, record)],
                score := Max(c.score, RecordScore(record, address, setup.seed.block)),
                hop := Min(c.hop, hop + 1));
        AttachParts(c, if record.hash in s.candidates then s.candidates[record.hash] else NewCandidate(record, hop),
                    setup, hop, address, isHub, record);
        s := s.(candidates := s.candidates[record.hash := c]);
      }
      assert s == RecordOne(setup, entry, hop, address, isHub, record);
    }
    assert records[|records|..] == [];
  }

  lemma AttachParts(c: Candidate, old': Candidate, setup: Setup, hop: nat, address: Address, isHub: bool,
                    record: HistoryRecord)
    requires c == old'.(
      reasons := if isHub then old'.reasons + {ReasonOf(address, record)} + {HubBounded(address)}
                 else old'.reasons + {ReasonOf(address, record)},
      hubSources := if isHub then old'.hubSources + {address} else old'.hubSources,
      nonHubSources := if isHub then old'.nonHubSources else old'.nonHubSources + {address},
      records := old'.records + [(address, record)],
      score := Max(old'.score, RecordScore(record, address, setup.seed.block)),
      hop := Min(old'.hop, hop + 1))
    ensures c == Attach(old', setup, hop, address, isHub, record)
  {
    var a := Attach(old', setup, hop, address, isHub, record);
    assert c.reasons == a.reasons && c.hubSources == a.hubSources && c.nonHubSources == a.nonHubSources;
  }

  // ----- querying the frontier

  predicate IsHub(setup: Setup, address: Address, records: seq<HistoryRecord>) {
    |records| >= setup.limits.hubMinRecords && |Counterparties(address, records)| >= setup.limits.hubMinCounterparties
  }

  /** The records of one answer that become evidence. */
  function Used(setup: Setup, address: Address, records: seq<HistoryRecord>): seq<HistoryRecord> {
    if IsHub(setup, address, records)
    then KeepHashes(records, HubHashes(records, address, setup.seed.block, setup.limits.maxHubCandidateTransactions))
    else records
  }

  function Suppressed(setup: Setup, address: Address, records: seq<HistoryRecord>): int {
    |records| - |Used(setup, address, records)|
  }

  function Tallied(s: State, address: Address, count: nat, isHub: bool, suppressed: int): State {
    s.(queried := s.queried + {address},
       considered := s.considered + count,
       hubs := if isHub then s.hubs + {address} else s.hubs,
       suppressed := s.suppressed + suppressed)
  }

  function Query(setup: Setup, s: State, hop: nat, address: Address): State {
    var answer := setup.history(address);
    if answer.None? then s.(queried := s.queried + {address})
    else
      var records := answer.value;
      var isHub := IsHub(setup, address, records);
      RecordAll(setup, Tallied(s, address, |records|, isHub, Suppressed(setup, address, records)),
                hop, address, isHub, Used(setup, address, records))
  }

  /** The part of an answer that becomes evidence: at a hub, the records of its best
      transactions. */
  method SelectRecords(setup: Setup, address: Address, records: seq<HistoryRecord>)
    returns (isHub: bool, selected: seq<HistoryRecord>, suppressed: nat)
    ensures isHub == IsHub(setup, address, records)
    ensures selected == Used(setup, address, records) && suppressed == Suppressed(setup, address, records)
  {
    var counterparties := RecordCounterparties(address, records);
    isHub := |records| >= setup.limits.hubMinRecords && |counterparties| >= setup.limits.hubMinCounterparties;
    selected, suppressed := records, 0;
    if isHub {
      selected, suppressed :=
        BoundedHubRecords(records, address, setup.seed.block, setup.limits.maxHubCandidateTransactions);
    }
  }

  method TallyAnswer(before: State, address: Address, count: nat, isHub: bool, suppressed: nat) returns (s: State)
    ensures s == Tallied(before, address, count, isHub, suppressed)
  {
    s := before.(queried := before.queried + {address});
    s := s.(considered := s.considered + count);
    if isHub {
      s := s.(hubs := s.hubs + {address});
    }
    s := s.(suppressed := s.suppressed + suppressed);
  }

  method QueryAddress(setup: Setup, before: State, hop: nat, address: Address) returns (s: State)
    ensures s == Query(setup, before, hop, address)
  {
    var answer := setup.history(address);
    if answer.None? {
      s := before.(queried := before.queried + {address});
      return;
    }
    var isHub, selected, suppressed := SelectRecords(setup, address, answer.value);
    s := TallyAnswer(before, address, |answer.value|, isHub, suppressed);
    s := RecordEvidence(setup, s, hop, address, isHub, selected);
  }

  function QueryAll(setup: Setup, s: State, hop: nat, frontier: seq<Address>): State
    decreases frontier
  {
    if frontier == [] then s
    else if |s.queried| >= setup.limits.maxFrontierAddresses then s.(addressLimit := true)
    else if frontier[0] in s.queried then QueryAll(setup, s, hop, frontier[1..])
    else QueryAll(setup, Query(setup, s, hop, frontier[0]), hop, frontier[1..])
  }

  method QueryFrontier(setup: Setup, before: State, hop: nat, frontier: seq<Address>) returns (s: State)
    ensures s == QueryAll(setup, before, hop, frontier)
  {
    s := before;
    assert frontier[0..] == frontier;
    for i := 0 to |frontier|
      invariant QueryAll(setup, s, hop, frontier[i..]) == QueryAll(setup, before, hop, frontier)
    {
      assert frontier[i..][0] == frontier[i] && frontier[i..][1..] == frontier[i + 1..];
      if |s.queried| >= setup.limits.maxFrontierAddresses {
        s := s.(addressLimit := true);
        return;
      }
      if frontier[i] in s.queried {
        continue;
      }
      s := QueryAddress(setup, s, hop, frontier[i]);
    }
    assert frontier[|frontier|..] == [];
  }

  // ----- investigating candidates

  function CandidateRank(c: Candidate): nat {
    Max(0, c.score + Min(8, |c.reasons|) * 7 - (if c.hubSources != {} && c.nonHubSources == {} then 55 else 0))
  }

  function PhaseOf(block: nat, hash: Hash, seed: Case): Phase {
    if hash == seed.hash then Seed
    else if block < seed.block then PreSeed
    else if block > seed.block then PostSeed
    else SameBlock
  }

  function RankKey(candidates: map<Hash, Candidate>, seedBlock: nat): Hash -> Key {
    (h: Hash) =>
      if h in candidates then
        [-(CandidateRank(candidates[h]) as int), Abs(candidates[h].block - seedBlock), candidates[h].block, h]
      else []
  }

  function Available(s: State, hop: nat): set<Hash> {
    set h | h in s.candidates && h !in s.cases && s.candidates[h].hop == hop
  }

  function AvailableInOrder(setup: Setup, s: State, hop: nat): seq<Hash> {
    Sort<Hash>(Ascending(Available(s, hop)), ByKey<Hash>(RankKey(s.candidates, setup.seed.block)))
  }

  function HubOnly(c: Candidate): bool {
    c.hubSources != {} && c.nonHubSources == {}
  }

  /** Enter linked addresses into the next frontier until its limit. */
  function AddLinks(setup: Setup, s: State, hash: Hash, hop: nat, linked: seq<Address>): State
    decreases linked
  {
    if linked == [] then s
    else if linked[0] == ZERO_ADDRESS then AddLinks(setup, s, hash, hop, linked[1..])
    else if linked[0] in s.addressHops then
      AddLinks(setup, s.(links := s.links + {(hash, linked[0])}), hash, hop, linked[1..])
    else if |s.addressHops| >= setup.limits.maxFrontierAddresses then s.(addressLimit := true)
    else
      AddLinks(setup, s.(addressHops := s.addressHops[linked[0] := hop], links := s.links + {(hash, linked[0])}),
               hash, hop, linked[1..])
  }

  method ExtendFrontier(setup: Setup, before: State, hash: Hash, hop: nat, linked: seq<Address>) returns (s: State)
    ensures s == AddLinks(setup, before, hash, hop, linked)
  {
    s := before;
    assert linked[0..] == linked;
    for i := 0 to |linked|
      invariant AddLinks(setup, s, hash, hop, linked[i..]) == AddLinks(setup, before, hash, hop, linked)
    {
      var address := linked[i];
      assert linked[i..][0] == address && linked[i..][1..] == linked[i + 1..];
      if address == ZERO_ADDRESS {
        continue;
      }
      if address in s.addressHops {
        s := s.(links := s.links + {(hash, address)});
        continue;
      }
      if |s.addressHops| >= setup.limits.maxFrontierAddresses {
        s := s.(addressLimit := true);
        return;
      }
      s := s.(addressHops := s.addressHops[address := hop], links := s.links + {(hash, address)});
    }
    assert linked[|linked|..] == [];
  }

  function ContextOf(setup: Setup, related: Case, c: Candidate): Context {
    Context(related.block, PhaseOf(related.block, related.hash, setup.seed), c.hop, CandidateRank(c), c.reasons)
  }

  function Opened(setup: Setup, s: State, c: Candidate, related: Case): State {
    s.(cases := s.cases[related.hash := related],
       contexts := s.contexts[related.hash := ContextOf(setup, related, c)],
       investigated := s.investigated + [c.hash])
  }

  predicate Expands(setup: Setup, c: Candidate) {
    c.hop < setup.limits.maxHops && !HubOnly(c)
  }

  function Investigate(setup: Setup, s: State, h: Hash): State
    requires h in s.candidates
  {
    var c := s.candidates[h];
    var answer := setup.investigate(c.hash);
    if answer.None? then s.(failures := s.failures + 1, investigated := s.investigated + [c.hash])
    else
      var entered := Opened(setup, s, c, answer.value);
      if Expands(setup, c) then
        AddLinks(setup, entered, c.hash, c.hop, Ascending(Grow(Named(c.records), answer.value.transfers)))
      else entered
  }

  lemma {:induction false} AddLinksFrame(setup: Setup, s: State, hash: Hash, hop: nat, linked: seq<Address>)
    ensures AddLinks(setup, s, hash, hop, linked)
         == s.(addressHops := AddLinks(setup, s, hash, hop, linked).addressHops,
               links := AddLinks(setup, s, hash, hop, linked).links,
               addressLimit := AddLinks(setup, s, hash, hop, linked).addressLimit)
    decreases linked
  {
    if linked != [] && linked[0] != ZERO_ADDRESS {
      if linked[0] in s.addressHops {
        AddLinksFrame(setup, s.(links := s.links + {(hash, linked[0])}), hash, hop, linked[1..]);
      } else if |s.addressHops| < setup.limits.maxFrontierAddresses {
        AddLinksFrame(setup, s.(addressHops := s.addressHops[linked[0] := hop], links := s.links + {(hash, linked[0])}),
                      hash, hop, linked[1..]);
      }
    } else if linked != [] {
      AddLinksFrame(setup, s, hash, hop, linked[1..]);
    }
  }

  lemma InvestigateFrame(setup: Setup, s: State, h: Hash)
    requires h in s.candidates
    ensures Investigate(setup, s, h).candidates == s.candidates
  {
    var c := s.candidates[h];
    var answer := setup.investigate(c.hash);
    if answer.Some? {
      AddLinksFrame(setup, Opened(setup, s, c, answer.value), c.hash, c.hop,
                    Ascending(Grow(Named(c.records), answer.value.transfers)));
    }
  }

  function InvestigateAll(setup: Setup, s: State, order: seq<Hash>): State
    requires forall h :: h in order ==> h in s.candidates
    decreases order
  {
    if order == [] || |s.cases| >= setup.limits.maxTransactions then s
    else
      InvestigateFrame(setup, s, order[0]);
      InvestigateAll(setup, Investigate(setup, s, order[0]), order[1..])
  }

  method InvestigateCandidate(setup: Setup, before: State, h: Hash) returns (s: State)
    requires h in before.candidates
    ensures s == Investigate(setup, before, h)
  {
    var candidate := before.candidates[h];
    var answer := setup.investigate(candidate.hash);
    s := before.(investigated := before.investigated + [candidate.hash]);
    if answer.None? {
      s := s.(failures := s.failures + 1);
      return;
    }
    var related := answer.value;
    s := s.(cases := s.cases[related.hash := related],
            contexts := s.contexts[related.hash := ContextOf(setup, related, candidate)]);
    if candidate.hop >= setup.limits.maxHops {
      return;
    }
    if candidate.hubSources != {} && candidate.nonHubSources == {} {
      return;
    }
    var linked := LinkedAddresses(candidate.records, related.transfers);
    s := ExtendFrontier(setup, s, candidate.hash, candidate.hop, Ascending(linked));
  }

  method InvestigateAvailable(setup: Setup, before: State, order: seq<Hash>) returns (s: State)
    requires forall h :: h in order ==> h in before.candidates
    ensures s == InvestigateAll(setup, before, order)
  {
    s := before;
    assert order[0..] == order;
    for i := 0 to |order|
      invariant s.candidates == before.candidates
      invariant InvestigateAll(setup, s, order[i..]) == InvestigateAll(setup, before, order)
    {
      assert order[i..][0] == order[i] && order[i..][1..] == order[i + 1..];
      if |s.cases| >= setup.limits.maxTransactions {
        return;
      }
      InvestigateFrame(setup, s, order[i]);
      s := InvestigateCandidate(setup, s, order[i]);
    }
    assert order[|order|..] == [];
  }

  // ----- the hops

  function Frontier(s: State, hop: nat): seq<Address> {
    Ascending(set a | a in s.addressHops && s.addressHops[a] == hop)
  }

  lemma OrderKnown(setup: Setup, s: State, hop: nat)
    ensures forall h :: h in AvailableInOrder(setup, s, hop) <==> h in Available(s, hop)
  {
    SortMembers<Hash>(Ascending(Available(s, hop)), ByKey<Hash>(RankKey(s.candidates, setup.seed.block)));
  }

  function HopsFrom(setup: Setup, s: State, hop: nat): State
    decreases setup.limits.maxHops - hop
  {
    if hop >= setup.limits.maxHops || Frontier(s, hop) == [] then s
    else
      var asked := QueryAll(setup, s, hop, Frontier(s, hop));
      if asked.addressLimit then asked
      else
        OrderKnown(setup, asked, hop + 1);
        var done := InvestigateAll(setup, asked, AvailableInOrder(setup, asked, hop + 1));
        if |done.cases| >= setup.limits.maxTransactions then done else HopsFrom(setup, done, hop + 1)
  }

  function Run(setup: Setup): State {
    HopsFrom(setup, Start(setup), 0)
  }

  function NotReconstructed(s: State): set<Hash> {
    set h | h in s.candidates && h !in s.cases
  }

  datatype Coverage = Coverage(
    addressesQueried: nat, recordsConsidered: nat, transactionCandidates: nat, transactionsReconstructed: nat,
    transactionFailures: nat, transactionLimitReached: bool, addressLimitReached: bool,
    frontierAddressesDiscovered: nat, candidatesNotReconstructed: nat, hubRecordsSuppressed: int)

  function CoverageOf(setup: Setup, s: State): Coverage {
    Coverage(|s.queried|, s.considered, |s.candidates|, |s.cases|, s.failures,
             |s.cases| >= setup.limits.maxTransactions && NotReconstructed(s) != {},
             s.addressLimit, |s.addressHops|, |NotReconstructed(s)|, s.suppressed)
  }

  /** One iteration of the hop loop; `stop` is its `break`. */
  method ExpandHop(setup: Setup, before: State, hop: nat) returns (s: State, stop: bool)
    requires hop < setup.limits.maxHops
    ensures HopsFrom(setup, before, hop) == if stop then s else HopsFrom(setup, s, hop + 1)
  {
    s, stop := before, true;
    var frontier := Frontier(s, hop);
    if frontier == [] {
      return;
    }
    s := QueryFrontier(setup, s, hop, frontier);
    if s.addressLimit {
      return;
    }
    OrderKnown(setup, s, hop + 1);
    var available := AvailableInOrder(setup, s, hop + 1);
    s := InvestigateAvailable(setup, s, available);
    stop := |s.cases| >= setup.limits.maxTransactions;
  }

  method ExpandHops(setup: Setup, before: State) returns (s: State)
    ensures s == HopsFrom(setup, before, 0)
  {
    s := before;
    var hop := 0;
    while hop < setup.limits.maxHops
      invariant HopsFrom(setup, s, hop) == HopsFrom(setup, before, 0)
    {
      var stop;
      s, stop := ExpandHop(setup, s, hop);
      if stop {
        return;
      }
      hop := hop + 1;
    }
  }

  method ReconstructAttackCase(setup: Setup) returns (s: State, coverage: Coverage)
    ensures s == Run(setup) && coverage == CoverageOf(setup, s)
  {
    var seed := setup.seed;
    var addressHops := CollectSeedFrontier(seed);
    var cases: map<Hash, Case> := map[seed.hash := seed];
    var contexts: map<Hash, Context> := map[seed.hash := Context(seed.block, Seed, 0, 10000, {OperatorSeed})];
    s := State(cases, contexts, addressHops, {}, map[], 0, 0, false, {}, 0, [], {}, 0);
    s := ExpandHops(setup, s);
    coverage := CoverageOf(setup, s);
  }
}
