/** What a run's candidates, contexts and coverage rest on: the histories it asked for and the
    investigations it made. */
module ReconstructionEvidence {
  import opened Basics
  import opened Sorting
  import opened Keys
  import opened History
  import opened Linking
  import opened Candidates
  import opened Reconstruction
  import opened ReconstructionInvariant
  import opened ReconstructionRun
  import opened ReconstructionSteps
  import opened ReconstructionTrials

  // ----- candidates are explained by records of the histories

  /** The address answered with many records of many counterparties. */
  predicate HubAddress(setup: Setup, a: Address) {
    && setup.history(a).Some? && |setup.history(a).value| >= setup.limits.hubMinRecords
    && |Counterparties(a, setup.history(a).value)| >= setup.limits.hubMinCounterparties
  }

  /** The record is of the address's history and names the transaction. */
  predicate Genuine(setup: Setup, h: Hash, entry: (Address, HistoryRecord)) {
    setup.history(entry.0).Some? && entry.1 in setup.history(entry.0).value && entry.1.hash == h
  }

  /** The reason the record gives: its address sent, or else received, or else is only named. */
  predicate Gives(entry: (Address, HistoryRecord), reason: Reason) {
    var (a, r) := entry;
    match reason
    case SentBy(t, b) => b == a && t == r.recordType && r.sender == Some(a)
    case ReceivedBy(t, b) => b == a && t == r.recordType && r.sender != Some(a) && r.recipient == Some(a)
    case LinkedTo(t, b) => b == a && t == r.recordType && r.sender != Some(a) && r.recipient != Some(a)
    case HubBounded(_) => false
    case OperatorSeed => false
  }

  ghost predicate ReasonsExplained(c: Candidate) {
    forall reason :: reason in c.reasons <==>
      || (exists i :: 0 <= i < |c.records| && Gives(c.records[i], reason))
      || (reason.HubBounded? && reason.address in c.hubSources)
  }

  ghost predicate SourcesExplained(setup: Setup, c: Candidate) {
    forall a ::
      && (a in c.hubSources <==> HubAddress(setup, a) && exists i :: 0 <= i < |c.records| && c.records[i].0 == a)
      && (a in c.nonHubSources <==> !HubAddress(setup, a) && exists i :: 0 <= i < |c.records| && c.records[i].0 == a)
  }

  ghost predicate ScoreExplained(setup: Setup, c: Candidate) {
    && (forall i :: 0 <= i < |c.records| ==> RecordScore(c.records[i].1, c.records[i].0, setup.seed.block) <= c.score)
    && exists i :: 0 <= i < |c.records| && RecordScore(c.records[i].1, c.records[i].0, setup.seed.block) == c.score
  }

  /** Everything a candidate says comes from its records: the block of the first, the best score of
      any, the reasons and the sources of all; and each record is of the history it is filed under. */
  ghost predicate Explained(setup: Setup, h: Hash, c: Candidate) {
    && c.hash == h && c.records != [] && c.block == c.records[0].1.block
    && (forall i :: 0 <= i < |c.records| ==> Genuine(setup, h, c.records[i]))
    && ReasonsExplained(c) && SourcesExplained(setup, c) && ScoreExplained(setup, c)
  }

  ghost predicate AllExplained(setup: Setup, candidates: map<Hash, Candidate>) {
    forall h :: h in candidates ==> Explained(setup, h, candidates[h])
  }

  /** What attaching a record leaves of the records. */
  lemma AttachRecords(setup: Setup, c: Candidate, hop: nat, address: Address, isHub: bool, record: HistoryRecord)
    ensures var d, n := Attach(c, setup, hop, address, isHub, record), |c.records|;
            && |d.records| == n + 1 && d.records[n] == (address, record)
            && forall i :: 0 <= i < n ==> d.records[i] == c.records[i]
  {
  }

  lemma AttachReasons(setup: Setup, c: Candidate, hop: nat, address: Address, isHub: bool, record: HistoryRecord)
    requires ReasonsExplained(c)
    ensures ReasonsExplained(Attach(c, setup, hop, address, isHub, record))
  {
    var d, n := Attach(c, setup, hop, address, isHub, record), |c.records|;
    AttachRecords(setup, c, hop, address, isHub, record);
    forall reason
      ensures reason in d.reasons <==>
                || (exists i :: 0 <= i < |d.records| && Gives(d.records[i], reason))
                || (reason.HubBounded? && reason.address in d.hubSources)
    {
      assert Gives(d.records[n], reason) <==> reason == ReasonOf(address, record);
      if i :| 0 <= i < n && Gives(c.records[i], reason) {
        assert Gives(d.records[i], reason);
      }
      if i :| 0 <= i < |d.records| && Gives(d.records[i], reason) {
        assert i < n ==> Gives(c.records[i], reason);
      }
    }
  }

  lemma AttachSources(setup: Setup, c: Candidate, hop: nat, address: Address, isHub: bool, record: HistoryRecord)
    requires SourcesExplained(setup, c) && isHub == HubAddress(setup, address)
    ensures SourcesExplained(setup, Attach(c, setup, hop, address, isHub, record))
  {
    hide HubAddress;
    var d, n := Attach(c, setup, hop, address, isHub, record), |c.records|;
    AttachRecords(setup, c, hop, address, isHub, record);
    forall a
      ensures a in d.hubSources <==> HubAddress(setup, a) && exists i :: 0 <= i < |d.records| && d.records[i].0 == a
      ensures a in d.nonHubSources <==> !HubAddress(setup, a) && exists i :: 0 <= i < |d.records| && d.records[i].0 == a
    {
      assert d.records[n].0 == address;
      if i :| 0 <= i < n && c.records[i].0 == a {
        assert d.records[i].0 == a;
      }
      if i :| 0 <= i < |d.records| && d.records[i].0 == a {
        assert i < n ==> c.records[i].0 == a;
      }
    }
  }

  lemma AttachScore(setup: Setup, c: Candidate, hop: nat, address: Address, isHub: bool, record: HistoryRecord)
    requires ScoreExplained(setup, c) || c == NewCandidate(record, hop)
    ensures ScoreExplained(setup, Attach(c, setup, hop, address, isHub, record))
  {
    hide RecordScore;
    var d, n := Attach(c, setup, hop, address, isHub, record), |c.records|;
    AttachRecords(setup, c, hop, address, isHub, record);
    var own := RecordScore(record, address, setup.seed.block);
    if c == NewCandidate(record, hop) || own >= c.score {
      assert RecordScore(d.records[n].1, d.records[n].0, setup.seed.block) == d.score;
    } else {
      var i :| 0 <= i < n && RecordScore(c.records[i].1, c.records[i].0, setup.seed.block) == c.score;
      assert RecordScore(d.records[i].1, d.records[i].0, setup.seed.block) == d.score;
    }
  }

  lemma AttachExplained(setup: Setup, c: Candidate, h: Hash, hop: nat, address: Address, isHub: bool,
                        record: HistoryRecord)
    requires Genuine(setup, h, (address, record)) && isHub == HubAddress(setup, address)
    requires Explained(setup, h, c) || c == NewCandidate(record, hop)
    ensures Explained(setup, h, Attach(c, setup, hop, address, isHub, record))
  {
    hide Genuine, HubAddress, Gives, ReasonsExplained, SourcesExplained, ScoreExplained;
    AttachRecords(setup, c, hop, address, isHub, record);
    GenuineHash(setup, h, (address, record));
    NothingExplained(setup, record, hop);
    if c == NewCandidate(record, hop) {
      assert ReasonsExplained(c) && SourcesExplained(setup, c);
    }
    AttachReasons(setup, c, hop, address, isHub, record);
    AttachSources(setup, c, hop, address, isHub, record);
    AttachScore(setup, c, hop, address, isHub, record);
    var d := Attach(c, setup, hop, address, isHub, record);
    forall i | 0 <= i < |d.records| ensures Genuine(setup, h, d.records[i]) {
      assert i < |c.records| ==> d.records[i] == c.records[i];
    }
  }

  lemma GenuineHash(setup: Setup, h: Hash, entry: (Address, HistoryRecord))
    requires Genuine(setup, h, entry)
    ensures entry.1.hash == h
  {
  }

  lemma NothingExplained(setup: Setup, record: HistoryRecord, hop: nat)
    ensures ReasonsExplained(NewCandidate(record, hop)) && SourcesExplained(setup, NewCandidate(record, hop))
  {
  }

  lemma {:induction false} RecordAllExplained(setup: Setup, s: State, hop: nat, address: Address, isHub: bool,
                                              records: seq<HistoryRecord>)
    requires AllExplained(setup, s.candidates) && isHub == HubAddress(setup, address)
    requires setup.history(address).Some? && forall r :: r in records ==> r in setup.history(address).value
    ensures AllExplained(setup, RecordAll(setup, s, hop, address, isHub, records).candidates)
    decreases records
  {
    hide Explained, Attach, HubAddress;
    if records != [] {
      var record := records[0];
      var next := RecordOne(setup, s, hop, address, isHub, record);
      if record.hash != setup.seed.hash {
        var c := if record.hash in s.candidates then s.candidates[record.hash] else NewCandidate(record, hop);
        AttachExplained(setup, c, record.hash, hop, address, isHub, record);
      }
      RecordAllExplained(setup, next, hop, address, isHub, records[1..]);
    }
  }

  // ----- every answer is used

  predicate Recorded(candidates: map<Hash, Candidate>, entry: (Address, HistoryRecord)) {
    entry.1.hash in candidates && entry in candidates[entry.1.hash].records
  }

  /** Which records of an answer become evidence: all of an ordinary address, at a hub those of its best
      transactions; the seed's own are set aside. */
  predicate Chosen(setup: Setup, a: Address, r: HistoryRecord) {
    && setup.history(a).Some? && r in setup.history(a).value && r.hash != setup.seed.hash
    && (HubAddress(setup, a) ==>
          r.hash in HubHashes(setup.history(a).value, a, setup.seed.block, setup.limits.maxHubCandidateTransactions))
  }

  ghost predicate AllRecorded(setup: Setup, asked: set<Address>, candidates: map<Hash, Candidate>) {
    forall a, r :: a in asked && Chosen(setup, a, r) ==> Recorded(candidates, (a, r))
  }

  lemma {:induction false} RecordAllRecords(setup: Setup, s: State, hop: nat, address: Address, isHub: bool,
                                            records: seq<HistoryRecord>)
    ensures var s' := RecordAll(setup, s, hop, address, isHub, records);
            && (forall entry :: Recorded(s.candidates, entry) ==> Recorded(s'.candidates, entry))
            && (forall r :: r in records && r.hash != setup.seed.hash ==> Recorded(s'.candidates, (address, r)))
    decreases records
  {
    if records != [] {
      var next := RecordOne(setup, s, hop, address, isHub, records[0]);
      RecordOneRecords(setup, s, hop, address, isHub, records[0]);
      hide Recorded, RecordOne;
      RecordAllRecords(setup, next, hop, address, isHub, records[1..]);
    }
  }

  lemma RecordOneRecords(setup: Setup, s: State, hop: nat, address: Address, isHub: bool, record: HistoryRecord)
    ensures var s' := RecordOne(setup, s, hop, address, isHub, record);
            && (forall entry :: Recorded(s.candidates, entry) ==> Recorded(s'.candidates, entry))
            && (record.hash != setup.seed.hash ==> Recorded(s'.candidates, (address, record)))
  {
    if record.hash != setup.seed.hash {
      var c := if record.hash in s.candidates then s.candidates[record.hash] else NewCandidate(record, hop);
      AttachRecords(setup, c, hop, address, isHub, record);
      var s' := RecordOne(setup, s, hop, address, isHub, record);
      forall entry | Recorded(s.candidates, entry) ensures Recorded(s'.candidates, entry) {
        if entry.1.hash == record.hash {
          var i :| 0 <= i < |c.records| && c.records[i] == entry;
          assert s'.candidates[record.hash].records[i] == entry;
        }
      }
    }
  }

  /** The used records of an answer are the selected ones. */
  lemma {:induction false} KeepHashesMembers(records: seq<HistoryRecord>, hashes: set<Hash>, r: HistoryRecord)
    ensures r in KeepHashes(records, hashes) <==> r in records && r.hash in hashes
  {
    if records != [] {
      KeepHashesMembers(records[..|records| - 1], hashes, r);
      assert records == records[..|records| - 1] + [records[|records| - 1]];
    }
  }

  lemma UsedIsSelected(setup: Setup, a: Address, r: HistoryRecord)
    requires setup.history(a).Some?
    ensures r in Used(setup, a, setup.history(a).value) && r.hash != setup.seed.hash <==> Chosen(setup, a, r)
    ensures r in Used(setup, a, setup.history(a).value) ==> r in setup.history(a).value
  {
    hide KeepHashes, HubHashes, Counterparties;
    var records := setup.history(a).value;
    KeepHashesMembers(records, HubHashes(records, a, setup.seed.block, setup.limits.maxHubCandidateTransactions), r);
  }

  // ----- the counts of a run

  function AnswerLength(setup: Setup, a: Address): nat {
    if setup.history(a).Some? then |setup.history(a).value| else 0
  }

  /** The number of records the addresses asked answered with. */
  ghost function Answers(setup: Setup, asked: set<Address>): nat
    decreases |asked|
  {
    if asked == {} then 0 else var a :| a in asked; AnswerLength(setup, a) + Answers(setup, asked - {a})
  }

  lemma {:induction false} AnswersPick(setup: Setup, asked: set<Address>, a: Address)
    requires a in asked
    ensures Answers(setup, asked) == AnswerLength(setup, a) + Answers(setup, asked - {a})
    decreases |asked|
  {
    hide AnswerLength;
    var b :| b in asked && Answers(setup, asked) == AnswerLength(setup, b) + Answers(setup, asked - {b});
    if b != a {
      AnswersPick(setup, asked - {b}, a);
      AnswersPick(setup, asked - {a}, b);
      assert asked - {a} - {b} == asked - {b} - {a};
    }
  }

  ghost predicate Counted(setup: Setup, s: State) {
    && (forall a :: a in s.hubs <==> a in s.queried && HubAddress(setup, a))
    && s.considered == Answers(setup, s.queried)
  }

  /** What the evidence of a state rests on. */
  ghost predicate Grounded(setup: Setup, s: State) {
    AllExplained(setup, s.candidates) && AllRecorded(setup, s.queried, s.candidates) && Counted(setup, s)
  }

  lemma {:induction false} RecordAllCounts(setup: Setup, s: State, hop: nat, address: Address, isHub: bool,
                                           records: seq<HistoryRecord>)
    ensures var s' := RecordAll(setup, s, hop, address, isHub, records);
            s'.queried == s.queried && s'.hubs == s.hubs && s'.considered == s.considered
    decreases records
  {
    if records != [] {
      RecordAllCounts(setup, RecordOne(setup, s, hop, address, isHub, records[0]), hop, address, isHub, records[1..]);
    }
  }

  lemma TalliedCounts(setup: Setup, s: State, a: Address, suppressed: int)
    requires Counted(setup, s) && a !in s.queried && setup.history(a).Some?
    ensures Counted(setup, Tallied(s, a, |setup.history(a).value|, HubAddress(setup, a), suppressed))
  {
    hide HubAddress;
    AnswersPick(setup, s.queried + {a}, a);
    assert s.queried + {a} - {a} == s.queried;
  }

  lemma UnansweredCounts(setup: Setup, s: State, a: Address)
    requires Counted(setup, s) && a !in s.queried && setup.history(a).None?
    ensures Counted(setup, s.(queried := s.queried + {a}))
  {
    AnswersPick(setup, s.queried + {a}, a);
    assert s.queried + {a} - {a} == s.queried;
  }

  lemma QueryGrounded(setup: Setup, s: State, hop: nat, a: Address)
    requires Grounded(setup, s) && a !in s.queried
    ensures Grounded(setup, Query(setup, s, hop, a))
  {
    hide AllExplained, Counted, Recorded, Chosen, HubAddress, Used, Suppressed;
    var answer := setup.history(a);
    if answer.None? {
      UnansweredCounts(setup, s, a);
      NotSelected(setup, a);
    } else {
      var records := answer.value;
      var isHub := IsHub(setup, a, records);
      HubIsHub(setup, a);
      var tallied := Tallied(s, a, |records|, isHub, Suppressed(setup, a, records));
      var used := Used(setup, a, records);
      TalliedCounts(setup, s, a, Suppressed(setup, a, records));
      forall r
        ensures r in used && r.hash != setup.seed.hash <==> Chosen(setup, a, r)
        ensures r in used ==> r in records
      {
        UsedIsSelected(setup, a, r);
      }
      RecordAllExplained(setup, tallied, hop, a, isHub, used);
      RecordAllRecords(setup, tallied, hop, a, isHub, used);
      RecordAllCounts(setup, tallied, hop, a, isHub, used);
      SameCounts(setup, tallied, RecordAll(setup, tallied, hop, a, isHub, used));
    }
  }

  lemma SameCounts(setup: Setup, s: State, s': State)
    requires Counted(setup, s) && s'.queried == s.queried && s'.hubs == s.hubs && s'.considered == s.considered
    ensures Counted(setup, s')
  {
  }

  lemma NotSelected(setup: Setup, a: Address)
    requires setup.history(a).None?
    ensures forall r :: !Chosen(setup, a, r)
  {
  }

  lemma HubIsHub(setup: Setup, a: Address)
    requires setup.history(a).Some?
    ensures IsHub(setup, a, setup.history(a).value) == HubAddress(setup, a)
  {
  }

  lemma {:induction false} QueryAllGrounded(setup: Setup, s: State, hop: nat, frontier: seq<Address>)
    requires Grounded(setup, s)
    ensures Grounded(setup, QueryAll(setup, s, hop, frontier))
    decreases frontier
  {
    if frontier == [] {
    } else if |s.queried| >= setup.limits.maxFrontierAddresses {
      hide AllExplained, AllRecorded;
      SameCounts(setup, s, s.(addressLimit := true));
    } else {
      hide Grounded, Query;
      if frontier[0] in s.queried {
        QueryAllGrounded(setup, s, hop, frontier[1..]);
      } else {
        QueryGrounded(setup, s, hop, frontier[0]);
        QueryAllGrounded(setup, Query(setup, s, hop, frontier[0]), hop, frontier[1..]);
      }
    }
  }

  lemma InvestigateLeaves(setup: Setup, s: State, h: Hash)
    requires h in s.candidates
    ensures var s' := Investigate(setup, s, h);
            && s'.candidates == s.candidates && s'.queried == s.queried && s'.hubs == s.hubs
            && s'.considered == s.considered
  {
    hide AddLinks, Grow, Named, ContextOf, Expands;
    var c := s.candidates[h];
    var answer := setup.investigate(c.hash);
    if answer.Some? {
      AddLinksFrame(setup, Opened(setup, s, c, answer.value), c.hash, c.hop,
                    Ascending(Grow(Named(c.records), answer.value.transfers)));
    }
  }

  lemma {:induction false} InvestigateAllLeaves(setup: Setup, s: State, order: seq<Hash>)
    requires forall h :: h in order ==> h in s.candidates
    ensures var s' := InvestigateAll(setup, s, order);
            && s'.candidates == s.candidates && s'.queried == s.queried && s'.hubs == s.hubs
            && s'.considered == s.considered
    decreases order
  {
    hide Investigate;
    if order != [] && |s.cases| < setup.limits.maxTransactions {
      InvestigateLeaves(setup, s, order[0]);
      InvestigateAllLeaves(setup, Investigate(setup, s, order[0]), order[1..]);
    }
  }

  lemma {:induction false} HopsGrounded(setup: Setup, s: State, k: nat)
    requires Grounded(setup, s)
    ensures Grounded(setup, HopsFrom(setup, s, k))
    decreases setup.limits.maxHops - k
  {
    hide Grounded, Frontier, QueryAll, InvestigateAll, AvailableInOrder, Available;
    if k < setup.limits.maxHops && Frontier(s, k) != [] {
      var asked := QueryAll(setup, s, k, Frontier(s, k));
      QueryAllGrounded(setup, s, k, Frontier(s, k));
      if !asked.addressLimit {
        OrderWithin(setup, asked, k + 1);
        var order := AvailableInOrder(setup, asked, k + 1);
        var done := InvestigateAll(setup, asked, order);
        InvestigateAllLeaves(setup, asked, order);
        SameGround(setup, asked, done);
        HopsGrounded(setup, done, k + 1);
      }
    }
  }

  lemma SameGround(setup: Setup, s: State, s': State)
    requires Grounded(setup, s) && s'.candidates == s.candidates
    requires s'.queried == s.queried && s'.hubs == s.hubs && s'.considered == s.considered
    ensures Grounded(setup, s')
  {
    hide AllExplained, AllRecorded;
    SameCounts(setup, s, s');
  }

  lemma StartGrounded(setup: Setup)
    ensures Grounded(setup, Start(setup))
  {
  }

  /** Over every run: each candidate's block, score, reasons and sources are those of its records, and
      its records are of the histories; every selected record of an address asked is with its
      candidate; the hubs are exactly the addresses asked that answered as hubs; and the records
      considered are all the records answered. */
  lemma RunIsGrounded(setup: Setup)
    ensures Grounded(setup, Run(setup))
  {
    hide Grounded, HopsFrom, Start;
    StartGrounded(setup);
    HopsGrounded(setup, Start(setup), 0);
  }

  // ----- contexts are those of the investigations

  /** Before, after or in the seed's block; only the seed itself is the seed. */
  predicate PhaseFits(phase: Phase, block: nat, seedBlock: nat) {
    && (phase == PreSeed <==> block < seedBlock) && (phase == PostSeed <==> block > seedBlock)
    && (phase == SameBlock <==> block == seedBlock)
  }

  /** The context a successful trial leaves: the block and phase of the case returned, and the hop, the
      points and the reasons its candidate had when it was taken. */
  predicate Told(setup: Setup, trial: Trial, contexts: map<Hash, Context>) {
    var h := trial.hash;
    setup.investigate(h).Some? ==>
      && h in contexts && h in trial.before.candidates
      && var context, c := contexts[h], trial.before.candidates[h];
         && context.block == setup.investigate(h).value.block
         && PhaseFits(context.phase, context.block, setup.seed.block)
         && context.hop == c.hop && context.score == Points(c) && context.reasons == c.reasons
  }

  ghost predicate AllTold(setup: Setup, trials: seq<Trial>, contexts: map<Hash, Context>) {
    forall i :: 0 <= i < |trials| ==> Told(setup, trials[i], contexts)
  }

  /** Contexts only grow, except of the hashes given. */
  predicate KeepsOthers(contexts: map<Hash, Context>, contexts': map<Hash, Context>, touched: set<Hash>) {
    forall h :: h in contexts && h !in touched ==> h in contexts' && contexts'[h] == contexts[h]
  }

  lemma TrialTells(setup: Setup, s: State, h: Hash)
    requires Faithful(setup) && h in s.candidates && s.candidates[h].hash == h && s.candidates[h].score >= 60
    requires h != setup.seed.hash
    ensures Told(setup, Trial(s, h), Investigate(setup, s, h).contexts)
    ensures KeepsOthers(s.contexts, Investigate(setup, s, h).contexts, {h})
  {
    hide Investigate, Told, ContextOf, Points;
    var c := s.candidates[h];
    InvestigatedContexts(setup, s, h);
    if setup.investigate(h).Some? {
      ContextTells(setup, s, h, setup.investigate(h).value);
    } else {
      FailureTells(setup, s, h, s.contexts);
    }
  }

  lemma InvestigatedContexts(setup: Setup, s: State, h: Hash)
    requires Faithful(setup) && h in s.candidates && s.candidates[h].hash == h
    ensures Investigate(setup, s, h).contexts
         == if setup.investigate(h).None? then s.contexts
            else s.contexts[h := ContextOf(setup, setup.investigate(h).value, s.candidates[h])]
  {
    hide AddLinks, Grow, Named, Expands, ContextOf;
    var c := s.candidates[h];
    var answer := setup.investigate(h);
    if answer.Some? {
      AddLinksFrame(setup, Opened(setup, s, c, answer.value), h, c.hop,
                    Ascending(Grow(Named(c.records), answer.value.transfers)));
    }
  }

  lemma ContextTells(setup: Setup, s: State, h: Hash, related: Case)
    requires setup.investigate(h) == Some(related) && related.hash == h && h != setup.seed.hash
    requires h in s.candidates && s.candidates[h].score >= 60
    ensures Told(setup, Trial(s, h), s.contexts[h := ContextOf(setup, related, s.candidates[h])])
  {
    RankIsPoints(s.candidates[h]);
    hide CandidateRank, Points;
  }

  lemma FailureTells(setup: Setup, s: State, h: Hash, contexts: map<Hash, Context>)
    requires setup.investigate(h).None?
    ensures Told(setup, Trial(s, h), contexts)
  {
  }

  lemma RankIsPoints(c: Candidate)
    requires c.score >= 60
    ensures CandidateRank(c) == Points(c)
  {
  }

  lemma TellingLasts(setup: Setup, trials: seq<Trial>, contexts: map<Hash, Context>, contexts': map<Hash, Context>,
                     touched: set<Hash>)
    requires AllTold(setup, trials, contexts) && KeepsOthers(contexts, contexts', touched)
    requires forall i :: 0 <= i < |trials| ==> trials[i].hash !in touched
    ensures AllTold(setup, trials, contexts')
  {
    hide Points, PhaseFits;
    forall i | 0 <= i < |trials| ensures Told(setup, trials[i], contexts') {
      assert Told(setup, trials[i], contexts);
    }
  }

  lemma TellingJoins(setup: Setup, t: seq<Trial>, u: seq<Trial>, contexts: map<Hash, Context>)
    requires AllTold(setup, t, contexts) && AllTold(setup, u, contexts)
    ensures AllTold(setup, t + u, contexts)
  {
    hide Told;
  }

  function TrialHashes(trials: seq<Trial>): set<Hash> {
    set i | 0 <= i < |trials| :: trials[i].hash
  }

  lemma TrialIsNew(setup: Setup, first: seq<Hash>, trials: seq<Trial>, last: seq<Hash>, i: nat)
    requires Chronicle(setup, first, trials, last)
    ensures first <= last
    ensures i < |trials| ==> trials[i].hash !in first && trials[i].hash in last
  {
    hide RankKey, KeyLe;
    if i < |trials| {
      assert Greedy(setup, trials[i]);
      assert last[|first| + i] == Hashes(trials)[i];
      assert last[..|first| + i][..|first|] == first;
    }
  }

  /** A chronicle's trials were not investigated before it, and are after it. */
  lemma ChronicleIsNew(setup: Setup, first: seq<Hash>, trials: seq<Trial>, last: seq<Hash>)
    requires Chronicle(setup, first, trials, last)
    ensures forall h :: h in TrialHashes(trials) ==> h !in first && h in last
    ensures first <= last
  {
    hide Chronicle;
    assert first <= last by { TrialIsNew(setup, first, trials, last, 0); }
    forall h | h in TrialHashes(trials) ensures h !in first && h in last {
      var i :| 0 <= i < |trials| && trials[i].hash == h;
      TrialIsNew(setup, first, trials, last, i);
    }
  }

  lemma SeedIsNoCandidate(setup: Setup, s: State, a: nat, c: nat, i: nat)
    requires Inv(setup, s, a, c, i)
    ensures setup.seed.hash !in s.candidates && setup.seed.hash in s.contexts
  {
    hide CandidatesOk, AddressesOk, LinksOk, InvestigatedOk, Budgets;
  }

  lemma AskingKeepsContexts(setup: Setup, s: State, k: nat)
    requires BetweenHops(setup, s, k)
    ensures var s' := QueryAll(setup, s, k, Frontier(s, k));
            s'.contexts == s.contexts && s'.investigated == s.investigated
  {
    hide Inv, AllDone, Accounted, QueryAll;
    InvWeakensCandidates(setup, s, k);
    QueryAllKeeps(setup, s, k, Frontier(s, k));
  }

  /** What a stretch of trials that starts with `before` leaves in the contexts. */
  ghost predicate Tells(setup: Setup, trials: seq<Trial>, before: map<Hash, Context>, after: map<Hash, Context>) {
    AllTold(setup, trials, after) && KeepsOthers(before, after, TrialHashes(trials))
  }

  lemma TellsNothing(setup: Setup, contexts: map<Hash, Context>)
    ensures Tells(setup, [], contexts, contexts)
  {
  }

  lemma TellsOn(setup: Setup, t: seq<Trial>, u: seq<Trial>, a: map<Hash, Context>, b: map<Hash, Context>,
                c: map<Hash, Context>)
    requires Tells(setup, t, a, b) && Tells(setup, u, b, c) && TrialHashes(t) !! TrialHashes(u)
    ensures Tells(setup, t + u, a, c)
  {
    hide Told;
    forall i | 0 <= i < |t| ensures t[i].hash !in TrialHashes(u) {
      assert t[i].hash in TrialHashes(t);
    }
    TellingLasts(setup, t, b, c, TrialHashes(u));
    TellingJoins(setup, t, u, c);
    assert TrialHashes(t + u) == TrialHashes(t) + TrialHashes(u) by {
      assert forall i :: 0 <= i < |t| ==> (t + u)[i] == t[i];
      assert forall i :: 0 <= i < |u| ==> (t + u)[|t| + i] == u[i];
    }
  }

  /** One round, in terms of its own trials. */
  lemma {:induction false} RoundTellsOwn(setup: Setup, s: State, order: seq<Hash>)
    requires Faithful(setup) && Filed(s.candidates) && Scored(s.candidates) && setup.seed.hash !in s.candidates
    requires forall h :: h in order ==> h in s.candidates
    requires forall i, j :: 0 <= i < j < |order| ==> order[i] != order[j]
    ensures Tells(setup, RoundTrials(setup, s, order), s.contexts, InvestigateAll(setup, s, order).contexts)
    ensures forall h :: h in TrialHashes(RoundTrials(setup, s, order)) ==> h in order
    decreases order
  {
    hide Investigate, Tells, Faithful, Scored, Filed;
    TellsNothing(setup, s.contexts);
    if order != [] && |s.cases| < setup.limits.maxTransactions {
      var h := order[0];
      var next := Investigate(setup, s, h);
      assert order == [h] + order[1..];
      InvestigateFrame(setup, s, h);
      OneTells(setup, s, h);
      RoundTellsOwn(setup, next, order[1..]);
      var one, rest := [Trial(s, h)], RoundTrials(setup, next, order[1..]);
      OneHash(Trial(s, h));
      TellsOn(setup, one, rest, s.contexts, next.contexts, InvestigateAll(setup, s, order).contexts);
    }
  }

  lemma OneTells(setup: Setup, s: State, h: Hash)
    requires Faithful(setup) && Filed(s.candidates) && Scored(s.candidates) && setup.seed.hash !in s.candidates
    requires h in s.candidates
    ensures Tells(setup, [Trial(s, h)], s.contexts, Investigate(setup, s, h).contexts)
  {
    hide Investigate, Told, Faithful;
    TrialTells(setup, s, h);
    OneHash(Trial(s, h));
  }

  lemma OneHash(trial: Trial)
    ensures TrialHashes([trial]) == {trial.hash}
  {
    var one := [trial];
    assert one[0].hash == trial.hash;
    assert forall i :: 0 <= i < |one| ==> one[i].hash == trial.hash;
  }

  lemma {:induction false} HopsTell(setup: Setup, s: State, k: nat)
    requires Faithful(setup) && BetweenHops(setup, s, k) && k <= setup.limits.maxHops && Scored(s.candidates)
    ensures Tells(setup, Trials(setup, s, k), s.contexts, HopsFrom(setup, s, k).contexts)
    decreases setup.limits.maxHops - k
  {
    hide Inv, AllDone, Accounted, Frontier, QueryAll, InvestigateAll, Faithful, Available, AvailableInOrder,
         Chronicle, RoundTrials, Covers, InvestigatedOk, Scored, Filed, Tells;
    TellsNothing(setup, s.contexts);
    if k < setup.limits.maxHops && Frontier(s, k) != [] {
      AskedKeeps(setup, s, k);
      AskingKeepsContexts(setup, s, k);
      QueryAllScored(setup, s, k, Frontier(s, k));
      var asked := QueryAll(setup, s, k, Frontier(s, k));
      if !asked.addressLimit {
        OrderWithin(setup, asked, k + 1);
        RoundKeeps(setup, asked, k);
        InvestigatedPart(setup, asked, k, k + 1, k);
        AvailableIsOffered(setup, asked, k);
        InvWeakens(setup, asked, k, k + 1, k, k + 1);
        OrderCovers(setup, asked, k);
        CandidatesFiled(setup, asked, k, k + 1, k);
        SeedIsNoCandidate(setup, asked, k, k + 1, k);
        var order := AvailableInOrder(setup, asked, k + 1);
        var done := InvestigateAll(setup, asked, order);
        var trials := RoundTrials(setup, asked, order);
        RoundChronicle(setup, asked, k + 1, order);
        RoundTellsOwn(setup, asked, order);
        if |done.cases| >= setup.limits.maxTransactions {
          assert trials + [] == trials;
        } else {
          var rest, end := Trials(setup, done, k + 1), HopsFrom(setup, done, k + 1);
          InvestigateAllLeaves(setup, asked, order);
          HopsTell(setup, done, k + 1);
          HopsChronicle(setup, done, k + 1);
          ChronicleIsNew(setup, s.investigated, trials, done.investigated);
          ChronicleIsNew(setup, done.investigated, rest, end.investigated);
          TellsOn(setup, trials, rest, s.contexts, done.contexts, end.contexts);
        }
      }
    }
  }

  /** Over every run: the context of each reconstructed transaction is what its own investigation
      found, with the hop, the points and the reasons its candidate had then; and the seed keeps its
      own: hop 0, ten thousand points, named by the operator. */
  lemma ContextsAreTold(setup: Setup)
    requires Faithful(setup)
    ensures AllTold(setup, TrialsOf(setup), Run(setup).contexts)
    ensures setup.seed.hash in Run(setup).contexts
    ensures Run(setup).contexts[setup.seed.hash] == Context(setup.seed.block, Seed, 0, 10000, {OperatorSeed})
  {
    StartKeeps(setup);
    StartScored(setup);
    StartContext(setup);
    RunFinishes(setup);
    RunChronicle(setup);
    ChronicleIsNew(setup, [], TrialsOf(setup), Run(setup).investigated);
    SeedUntried(setup, Run(setup));
    hide BetweenHops, HopsFrom, Faithful, Start, Trials, Told, Scored;
    HopsTell(setup, Start(setup), 0);
  }

  lemma StartContext(setup: Setup)
    ensures Start(setup).contexts
         == map[setup.seed.hash := Context(setup.seed.block, Seed, 0, 10000, {OperatorSeed})]
  {
  }

  lemma SeedUntried(setup: Setup, s: State)
    requires Finished(setup, s)
    ensures setup.seed.hash !in s.investigated
  {
    hide CandidatesOk, AddressesOk, LinksOk, Budgets, Completed, Accounted;
  }

  /** The figures of the coverage record. */
  lemma CoverageMeans(setup: Setup, s: State)
    ensures var c := CoverageOf(setup, s);
            && c.addressesQueried == |s.queried| && c.recordsConsidered == s.considered
            && c.transactionCandidates == |s.candidates| && c.transactionsReconstructed == |s.cases|
            && c.transactionFailures == s.failures && c.frontierAddressesDiscovered == |s.addressHops|
            && c.hubRecordsSuppressed == s.suppressed && c.addressLimitReached == s.addressLimit
            && c.candidatesNotReconstructed == |s.candidates.Keys - s.cases.Keys|
            && (c.transactionLimitReached <==>
                  |s.cases| >= setup.limits.maxTransactions && !(s.candidates.Keys <= s.cases.Keys))
  {
    hide Points;
    var rest := s.candidates.Keys - s.cases.Keys;
    assert NotReconstructed(s) == rest;
    SomethingLeft(s.candidates.Keys, s.cases.Keys);
  }

  lemma SomethingLeft(all: set<Hash>, done: set<Hash>)
    ensures all - done != {} <==> !(all <= done)
  {
    if h :| h in all - done {
      assert h in all;
    }
    if h :| h in all && h !in done {
      assert h in all - done;
    }
  }
}
