/** A run that stops at a full transaction budget with no flag set and an address unasked, a seed
    whose frontier alone exceeds its limit, and a transaction flag that is a false alarm. */
module ReconstructionWitness {
  import opened Basics
  import opened Sorting
  import opened Keys
  import opened History
  import opened Linking
  import opened Reconstruction
  import opened ReconstructionSafety
  import opened ReconstructionCoverage

  /** A seed sent by 1; its history names transaction 7, from 1 to 2. */
  function SmallSetup(maxTransactions: nat): Setup {
    Setup(
      Limits(2, maxTransactions, 100, 2, 2, 1),
      Case(0, 10, Some(1), None, []),
      (a: Address) => if a == 1 then Some([PaymentRecord()]) else Some([]),
      (h: Hash) => Some(Case(h, 10, None, None, [])))
  }

  function PaymentRecord(): HistoryRecord {
    HistoryRecord(7, 10, None, Some(1), Some(2), "normal", Some("5"), None, None, "index")
  }

  lemma AscendingOne(x: nat)
    ensures Ascending({x}) == [x]
  {
    var t := Ascending({x});
    assert |t| == 1 && t[0] in t;
  }

  lemma AscendingTwo(x: nat, y: nat)
    requires x < y
    ensures Ascending({x, y}) == [x, y]
  {
    var t := Ascending({x, y});
    assert |{x, y}| == 2;
    assert t[0] in t && t[1] in t && t[0] < t[1];
  }

  lemma SmallStart(setup: Setup)
    requires setup == SmallSetup(2)
    ensures Faithful(setup)
    ensures var s := Start(setup);
            && s.addressHops == map[1 := 0] && Frontier(s, 0) == [1]
            && s.cases.Keys == {0} && |s.cases| == 1 && s.queried == {} && s.candidates == map[] && !s.addressLimit
  {
    assert SeedFrontier(setup.seed) == {1};
    var hops := ZeroHops(SeedFrontier(setup.seed));
    assert hops == map[1 := 0];
    assert (set a | a in hops && hops[a] == 0) == {1};
    AscendingOne(1);
    assert Start(setup).cases.Keys == {0};
  }

  /** The one candidate, found at distance 1. */
  function PaymentCandidate(setup: Setup): Candidate {
    Attach(NewCandidate(PaymentRecord(), 0), setup, 0, 1, false, PaymentRecord())
  }

  lemma SmallAsked(setup: Setup, s: State)
    requires setup == SmallSetup(2) && s.queried == {} && s.candidates == map[] && !s.addressLimit
    ensures QueryAll(setup, s, 0, [1]) ==
            s.(queried := {1}, considered := s.considered + 1, candidates := map[7 := PaymentCandidate(setup)])
  {
    hide Attach;
    var records := [PaymentRecord()];
    assert !IsHub(setup, 1, records) && Used(setup, 1, records) == records && Suppressed(setup, 1, records) == 0;
    var tallied := Tallied(s, 1, 1, false, 0);
    assert s.queried + {1} == {1};
    assert RecordAll(setup, tallied, 0, 1, false, records)
           == RecordOne(setup, tallied, 0, 1, false, PaymentRecord()) by {
      assert records[1..] == [];
    }
    assert [1][1..] == [];
  }

  lemma SmallOrder(setup: Setup, s: State)
    requires s.candidates == map[7 := PaymentCandidate(setup)] && 7 !in s.cases
    ensures AvailableInOrder(setup, s, 1) == [7]
  {
    assert Available(s, 1) == {7};
    AscendingOne(7);
    var le := ByKey<Hash>(RankKey(s.candidates, setup.seed.block));
    assert Sort<Hash>([7], le) == Insert<Hash>(7, Sort<Hash>([], le), le) by {
      assert [7][1..] == [];
    }
  }

  lemma SmallReach(setup: Setup)
    ensures Ascending(Grow(Named(PaymentCandidate(setup).records), [])) == [1, 2]
  {
    var c := PaymentCandidate(setup);
    assert c.records == [(1, PaymentRecord())];
    assert c.records[..0] == [];
    assert Named(c.records) == {1, 2};
    AscendingTwo(1, 2);
  }

  lemma SmallLinks(setup: Setup, s: State)
    requires setup == SmallSetup(2) && s.addressHops == map[1 := 0] && !s.addressLimit
    ensures var s' := AddLinks(setup, s, 7, 1, [1, 2]); s'.addressHops == map[1 := 0, 2 := 1] && !s'.addressLimit
  {
    assert [1, 2][1..] == [2] && [2][1..] == [];
    assert s.addressHops.Keys == {1};
  }

  function SmallOpened(setup: Setup, s: State): State {
    Opened(setup, s, PaymentCandidate(setup), Case(7, 10, None, None, []))
  }

  lemma SmallExpansion(setup: Setup, s: State)
    requires setup == SmallSetup(2) && s.candidates == map[7 := PaymentCandidate(setup)]
    ensures Investigate(setup, s, 7) == AddLinks(setup, SmallOpened(setup, s), 7, 1, [1, 2])
  {
    hide AddLinks, Opened, Grow, Named, PaymentCandidate, Expands, ContextOf;
    SmallReach(setup);
    SmallCandidate(setup);
  }

  lemma SmallCandidate(setup: Setup)
    requires setup == SmallSetup(2)
    ensures PaymentCandidate(setup).hash == 7 && PaymentCandidate(setup).hop == 1
            && Expands(setup, PaymentCandidate(setup))
  {
  }

  lemma SmallInvestigated(setup: Setup, s: State)
    requires setup == SmallSetup(2) && s.candidates == map[7 := PaymentCandidate(setup)]
    requires s.addressHops == map[1 := 0] && s.cases.Keys == {0} && !s.addressLimit
    ensures var done := Investigate(setup, s, 7);
            && done.cases.Keys == {0, 7} && done.addressHops == map[1 := 0, 2 := 1] && !done.addressLimit
            && done.candidates == s.candidates && done.queried == s.queried
  {
    hide AddLinks, Investigate, PaymentCandidate, ContextOf, SmallSetup;
    var entered := SmallOpened(setup, s);
    SmallExpansion(setup, s);
    AddLinksFrame(setup, entered, 7, 1, [1, 2]);
    SmallLinks(setup, entered);
  }

  lemma SmallRound(setup: Setup, s: State)
    requires setup == SmallSetup(2) && 7 in s.candidates && |s.cases| < 2
    ensures InvestigateAll(setup, s, [7]) == Investigate(setup, s, 7)
  {
    hide Investigate;
    InvestigateFrame(setup, s, 7);
    assert [7][0] == 7 && [7][1..] == [];
  }

  /** A run that fills its budget in the first round ends with that round. */
  lemma FirstRoundFills(setup: Setup, s: State, asked: State, done: State)
    requires setup.limits.maxHops > 0 && Frontier(s, 0) != []
    requires asked == QueryAll(setup, s, 0, Frontier(s, 0)) && !asked.addressLimit
    requires forall h :: h in AvailableInOrder(setup, asked, 1) ==> h in asked.candidates
    requires done == InvestigateAll(setup, asked, AvailableInOrder(setup, asked, 1))
    requires |done.cases| >= setup.limits.maxTransactions
    ensures HopsFrom(setup, s, 0) == done
  {
    hide Frontier, QueryAll, AvailableInOrder, InvestigateAll;
  }

  lemma SmallRun(setup: Setup) returns (asked: State)
    requires setup == SmallSetup(2)
    ensures asked.candidates == map[7 := PaymentCandidate(setup)] && asked.cases.Keys == {0}
    ensures asked.addressHops == map[1 := 0] && asked.queried == {1} && !asked.addressLimit
    ensures |Investigate(setup, asked, 7).cases| >= 2 ==> Run(setup) == Investigate(setup, asked, 7)
  {
    hide Investigate, Frontier, QueryAll, AvailableInOrder, InvestigateAll, HopsFrom, Start, PaymentCandidate;
    SmallStart(setup);
    var s := Start(setup);
    SmallAsked(setup, s);
    asked := QueryAll(setup, s, 0, [1]);
    SmallOrder(setup, asked);
    SmallRound(setup, asked);
    if |Investigate(setup, asked, 7).cases| >= 2 {
      FirstRoundFills(setup, s, asked, Investigate(setup, asked, 7));
    }
  }

  /** The transaction budget is filled by transaction 7, whose expansion discovers address 2; the
      search stops there with no flag set, and address 2 is never asked about. */
  lemma SilentlyUnasked(setup: Setup)
    requires setup == SmallSetup(2)
    ensures Faithful(setup)
    ensures !CoverageOf(setup, Run(setup)).transactionLimitReached && !CoverageOf(setup, Run(setup)).addressLimitReached
    ensures 2 in Unasked(setup, Run(setup))
  {
    hide Investigate, Run, PaymentCandidate;
    SmallStart(setup);
    var asked := SmallRun(setup);
    SmallInvestigated(setup, asked);
    var done := Investigate(setup, asked, 7);
    assert |done.cases.Keys| == 2;
    assert NotReconstructed(done) == {};
  }

  // ----- the frontier limit

  /** A seed between two parties under a limit of one address. */
  function CrowdedSetup(): Setup {
    Setup(Limits(1, 1, 1, 2, 2, 1), Case(0, 10, Some(1), Some(2), []), (a: Address) => None, (h: Hash) => None)
  }

  /** Its frontier exceeds the limit. */
  lemma FrontierBeyondLimit(setup: Setup)
    requires setup == CrowdedSetup()
    ensures Faithful(setup) && |Run(setup).addressHops| > setup.limits.maxFrontierAddresses
  {
    assert SeedFrontier(setup.seed) == {1, 2};
    FrontierLimitExactly(setup);
  }

  // ----- a false alarm

  /** Two transactions named by the history of 1, of which 7 cannot be reconstructed. */
  function FailingSetup(): Setup {
    Setup(
      Limits(1, 2, 100, 5, 5, 1),
      Case(0, 10, Some(1), None, []),
      (a: Address) => Some([Payment(7), Payment(8)]),
      (h: Hash) => if h == 8 then Some(Case(8, 10, None, None, [])) else None)
  }

  function Payment(h: Hash): HistoryRecord {
    PaymentRecord().(hash := h)
  }

  function Paid(setup: Setup, h: Hash): Candidate {
    Attach(NewCandidate(Payment(h), 0), setup, 0, 1, false, Payment(h))
  }

  lemma FailingStart(setup: Setup)
    requires setup == FailingSetup()
    ensures Faithful(setup)
    ensures var s := Start(setup);
            && Frontier(s, 0) == [1] && s.cases.Keys == {0} && s.queried == {} && s.candidates == map[]
            && !s.addressLimit && s.failures == 0
  {
    assert SeedFrontier(setup.seed) == {1};
    var hops := ZeroHops(SeedFrontier(setup.seed));
    assert hops == map[1 := 0];
    assert (set a | a in hops && hops[a] == 0) == {1};
    AscendingOne(1);
  }

  lemma FailingAsked(setup: Setup, s: State)
    requires setup == FailingSetup() && s.queried == {} && s.candidates == map[] && !s.addressLimit
    ensures QueryAll(setup, s, 0, [1]) ==
            s.(queried := {1}, considered := s.considered + 2,
               candidates := map[7 := Paid(setup, 7), 8 := Paid(setup, 8)])
  {
    hide Attach;
    var records := [Payment(7), Payment(8)];
    assert !IsHub(setup, 1, records) && Used(setup, 1, records) == records && Suppressed(setup, 1, records) == 0;
    var tallied := Tallied(s, 1, 2, false, 0);
    assert s.queried + {1} == {1};
    var first := RecordOne(setup, tallied, 0, 1, false, Payment(7));
    assert RecordAll(setup, tallied, 0, 1, false, records) == RecordOne(setup, first, 0, 1, false, Payment(8)) by {
      assert records[1..] == [Payment(8)] && records[1..][1..] == [];
    }
    assert [1][1..] == [];
  }

  /** Two candidates that differ only in their hash rank by it. */
  lemma FailingRanks(setup: Setup, candidates: map<Hash, Candidate>)
    requires candidates == map[7 := Paid(setup, 7), 8 := Paid(setup, 8)]
    ensures KeyLe(RankKey(candidates, setup.seed.block)(7), RankKey(candidates, setup.seed.block)(8))
  {
    assert CandidateRank(Paid(setup, 7)) == CandidateRank(Paid(setup, 8));
    var a, b := RankKey(candidates, setup.seed.block)(7), RankKey(candidates, setup.seed.block)(8);
    assert a[0] == b[0] && a[1] == b[1] && a[2] == b[2] && a[3] < b[3];
    assert KeyLe(a[3..], b[3..]);
    assert a[2..][1..] == a[3..] && b[2..][1..] == b[3..] && KeyLe(a[2..], b[2..]);
    assert a[1..][1..] == a[2..] && b[1..][1..] == b[2..] && KeyLe(a[1..], b[1..]);
  }

  lemma FailingAvailable(setup: Setup, s: State)
    requires s.candidates == map[7 := Paid(setup, 7), 8 := Paid(setup, 8)] && 7 !in s.cases && 8 !in s.cases
    ensures Available(s, 1) == {7, 8}
  {
  }

  lemma FailingOrder(setup: Setup, s: State)
    requires s.candidates == map[7 := Paid(setup, 7), 8 := Paid(setup, 8)] && 7 !in s.cases && 8 !in s.cases
    ensures AvailableInOrder(setup, s, 1) == [7, 8]
  {
    hide RankKey, KeyLe, Paid, Available, Sort;
    FailingRanks(setup, s.candidates);
    FailingAvailable(setup, s);
    AscendingTwo(7, 8);
    SortTwo(7, 8, ByKey<Hash>(RankKey(s.candidates, setup.seed.block)));
  }

  lemma SortTwo(x: Hash, y: Hash, le: (Hash, Hash) -> bool)
    requires le(x, y)
    ensures Sort<Hash>([x, y], le) == [x, y]
  {
    assert [x, y][1..] == [y] && [y][1..] == [];
  }

  lemma FailingTrials(setup: Setup, s: State)
    requires setup == FailingSetup() && 7 in s.candidates && 8 in s.candidates
    requires s.candidates[7] == Paid(setup, 7) && s.candidates[8] == Paid(setup, 8)
    ensures Investigate(setup, s, 7) == s.(failures := s.failures + 1, investigated := s.investigated + [7])
    ensures Investigate(setup, s, 8) == Opened(setup, s, Paid(setup, 8), Case(8, 10, None, None, []))
  {
    hide AddLinks, Opened, ContextOf;
  }

  lemma FailingOpened(setup: Setup, s: State)
    ensures var entered := Opened(setup, s, Paid(setup, 8), Case(8, 10, None, None, []));
            entered == s.(cases := s.cases[8 := Case(8, 10, None, None, [])], contexts := entered.contexts,
                         investigated := s.investigated + [8])
  {
    hide ContextOf;
  }

  lemma FailingRound(setup: Setup, s: State)
    requires setup == FailingSetup() && s.cases.Keys == {0}
    requires s.candidates == map[7 := Paid(setup, 7), 8 := Paid(setup, 8)]
    ensures var done := InvestigateAll(setup, s, [7, 8]);
            && done.cases.Keys == {0, 8} && done.candidates == s.candidates && done.addressLimit == s.addressLimit
            && done.investigated == s.investigated + [7, 8]
  {
    hide Investigate, Paid, Opened;
    FailingTrials(setup, s);
    var failed := s.(failures := s.failures + 1, investigated := s.investigated + [7]);
    FailingTrials(setup, failed);
    FailingOpened(setup, failed);
    assert [7, 8][1..] == [8] && [8][1..] == [];
    assert |s.cases.Keys| == 1;
    Associate(s.investigated, [7], [8]);
  }

  /** The flag of a full budget is set although every candidate was tried: 7 failed, and 8 was the
      last. */
  lemma FalseAlarm(setup: Setup)
    requires setup == FailingSetup()
    ensures Faithful(setup)
    ensures CoverageOf(setup, Run(setup)).transactionLimitReached && Untried(Run(setup)) == {}
  {
    hide Frontier, QueryAll, AvailableInOrder, InvestigateAll, HopsFrom, Start, Attach;
    FailingStart(setup);
    var s := Start(setup);
    FailingAsked(setup, s);
    var asked := QueryAll(setup, s, 0, [1]);
    FailingOrder(setup, asked);
    FailingRound(setup, asked);
    var done := InvestigateAll(setup, asked, [7, 8]);
    assert |done.cases.Keys| == 2;
    FirstRoundFills(setup, s, asked, done);
    assert 7 in NotReconstructed(done);
    var n := |asked.investigated|;
    assert done.investigated[n] == 7 && done.investigated[n + 1] == 8;
  }
}
