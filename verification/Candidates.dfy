/** Scoring of history records and the bounded selection made at high-fanout addresses. */
module Candidates {
  import opened Basics
  import opened Sorting
  import opened Keys
  import opened History

  function TypeScore(recordType: string): nat {
    if recordType == "internal" then 150
    else if recordType == "erc20" || recordType == "erc721" || recordType == "erc1155" then 135
    else if recordType == "normal" then 85
    else 60
  }

  function RecordScore(record: HistoryRecord, address: Address, seedBlock: nat): nat {
    TypeScore(record.recordType)
    + (if record.value.Some? && record.value.value != "" && record.value.value != "0" then 18 else 0)
    + (if (record.block < seedBlock && record.recipient == Some(address))
          || (record.block > seedBlock && record.sender == Some(address)) then 30 else 0)
    + (48 - Min(48, Abs(record.block - seedBlock)))
  }

  /** Proximity: on one side of the seed, each block nearer adds one, up to 48 blocks away. */
  lemma NearerScoresHigher(record: HistoryRecord, address: Address, seedBlock: nat, nearer: nat)
    requires (record.block <= nearer < seedBlock) || (seedBlock < nearer <= record.block)
    ensures RecordScore(record.(block := nearer), address, seedBlock) - RecordScore(record, address, seedBlock)
         == Min(48, Abs(record.block - seedBlock)) - Min(48, Abs(nearer - seedBlock))
  {
  }

  /** Direction: what an address received scores 30 more before the seed than equally far after
      it, what it sent 30 more after. */
  lemma DirectionScores(record: HistoryRecord, address: Address, seedBlock: nat, distance: nat)
    requires 0 < distance <= seedBlock && record.sender != record.recipient
    ensures var before := RecordScore(record.(block := seedBlock - distance), address, seedBlock);
            var after := RecordScore(record.(block := seedBlock + distance), address, seedBlock);
            && (record.recipient == Some(address) ==> before == after + 30)
            && (record.sender == Some(address) ==> after == before + 30)
            && (record.sender != Some(address) && record.recipient != Some(address) ==> before == after)
  {
  }

  /** The type of a record alone: 48 blocks or more away from the seed, without a value and without the
      address on either side. */
  lemma TypeScores(record: HistoryRecord, address: Address, seedBlock: nat)
    requires Abs(record.block - seedBlock) >= 48 && record.value.None?
    requires record.sender != Some(address) && record.recipient != Some(address)
    ensures RecordScore(record, address, seedBlock) ==
              match record.recordType
              case "internal" => 150
              case "erc20" => 135
              case "erc721" => 135
              case "erc1155" => 135
              case "normal" => 85
              case _ => 60
  {
  }

  /** A value that is neither empty nor zero adds 18, and the seed's own block 48. */
  lemma ValueScores(record: HistoryRecord, address: Address, seedBlock: nat, value: string, far: nat)
    requires record.sender != Some(address) && record.recipient != Some(address) && far >= seedBlock + 48
    ensures RecordScore(record.(value := Some(value)), address, seedBlock)
         == RecordScore(record.(value := None), address, seedBlock) + (if value == "" || value == "0" then 0 else 18)
    ensures RecordScore(record.(block := seedBlock), address, seedBlock)
         == RecordScore(record.(block := far), address, seedBlock) + 48
  {
  }

  /** In the seed's own block the direction says nothing. */
  lemma NoDirectionAtSeed(record: HistoryRecord, address: Address, seedBlock: nat,
                          sender: Option<Address>, recipient: Option<Address>)
    requires record.block == seedBlock
    ensures RecordScore(record.(sender := sender, recipient := recipient), address, seedBlock)
         == RecordScore(record, address, seedBlock)
  {
  }

  function Counterparties(address: Address, records: seq<HistoryRecord>): set<Address> {
    if records == [] then {}
    else
      var record := records[|records| - 1];
      Counterparties(address, records[..|records| - 1])
      + (if record.sender == Some(address) && record.recipient.Some? && record.recipient.value != ZERO_ADDRESS
         then {record.recipient.value}
         else if record.recipient == Some(address) && record.sender.Some? && record.sender.value != ZERO_ADDRESS
         then {record.sender.value}
         else {})
  }

  method RecordCounterparties(address: Address, records: seq<HistoryRecord>) returns (counterparties: set<Address>)
    ensures counterparties == Counterparties(address, records)
  {
    counterparties := {};
    for i := 0 to |records|
      invariant counterparties == Counterparties(address, records[..i])
    {
      var record := records[i];
      assert records[..i + 1][..i] == records[..i];
      if record.sender == Some(address) && record.recipient.Some? && record.recipient.value != ZERO_ADDRESS {
        counterparties := counterparties + {record.recipient.value};
      } else if record.recipient == Some(address) && record.sender.Some? && record.sender.value != ZERO_ADDRESS {
        counterparties := counterparties + {record.sender.value};
      }
    }
    assert records[..|records|] == records;
  }

  /** The record moves something between the address and c. */
  predicate Deals(address: Address, record: HistoryRecord, c: Address) {
    || (record.sender == Some(address) && record.recipient == Some(c))
    || (record.recipient == Some(address) && record.sender == Some(c))
  }

  /** The counterparties are the other parties of the address's own records; the address counts
      itself only when it pays itself. */
  lemma {:induction false} CounterpartiesMeaning(address: Address, records: seq<HistoryRecord>, c: Address)
    ensures c in Counterparties(address, records) ==>
              c != ZERO_ADDRESS && exists i :: 0 <= i < |records| && Deals(address, records[i], c)
    ensures c != ZERO_ADDRESS && c != address && (exists i :: 0 <= i < |records| && Deals(address, records[i], c)) ==>
              c in Counterparties(address, records)
    ensures address != ZERO_ADDRESS ==>
              (address in Counterparties(address, records) <==>
               exists i :: 0 <= i < |records| && Deals(address, records[i], address))
  {
    if records != [] {
      var n := |records| - 1;
      CounterpartiesMeaning(address, records[..n], c);
      if c in Counterparties(address, records[..n]) {
        var i :| 0 <= i < n && Deals(address, records[..n][i], c);
        assert Deals(address, records[i], c);
      }
      if address in Counterparties(address, records[..n]) && address != ZERO_ADDRESS {
        var i :| 0 <= i < n && Deals(address, records[..n][i], address);
        assert Deals(address, records[i], address);
      }
      assert forall i :: 0 <= i < n ==> records[..n][i] == records[i];
    }
  }

  // ----- hub selection

  function ScoreMap(records: seq<HistoryRecord>, address: Address, seedBlock: nat): map<Hash, int> {
    if records == [] then map[]
    else
      var before := ScoreMap(records[..|records| - 1], address, seedBlock);
      var record := records[|records| - 1];
      var known := if record.hash in before then before[record.hash] else 0;
      before[record.hash := Max(known, RecordScore(record, address, seedBlock))]
  }

  function BlockMap(records: seq<HistoryRecord>): map<Hash, int> {
    if records == [] then map[]
    else
      var before := BlockMap(records[..|records| - 1]);
      var record := records[|records| - 1];
      if record.hash in before then before else before[record.hash := record.block]
  }

  function HubKey(scores: map<Hash, int>, blocks: map<Hash, int>, seedBlock: nat): Hash -> Key {
    (h: Hash) =>
      if h in scores && h in blocks then [-scores[h], Abs(blocks[h] - seedBlock), blocks[h], h] else []
  }

  /** The transactions in rank order: best score, then nearest block, then block and hash. */
  function HubRanking(records: seq<HistoryRecord>, address: Address, seedBlock: nat): seq<Hash> {
    var scores := ScoreMap(records, address, seedBlock);
    Sort<Hash>(Ascending(scores.Keys), ByKey<Hash>(HubKey(scores, BlockMap(records), seedBlock)))
  }

  function HashSet(hashes: seq<Hash>): set<Hash> {
    set h | h in hashes
  }

  function KeepHashes(records: seq<HistoryRecord>, hashes: set<Hash>): seq<HistoryRecord> {
    if records == [] then []
    else
      var record := records[|records| - 1];
      KeepHashes(records[..|records| - 1], hashes) + (if record.hash in hashes then [record] else [])
  }

  function HubHashes(records: seq<HistoryRecord>, address: Address, seedBlock: nat, k: nat): set<Hash> {
    HashSet(Take(HubRanking(records, address, seedBlock), k))
  }

  method ScoreTransactions(records: seq<HistoryRecord>, address: Address, seedBlock: nat)
    returns (scores: map<Hash, int>, blocks: map<Hash, int>)
    ensures scores == ScoreMap(records, address, seedBlock) && blocks == BlockMap(records)
  {
    scores, blocks := map[], map[];
    for i := 0 to |records|
      invariant scores == ScoreMap(records[..i], address, seedBlock)
      invariant blocks == BlockMap(records[..i])
    {
      var record := records[i];
      assert records[..i + 1][..i] == records[..i];
      var previous := if record.hash in scores then scores[record.hash] else 0;
      scores := scores[record.hash := Max(previous, RecordScore(record, address, seedBlock))];
      if record.hash !in blocks {
        blocks := blocks[record.hash := record.block];
      }
    }
    assert records[..|records|] == records;
  }

  method FilterRecords(records: seq<HistoryRecord>, hashes: set<Hash>) returns (selected: seq<HistoryRecord>)
    ensures selected == KeepHashes(records, hashes) && |selected| <= |records|
  {
    selected := [];
    for i := 0 to |records|
      invariant selected == KeepHashes(records[..i], hashes) && |selected| <= i
    {
      assert records[..i + 1][..i] == records[..i];
      if records[i].hash in hashes {
        selected := selected + [records[i]];
      }
    }
    assert records[..|records|] == records;
  }

  method BoundedHubRecords(records: seq<HistoryRecord>, address: Address, seedBlock: nat, k: nat)
    returns (selected: seq<HistoryRecord>, suppressed: nat)
    ensures selected == KeepHashes(records, HubHashes(records, address, seedBlock, k))
    ensures |selected| + suppressed == |records|
  {
    var scores, blocks := ScoreTransactions(records, address, seedBlock);
    var ranking := Sort<Hash>(Ascending(scores.Keys), ByKey<Hash>(HubKey(scores, blocks, seedBlock)));
    selected := FilterRecords(records, HashSet(Take(ranking, k)));
    suppressed := |records| - |selected|;
  }

  // ----- what the selection means

  ghost predicate Occurs(records: seq<HistoryRecord>, h: Hash) {
    exists i :: 0 <= i < |records| && records[i].hash == h
  }

  lemma {:induction false} ScoreIsBest(records: seq<HistoryRecord>, address: Address, seedBlock: nat, h: Hash)
    ensures h in ScoreMap(records, address, seedBlock) <==> Occurs(records, h)
    ensures h in ScoreMap(records, address, seedBlock) ==>
              (forall i :: 0 <= i < |records| && records[i].hash == h ==>
                 RecordScore(records[i], address, seedBlock) <= ScoreMap(records, address, seedBlock)[h])
              && (exists i :: 0 <= i < |records| && records[i].hash == h &&
                    RecordScore(records[i], address, seedBlock) == ScoreMap(records, address, seedBlock)[h])
  {
    if records != [] {
      var init, record := records[..|records| - 1], records[|records| - 1];
      ScoreIsBest(init, address, seedBlock, h);
      assert forall i :: 0 <= i < |init| ==> init[i] == records[i];
      if record.hash == h {
        assert Occurs(records, h);
      } else if Occurs(init, h) {
        var i :| 0 <= i < |init| && init[i].hash == h
          && RecordScore(init[i], address, seedBlock) == ScoreMap(init, address, seedBlock)[h];
        assert records[i].hash == h;
      }
    }
  }

  lemma {:induction false} BlockIsFirst(records: seq<HistoryRecord>, h: Hash)
    ensures h in BlockMap(records) <==> Occurs(records, h)
    ensures h in BlockMap(records) ==>
              exists i :: 0 <= i < |records| && records[i].hash == h && records[i].block == BlockMap(records)[h] &&
                          forall j :: 0 <= j < i ==> records[j].hash != h
  {
    if records != [] {
      var init, record := records[..|records| - 1], records[|records| - 1];
      BlockIsFirst(init, h);
      assert forall i :: 0 <= i < |init| ==> init[i] == records[i];
      if Occurs(init, h) {
        var i :| 0 <= i < |init| && init[i].hash == h && init[i].block == BlockMap(init)[h]
          && forall j :: 0 <= j < i ==> init[j].hash != h;
        assert records[i].hash == h && forall j :: 0 <= j < i ==> records[j].hash != h;
      } else if record.hash == h {
        assert records[|records| - 1].hash == h;
      }
    }
  }

  lemma {:induction false} KeptRecords(records: seq<HistoryRecord>, hashes: set<Hash>, record: HistoryRecord)
    ensures multiset(KeepHashes(records, hashes))[record]
            == if record.hash in hashes then multiset(records)[record] else 0
  {
    if records != [] {
      var init, last := records[..|records| - 1], records[|records| - 1];
      KeptRecords(init, hashes, record);
      assert records == init + [last];
    }
  }

  /** Kept and suppressed records make up the input, in order. */
  lemma {:induction false} KeptInOrder(records: seq<HistoryRecord>, hashes: set<Hash>) returns (at: seq<nat>)
    ensures |at| == |KeepHashes(records, hashes)| <= |records|
    ensures forall i :: 0 <= i < |at| ==> at[i] < |records| && KeepHashes(records, hashes)[i] == records[at[i]]
    ensures forall i, j :: 0 <= i < j < |at| ==> at[i] < at[j]
  {
    at := [];
    if records != [] {
      var n := |records| - 1;
      at := KeptInOrder(records[..n], hashes);
      var before := KeepHashes(records[..n], hashes);
      assert forall i :: 0 <= i < |at| ==> at[i] < n && before[i] == records[..n][at[i]] == records[at[i]];
      if records[n].hash in hashes {
        assert KeepHashes(records, hashes) == before + [records[n]];
        at := at + [n];
      } else {
        assert KeepHashes(records, hashes) == before + [] == before;
      }
    }
  }

  lemma {:induction false} DistinctPrefix(s: seq<nat>, k: nat)
    requires forall i, j :: 0 <= i < j < |s| ==> s[i] != s[j]
    ensures |HashSet(Take(s, k))| == Min(|s|, k)
    decreases |s|
  {
    if s == [] {
      assert HashSet([]) == {};
    } else if k < |s| {
      if k == 0 {
        assert HashSet([]) == {};
      } else {
        DistinctPrefix(s[..|s| - 1], k);
        assert s[..|s| - 1][..Min(k, |s| - 1)] == s[..k];
      }
    } else {
      var init := s[..|s| - 1];
      DistinctPrefix(init, k);
      assert HashSet(s) == HashSet(init) + {s[|s| - 1]};
      assert s[|s| - 1] !in HashSet(init);
    }
  }

  lemma SortDistinct(s: seq<nat>, le: (nat, nat) -> bool)
    requires forall i, j :: 0 <= i < j < |s| ==> s[i] != s[j]
    ensures forall i, j :: 0 <= i < j < |Sort(s, le)| ==> Sort(s, le)[i] != Sort(s, le)[j]
  {
    var t := Sort(s, le);
    forall i, j | 0 <= i < j < |t| && t[i] == t[j] ensures false {
      MultiplicityAtLeastTwo(t, i, j);
      MultiplicityAtMostOne(s, t[i]);
    }
  }

  lemma MultiplicityAtLeastTwo(t: seq<nat>, i: nat, j: nat)
    requires i < j < |t| && t[i] == t[j]
    ensures multiset(t)[t[i]] >= 2
  {
    assert t == t[..i] + [t[i]] + t[i + 1..j] + [t[j]] + t[j + 1..];
  }

  lemma {:induction false} MultiplicityAtMostOne(s: seq<nat>, x: nat)
    requires forall i, j :: 0 <= i < j < |s| ==> s[i] != s[j]
    ensures multiset(s)[x] <= 1
  {
    if s != [] {
      MultiplicityAtMostOne(s[1..], x);
      assert s == [s[0]] + s[1..];
      if s[0] == x {
        assert x !in s[1..];
      }
    }
  }

  lemma TakenRanksFirst(ranking: seq<Hash>, key: Hash -> Key, k: nat, g: Hash, h: Hash)
    requires forall i, j :: 0 <= i <= j < |ranking| ==> KeyLe(key(ranking[i]), key(ranking[j]))
    requires g in HashSet(Take(ranking, k)) && h in ranking && h !in HashSet(Take(ranking, k))
    ensures KeyLe(key(g), key(h))
  {
    var taken := Take(ranking, k);
    assert forall m :: 0 <= m < |taken| ==> taken[m] == ranking[m] && ranking[m] in HashSet(taken);
    var i :| 0 <= i < |taken| && taken[i] == g;
    var j :| 0 <= j < |ranking| && ranking[j] == h;
  }

  /** `ranking` lists the elements of `keys` once each, in key order. */
  ghost predicate RanksAll(ranking: seq<Hash>, keys: set<Hash>, key: Hash -> Key) {
    && |ranking| == |keys| && (forall h :: h in ranking <==> h in keys)
    && (forall i, j :: 0 <= i < j < |ranking| ==> ranking[i] != ranking[j])
    && forall i, j :: 0 <= i <= j < |ranking| ==> KeyLe(key(ranking[i]), key(ranking[j]))
  }

  lemma SortRanksAll(keys: set<Hash>, key: Hash -> Key)
    ensures RanksAll(Sort<Hash>(Ascending(keys), ByKey<Hash>(key)), keys, key)
  {
    var list := Ascending(keys);
    SortDistinct(list, ByKey<Hash>(key));
    SortMembers<Hash>(list, ByKey<Hash>(key));
    forall i, j | 0 <= i <= j < |list|
      ensures KeyLe(key(Sort<Hash>(list, ByKey<Hash>(key))[i]), key(Sort<Hash>(list, ByKey<Hash>(key))[j]))
    {
      SortedByKey<Hash>(list, key, i, j);
    }
  }

  lemma HubRankingOrder(records: seq<HistoryRecord>, address: Address, seedBlock: nat)
    ensures RanksAll(HubRanking(records, address, seedBlock), ScoreMap(records, address, seedBlock).Keys,
                     HubKey(ScoreMap(records, address, seedBlock), BlockMap(records), seedBlock))
  {
    var scores := ScoreMap(records, address, seedBlock);
    SortRanksAll(scores.Keys, HubKey(scores, BlockMap(records), seedBlock));
  }

  /** The hub keeps the min(k, distinct) best transactions. */
  lemma HubKeepsAsManyAsAllowed(records: seq<HistoryRecord>, address: Address, seedBlock: nat, k: nat)
    ensures HubHashes(records, address, seedBlock, k) <= ScoreMap(records, address, seedBlock).Keys
    ensures |HubHashes(records, address, seedBlock, k)| == Min(|ScoreMap(records, address, seedBlock).Keys|, k)
  {
    HubRankingOrder(records, address, seedBlock);
    DistinctPrefix(HubRanking(records, address, seedBlock), k);
  }

  /** No transaction a hub drops ranks strictly before one it keeps. */
  lemma HubKeepsTheBest(records: seq<HistoryRecord>, address: Address, seedBlock: nat, k: nat, kept: Hash,
                        dropped: Hash)
    requires kept in HubHashes(records, address, seedBlock, k)
    requires Occurs(records, dropped) && dropped !in HubHashes(records, address, seedBlock, k)
    ensures var key := HubKey(ScoreMap(records, address, seedBlock), BlockMap(records), seedBlock);
            KeyLe(key(kept), key(dropped))
  {
    HubRankingOrder(records, address, seedBlock);
    ScoreIsBest(records, address, seedBlock, dropped);
    TakenRanksFirst(HubRanking(records, address, seedBlock),
                    HubKey(ScoreMap(records, address, seedBlock), BlockMap(records), seedBlock), k, kept, dropped);
  }

  /** A higher score, or the same score and a block no farther from the seed, and on a further tie the
      earlier block, then the smaller hash. */
  predicate ScoresHigher(scores: map<Hash, int>, blocks: map<Hash, int>, seedBlock: nat, g: Hash, h: Hash)
    requires {g, h} <= scores.Keys && {g, h} <= blocks.Keys
  {
    var (near, far) := (Abs(blocks[g] - seedBlock), Abs(blocks[h] - seedBlock));
    || scores[g] > scores[h]
    || (scores[g] == scores[h]
        && (near < far
            || (near == far && (blocks[g] < blocks[h] || (blocks[g] == blocks[h] && g <= h)))))
  }

  lemma HubKeyOrder(scores: map<Hash, int>, blocks: map<Hash, int>, seedBlock: nat, g: Hash, h: Hash)
    requires {g, h} <= scores.Keys && {g, h} <= blocks.Keys
    requires KeyLe(HubKey(scores, blocks, seedBlock)(g), HubKey(scores, blocks, seedBlock)(h))
    ensures ScoresHigher(scores, blocks, seedBlock, g, h)
  {
    hide KeyLe;
    assert g in scores && h in scores && g in blocks && h in blocks;
    KeyOfFour(HubKey(scores, blocks, seedBlock)(g), HubKey(scores, blocks, seedBlock)(h));
  }

  lemma RankedAreScored(records: seq<HistoryRecord>, address: Address, seedBlock: nat, k: nat, kept: Hash,
                         dropped: Hash)
    requires kept in HubHashes(records, address, seedBlock, k) && Occurs(records, dropped)
    ensures var scores, blocks := ScoreMap(records, address, seedBlock), BlockMap(records);
            {kept, dropped} <= scores.Keys && {kept, dropped} <= blocks.Keys
  {
    HubKeepsAsManyAsAllowed(records, address, seedBlock, k);
    ScoreIsBest(records, address, seedBlock, dropped);
    SameKeys(records, address, seedBlock);
    hide ScoreMap, BlockMap, HubHashes, Occurs;
    assert kept in ScoreMap(records, address, seedBlock).Keys;
  }

  /** The same in numbers, of the best scores and first blocks of the transactions. */
  lemma HubKeepsHigherScores(records: seq<HistoryRecord>, address: Address, seedBlock: nat, k: nat, kept: Hash,
                             dropped: Hash)
    requires kept in HubHashes(records, address, seedBlock, k)
    requires Occurs(records, dropped) && dropped !in HubHashes(records, address, seedBlock, k)
    ensures var scores, blocks := ScoreMap(records, address, seedBlock), BlockMap(records);
            && {kept, dropped} <= scores.Keys && {kept, dropped} <= blocks.Keys
            && ScoresHigher(scores, blocks, seedBlock, kept, dropped)
  {
    hide ScoreMap, BlockMap, KeyLe, HubHashes, HubKey, Occurs, ScoresHigher;
    RankedAreScored(records, address, seedBlock, k, kept, dropped);
    HubKeepsTheBest(records, address, seedBlock, k, kept, dropped);
    HubKeyOrder(ScoreMap(records, address, seedBlock), BlockMap(records), seedBlock, kept, dropped);
  }

  lemma {:induction false} SameKeys(records: seq<HistoryRecord>, address: Address, seedBlock: nat)
    ensures ScoreMap(records, address, seedBlock).Keys == BlockMap(records).Keys
  {
    if records != [] {
      SameKeys(records[..|records| - 1], address, seedBlock);
    }
  }
}
