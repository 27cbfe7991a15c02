/** Address-history records and their bounded, de-duplicating selection. */
module History {
  import opened Basics
  import opened Sorting
  import opened Keys
  import opened Selection

  type Hash = nat

  datatype HistoryRecord = HistoryRecord(
    hash: Hash, block: nat, index: Option<nat>, sender: Option<Address>, recipient: Option<Address>,
    recordType: string, value: Option<string>, assetAddress: Option<Address>, tokenId: Option<string>, source: string)

  datatype Identity = Identity(
    hash: Hash, recordType: string, sender: Option<Address>, recipient: Option<Address>,
    assetAddress: Option<Address>, value: Option<string>, tokenId: Option<string>)

  function IdentityOf(r: HistoryRecord): Identity {
    Identity(r.hash, r.recordType, r.sender, r.recipient, r.assetAddress, r.value, r.tokenId)
  }

  /** Two records are one when they agree on the transaction, type, parties, asset, value and token;
      block, index and source do not matter. */
  lemma SameIdentity(a: HistoryRecord, b: HistoryRecord)
    ensures IdentityOf(a) == IdentityOf(b) <==>
              && a.hash == b.hash && a.recordType == b.recordType && a.sender == b.sender
              && a.recipient == b.recipient && a.assetAddress == b.assetAddress && a.value == b.value
              && a.tokenId == b.tokenId
  {
  }

  const RECORD_ID: HistoryRecord -> Identity := (r: HistoryRecord) => IdentityOf(r)

  function RecordKey(anchor: Option<nat>): HistoryRecord -> Key {
    (r: HistoryRecord) =>
      [if anchor.Some? then Abs(r.block - anchor.value) else 0, r.block,
       if r.index.Some? then r.index.value else 0x8000_0000, r.hash] + TextKey(r.recordType)
  }

  function Ranked(records: seq<HistoryRecord>, anchor: Option<nat>): seq<HistoryRecord> {
    Sort(records, ByKey(RecordKey(anchor)))
  }

  /** The loop of `_bounded_unique`, for any record type. */
  method FirstsUpTo<T, I(==)>(ordered: seq<T>, id: T -> I, limit: int) returns (selected: seq<T>)
    ensures selected == Take(Firsts(ordered, id, {}), Max(1, limit))
  {
    selected := [];
    var seen := {};
    assert ordered[0..] == ordered;
    for i := 0 to |ordered|
      invariant selected + Firsts(ordered[i..], id, seen) == Firsts(ordered, id, {})
      invariant |selected| < Max(1, limit)
    {
      var record := ordered[i];
      assert ordered[i..][0] == record && ordered[i..][1..] == ordered[i + 1..];
      if id(record) in seen {
        continue;
      }
      var rest := Firsts(ordered[i + 1..], id, seen + {id(record)});
      assert selected + ([record] + rest) == (selected + [record]) + rest;
      seen := seen + {id(record)};
      selected := selected + [record];
      if |selected| >= Max(0, limit) {
        assert Firsts(ordered, id, {})[..|selected|] == selected;
        return;
      }
    }
    assert Firsts(ordered[|ordered|..], id, seen) == [];
  }

  /** What `_bounded_unique` selects. */
  function Selected(records: seq<HistoryRecord>, limit: int, anchor: Option<nat>): seq<HistoryRecord> {
    Take(Firsts(Ranked(records, anchor), RECORD_ID, {}), Max(1, limit))
  }

  method BoundedUnique(records: seq<HistoryRecord>, limit: int, anchor: Option<nat>)
    returns (selected: seq<HistoryRecord>)
    ensures selected == Selected(records, limit, anchor)
  {
    selected := FirstsUpTo(Sort(records, ByKey(RecordKey(anchor))), RECORD_ID, limit);
  }

  function BestUnique(records: seq<HistoryRecord>, limit: nat, anchor: Option<nat>): seq<HistoryRecord> {
    Take(Firsts(Ranked(records, anchor), RECORD_ID, {}), limit)
  }

  lemma RankedOrder(records: seq<HistoryRecord>, anchor: Option<nat>)
    ensures var le, xs := ByKey(RecordKey(anchor)), Ranked(records, anchor);
            forall j, k :: 0 <= j <= k < |xs| ==> le(xs[j], xs[k])
    ensures forall r :: r in Ranked(records, anchor) <==> r in records
  {
    var key := RecordKey(anchor);
    var xs := Ranked(records, anchor);
    forall j, k | 0 <= j <= k < |xs| ensures ByKey(key)(xs[j], xs[k]) {
      SortedByKey(records, key, j, k);
    }
    SortMembers(records, ByKey(key));
  }

  lemma {:induction false} SameIds(xs: seq<HistoryRecord>, ys: seq<HistoryRecord>)
    requires forall x :: x in xs ==> x in ys
    ensures Ids(xs, RECORD_ID) <= Ids(ys, RECORD_ID)
    decreases xs
  {
    if xs != [] {
      IdsMembers(ys, RECORD_ID, xs[0]);
      assert xs[0] in xs && forall x :: x in xs[1..] ==> x in xs;
      SameIds(xs[1..], ys);
    }
  }

  lemma KeptCount(records: seq<HistoryRecord>, anchor: Option<nat>)
    ensures |Firsts(Ranked(records, anchor), RECORD_ID, {})| == |Ids(records, RECORD_ID)|
  {
    var ranked := Ranked(records, anchor);
    RankedOrder(records, anchor);
    hide Ranked, Ids, Firsts, RecordKey;
    FirstsCount(ranked, RECORD_ID, {});
    SameIds(ranked, records);
    SameIds(records, ranked);
    assert Ids(ranked, RECORD_ID) - {} == Ids(records, RECORD_ID);
  }

  lemma KeptDistinct(records: seq<HistoryRecord>, anchor: Option<nat>)
    ensures var kept := Firsts(Ranked(records, anchor), RECORD_ID, {});
            && (forall i :: 0 <= i < |kept| ==> kept[i] in records)
            && (forall i, j :: 0 <= i < j < |kept| ==> IdentityOf(kept[i]) != IdentityOf(kept[j]))
  {
    var ranked := Ranked(records, anchor);
    var kept := Firsts(ranked, RECORD_ID, {});
    RankedOrder(records, anchor);
    hide Ranked, Firsts, RecordKey;
    FirstsMembers(ranked, RECORD_ID, {});
    FirstsDistinct(ranked, RECORD_ID, {});
    forall i | 0 <= i < |kept| ensures kept[i] in records {
      assert kept[i] in kept;
    }
    forall i, j | 0 <= i < j < |kept| ensures IdentityOf(kept[i]) != IdentityOf(kept[j]) {
      assert RECORD_ID(kept[i]) != RECORD_ID(kept[j]);
    }
  }

  lemma KeptOrdered(records: seq<HistoryRecord>, anchor: Option<nat>)
    ensures var kept := Firsts(Ranked(records, anchor), RECORD_ID, {});
            forall i, j :: 0 <= i < j < |kept| ==> ByKey(RecordKey(anchor))(kept[i], kept[j])
  {
    RankedOrder(records, anchor);
    hide Ranked, Firsts, RecordKey;
    FirstsOrdered(Ranked(records, anchor), RECORD_ID, {}, ByKey(RecordKey(anchor)));
  }

  /** The selection holds min(limit, distinct identities) records, all of them given, no two of
      one identity, in key order. */
  lemma BestUniqueShape(records: seq<HistoryRecord>, limit: nat, anchor: Option<nat>)
    ensures |BestUnique(records, limit, anchor)| == Min(limit, |Ids(records, RECORD_ID)|)
    ensures forall i :: 0 <= i < |BestUnique(records, limit, anchor)| ==>
            BestUnique(records, limit, anchor)[i] in records
    ensures forall i, j :: 0 <= i < j < |BestUnique(records, limit, anchor)| ==>
              IdentityOf(BestUnique(records, limit, anchor)[i]) != IdentityOf(BestUnique(records, limit, anchor)[j])
    ensures forall i, j :: 0 <= i < j < |BestUnique(records, limit, anchor)| ==>
              ByKey(RecordKey(anchor))(BestUnique(records, limit, anchor)[i], BestUnique(records, limit, anchor)[j])
  {
    KeptCount(records, anchor);
    KeptDistinct(records, anchor);
    KeptOrdered(records, anchor);
    hide Ranked, Firsts, Ids, RecordKey, ByKey;
  }

  /** The limit is kept exactly when it allows at least one record or there is none: a limit below
      1 still lets one record through. */
  lemma LimitKeptExactly(records: seq<HistoryRecord>, limit: int, anchor: Option<nat>)
    ensures |Selected(records, limit, anchor)| <= Max(0, limit) <==> limit >= 1 || records == []
  {
    KeptCount(records, anchor);
    if records == [] {
      assert Ids(records, RECORD_ID) == {};
    } else {
      IdsMembers(records, RECORD_ID, records[0]);
    }
  }

  lemma OneRecordDespiteZero(record: HistoryRecord, anchor: Option<nat>)
    ensures Selected([record], 0, anchor) == [record]
  {
    LimitKeptExactly([record], 0, anchor);
    KeptDistinct([record], anchor);
    KeptCount([record], anchor);
    assert Ids([record], RECORD_ID) == {IdentityOf(record)} by {
      assert [record][1..] == [];
    }
  }

  /** Nothing better is left out: each record kept has the least key of its identity, and a record
      whose identity was not kept is no better than any record kept. */
  lemma BestUniqueOptimal(records: seq<HistoryRecord>, limit: nat, anchor: Option<nat>, i: nat, r: HistoryRecord)
    requires i < |BestUnique(records, limit, anchor)| && r in records
    requires IdentityOf(r) == IdentityOf(BestUnique(records, limit, anchor)[i])
          || (forall k :: 0 <= k < |BestUnique(records, limit, anchor)| ==>
                IdentityOf(r) != IdentityOf(BestUnique(records, limit, anchor)[k]))
    ensures ByKey(RecordKey(anchor))(BestUnique(records, limit, anchor)[i], r)
  {
    var ranked := Ranked(records, anchor);
    var kept := Firsts(ranked, RECORD_ID, {});
    RankedOrder(records, anchor);
    FirstsDistinct(ranked, RECORD_ID, {});
    forall k | 0 <= k < i ensures IdentityOf(kept[..i][k]) != IdentityOf(r) {
      assert RECORD_ID(kept[k]) != RECORD_ID(kept[i]);
    }
    NotKept(kept[..i], r);
    FirstsLeast(ranked, RECORD_ID, {}, ByKey(RecordKey(anchor)), i, r);
  }

  lemma {:induction false} NotKept(xs: seq<HistoryRecord>, r: HistoryRecord)
    requires forall k :: 0 <= k < |xs| ==> IdentityOf(xs[k]) != IdentityOf(r)
    ensures IdentityOf(r) !in Ids(xs, RECORD_ID)
    decreases xs
  {
    if xs != [] {
      NotKept(xs[1..], r);
    }
  }

  // ----- what a selection loses

  /** Some record of the list has the identity of r. */
  predicate Represented(list: seq<HistoryRecord>, r: HistoryRecord) {
    exists i :: 0 <= i < |list| && IdentityOf(list[i]) == IdentityOf(r)
  }

  lemma {:induction false} IdsAttained(xs: seq<HistoryRecord>, r: HistoryRecord)
    ensures Represented(xs, r) <==> IdentityOf(r) in Ids(xs, RECORD_ID)
    decreases xs
  {
    if xs != [] {
      IdsAttained(xs[1..], r);
      if i :| 0 <= i < |xs| && IdentityOf(xs[i]) == IdentityOf(r) {
        assert i > 0 ==> xs[1..][i - 1] == xs[i];
      }
      if Represented(xs[1..], r) {
        var i :| 0 <= i < |xs[1..]| && IdentityOf(xs[1..][i]) == IdentityOf(r);
        assert xs[i + 1] == xs[1..][i];
      }
    }
  }

  lemma {:induction false} IdsSize(xs: seq<HistoryRecord>)
    ensures |Ids(xs, RECORD_ID)| <= |xs|
    decreases xs
  {
    if xs != [] {
      IdsSize(xs[1..]);
      SizeOfUnion({RECORD_ID(xs[0])}, Ids(xs[1..], RECORD_ID));
    }
  }

  lemma SizeOfUnion<T>(a: set<T>, b: set<T>)
    ensures |a + b| <= |a| + |b|
  {
    assert a + b == a + (b - a);
    assert b == (b - a) + (a * b);
  }

  lemma SizeOfSubset<T>(a: set<T>, b: set<T>)
    requires a <= b
    ensures |a| <= |b|
  {
    assert b == a + (b - a);
  }

  /** Identities that are all represented are all present. */
  lemma {:induction false} IdsCovered(xs: seq<HistoryRecord>, list: seq<HistoryRecord>)
    requires forall r :: r in xs ==> Represented(list, r)
    ensures Ids(xs, RECORD_ID) <= Ids(list, RECORD_ID)
    decreases xs
  {
    if xs != [] {
      IdsAttained(list, xs[0]);
      IdsCovered(xs[1..], list);
    }
  }

  /** The selection has min(limit, distinct identities) records, and represents every record given
      exactly when there are no more distinct identities than the limit. */
  lemma NothingLostExactly(records: seq<HistoryRecord>, limit: int, anchor: Option<nat>)
    ensures var selected := Selected(records, limit, anchor);
            && |selected| == Min(Max(1, limit), |Ids(records, RECORD_ID)|)
            && ((forall r :: r in records ==> Represented(selected, r)) <==> |Ids(records, RECORD_ID)| <= Max(1, limit))
  {
    hide Ranked, Ids, Firsts, RecordKey, Represented;
    var selected := Selected(records, limit, anchor);
    KeptCount(records, anchor);
    if |Ids(records, RECORD_ID)| <= Max(1, limit) {
      var ranked := Ranked(records, anchor);
      RankedOrder(records, anchor);
      FirstsCount(ranked, RECORD_ID, {});
      forall r | r in records ensures Represented(selected, r) {
        IdsMembers(ranked, RECORD_ID, r);
        IdsAttained(selected, r);
      }
    } else if forall r :: r in records ==> Represented(selected, r) {
      IdsCovered(records, selected);
      IdsSize(selected);
      SizeOfSubset(Ids(records, RECORD_ID), Ids(selected, RECORD_ID));
    }
  }

  // ----- the order, in the fields of the records

  /** Missing indexes sort last. */
  function IndexOrLast(r: HistoryRecord): int {
    if r.index.Some? then r.index.value else 2147483648
  }

  /** Nearer to the anchor, then in an earlier block, then at a smaller index, then by hash: what
      comes first in one of these and is level in those before. Without an anchor all are as near. */
  predicate Precedes(anchor: Option<nat>, a: HistoryRecord, b: HistoryRecord) {
    var (near, far) := if anchor.None? then (0, 0)
                       else (Abs(a.block - anchor.value), Abs(b.block - anchor.value));
    var (i, j) := (IndexOrLast(a), IndexOrLast(b));
    || near < far
    || (near == far && (a.block < b.block
                        || (a.block == b.block && (i < j || (i == j && a.hash < b.hash)))))
  }

  lemma KeyHead(a: Key, b: Key)
    requires a != [] && b != [] && KeyLe(a, b)
    ensures a[0] < b[0] || (a[0] == b[0] && KeyLe(a[1..], b[1..]))
  {
  }

  /** A record that goes before another precedes it, or the two differ at most in type. */
  lemma KeyOrder(anchor: Option<nat>, a: HistoryRecord, b: HistoryRecord)
    requires ByKey(RecordKey(anchor))(a, b)
    ensures Precedes(anchor, a, b)
            || (a.block == b.block && IndexOrLast(a) == IndexOrLast(b) && a.hash == b.hash
                && TextLe(a.recordType, b.recordType))
  {
    TextKeyOrder(a.recordType, b.recordType);
    var k, l := RecordKey(anchor)(a), RecordKey(anchor)(b);
    assert k[4..] == TextKey(a.recordType) && l[4..] == TextKey(b.recordType);
    hide KeyLe, TextKey, RecordKey;
    KeyHead(k, l);
    KeyTails(k);
    KeyTails(l);
    if k[0] == l[0] {
      KeyHead(k[1..], l[1..]);
      if k[1] == l[1] {
        KeyHead(k[2..], l[2..]);
        if k[2] == l[2] {
          KeyHead(k[3..], l[3..]);
        }
      }
    }
  }

  lemma KeyTails(k: Key)
    requires |k| >= 4
    ensures k[1..][0] == k[1] && k[1..][1..] == k[2..] && k[2..][0] == k[2] && k[2..][1..] == k[3..]
    ensures k[3..][0] == k[3] && k[3..][1..] == k[4..]
  {
  }

  /** The selection keeps what is nearest to the anchor: a record whose identity was left out is no
      nearer than any record kept. */
  lemma NearestAreKept(records: seq<HistoryRecord>, limit: nat, anchorBlock: nat, i: nat, r: HistoryRecord)
    requires i < |BestUnique(records, limit, Some(anchorBlock))| && r in records
    requires forall k :: 0 <= k < |BestUnique(records, limit, Some(anchorBlock))| ==>
               IdentityOf(r) != IdentityOf(BestUnique(records, limit, Some(anchorBlock))[k])
    ensures Abs(BestUnique(records, limit, Some(anchorBlock))[i].block - anchorBlock) <= Abs(r.block - anchorBlock)
  {
    BestUniqueOptimal(records, limit, Some(anchorBlock), i, r);
    KeyOrder(Some(anchorBlock), BestUnique(records, limit, Some(anchorBlock))[i], r);
  }
}
