/** Growing the addresses linked to a candidate along its committed transfers. */
module Linking {
  import opened Basics
  import opened CallTrace
  import opened History

  datatype Transfer = Transfer(sender: Address, recipient: Address, effect: Effect)

  // ----- the addresses a candidate's own records name

  /** The second component of `_record_reason`. */
  function Counterpart(address: Address, record: HistoryRecord): Option<Address> {
    if record.sender == Some(address) then record.recipient
    else if record.recipient == Some(address) then record.sender
    else None
  }

  function NamedBy(address: Address, record: HistoryRecord): set<Address> {
    var c := Counterpart(address, record);
    {address} + (if c.Some? && c.value != ZERO_ADDRESS then {c.value} else {})
  }

  function Named(records: seq<(Address, HistoryRecord)>): set<Address> {
    if records == [] then {}
    else Named(records[..|records| - 1]) + NamedBy(records[|records| - 1].0, records[|records| - 1].1)
  }

  /** A record of an address names the address itself and, unless it is zero, the recipient of what it
      sent or else the sender of what it received. */
  predicate Names(entry: (Address, HistoryRecord), a: Address) {
    var (address, r) := entry;
    || a == address
    || (a != ZERO_ADDRESS && r.sender == Some(address) && r.recipient == Some(a))
    || (a != ZERO_ADDRESS && r.sender != Some(address) && r.recipient == Some(address) && r.sender == Some(a))
  }

  lemma {:induction false} NamedMeaning(records: seq<(Address, HistoryRecord)>, a: Address)
    ensures a in Named(records) <==> exists i :: 0 <= i < |records| && Names(records[i], a)
  {
    if records != [] {
      var n := |records| - 1;
      NamedMeaning(records[..n], a);
      assert forall i :: 0 <= i < n ==> records[..n][i] == records[i];
      if i :| 0 <= i < n && Names(records[..n][i], a) {
        assert Names(records[i], a);
      }
      assert a in NamedBy(records[n].0, records[n].1) <==> Names(records[n], a);
    }
  }

  // ----- one pass over the transfers

  function Link(linked: set<Address>, t: Transfer): set<Address> {
    if t.effect != Committed then linked
    else
      var forward := if t.sender in linked && t.recipient != ZERO_ADDRESS then linked + {t.recipient} else linked;
      if t.recipient in forward && t.sender != ZERO_ADDRESS then forward + {t.sender} else forward
  }

  function Grow(linked: set<Address>, transfers: seq<Transfer>): set<Address> {
    if transfers == [] then linked
    else Link(Grow(linked, transfers[..|transfers| - 1]), transfers[|transfers| - 1])
  }

  method LinkedAddresses(records: seq<(Address, HistoryRecord)>, transfers: seq<Transfer>)
    returns (linked: set<Address>)
    ensures linked == Grow(Named(records), transfers)
  {
    linked := {};
    for i := 0 to |records|
      invariant linked == Named(records[..i])
    {
      var (address, record) := records[i];
      assert records[..i + 1][..i] == records[..i];
      var counterpart := Counterpart(address, record);
      linked := linked + {address};
      if counterpart.Some? && counterpart.value != ZERO_ADDRESS {
        linked := linked + {counterpart.value};
      }
    }
    assert records[..|records|] == records;
    for i := 0 to |transfers|
      invariant linked == Grow(Named(records), transfers[..i])
    {
      var transfer := transfers[i];
      assert transfers[..i + 1][..i] == transfers[..i];
      if transfer.effect != Committed {
        continue;
      }
      if transfer.sender in linked && transfer.recipient != ZERO_ADDRESS {
        linked := linked + {transfer.recipient};
      }
      if transfer.recipient in linked && transfer.sender != ZERO_ADDRESS {
        linked := linked + {transfer.sender};
      }
    }
    assert transfers[..|transfers|] == transfers;
  }

  // ----- the reference: walks along committed transfers in list order

  datatype Hop = Hop(index: nat, to: Address)

  /** Transfer `t` joins `a` to the non-zero address `b`, in either direction. */
  predicate Joins(t: Transfer, a: Address, b: Address) {
    && t.effect == Committed && b != ZERO_ADDRESS
    && ((t.sender == a && t.recipient == b) || (t.recipient == a && t.sender == b))
  }

  function End(start: Address, hops: seq<Hop>): Address {
    if hops == [] then start else hops[|hops| - 1].to
  }

  function LastIndex(hops: seq<Hop>): int {
    if hops == [] then 0 else hops[|hops| - 1].index
  }

  /** A walk from `start` whose hops use committed transfers at non-decreasing list positions. */
  predicate IsWalk(start: Address, hops: seq<Hop>, transfers: seq<Transfer>) {
    hops == [] ||
    var init, last := hops[..|hops| - 1], hops[|hops| - 1];
    && IsWalk(start, init, transfers)
    && LastIndex(init) <= last.index < |transfers|
    && Joins(transfers[last.index], End(start, init), last.to)
  }

  ghost predicate Reachable(base: set<Address>, transfers: seq<Transfer>, a: Address) {
    exists start, hops :: start in base && IsWalk(start, hops, transfers) && End(start, hops) == a
  }

  lemma {:induction false} WalkExtends(start: Address, hops: seq<Hop>, transfers: seq<Transfer>, t: Transfer)
    requires IsWalk(start, hops, transfers)
    ensures IsWalk(start, hops, transfers + [t])
    ensures hops != [] ==> LastIndex(hops) < |transfers|
  {
    if hops != [] {
      WalkExtends(start, hops[..|hops| - 1], transfers, t);
    }
  }

  lemma ReachExtends(base: set<Address>, transfers: seq<Transfer>, t: Transfer, a: Address, b: Address)
    requires Reachable(base, transfers, a) && Joins(t, a, b)
    ensures Reachable(base, transfers + [t], b)
  {
    var start, hops :| start in base && IsWalk(start, hops, transfers) && End(start, hops) == a;
    WalkExtends(start, hops, transfers, t);
    var longer := hops + [Hop(|transfers|, b)];
    assert longer[..|longer| - 1] == hops;
    assert IsWalk(start, longer, transfers + [t]) && End(start, longer) == b;
  }

  lemma ReachKept(base: set<Address>, transfers: seq<Transfer>, t: Transfer, a: Address)
    requires Reachable(base, transfers, a)
    ensures Reachable(base, transfers + [t], a)
  {
    var start, hops :| start in base && IsWalk(start, hops, transfers) && End(start, hops) == a;
    WalkExtends(start, hops, transfers, t);
    assert IsWalk(start, hops, transfers + [t]);
  }

  lemma {:induction false} GrownIsReachable(base: set<Address>, transfers: seq<Transfer>, a: Address)
    requires a in Grow(base, transfers)
    ensures Reachable(base, transfers, a)
    decreases |transfers|
  {
    if transfers == [] {
      assert IsWalk(a, [], transfers) && End(a, []) == a;
    } else {
      var init, t := transfers[..|transfers| - 1], transfers[|transfers| - 1];
      assert transfers == init + [t];
      var before := Grow(base, init);
      if a in before {
        GrownIsReachable(base, init, a);
        ReachKept(base, init, t, a);
      } else {
        var other := if a == t.recipient && t.sender in before then t.sender else t.recipient;
        GrownIsReachable(base, init, other);
        ReachExtends(base, init, t, other, a);
      }
    }
  }

  lemma {:induction false} GrowKeeps(base: set<Address>, transfers: seq<Transfer>, m: nat, n: nat)
    requires m <= n <= |transfers|
    ensures Grow(base, transfers[..m]) <= Grow(base, transfers[..n])
    decreases n
  {
    if m < n {
      GrowKeeps(base, transfers, m, n - 1);
      assert transfers[..n][..n - 1] == transfers[..n - 1];
    }
  }

  /** A walk never leaves the set grown up to the last transfer it uses. */
  lemma {:induction false} WalkIsGrown(base: set<Address>, transfers: seq<Transfer>, start: Address, hops: seq<Hop>)
    requires start in base && IsWalk(start, hops, transfers)
    ensures hops == [] ==> start in Grow(base, transfers[..0])
    ensures hops != [] ==>
            LastIndex(hops) < |transfers| && End(start, hops) in Grow(base, transfers[..LastIndex(hops) + 1])
    decreases |hops|
  {
    if hops != [] {
      var init, last := hops[..|hops| - 1], hops[|hops| - 1];
      WalkIsGrown(base, transfers, start, init);
      var n := last.index;
      assert transfers[..n + 1][..n] == transfers[..n];
      if init == [] {
        GrowKeeps(base, transfers, 0, n);
      } else if LastIndex(init) < n {
        GrowKeeps(base, transfers, LastIndex(init) + 1, n);
      }
    }
  }

  /** The one pass finds exactly what is reachable; attempted and unknown transfers never
      contribute, and the zero address is never linked through. */
  lemma GrowIsReachability(base: set<Address>, transfers: seq<Transfer>, a: Address)
    ensures a in Grow(base, transfers) <==> Reachable(base, transfers, a)
  {
    if a in Grow(base, transfers) {
      GrownIsReachable(base, transfers, a);
    }
    if Reachable(base, transfers, a) {
      var start, hops :| start in base && IsWalk(start, hops, transfers) && End(start, hops) == a;
      WalkIsGrown(base, transfers, start, hops);
      GrowKeeps(base, transfers, if hops == [] then 0 else LastIndex(hops) + 1, |transfers|);
      assert transfers[..|transfers|] == transfers;
    }
  }

  lemma {:induction false} ZeroNeverLinked(base: set<Address>, transfers: seq<Transfer>)
    requires ZERO_ADDRESS !in base
    ensures 0 !in Grow(base, transfers)
  {
    if transfers != [] {
      ZeroNeverLinked(base, transfers[..|transfers| - 1]);
    }
  }

  /** More evidence never links fewer addresses. */
  lemma GrowMonotone(base: set<Address>, wider: set<Address>, transfers: seq<Transfer>)
    requires base <= wider
    ensures Grow(base, transfers) <= Grow(wider, transfers)
  {
    forall a | a in Grow(base, transfers) ensures a in Grow(wider, transfers) {
      GrowIsReachability(base, transfers, a);
      var start, hops :| start in base && IsWalk(start, hops, transfers) && End(start, hops) == a;
      GrowIsReachability(wider, transfers, a);
    }
  }
}
