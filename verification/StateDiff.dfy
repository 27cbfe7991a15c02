/** Extraction of an account and storage difference under two budgets. */
module StateDiff {
  import opened Basics
  import opened Sorting

  type Slot = nat
  type Storage = map<Slot, string>

  const MAX_STATE_ACCOUNTS: nat := 512
  const MAX_STORAGE_CHANGES: nat := 8192

  datatype StorageChange = StorageChange(slot: Slot, before: Option<string>, after: Option<string>)

  /** An account as one side of the trace reports it; absent fields are `None`. */
  datatype Account = Account(balance: Option<nat>, nonce: Option<nat>, code: Option<(nat, nat)>, storage: Storage)

  const EMPTY_ACCOUNT: Account := Account(None, None, None, map[])

  datatype ChangeType = RemovedFromPostState | CreatedOrNewlyMaterialized | Modified

  datatype AccountChange = AccountChange(
    address: Address, changeType: ChangeType, before: Account, after: Account, storageChanges: seq<StorageChange>)

  datatype Diff = Diff(accounts: seq<AccountChange>, storageChangeCount: nat, truncated: bool)

  // ----- the full storage difference of one account

  function Lookup(m: Storage, k: Slot): Option<string> {
    if k in m then Some(m[k]) else None
  }

  function ChangeAt(before: Storage, after: Storage, slot: Slot): StorageChange {
    StorageChange(slot, Lookup(before, slot), Lookup(after, slot))
  }

  function Changes(before: Storage, after: Storage, slots: seq<Slot>): seq<StorageChange> {
    if slots == [] then []
    else if Lookup(before, slots[0]) == Lookup(after, slots[0]) then Changes(before, after, slots[1..])
    else [ChangeAt(before, after, slots[0])] + Changes(before, after, slots[1..])
  }

  /** Every slot whose value differs, in slot order. */
  function FullDiff(before: Storage, after: Storage): seq<StorageChange> {
    Changes(before, after, Ascending(before.Keys + after.Keys))
  }

  method StorageDiff(before: Storage, after: Storage, remaining: nat)
    returns (selected: seq<StorageChange>, truncated: bool)
    ensures selected == Take(FullDiff(before, after), remaining)
    ensures truncated <==> |FullDiff(before, after)| > remaining
  {
    var slots := Ascending(before.Keys + after.Keys);
    selected, truncated := SelectChanges(before, after, slots, remaining);
  }

  method SelectChanges(before: Storage, after: Storage, slots: seq<Slot>, remaining: nat)
    returns (selected: seq<StorageChange>, truncated: bool)
    ensures selected == Take(Changes(before, after, slots), remaining)
    ensures truncated <==> |Changes(before, after, slots)| > remaining
  {
    hide Lookup, Take;
    selected, truncated := [], false;
    ghost var all := Changes(before, after, slots);
    assert slots[0..] == slots;
    for i := 0 to |slots|
      invariant !truncated && |selected| <= remaining
      invariant selected + Changes(before, after, slots[i..]) == all
    {
      var slot := slots[i];
      assert slots[i..][0] == slot && slots[i..][1..] == slots[i + 1..];
      if Lookup(before, slot) == Lookup(after, slot) {
        continue;
      }
      ghost var rest := Changes(before, after, slots[i + 1..]);
      var change := ChangeAt(before, after, slot);
      if |selected| >= remaining {
        truncated := true;
        TakenUpTo(selected, [change] + rest);
        return;
      }
      Associate(selected, [change], rest);
      selected := selected + [change];
    }
    assert slots[|slots|..] == [];
    TakenWhole(selected, remaining);
  }

  lemma TakenUpTo<T>(done: seq<T>, rest: seq<T>)
    ensures Take(done + rest, |done|) == done
  {
  }

  lemma TakenWhole<T>(done: seq<T>, n: nat)
    requires |done| <= n
    ensures Take(done, n) == done && done + [] == done
  {
  }

  // ----- patching

  function Set(m: Storage, slot: Slot, value: Option<string>): Storage {
    if value.Some? then m[slot := value.value] else m - {slot}
  }

  function Patch(m: Storage, changes: seq<StorageChange>): Storage
    decreases changes
  {
    if changes == [] then m else Patch(Set(m, changes[0].slot, changes[0].after), changes[1..])
  }

  function Unpatch(m: Storage, changes: seq<StorageChange>): Storage
    decreases changes
  {
    if changes == [] then m else Unpatch(Set(m, changes[0].slot, changes[0].before), changes[1..])
  }

  /** The change the other way. */
  function Reverse(change: StorageChange): StorageChange {
    change.(before := change.after, after := change.before)
  }

  function ReverseAll(changes: seq<StorageChange>): seq<StorageChange> {
    if changes == [] then [] else [Reverse(changes[0])] + ReverseAll(changes[1..])
  }

  lemma {:induction false} UnpatchIsReverse(m: Storage, changes: seq<StorageChange>)
    ensures Unpatch(m, changes) == Patch(m, ReverseAll(changes))
    decreases changes
  {
    if changes != [] {
      UnpatchIsReverse(Set(m, changes[0].slot, changes[0].before), changes[1..]);
      assert ReverseAll(changes)[1..] == ReverseAll(changes[1..]);
    }
  }

  lemma {:induction false} ChangesReverse(before: Storage, after: Storage, slots: seq<Slot>)
    ensures ReverseAll(Changes(before, after, slots)) == Changes(after, before, slots)
  {
    if slots != [] {
      ChangesReverse(before, after, slots[1..]);
      var rest := Changes(before, after, slots[1..]);
      if Lookup(before, slots[0]) != Lookup(after, slots[0]) {
        assert Changes(before, after, slots)[1..] == rest;
      }
    }
  }

  lemma {:induction false} PatchLookup(m: Storage, before: Storage, after: Storage, slots: seq<Slot>, k: Slot)
    requires Ascends(slots)
    requires forall s :: s in slots ==> Lookup(m, s) == Lookup(before, s)
    ensures Lookup(Patch(m, Changes(before, after, slots)), k) == if k in slots then Lookup(after, k) else Lookup(m, k)
    decreases slots
  {
    if slots != [] {
      var slot, rest := slots[0], slots[1..];
      var next := Changes(before, after, rest);
      var m' := if Lookup(before, slot) == Lookup(after, slot) then m else Set(m, slot, Lookup(after, slot));
      if Lookup(before, slot) != Lookup(after, slot) {
        assert Changes(before, after, slots)[1..] == next;
      }
      assert forall s :: s in rest ==> s != slot && s in slots;
      PatchLookup(m', before, after, rest, k);
    }
  }

  lemma SameLookups(a: Storage, b: Storage)
    requires forall k :: Lookup(a, k) == Lookup(b, k)
    ensures a == b
  {
    forall k ensures k in a <==> k in b {
      assert Lookup(a, k) == Lookup(b, k);
    }
    forall k | k in a ensures a[k] == b[k] {
      assert Lookup(a, k) == Lookup(b, k);
    }
  }

  /** The full difference carries the storage before to the storage after, and back. */
  lemma FullDiffPatches(before: Storage, after: Storage)
    ensures Patch(before, FullDiff(before, after)) == after
    ensures Unpatch(after, FullDiff(before, after)) == before
  {
    var slots := Ascending(before.Keys + after.Keys);
    var forward := Patch(before, FullDiff(before, after));
    forall k ensures Lookup(forward, k) == Lookup(after, k) {
      PatchLookup(before, before, after, slots, k);
      assert k in before || k in after ==> k in slots;
    }
    SameLookups(forward, after);
    ChangesReverse(before, after, slots);
    UnpatchIsReverse(after, FullDiff(before, after));
    var back := Patch(after, Changes(after, before, slots));
    forall k ensures Lookup(back, k) == Lookup(before, k) {
      PatchLookup(after, after, before, slots, k);
      assert k in before || k in after ==> k in slots;
    }
    SameLookups(back, before);
  }

  /** The difference lists exactly the slots whose value differs, once each, in slot order. */
  lemma {:induction false} ChangesMeaning(before: Storage, after: Storage, slots: seq<Slot>)
    requires Ascends(slots)
    ensures forall c :: c in Changes(before, after, slots) <==>
              c.slot in slots && c.before == Lookup(before, c.slot) && c.after == Lookup(after, c.slot)
              && c.before != c.after
    ensures forall i, j :: 0 <= i < j < |Changes(before, after, slots)| ==>
              Changes(before, after, slots)[i].slot < Changes(before, after, slots)[j].slot
  {
    if slots != [] {
      ChangesMeaning(before, after, slots[1..]);
      var rest := Changes(before, after, slots[1..]);
      assert forall s :: s in slots <==> s == slots[0] || s in slots[1..];
      forall j | 0 <= j < |rest| ensures slots[0] < rest[j].slot {
        assert rest[j] in rest;
      }
    }
  }

  // ----- all accounts

  function AccountIn(side: map<Address, Account>, a: Address): Account {
    if a in side then side[a] else EMPTY_ACCOUNT
  }

  function KindOf(pre: map<Address, Account>, post: map<Address, Account>, a: Address): ChangeType {
    if a in pre && a !in post then RemovedFromPostState
    else if a in post && a !in pre then CreatedOrNewlyMaterialized
    else Modified
  }

  function AccountDiff(pre: map<Address, Account>, post: map<Address, Account>, a: Address): seq<StorageChange> {
    FullDiff(AccountIn(pre, a).storage, AccountIn(post, a).storage)
  }

  /** The full difference over a list of accounts, account by account. */
  function TotalDiff(pre: map<Address, Account>, post: map<Address, Account>,
                     addresses: seq<Address>): seq<StorageChange>
  {
    if addresses == [] then []
    else TotalDiff(pre, post, addresses[..|addresses| - 1]) + AccountDiff(pre, post, addresses[|addresses| - 1])
  }

  function Emitted(accounts: seq<AccountChange>): seq<StorageChange> {
    if accounts == [] then [] else Emitted(accounts[..|accounts| - 1]) + accounts[|accounts| - 1].storageChanges
  }

  predicate Describes(pre: map<Address, Account>, post: map<Address, Account>, change: AccountChange, a: Address) {
    && change.address == a && change.changeType == KindOf(pre, post, a)
    && change.before == AccountIn(pre, a) && change.after == AccountIn(post, a)
    && change.storageChanges <= AccountDiff(pre, post, a)
  }

  function KeptAddresses(pre: map<Address, Account>, post: map<Address, Account>, maxAccounts: int): seq<Address> {
    Take(Ascending(pre.Keys + post.Keys), Max(0, Min(MAX_STATE_ACCOUNTS, maxAccounts)))
  }

  function StorageLimit(maxStorageChanges: int): nat {
    Max(0, Min(MAX_STORAGE_CHANGES, maxStorageChanges))
  }

  /** The state of the budget: what was emitted of `total`, and whether anything was dropped. */
  predicate Budgeted(total: seq<StorageChange>, limit: nat, emitted: seq<StorageChange>, accountsDropped: bool,
                     truncated: bool)
  {
    emitted == Take(total, limit) && (truncated <==> accountsDropped || |total| > limit)
  }

  /** One account's share of the storage budget. */
  lemma NextShare(total: seq<StorageChange>, next: seq<StorageChange>, limit: nat, emitted: seq<StorageChange>,
                  share: seq<StorageChange>, accountsDropped: bool, truncated: bool, shareTruncated: bool)
    requires Budgeted(total, limit, emitted, accountsDropped, truncated)
    requires share == Take(next, Max(0, limit - |emitted|)) && (shareTruncated <==> |next| > Max(0, limit - |emitted|))
    ensures Budgeted(total + next, limit, emitted + share, accountsDropped, truncated || shareTruncated)
  {
    assert |total| >= limit && next == [] ==> total + next == total;
  }

  method DiffAccount(pre: map<Address, Account>, post: map<Address, Account>, address: Address, remaining: nat)
    returns (change: AccountChange, truncated: bool)
    ensures Describes(pre, post, change, address)
            && change.storageChanges == Take(AccountDiff(pre, post, address), remaining)
    ensures truncated <==> |AccountDiff(pre, post, address)| > remaining
  {
    var before, after := AccountIn(pre, address), AccountIn(post, address);
    var changeType := if address in pre && address !in post then RemovedFromPostState
                      else if address in post && address !in pre then CreatedOrNewlyMaterialized
                      else Modified;
    var storageChanges;
    storageChanges, truncated := StorageDiff(before.storage, after.storage, remaining);
    change := AccountChange(address, changeType, before, after, storageChanges);
  }

  lemma TotalNext(pre: map<Address, Account>, post: map<Address, Account>, kept: seq<Address>, i: nat)
    requires i < |kept|
    ensures TotalDiff(pre, post, kept[..i + 1]) == TotalDiff(pre, post, kept[..i]) + AccountDiff(pre, post, kept[i])
  {
    assert kept[..i + 1][..i] == kept[..i];
  }

  lemma EmittedNext(accounts: seq<AccountChange>, change: AccountChange)
    ensures Emitted(accounts + [change]) == Emitted(accounts) + change.storageChanges
  {
    assert (accounts + [change])[..|accounts|] == accounts;
  }

  /** Each kept account is described in order. */
  ghost predicate DescribesAll(pre: map<Address, Account>, post: map<Address, Account>, accounts: seq<AccountChange>,
                               kept: seq<Address>)
  {
    |accounts| == |kept| && forall i :: 0 <= i < |kept| ==> Describes(pre, post, accounts[i], kept[i])
  }

  lemma DescribesNext(pre: map<Address, Account>, post: map<Address, Account>, accounts: seq<AccountChange>,
                      kept: seq<Address>,
                      i: nat, change: AccountChange)
    requires i < |kept| && DescribesAll(pre, post, accounts, kept[..i]) && Describes(pre, post, change, kept[i])
    ensures DescribesAll(pre, post, accounts + [change], kept[..i + 1])
  {
    hide Describes;
    forall j | 0 <= j < i + 1 ensures Describes(pre, post, (accounts + [change])[j], kept[..i + 1][j]) {
      assert kept[..i + 1][j] == kept[j];
      if j < i {
        assert Describes(pre, post, accounts[j], kept[..i][j]);
      }
    }
  }

  lemma NoAccounts(pre: map<Address, Account>, post: map<Address, Account>, limit: nat, accountsDropped: bool)
    ensures DescribesAll(pre, post, [], []) && Emitted([]) == []
    ensures Budgeted(TotalDiff(pre, post, []), limit, Emitted([]), accountsDropped, accountsDropped)
  {
  }

  method DiffAccounts(pre: map<Address, Account>, post: map<Address, Account>, kept: seq<Address>, limit: nat,
                      accountsDropped: bool)
    returns (accounts: seq<AccountChange>, totalStorage: nat, truncated: bool)
    ensures DescribesAll(pre, post, accounts, kept)
    ensures Budgeted(TotalDiff(pre, post, kept), limit, Emitted(accounts), accountsDropped, truncated)
    ensures totalStorage == |Emitted(accounts)|
  {
    hide AccountDiff, TotalDiff, Emitted, DescribesAll, Describes, Budgeted, Take;
    accounts, totalStorage, truncated := [], 0, accountsDropped;
    assert kept[..0] == [];
    NoAccounts(pre, post, limit, accountsDropped);
    for i := 0 to |kept|
      invariant DescribesAll(pre, post, accounts, kept[..i])
      invariant Budgeted(TotalDiff(pre, post, kept[..i]), limit, Emitted(accounts), accountsDropped, truncated)
      invariant totalStorage == |Emitted(accounts)|
    {
      var change, shareTruncated := DiffAccount(pre, post, kept[i], Max(0, limit - totalStorage));
      totalStorage := totalStorage + |change.storageChanges|;
      TotalNext(pre, post, kept, i);
      EmittedNext(accounts, change);
      NextShare(TotalDiff(pre, post, kept[..i]), AccountDiff(pre, post, kept[i]), limit, Emitted(accounts),
                change.storageChanges, accountsDropped, truncated, shareTruncated);
      DescribesNext(pre, post, accounts, kept, i, change);
      truncated := truncated || shareTruncated;
      accounts := accounts + [change];
    }
    assert kept[..|kept|] == kept;
  }

  /** The kept accounts are a prefix of all accounts in address order, each with its kind and both
      sides; the changes emitted over them are a prefix of the full difference over them, counted
      exactly; `truncated` is set exactly when an account or a changed slot was dropped. */
  ghost predicate Reports(pre: map<Address, Account>, post: map<Address, Account>, maxAccounts: int,
                          maxStorageChanges: int, d: Diff)
  {
    var kept := KeptAddresses(pre, post, maxAccounts);
    var total := TotalDiff(pre, post, kept);
    && DescribesAll(pre, post, d.accounts, kept)
    && Emitted(d.accounts) == Take(total, StorageLimit(maxStorageChanges))
    && d.storageChangeCount == Min(StorageLimit(maxStorageChanges), |total|)
    && (d.truncated <==> |pre.Keys + post.Keys| > |kept| || |total| > StorageLimit(maxStorageChanges))
  }

  method ParseStateDiff(pre: map<Address, Account>, post: map<Address, Account>, maxAccounts: int,
                        maxStorageChanges: int)
    returns (d: Diff)
    ensures Reports(pre, post, maxAccounts, maxStorageChanges, d)
  {
    var addresses := Ascending(pre.Keys + post.Keys);
    var accountLimit := Max(0, Min(MAX_STATE_ACCOUNTS, maxAccounts));
    var storageLimit := StorageLimit(maxStorageChanges);
    var truncated := |addresses| > accountLimit;
    var accounts, totalStorage;
    accounts, totalStorage, truncated :=
      DiffAccounts(pre, post, Take(addresses, accountLimit), storageLimit, truncated);
    d := Diff(accounts, totalStorage, truncated);
  }

  // ----- what an untruncated report says

  lemma {:induction false} WholeShares(pre: map<Address, Account>, post: map<Address, Account>,
                                       accounts: seq<AccountChange>, kept: seq<Address>)
    requires DescribesAll(pre, post, accounts, kept) && |Emitted(accounts)| == |TotalDiff(pre, post, kept)|
    ensures forall i :: 0 <= i < |kept| ==> accounts[i].storageChanges == AccountDiff(pre, post, kept[i])
  {
    hide AccountDiff;
    if kept != [] {
      var n := |kept| - 1;
      SharesFit(pre, post, accounts[..n], kept[..n]);
      assert Describes(pre, post, accounts[n], kept[n]);
      WholeShares(pre, post, accounts[..n], kept[..n]);
      forall i | 0 <= i < |kept| ensures accounts[i].storageChanges == AccountDiff(pre, post, kept[i]) {
        assert i < n ==> accounts[..n][i] == accounts[i] && kept[..n][i] == kept[i];
      }
    }
  }

  lemma {:induction false} SharesFit(pre: map<Address, Account>, post: map<Address, Account>,
                                       accounts: seq<AccountChange>, kept: seq<Address>)
    requires DescribesAll(pre, post, accounts, kept)
    ensures |Emitted(accounts)| <= |TotalDiff(pre, post, kept)|
  {
    hide AccountDiff;
    if kept != [] {
      var n := |kept| - 1;
      assert Describes(pre, post, accounts[n], kept[n]);
      SharesFit(pre, post, accounts[..n], kept[..n]);
    }
  }

  /** Nothing dropped: every account of either side is reported, its changes carry its storage
      before to its storage after, and undoing them carries it back. */
  lemma UntruncatedDiffPatches(pre: map<Address, Account>, post: map<Address, Account>, maxAccounts: int,
                               maxStorageChanges: int, d: Diff, a: Address)
    requires Reports(pre, post, maxAccounts, maxStorageChanges, d) && !d.truncated
    requires a in pre || a in post
    ensures exists i :: 0 <= i < |d.accounts| && d.accounts[i].address == a
                        && Patch(AccountIn(pre, a).storage, d.accounts[i].storageChanges) == AccountIn(post, a).storage
                        && Unpatch(AccountIn(post, a).storage, d.accounts[i].storageChanges)
                           == AccountIn(pre, a).storage
  {
    var kept := KeptAddresses(pre, post, maxAccounts);
    WholeShares(pre, post, d.accounts, kept);
    assert a in Ascending(pre.Keys + post.Keys);
    assert kept == Ascending(pre.Keys + post.Keys);
    var i :| 0 <= i < |kept| && kept[i] == a;
    assert Describes(pre, post, d.accounts[i], a);
    FullDiffPatches(AccountIn(pre, a).storage, AccountIn(post, a).storage);
  }

  // ----- what a report says of each account

  /** Report entries come in address order, without repetition, and say of each account whether it was
      removed, created or modified, with the fields of either side, absent where the side does not
      list it; at most 512 accounts and 8,192 changed slots are kept, or fewer if the caller asks. */
  lemma ReportMeaning(pre: map<Address, Account>, post: map<Address, Account>, maxAccounts: int,
                      maxStorageChanges: int, d: Diff, i: nat)
    requires Reports(pre, post, maxAccounts, maxStorageChanges, d)
    ensures |d.accounts| == Min(|pre.Keys + post.Keys|, if maxAccounts < 0 then 0 else Min(512, maxAccounts))
    ensures d.storageChangeCount == |Emitted(d.accounts)|
            && d.storageChangeCount <= (if maxStorageChanges < 0 then 0 else Min(8192, maxStorageChanges))
    ensures i < |d.accounts| ==>
              var a, change := d.accounts[i].address, d.accounts[i];
              && (i > 0 ==> d.accounts[i - 1].address < a)
              && (a in pre || a in post)
              && (change.changeType == RemovedFromPostState <==> a !in post)
              && (change.changeType == CreatedOrNewlyMaterialized <==> a !in pre)
              && (change.changeType == Modified <==> a in pre && a in post)
              && change.before == (if a in pre then pre[a] else Account(None, None, None, map[]))
              && change.after == (if a in post then post[a] else Account(None, None, None, map[]))
  {
    hide AccountDiff, TotalDiff, Emitted;
    var kept := KeptAddresses(pre, post, maxAccounts);
    if i < |d.accounts| {
      assert Describes(pre, post, d.accounts[i], kept[i]);
      assert kept[i] in Ascending(pre.Keys + post.Keys);
      if i > 0 {
        assert Describes(pre, post, d.accounts[i - 1], kept[i - 1]);
      }
    }
  }
}
