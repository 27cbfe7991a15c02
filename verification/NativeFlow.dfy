/** Revert classification of a flattened trace and the native-value ledger read off it. */
module NativeFlow {
  import opened Basics
  import opened CallTrace
  import opened CallPaths

  datatype TxStatus = Succeeded | Reverted | Indeterminate

  // ----- classification

  function FailedPaths(calls: seq<CallFrame>): (paths: seq<string>)
    ensures forall f :: f in paths <==> exists i :: 0 <= i < |calls| && FailedFrame(calls[i]) && calls[i].path == f
  {
    if calls == [] then []
    else
      var rest := FailedPaths(calls[..|calls| - 1]);
      var last := calls[|calls| - 1];
      if FailedFrame(last) then rest + [last.path] else rest
  }

  predicate HasFailedAncestor(path: string, failedPaths: seq<string>) {
    exists i :: 0 <= i < |failedPaths| && PathCovers(failedPaths[i], path)
  }

  function EffectFor(status: TxStatus, rolledBack: bool): Effect {
    if status.Reverted? || rolledBack then AttemptedReverted
    else if status.Succeeded? then Effect.Committed
    else Unknown
  }

  function Classified(calls: seq<CallFrame>, status: TxStatus): seq<CallFrame> {
    seq(|calls|, i requires 0 <= i < |calls| =>
      calls[i].(effect := EffectFor(status, HasFailedAncestor(calls[i].path, FailedPaths(calls)))))
  }

  method ClassifyCallEffects(calls: seq<CallFrame>, status: TxStatus) returns (classified: seq<CallFrame>)
    ensures classified == Classified(calls, status)
  {
    var failedPaths := [];
    for i := 0 to |calls|
      invariant failedPaths == FailedPaths(calls[..i])
    {
      assert calls[..i + 1][..i] == calls[..i];
      if calls[i].error.Some? || calls[i].revertReason.Some? {
        failedPaths := failedPaths + [calls[i].path];
      }
    }
    assert calls[..|calls|] == calls;
    classified := [];
    for i := 0 to |calls|
      invariant classified == Classified(calls, status)[..i]
    {
      var effect;
      if status.Reverted? || HasFailedAncestor(calls[i].path, failedPaths) {
        effect := AttemptedReverted;
      } else if status.Succeeded? {
        effect := Effect.Committed;
      } else {
        effect := Unknown;
      }
      classified := classified + [calls[i].(effect := effect)];
    }
  }

  /** A node is rolled back when it, or a node above it, failed. */
  ghost predicate RolledBack(root: Node, p: Position) {
    exists q :: q <= p && Reaches(root, q) && FailedNode(At(root, q))
  }

  lemma RolledBackChild(root: Node, p: Position, i: nat)
    requires Reaches(root, p + [i])
    ensures RolledBack(root, p + [i]) <==> RolledBack(root, p) || FailedNode(At(root, p + [i]))
  {
    var c := p + [i];
    if q :| q <= c && Reaches(root, q) && FailedNode(At(root, q)) {
      assert |q| == |c| ==> q == c;
      assert |q| < |c| ==> q <= p;
    }
    if q :| q <= p && Reaches(root, q) && FailedNode(At(root, q)) {
      assert p <= c;
      assert q <= c;
    }
  }

  /** A retained frame's failed ancestors are retained before it, however the list is capped. */
  lemma AncestorRetained(root: Node, cap: nat, k: nat, q: Position)
    requires |Positions(root, [])| == |Preorder(root, 0, "0")|
    requires k < |Take(Preorder(root, 0, "0"), cap)|
    requires q <= Positions(root, [])[k] && Reaches(root, q) && FailedNode(At(root, q))
    ensures PathText(q) in FailedPaths(Take(Preorder(root, 0, "0"), cap))
  {
    PreorderStructure(root);
    var ps := Positions(root, []);
    assert q in ps;
    var j :| 0 <= j < |ps| && ps[j] == q;
    BeforeAsymmetric(q, ps[k]);
    if q != ps[k] {
      assert q < ps[k];
      PrefixIsBefore(q, ps[k]);
    }
    assert j <= k;
    assert FailedFrame(Take(Preorder(root, 0, "0"), cap)[j]);
  }

  /** The frame at place j of the listing is the node at position j. */
  lemma ListedFrame(root: Node, j: nat)
    requires j < |Preorder(root, 0, "0")|
    ensures |Positions(root, [])| == |Preorder(root, 0, "0")| && Reaches(root, Positions(root, [])[j])
    ensures var p := Positions(root, [])[j];
            && Preorder(root, 0, "0")[j].path == PathText(p)
            && (FailedFrame(Preorder(root, 0, "0")[j]) <==> FailedNode(At(root, p)))
  {
    PreorderStructure(root);
    hide Preorder, Positions, PathText, Reaches, At;
  }

  lemma FailedPathIsAncestor(root: Node, cap: nat, k: nat, f: string)
    requires |Positions(root, [])| == |Preorder(root, 0, "0")|
    requires k < |Take(Preorder(root, 0, "0"), cap)|
    requires f in FailedPaths(Take(Preorder(root, 0, "0"), cap))
    requires PathCovers(f, PathText(Positions(root, [])[k]))
    ensures RolledBack(root, Positions(root, [])[k])
  {
    hide Preorder, Positions, PathText, PathCovers, Reaches, At, FailedNode, FailedFrame, FailedPaths;
    var ps, frames := Positions(root, []), Take(Preorder(root, 0, "0"), cap);
    var j :| 0 <= j < |frames| && FailedFrame(frames[j]) && frames[j].path == f;
    ListedFrame(root, j);
    PathCoversIsAncestry(ps[j], ps[k]);
  }

  /** However the list is capped, each retained frame is classified by the whole tree. */
  lemma ClassificationMeaning(root: Node, cap: nat, status: TxStatus, k: nat)
    requires k < |Take(Preorder(root, 0, "0"), cap)|
    ensures |Positions(root, [])| == |Preorder(root, 0, "0")|
    ensures Classified(Take(Preorder(root, 0, "0"), cap), status)[k]
         == Preorder(root, 0, "0")[k].(effect := EffectFor(status, RolledBack(root, Positions(root, [])[k])))
  {
    PreorderLists(root, root, []);
    var p := Positions(root, [])[k];
    var failed := FailedPaths(Take(Preorder(root, 0, "0"), cap));
    if RolledBack(root, p) {
      var q :| q <= p && Reaches(root, q) && FailedNode(At(root, q));
      AncestorRetained(root, cap, k, q);
      PathCoversIsAncestry(q, p);
      assert HasFailedAncestor(PathText(p), failed);
    } else if HasFailedAncestor(PathText(p), failed) {
      var i :| 0 <= i < |failed| && PathCovers(failed[i], PathText(p));
      FailedPathIsAncestor(root, cap, k, failed[i]);
    }
  }

  lemma CapKeepsEffects(root: Node, cap: nat, status: TxStatus)
    ensures Classified(Take(Preorder(root, 0, "0"), cap), status)
         == Take(Classified(Preorder(root, 0, "0"), status), cap)
  {
    var all := Preorder(root, 0, "0");
    assert Take(all, |all|) == all;
    forall k | 0 <= k < |Take(all, cap)|
      ensures Classified(Take(all, cap), status)[k] == Classified(all, status)[k]
    {
      ClassificationMeaning(root, cap, status, k);
      ClassificationMeaning(root, |all|, status, k);
    }
  }

  // ----- native transfers

  datatype NativeTransfer = NativeTransfer(
    transferId: string, sender: Address, recipient: Address, amount: int,
    source: string, evidenceRef: string, effect: Effect)

  /** The transaction's own from, to and value, used when there is no trace. */
  datatype TopLevel = TopLevel(sender: Option<Address>, recipient: Option<Address>, value: int)

  const VALUE_TRANSFER_CALL_TYPES: set<string> := {"CALL", "CREATE", "CREATE2", "SELFDESTRUCT"}

  predicate MovesValue(callType: string, sender: Option<Address>, recipient: Option<Address>, value: int) {
    value > 0 && sender.Some? && recipient.Some? && callType in VALUE_TRANSFER_CALL_TYPES
  }

  function FrameTransfers(frame: CallFrame): seq<NativeTransfer> {
    if MovesValue(frame.callType, frame.sender, frame.recipient, frame.value) then
      [NativeTransfer("native:" + frame.path, frame.sender.value, frame.recipient.value, frame.value,
                      "call_trace", "call:" + frame.path, frame.effect)]
    else []
  }

  function TraceTransfers(frames: seq<CallFrame>): seq<NativeTransfer> {
    if frames == [] then [] else FrameTransfers(frames[0]) + TraceTransfers(frames[1..])
  }

  function TopLevelTransfers(tx: TopLevel, status: TxStatus): seq<NativeTransfer> {
    if MovesValue("CALL", tx.sender, tx.recipient, tx.value) then
      [NativeTransfer("native:0", tx.sender.value, tx.recipient.value, tx.value,
                      "transaction", "transaction", EffectFor(status, false))]
    else []
  }

  lemma {:induction false} TraceTransfersAppend(a: seq<CallFrame>, b: seq<CallFrame>)
    ensures TraceTransfers(a + b) == TraceTransfers(a) + TraceTransfers(b)
  {
    if a == [] {
      assert a + b == b;
    } else {
      hide FrameTransfers;
      TraceTransfersAppend(a[1..], b);
      assert (a + b)[0] == a[0] && (a + b)[1..] == a[1..] + b;
      Associate(FrameTransfers(a[0]), TraceTransfers(a[1..]), TraceTransfers(b));
    }
  }

  method NativeTransfers(calls: seq<CallFrame>, tx: TopLevel, status: TxStatus)
    returns (transfers: seq<NativeTransfer>)
    ensures transfers == if calls != [] then TraceTransfers(calls) else TopLevelTransfers(tx, status)
  {
    transfers := [];
    if calls == [] {
      if tx.value > 0 && tx.sender.Some? && tx.recipient.Some? {
        var effect := if status.Succeeded? then Effect.Committed
                      else if status.Reverted? then AttemptedReverted
                      else Unknown;
        transfers := [NativeTransfer("native:0", tx.sender.value, tx.recipient.value, tx.value,
                                     "transaction", "transaction", effect)];
      }
      return;
    }
    for i := 0 to |calls|
      invariant transfers == TraceTransfers(calls[..i])
    {
      var frame := calls[i];
      assert calls[..i + 1] == calls[..i] + [frame];
      TraceTransfersAppend(calls[..i], [frame]);
      if frame.value <= 0 || frame.sender.None? || frame.recipient.None?
         || frame.callType !in VALUE_TRANSFER_CALL_TYPES {
        continue;
      }
      transfers := transfers + [
        NativeTransfer("native:" + frame.path, frame.sender.value, frame.recipient.value, frame.value,
                       "call_trace", "call:" + frame.path, frame.effect)];
    }
    assert calls[..|calls|] == calls;
  }

  // ----- the reference: nested execution with rollback

  datatype Move = Move(sender: Address, recipient: Address, amount: int)
  type Balances = map<Address, int>

  function Balance(b: Balances, a: Address): int {
    if a in b then b[a] else 0
  }

  function Pay(b: Balances, m: Move): Balances {
    var debited := b[m.sender := Balance(b, m.sender) - m.amount];
    debited[m.recipient := Balance(debited, m.recipient) + m.amount]
  }

  function OwnMoves(node: Node): seq<Move>
    requires node.Frame?
  {
    if MovesValue(CallType(node), node.sender, node.recipient, node.value)
    then [Move(node.sender.value, node.recipient.value, node.value)] else []
  }

  /** Run one node: move its value, run its children in order, and restore the balances on
      entry if the node failed. */
  function Execute(node: Node, b: Balances): Balances
    decreases node, 1
  {
    if node.Junk? then b
    else
      var after := ExecuteAll(node.calls, Replay(OwnMoves(node), b));
      if FailedNode(node) then b else after
  }

  function ExecuteAll(nodes: seq<Node>, b: Balances): Balances
    decreases nodes, 0
  {
    if nodes == [] then b else ExecuteAll(nodes[1..], Execute(nodes[0], b))
  }

  function ExecuteTransaction(root: Node, status: TxStatus, b: Balances): Balances {
    if status.Succeeded? then Execute(root, b) else b
  }

  function Replay(moves: seq<Move>, b: Balances): Balances {
    if moves == [] then b else Replay(moves[1..], Pay(b, moves[0]))
  }

  function CommittedMove(t: NativeTransfer): seq<Move> {
    if t.effect == Effect.Committed then [Move(t.sender, t.recipient, t.amount)] else []
  }

  function CommittedMoves(transfers: seq<NativeTransfer>): seq<Move> {
    if transfers == [] then [] else CommittedMove(transfers[0]) + CommittedMoves(transfers[1..])
  }

  lemma {:induction false} ReplayAppend(a: seq<Move>, c: seq<Move>, b: Balances)
    ensures Replay(a + c, b) == Replay(c, Replay(a, b))
  {
    if a == [] {
      assert a + c == c;
    } else {
      ReplayAppend(a[1..], c, Pay(b, a[0]));
      assert (a + c)[1..] == a[1..] + c;
    }
  }

  lemma {:induction false} CommittedMovesAppend(a: seq<NativeTransfer>, c: seq<NativeTransfer>)
    ensures CommittedMoves(a + c) == CommittedMoves(a) + CommittedMoves(c)
  {
    if a == [] {
      assert a + c == c;
    } else {
      hide CommittedMove;
      CommittedMovesAppend(a[1..], c);
      assert (a + c)[0] == a[0] && (a + c)[1..] == a[1..] + c;
      Associate(CommittedMove(a[0]), CommittedMoves(a[1..]), CommittedMoves(c));
    }
  }

  // ----- the ledger of surviving moves, by recursion on the tree

  function Ledger(node: Node): seq<Move>
    decreases node, 1
  {
    if node.Junk? || FailedNode(node) then [] else OwnMoves(node) + LedgerAll(node.calls)
  }

  function LedgerAll(nodes: seq<Node>): seq<Move>
    decreases nodes, 0
  {
    if nodes == [] then [] else Ledger(nodes[0]) + LedgerAll(nodes[1..])
  }

  lemma {:induction false} ReplayLedger(node: Node, b: Balances)
    ensures Replay(Ledger(node), b) == Execute(node, b)
    decreases node, 1
  {
    if node.Frame? && !FailedNode(node) {
      ReplayAppend(OwnMoves(node), LedgerAll(node.calls), b);
      ReplayLedgerAll(node.calls, Replay(OwnMoves(node), b));
    }
  }

  lemma {:induction false} ReplayLedgerAll(nodes: seq<Node>, b: Balances)
    ensures Replay(LedgerAll(nodes), b) == ExecuteAll(nodes, b)
    decreases nodes, 0
  {
    if nodes != [] {
      ReplayAppend(Ledger(nodes[0]), LedgerAll(nodes[1..]), b);
      ReplayLedger(nodes[0], b);
      ReplayLedgerAll(nodes[1..], Execute(nodes[0], b));
    }
  }

  /** The moves of the nodes at `ps` that no failure rolls back. */
  ghost function MovesAt(root: Node, ps: seq<Position>): seq<Move> {
    if ps == [] then []
    else
      (if Reaches(root, ps[0]) && !RolledBack(root, ps[0]) then OwnMoves(At(root, ps[0])) else [])
      + MovesAt(root, ps[1..])
  }

  lemma {:induction false} MovesAtAppend(root: Node, a: seq<Position>, c: seq<Position>)
    ensures MovesAt(root, a + c) == MovesAt(root, a) + MovesAt(root, c)
  {
    hide Reaches, RolledBack, OwnMoves;
    if a == [] {
      assert a + c == c;
    } else {
      assert (a + c)[0] == a[0] && (a + c)[1..] == a[1..] + c;
      MovesAtAppend(root, a[1..], c);
      var own := if Reaches(root, a[0]) && !RolledBack(root, a[0]) then OwnMoves(At(root, a[0])) else [];
      Associate(own, MovesAt(root, a[1..]), MovesAt(root, c));
    }
  }

  lemma {:induction false} MovesAtSubtree(root: Node, node: Node, p: Position)
    requires node.Frame? ==> Reaches(root, p) && At(root, p) == node
    ensures node.Frame? && RolledBack(root, p) ==> MovesAt(root, Positions(node, p)) == []
    ensures !(node.Frame? && RolledBack(root, p)) ==> MovesAt(root, Positions(node, p)) == Ledger(node)
    decreases node, 1
  {
    if node.Frame? {
      assert node.calls[0..] == node.calls;
      MovesAtChildren(root, node.calls, 0, p);
      assert Positions(node, p)[1..] == PositionsFrom(node.calls, 0, p);
      if FailedNode(node) {
        assert p <= p && Reaches(root, p);
      }
    }
  }

  lemma {:induction false} MovesAtChildren(root: Node, nodes: seq<Node>, index: nat, p: Position)
    requires Reaches(root, p)
    requires index + |nodes| == |At(root, p).calls| && nodes == At(root, p).calls[index..]
    ensures MovesAt(root, PositionsFrom(nodes, index, p)) == if RolledBack(root, p) then [] else LedgerAll(nodes)
    decreases nodes, 0
  {
    if nodes != [] {
      var child := p + [index];
      assert nodes[0] == At(root, p).calls[index];
      ReachesAppend(root, p, index);
      if nodes[0].Frame? {
        RolledBackChild(root, p, index);
      }
      MovesAtSubtree(root, nodes[0], child);
      MovesAtChildren(root, nodes[1..], index + 1, p);
      MovesAtAppend(root, Positions(nodes[0], child), PositionsFrom(nodes[1..], index + 1, p));
    }
  }

  lemma {:induction false} CommittedMovesOfFrames(root: Node, frames: seq<CallFrame>, ps: seq<Position>)
    requires |frames| == |ps|
    requires forall k :: 0 <= k < |ps| ==>
               Reaches(root, ps[k]) && frames[k] == FrameOf(At(root, ps[k]), |ps[k]|, PathText(ps[k]))
                            .(effect := EffectFor(Succeeded, RolledBack(root, ps[k])))
    ensures CommittedMoves(TraceTransfers(frames)) == MovesAt(root, ps)
  {
    if ps != [] {
      CommittedMovesOfFrames(root, frames[1..], ps[1..]);
      CommittedMovesAppend(FrameTransfers(frames[0]), TraceTransfers(frames[1..]));
      assert FrameTransfers(frames[0]) == [] || FrameTransfers(frames[0])[1..] == [];
    }
  }

  /** The committed transfers of the full flattened list are exactly the surviving moves, in
      execution order. */
  lemma CommittedIsLedger(root: Node)
    ensures CommittedMoves(TraceTransfers(Classified(Preorder(root, 0, "0"), Succeeded))) == Ledger(root)
  {
    var all, ps := Preorder(root, 0, "0"), Positions(root, []);
    PreorderStructure(root);
    assert Take(all, |all|) == all;
    forall k | 0 <= k < |all|
      ensures Classified(all, Succeeded)[k] == all[k].(effect := EffectFor(Succeeded, RolledBack(root, ps[k])))
    {
      ClassificationMeaning(root, |all|, Succeeded, k);
    }
    CommittedMovesOfFrames(root, Classified(all, Succeeded), ps);
    MovesAtSubtree(root, root, []);
    if root.Frame? && RolledBack(root, []) {
      var q: Position :| q <= [] && Reaches(root, q) && FailedNode(At(root, q));
      assert q == [];
    }
  }

  lemma {:induction false} NothingCommitted(frames: seq<CallFrame>)
    requires forall k :: 0 <= k < |frames| ==> frames[k].effect != Effect.Committed
    ensures CommittedMoves(TraceTransfers(frames)) == []
  {
    if frames != [] {
      NothingCommitted(frames[1..]);
      CommittedMovesAppend(FrameTransfers(frames[0]), TraceTransfers(frames[1..]));
      assert FrameTransfers(frames[0]) == [] || FrameTransfers(frames[0])[1..] == [];
    }
  }

  /** Semantic preservation: replaying the committed transfers of the flat list, from any
      balances, is running the nested call tree with rollback. */
  lemma FlatLedgerIsExecution(root: Node, status: TxStatus, b: Balances)
    ensures Replay(CommittedMoves(TraceTransfers(Classified(Preorder(root, 0, "0"), status))), b)
         == ExecuteTransaction(root, status, b)
  {
    if status.Succeeded? {
      CommittedIsLedger(root);
      ReplayLedger(root, b);
    } else {
      NothingCommitted(Classified(Preorder(root, 0, "0"), status));
    }
  }

  /** A capped list commits a prefix of what the whole tree commits. */
  lemma CappedLedgerIsPrefix(root: Node, cap: nat, status: TxStatus)
    ensures CommittedMoves(TraceTransfers(Classified(Take(Preorder(root, 0, "0"), cap), status)))
         <= if status.Succeeded? then Ledger(root) else []
  {
    hide Classified, Preorder, TraceTransfers, CommittedMoves, Ledger;
    var whole := Classified(Preorder(root, 0, "0"), status);
    CapKeepsEffects(root, cap, status);
    var kept := Take(whole, cap);
    assert whole == kept + whole[|kept|..];
    TraceTransfersAppend(kept, whole[|kept|..]);
    CommittedMovesAppend(TraceTransfers(kept), TraceTransfers(whole[|kept|..]));
    if status.Succeeded? {
      CommittedIsLedger(root);
    } else {
      NoneSucceeds(root, status);
    }
  }

  lemma NoneSucceeds(root: Node, status: TxStatus)
    requires !status.Succeeded?
    ensures CommittedMoves(TraceTransfers(Classified(Preorder(root, 0, "0"), status))) == []
  {
    NothingCommitted(Classified(Preorder(root, 0, "0"), status));
  }

  // ----- what moves value, in the tracer's own words

  /** A tree of one frame, run alone: value moves exactly when the transaction succeeded, the frame did
      not fail, both parties are known, the value is positive and the type is CALL (or none), CREATE,
      CREATE2 or SELFDESTRUCT; then the sender loses it and the recipient gains it. */
  lemma SingleFrame(node: Node, status: TxStatus, b: Balances, a: Address)
    requires node.Frame? && node.calls == []
    ensures var moved :=
              && status == Succeeded && node.error == "" && node.revertReason == ""
              && node.sender.Some? && node.recipient.Some? && node.value > 0
              && (node.typeText == "" || Upper(node.typeText) in {"CALL", "CREATE", "CREATE2", "SELFDESTRUCT"});
            Balance(ExecuteTransaction(node, status, b), a)
            == Balance(b, a) - (if moved && node.sender == Some(a) then node.value else 0)
               + (if moved && node.recipient == Some(a) then node.value else 0)
  {
    var moves := OwnMoves(node);
    assert ExecuteAll(node.calls, Replay(moves, b)) == Replay(moves, b);
    assert moves != [] ==> moves[1..] == [] && Replay(moves, b) == Pay(b, moves[0]);
  }

  /** Tracers write types in either case. */
  lemma LowerCaseTypes()
    ensures Upper("call") == "CALL" && Upper("create") == "CREATE" && Upper("create2") == "CREATE2"
    ensures Upper("selfdestruct") == "SELFDESTRUCT" && Upper("delegatecall") == "DELEGATECALL"
    ensures Upper("callcode") == "CALLCODE" && Upper("staticcall") == "STATICCALL"
  {
  }

  lemma UpperCaseTypes()
    ensures Upper("CALL") == "CALL" && Upper("CREATE") == "CREATE" && Upper("CREATE2") == "CREATE2"
    ensures Upper("SELFDESTRUCT") == "SELFDESTRUCT" && Upper("DELEGATECALL") == "DELEGATECALL"
    ensures Upper("CALLCODE") == "CALLCODE" && Upper("STATICCALL") == "STATICCALL"
  {
  }

  /** Types whose value the callee is only told about, or which carry none. */
  predicate OnlyQuoted(callType: string) {
    callType in {"DELEGATECALL", "CALLCODE", "STATICCALL"}
  }

  /** Trees that differ at most in the values of such frames. */
  ghost predicate SameButQuoted(x: Node, y: Node)
    decreases x, 1
  {
    if x.Junk? || y.Junk? then x == y
    else
      && y == x.(value := y.value, calls := y.calls)
      && (x.value == y.value || OnlyQuoted(CallType(x)))
      && SameButQuotedAll(x.calls, y.calls)
  }

  ghost predicate SameButQuotedAll(xs: seq<Node>, ys: seq<Node>)
    decreases xs, 0
  {
    |xs| == |ys| && (xs != [] ==> SameButQuoted(xs[0], ys[0]) && SameButQuotedAll(xs[1..], ys[1..]))
  }

  lemma {:induction false} QuotedExecution(x: Node, y: Node, b: Balances)
    requires SameButQuoted(x, y)
    ensures Execute(x, b) == Execute(y, b)
    decreases x, 1
  {
    if x.Frame? {
      assert OwnMoves(x) == OwnMoves(y);
      QuotedExecutionAll(x.calls, y.calls, Replay(OwnMoves(x), b));
    }
  }

  lemma {:induction false} QuotedExecutionAll(xs: seq<Node>, ys: seq<Node>, b: Balances)
    requires SameButQuotedAll(xs, ys)
    ensures ExecuteAll(xs, b) == ExecuteAll(ys, b)
    decreases xs, 0
  {
    if xs != [] {
      QuotedExecution(xs[0], ys[0], b);
      QuotedExecutionAll(xs[1..], ys[1..], Execute(xs[0], b));
    }
  }

  predicate SameFrame(f: CallFrame, g: CallFrame) {
    g == f.(value := g.value) && (f.value == g.value || OnlyQuoted(f.callType))
  }

  predicate SameFrames(fs: seq<CallFrame>, gs: seq<CallFrame>) {
    |fs| == |gs| && forall i :: 0 <= i < |fs| ==> SameFrame(fs[i], gs[i])
  }

  lemma {:induction false} QuotedPreorder(x: Node, y: Node, depth: nat, path: string)
    requires SameButQuoted(x, y)
    ensures SameFrames(Preorder(x, depth, path), Preorder(y, depth, path))
    decreases x, 1
  {
    if x.Frame? {
      QuotedPreorderFrom(x.calls, y.calls, 0, depth + 1, path);
    }
  }

  lemma {:induction false} QuotedPreorderFrom(xs: seq<Node>, ys: seq<Node>, index: nat, depth: nat, parent: string)
    requires SameButQuotedAll(xs, ys)
    ensures SameFrames(PreorderFrom(xs, index, depth, parent), PreorderFrom(ys, index, depth, parent))
    decreases xs, 0
  {
    hide SameFrame;
    if xs != [] {
      QuotedPreorder(xs[0], ys[0], depth, parent + "." + Decimal.Show(index));
      QuotedPreorderFrom(xs[1..], ys[1..], index + 1, depth, parent);
    }
  }

  lemma {:induction false} QuotedPaths(fs: seq<CallFrame>, gs: seq<CallFrame>)
    requires SameFrames(fs, gs)
    ensures FailedPaths(fs) == FailedPaths(gs)
  {
    if fs != [] {
      var n := |fs| - 1;
      assert SameFrame(fs[n], gs[n]);
      QuotedPaths(fs[..n], gs[..n]);
    }
  }

  lemma QuotedClassified(fs: seq<CallFrame>, gs: seq<CallFrame>, status: TxStatus)
    requires SameFrames(fs, gs)
    ensures SameFrames(Classified(fs, status), Classified(gs, status))
  {
    QuotedPaths(fs, gs);
    hide HasFailedAncestor, FailedPaths, EffectFor;
    forall i | 0 <= i < |fs| ensures SameFrame(Classified(fs, status)[i], Classified(gs, status)[i]) {
      assert SameFrame(fs[i], gs[i]);
    }
  }

  lemma {:induction false} QuotedTransfers(fs: seq<CallFrame>, gs: seq<CallFrame>)
    requires SameFrames(fs, gs)
    ensures TraceTransfers(fs) == TraceTransfers(gs)
  {
    if fs != [] {
      assert SameFrame(fs[0], gs[0]);
      QuotedTransfers(fs[1..], gs[1..]);
    }
  }

  /** Changing the values of DELEGATECALL, CALLCODE and STATICCALL frames, any number of them at any
      depth, changes neither what the transaction does nor the transfers reported, capped or not. */
  lemma QuotedValuesDoNotMove(x: Node, y: Node, cap: nat, status: TxStatus, b: Balances)
    requires SameButQuoted(x, y)
    ensures ExecuteTransaction(x, status, b) == ExecuteTransaction(y, status, b)
    ensures TraceTransfers(Classified(Take(Preorder(x, 0, "0"), cap), status))
         == TraceTransfers(Classified(Take(Preorder(y, 0, "0"), cap), status))
  {
    hide SameFrame, Classified, Preorder, TraceTransfers, SameButQuoted;
    QuotedExecution(x, y, b);
    QuotedPreorder(x, y, 0, "0");
    var fs, gs := Take(Preorder(x, 0, "0"), cap), Take(Preorder(y, 0, "0"), cap);
    assert SameFrames(fs, gs);
    QuotedClassified(fs, gs, status);
    QuotedTransfers(Classified(fs, status), Classified(gs, status));
  }

  /** The node at p, or one around it, has an error or a revert reason. */
  ghost predicate WithinFailure(root: Node, p: Position) {
    exists q :: q <= p && Reaches(root, q) && (At(root, q).error != "" || At(root, q).revertReason != "")
  }

  /** Each retained frame's effect, by what the tracer wrote in the whole tree: attempted and reverted
      when the transaction reverted or the frame or one around it has an error or a revert reason;
      otherwise committed or unknown as the transaction succeeded or its status is not known. */
  lemma EffectExactly(root: Node, cap: nat, status: TxStatus, k: nat)
    requires k < |Take(Preorder(root, 0, "0"), cap)|
    ensures |Positions(root, [])| == |Preorder(root, 0, "0")|
    ensures var p, effect := Positions(root, [])[k], Classified(Take(Preorder(root, 0, "0"), cap), status)[k].effect;
            var failed := WithinFailure(root, p);
            && (effect == AttemptedReverted <==> status == Reverted || failed)
            && (effect == Committed <==> status == Succeeded && !failed)
            && (effect == Unknown <==> status == Indeterminate && !failed)
  {
    hide Preorder, Positions, Reaches, At, FailedPaths, HasFailedAncestor;
    ClassificationMeaning(root, cap, status, k);
    RolledBackMeans(root, Positions(root, [])[k]);
  }

  lemma RolledBackMeans(root: Node, p: Position)
    ensures RolledBack(root, p) <==> WithinFailure(root, p)
  {
  }

  /** Each transfer is that of one frame, which it names by its path. */
  predicate TransferOf(t: NativeTransfer, f: CallFrame) {
    && t.transferId == "native:" + f.path && t.evidenceRef == "call:" + f.path && t.source == "call_trace"
    && f.sender == Some(t.sender) && f.recipient == Some(t.recipient) && t.amount == f.value > 0 && t.effect == f.effect
  }

  lemma {:induction false} TransferFrame(frames: seq<CallFrame>, j: nat) returns (i: nat)
    requires j < |TraceTransfers(frames)|
    ensures i < |frames| && TransferOf(TraceTransfers(frames)[j], frames[i])
  {
    if FrameTransfers(frames[0]) != [] && j == 0 {
      i := 0;
    } else {
      var before := |FrameTransfers(frames[0])|;
      assert TraceTransfers(frames)[j] == TraceTransfers(frames[1..])[j - before];
      i := TransferFrame(frames[1..], j - before);
      i := i + 1;
    }
  }

  predicate PathsDiffer(frames: seq<CallFrame>) {
    forall i, j :: 0 <= i < j < |frames| ==> frames[i].path != frames[j].path
  }

  lemma {:induction false} IdsDiffer(frames: seq<CallFrame>, j: nat, k: nat)
    requires PathsDiffer(frames) && j < k < |TraceTransfers(frames)|
    ensures TraceTransfers(frames)[j].transferId != TraceTransfers(frames)[k].transferId
  {
    var own, rest := FrameTransfers(frames[0]), TraceTransfers(frames[1..]);
    assert forall m :: |own| <= m < |own| + |rest| ==> TraceTransfers(frames)[m] == rest[m - |own|];
    if j >= |own| {
      IdsDiffer(frames[1..], j - |own|, k - |own|);
    } else {
      var i := TransferFrame(frames[1..], k - |own|);
      SamePrefix("native:", frames[0].path, frames[i + 1].path);
    }
  }

  lemma SamePrefix(prefix: string, a: string, b: string)
    ensures prefix + a == prefix + b ==> a == b
  {
    assert (prefix + a)[|prefix|..] == a && (prefix + b)[|prefix|..] == b;
  }

  /** The transfers of a trace, capped or not, have different ids. */
  lemma TransferIdsDiffer(root: Node, cap: nat, status: TxStatus, j: nat, k: nat)
    requires j < k < |TraceTransfers(Classified(Take(Preorder(root, 0, "0"), cap), status))|
    ensures var transfers := TraceTransfers(Classified(Take(Preorder(root, 0, "0"), cap), status));
            transfers[j].transferId != transfers[k].transferId
  {
    hide Preorder, TraceTransfers, HasFailedAncestor, FailedPaths, EffectFor;
    var frames := Classified(Take(Preorder(root, 0, "0"), cap), status);
    forall m, n | 0 <= m < n < |frames| ensures frames[m].path != frames[n].path {
      PathsDistinct(root, m, n);
    }
    IdsDiffer(frames, j, k);
  }

  /** Without a trace the transaction's own value is the one transfer, committed, attempted or unknown
      as its status says, and it moves exactly when the transaction succeeded. */
  lemma OwnTransfer(tx: TopLevel, status: TxStatus, b: Balances, a: Address)
    ensures var own := TopLevelTransfers(tx, status);
            var carries := tx.value > 0 && tx.sender.Some? && tx.recipient.Some?;
            && |own| == (if carries then 1 else 0)
            && (carries ==> own[0].(effect := Committed)
                            == NativeTransfer("native:0", tx.sender.value, tx.recipient.value, tx.value,
                                              "transaction", "transaction", Committed))
            && (carries ==> own[0].effect == match status case Succeeded => Committed
                                                          case Reverted => AttemptedReverted
                                                          case Indeterminate => Unknown)
            && Balance(Replay(CommittedMoves(own), b), a)
               == Balance(b, a) - (if carries && status == Succeeded && tx.sender == Some(a) then tx.value else 0)
                  + (if carries && status == Succeeded && tx.recipient == Some(a) then tx.value else 0)
  {
    var own := TopLevelTransfers(tx, status);
    if own != [] {
      assert own[1..] == [];
      var moves := CommittedMoves(own);
      assert CommittedMoves(own[1..]) == [] && moves == CommittedMove(own[0]) + CommittedMoves(own[1..]);
      assert moves != [] ==> moves[1..] == [] && Replay(moves, b) == Pay(b, moves[0]);
    }
  }

  // ----- conservation

  ghost function Total(b: Balances): int
    decreases |b|
  {
    if b == map[] then 0
    else var a :| a in b; b[a] + Total(b - {a})
  }

  lemma {:induction false} TotalPick(b: Balances, a: Address)
    requires a in b
    ensures Total(b) == b[a] + Total(b - {a})
    decreases |b|
  {
    var c :| c in b && Total(b) == b[c] + Total(b - {c});
    if c != a {
      TotalPick(b - {c}, a);
      TotalPick(b - {a}, c);
      assert b - {c} - {a} == b - {a} - {c};
    }
  }

  lemma TotalUpdate(b: Balances, a: Address, v: int)
    ensures Total(b[a := v]) == Total(b) - Balance(b, a) + v
  {
    TotalPick(b[a := v], a);
    assert b[a := v] - {a} == b - {a};
    if a in b {
      TotalPick(b, a);
    } else {
      assert b - {a} == b;
    }
  }

  lemma {:induction false} ReplayConserves(moves: seq<Move>, b: Balances)
    ensures Total(Replay(moves, b)) == Total(b)
  {
    if moves != [] {
      var m := moves[0];
      TotalUpdate(b, m.sender, Balance(b, m.sender) - m.amount);
      var debited := b[m.sender := Balance(b, m.sender) - m.amount];
      TotalUpdate(debited, m.recipient, Balance(debited, m.recipient) + m.amount);
      ReplayConserves(moves[1..], Pay(b, m));
    }
  }

  /** What the endpoint returned: nothing, an object without any field, or a call tree. */
  datatype RawTrace = Missing | EmptyObject | Traced(root: Node)

  /** The native-flow part of an investigation. Python takes an empty object for no trace, so both
      fall back on the transaction's own transfer. */
  method ReconstructNativeFlow(trace: RawTrace, tx: TopLevel, status: TxStatus)
    returns (calls: seq<CallFrame>, transfers: seq<NativeTransfer>, truncated: bool)
    ensures !trace.Traced? ==> calls == [] && !truncated
    ensures calls == [] ==> transfers == TopLevelTransfers(tx, status)
    ensures trace.Traced? ==>
              calls == Take(Classified(Preorder(trace.root, 0, "0"), status), MAX_CALL_FRAMES)
    ensures trace.Traced? ==> (truncated <==> |Preorder(trace.root, 0, "0")| > MAX_CALL_FRAMES)
    ensures trace.Traced? && trace.root.Frame? && !truncated ==>
              forall b :: Replay(CommittedMoves(transfers), b) == ExecuteTransaction(trace.root, status, b)
    ensures trace.Traced? && trace.root.Frame? ==>
              CommittedMoves(transfers) <= if status.Succeeded? then Ledger(trace.root) else []
    ensures forall b :: Total(Replay(CommittedMoves(transfers), b)) == Total(b)
  {
    calls, truncated := [], false;
    if trace.Traced? {
      calls, truncated := FlattenTrace(trace.root);
      CapKeepsEffects(trace.root, MAX_CALL_FRAMES, status);
    }
    calls := ClassifyCallEffects(calls, status);
    transfers := NativeTransfers(calls, tx, status);
    if trace.Traced? && trace.root.Frame? {
      CappedLedgerIsPrefix(trace.root, MAX_CALL_FRAMES, status);
      assert !truncated ==> calls == Classified(Preorder(trace.root, 0, "0"), status);
      forall b | !truncated
        ensures Replay(CommittedMoves(transfers), b) == ExecuteTransaction(trace.root, status, b)
      {
        FlatLedgerIsExecution(trace.root, status, b);
      }
    }
    forall b ensures Total(Replay(CommittedMoves(transfers), b)) == Total(b) {
      ReplayConserves(CommittedMoves(transfers), b);
    }
  }
}
