/** The bounded summary of a simulated call trace: a second walk over the same tree. */
module TraceSummary {
  import opened Basics
  import opened CallTrace
  import opened Sorting
  import Decimal

  const MAX_TRACE_FRAMES: nat := 512
  const MAX_TOUCHED_ADDRESSES: nat := 64

  datatype Tally = Tally(
    callCount: nat, maxDepth: nat, delegateCalls: nat, staticCalls: nat, creates: nat,
    selfDestructs: nat, valueCalls: nat, revertedCalls: nat, touched: set<Address>)

  datatype Summary = Summary(tally: Tally, truncated: bool, touchedAddresses: seq<Address>)

  const EMPTY: Tally := Tally(0, 0, 0, 0, 0, 0, 0, 0, {})

  /** What one more frame adds. */
  function Count(t: Tally, f: CallFrame): Tally {
    Tally(t.callCount + 1, Max(t.maxDepth, f.depth),
          t.delegateCalls + (if f.callType == "DELEGATECALL" then 1 else 0),
          t.staticCalls + (if f.callType == "STATICCALL" then 1 else 0),
          t.creates + (if f.callType in {"CREATE", "CREATE2"} then 1 else 0),
          t.selfDestructs + (if f.callType == "SELFDESTRUCT" then 1 else 0),
          t.valueCalls + (if f.value > 0 then 1 else 0),
          t.revertedCalls + (if FailedFrame(f) then 1 else 0),
          t.touched + (if f.recipient.Some? then {f.recipient.value} else {}))
  }

  function CountAll(t: Tally, frames: seq<CallFrame>): (r: Tally)
    ensures r.callCount == t.callCount + |frames|
    decreases frames
  {
    if frames == [] then t else CountAll(Count(t, frames[0]), frames[1..])
  }

  lemma {:induction false} CountAllAppend(t: Tally, a: seq<CallFrame>, b: seq<CallFrame>)
    ensures CountAll(t, a + b) == CountAll(CountAll(t, a), b)
    decreases a
  {
    if a == [] {
      assert a + b == b;
    } else {
      CountAllAppend(Count(t, a[0]), a[1..], b);
      assert (a + b)[1..] == a[1..] + b;
    }
  }

  method CountFrame(before: Tally, frame: Node, depth: nat, ghost path: string, ghost seen: seq<CallFrame>)
    returns (t: Tally)
    requires frame.Frame? && before == CountAll(EMPTY, seen)
    ensures t == CountAll(EMPTY, seen + [FrameOf(frame, depth, path)])
  {
    t := UpdateCounters(before, frame, depth, path);
    hide Count;
    var next := FrameOf(frame, depth, path);
    CountAllAppend(EMPTY, seen, [next]);
    assert [next][1..] == [];
  }

  /** The counter updates of one loop iteration. */
  method UpdateCounters(before: Tally, frame: Node, depth: nat, ghost path: string) returns (t: Tally)
    requires frame.Frame?
    ensures t == Count(before, FrameOf(frame, depth, path))
  {
    t := before.(callCount := before.callCount + 1, maxDepth := Max(before.maxDepth, depth));
    var callType := CallType(frame);
    if callType == "DELEGATECALL" {
      t := t.(delegateCalls := t.delegateCalls + 1);
    } else if callType == "STATICCALL" {
      t := t.(staticCalls := t.staticCalls + 1);
    } else if callType in {"CREATE", "CREATE2"} {
      t := t.(creates := t.creates + 1);
    } else if callType == "SELFDESTRUCT" {
      t := t.(selfDestructs := t.selfDestructs + 1);
    }
    if frame.value > 0 {
      t := t.(valueCalls := t.valueCalls + 1);
    }
    if frame.error != "" || frame.revertReason != "" {
      t := t.(revertedCalls := t.revertedCalls + 1);
    }
    if frame.recipient.Some? {
      t := t.(touched := t.touched + {frame.recipient.value});
    } else {
      assert t.touched + {} == t.touched;
    }
  }

  /** The summary's stack: a flattening stack without the paths. */
  function Erase(shadow: seq<Pending>): seq<(Node, nat)> {
    seq(|shadow|, i requires 0 <= i < |shadow| => (shadow[i].node, shadow[i].depth))
  }

  method SummarizeCallTrace(trace: Node) returns (summary: Summary)
    ensures summary.tally == CountAll(EMPTY, Take(Preorder(trace, 0, "0"), 512))
    ensures summary.touchedAddresses == Take(Ascending(summary.tally.touched), 64)
    ensures summary.truncated <==>
              |Preorder(trace, 0, "0")| > 512 || |summary.tally.touched| > 64
  {
    hide Preorder, Unwind, StackSize, FrameOf;
    var t := EMPTY;
    var stack := [(trace, 0)];
    var truncated := false;
    ghost var all := Preorder(trace, 0, "0");
    ghost var seen: seq<CallFrame> := [];
    ghost var shadow := [Pending(trace, 0, "0")];
    OneUnwinds(Pending(trace, 0, "0"));
    assert CountAll(EMPTY, []) == EMPTY;
    while stack != []
      invariant stack == Erase(shadow)
      invariant !truncated && |seen| <= MAX_TRACE_FRAMES
      invariant seen + Unwind(shadow) == all
      invariant t == CountAll(EMPTY, seen)
      decreases StackSize(shadow)
    {
      var (frame, depth) := stack[|stack| - 1];
      stack := stack[..|stack| - 1];
      ghost var top := shadow[|shadow| - 1];
      ghost var rest := shadow[..|shadow| - 1];
      assert shadow == rest + [top];
      UnwindPush(rest, top);
      shadow := rest;
      if !frame.Frame? {
        JunkUnwinds(rest, top);
        continue;
      }
      if t.callCount >= MAX_TRACE_FRAMES {
        truncated := true;
        assert all[..MAX_TRACE_FRAMES] == seen;
        break;
      }
      t := CountFrame(t, frame, depth, top.path, seen);
      stack, shadow := PushBoth(stack, rest, frame.calls, depth + 1, top.path);
      EmitFrame(all, seen, top, rest, shadow);
      seen := seen + [FrameOf(frame, depth, top.path)];
    }
    assert Take(all, MAX_TRACE_FRAMES) == seen;
    summary := Summary(t, truncated || |t.touched| > MAX_TOUCHED_ADDRESSES,
                       Take(Ascending(t.touched), MAX_TOUCHED_ADDRESSES));
  }

  lemma NothingPushed(index: nat, depth: nat, path: string)
    ensures PreorderFrom([], index, depth, path) == [] && SizeAll([]) == 0
  {
  }

  lemma FirstPushed(children: seq<Node>, i: nat, depth: nat, path: string)
    requires i < |children|
    ensures PreorderFrom(children[i..], i, depth, path)
         == Preorder(children[i], depth, path + "." + Decimal.Show(i))
            + PreorderFrom(children[i + 1..], i + 1, depth, path)
    ensures SizeAll(children[i..]) == Size(children[i]) + SizeAll(children[i + 1..])
  {
    hide Preorder, Size;
    assert children[i..][0] == children[i] && children[i..][1..] == children[i + 1..];
  }

  /** `stack.extend((child, depth + 1) for child in reversed(children))`; the ghost stack also
      carries the path each node would have had. */
  method PushBoth(base: seq<(Node, nat)>, ghost shadowBase: seq<Pending>, children: seq<Node>, depth: nat,
                  ghost path: string)
    returns (stack: seq<(Node, nat)>, ghost shadow: seq<Pending>)
    requires base == Erase(shadowBase)
    ensures stack == Erase(shadow)
    ensures Unwind(shadow) == PreorderFrom(children, 0, depth, path) + Unwind(shadowBase)
    ensures StackSize(shadow) == SizeAll(children) + StackSize(shadowBase)
  {
    hide Unwind, StackSize, PreorderFrom, SizeAll;
    stack, shadow := base, shadowBase;
    NothingPushed(|children|, depth, path);
    assert children[|children|..] == [];
    for i := |children| downto 0
      invariant stack == Erase(shadow)
      invariant Unwind(shadow) == PreorderFrom(children[i..], i, depth, path) + Unwind(shadowBase)
      invariant StackSize(shadow) == SizeAll(children[i..]) + StackSize(shadowBase)
    {
      ghost var child := Pending(children[i], depth, path + "." + Decimal.Show(i));
      UnwindPush(shadow, child);
      FirstPushed(children, i, depth, path);
      stack, shadow := stack + [(children[i], depth)], shadow + [child];
    }
    assert children[0..] == children;
  }

  // ----- the reference: one recursion over the tree, no list and no stack

  function TreeTally(t: Tally, node: Node, depth: nat): Tally
    decreases node, 1
  {
    if node.Junk? then t else TreeTallyAll(Count(t, FrameOf(node, depth, "")), node.calls, depth + 1)
  }

  function TreeTallyAll(t: Tally, nodes: seq<Node>, depth: nat): Tally
    decreases nodes, 0
  {
    if nodes == [] then t else TreeTallyAll(TreeTally(t, nodes[0], depth), nodes[1..], depth)
  }

  lemma {:induction false} TallyOfTree(t: Tally, node: Node, depth: nat, path: string)
    ensures CountAll(t, Preorder(node, depth, path)) == TreeTally(t, node, depth)
    decreases node, 1
  {
    if node.Frame? {
      TallyOfTrees(Count(t, FrameOf(node, depth, path)), node.calls, 0, depth + 1, path);
      assert Preorder(node, depth, path)[1..] == PreorderFrom(node.calls, 0, depth + 1, path);
    }
  }

  lemma {:induction false} TallyOfTrees(t: Tally, nodes: seq<Node>, index: nat, depth: nat, parent: string)
    ensures CountAll(t, PreorderFrom(nodes, index, depth, parent)) == TreeTallyAll(t, nodes, depth)
    decreases nodes, 0
  {
    if nodes != [] {
      var path := parent + "." + Decimal.Show(index);
      CountAllAppend(t, Preorder(nodes[0], depth, path), PreorderFrom(nodes[1..], index + 1, depth, parent));
      TallyOfTree(t, nodes[0], depth, path);
      TallyOfTrees(TreeTally(t, nodes[0], depth), nodes[1..], index + 1, depth, parent);
    }
  }

  /** A summary not flagged as truncated is the recursive summary of the whole tree, with every
      address it touches. */
  lemma UntruncatedSummaryIsExact(trace: Node, summary: Summary)
    requires summary.tally == CountAll(EMPTY, Take(Preorder(trace, 0, "0"), MAX_TRACE_FRAMES))
    requires summary.touchedAddresses == Take(Ascending(summary.tally.touched), MAX_TOUCHED_ADDRESSES)
    requires summary.truncated <==>
               |Preorder(trace, 0, "0")| > 512 || |summary.tally.touched| > 64
    ensures !summary.truncated ==>
              summary.tally == TreeTally(EMPTY, trace, 0) &&
              forall a :: a in summary.touchedAddresses <==> a in TreeTally(EMPTY, trace, 0).touched
    ensures summary.truncated ==>
              TreeTally(EMPTY, trace, 0).callCount > summary.tally.callCount ||
              |summary.tally.touched| > |summary.touchedAddresses|
  {
    TallyOfTree(EMPTY, trace, 0, "0");
  }

  // ----- what the counters count

  const DELEGATING: CallFrame -> bool := (f: CallFrame) => f.callType == "DELEGATECALL"
  const STATIC: CallFrame -> bool := (f: CallFrame) => f.callType == "STATICCALL"
  const CREATING: CallFrame -> bool := (f: CallFrame) => f.callType == "CREATE" || f.callType == "CREATE2"
  const DESTRUCTIVE: CallFrame -> bool := (f: CallFrame) => f.callType == "SELFDESTRUCT"
  const PAYING: CallFrame -> bool := (f: CallFrame) => f.value > 0
  const REVERTED: CallFrame -> bool := (f: CallFrame) => f.error.Some? || f.revertReason.Some?

  /** The places of a list whose frames pass a test. */
  function Places(frames: seq<CallFrame>, test: CallFrame -> bool): set<nat> {
    set i: nat | i < |frames| && test(frames[i])
  }

  lemma PlacesNext(init: seq<CallFrame>, last: CallFrame, test: CallFrame -> bool)
    ensures |Places(init + [last], test)| == |Places(init, test)| + (if test(last) then 1 else 0)
  {
    var n := |init|;
    assert Places(init + [last], test) == Places(init, test) + (if test(last) then {n} else {});
  }

  lemma NoPlaces(test: CallFrame -> bool)
    ensures |Places([], test)| == 0
  {
  }

  lemma CountNext(init: seq<CallFrame>, last: CallFrame)
    ensures CountAll(EMPTY, init + [last]) == Count(CountAll(EMPTY, init), last)
  {
    hide Count;
    CountAllAppend(EMPTY, init, [last]);
    assert [last][1..] == [];
  }

  /** Each counter is the number of frames it names. */
  lemma {:induction false} CountersMean(frames: seq<CallFrame>)
    ensures var t := CountAll(EMPTY, frames);
            && t.callCount == |frames|
            && t.delegateCalls == |Places(frames, DELEGATING)|
            && t.staticCalls == |Places(frames, STATIC)|
            && t.creates == |Places(frames, CREATING)|
            && t.selfDestructs == |Places(frames, DESTRUCTIVE)|
            && t.valueCalls == |Places(frames, PAYING)|
            && t.revertedCalls == |Places(frames, REVERTED)|
  {
    hide Places;
    if frames == [] {
      NoPlaces(DELEGATING);
      NoPlaces(STATIC);
      NoPlaces(CREATING);
      NoPlaces(DESTRUCTIVE);
      NoPlaces(PAYING);
      NoPlaces(REVERTED);
    } else {
      var init, last := frames[..|frames| - 1], frames[|frames| - 1];
      assert frames == init + [last];
      CountersMean(init);
      CountNext(init, last);
      PlacesNext(init, last, DELEGATING);
      PlacesNext(init, last, STATIC);
      PlacesNext(init, last, CREATING);
      PlacesNext(init, last, DESTRUCTIVE);
      PlacesNext(init, last, PAYING);
      PlacesNext(init, last, REVERTED);
    }
  }

  /** The depth is that of the deepest frame, and the addresses touched are exactly the recipients. */
  lemma {:induction false} ExtentMeans(frames: seq<CallFrame>)
    ensures var t := CountAll(EMPTY, frames);
            && (forall i :: 0 <= i < |frames| ==> frames[i].depth <= t.maxDepth)
            && (frames != [] ==> exists i :: 0 <= i < |frames| && frames[i].depth == t.maxDepth)
            && (forall a :: a in t.touched <==> exists i :: 0 <= i < |frames| && frames[i].recipient == Some(a))
  {
    if frames != [] {
      var n := |frames| - 1;
      var init, last := frames[..n], frames[n];
      assert frames == init + [last];
      ExtentMeans(init);
      CountNext(init, last);
      var t, before := CountAll(EMPTY, frames), CountAll(EMPTY, init);
      assert t.maxDepth == Max(before.maxDepth, last.depth);
      if init != [] {
        var i :| 0 <= i < |init| && init[i].depth == before.maxDepth;
        assert frames[i].depth == before.maxDepth;
      }
      assert frames[n].depth == last.depth;
      forall a ensures a in t.touched <==> exists i :: 0 <= i < |frames| && frames[i].recipient == Some(a) {
        if a in before.touched {
          var i :| 0 <= i < |init| && init[i].recipient == Some(a);
          assert frames[i].recipient == Some(a);
        }
      }
    }
  }
}
