/** The call tree a tracer returns and its explicit-stack flattening. */
module CallTrace {
  import opened Basics
  import opened Decimal

  const MAX_CALL_FRAMES: nat := 2000

  /** One JSON node of a trace. `Junk` is any value that is not an object: it is skipped, but
      it still takes an index among its siblings. Absent text fields are the empty string. */
  datatype Node =
    | Frame(typeText: string, sender: Option<Address>, recipient: Option<Address>, value: int,
            error: string, revertReason: string, calls: seq<Node>)
    | Junk

  datatype Effect = Committed | AttemptedReverted | Unknown

  datatype CallFrame = CallFrame(
    path: string, depth: nat, callType: string, sender: Option<Address>,
    recipient: Option<Address>, value: int, error: Option<string>,
    revertReason: Option<string>, effect: Effect)

  function Upper(s: string): string {
    seq(|s|, i requires 0 <= i < |s| => if 'a' <= s[i] <= 'z' then (s[i] as int - 32) as char else s[i])
  }

  function CallType(node: Node): string
    requires node.Frame?
  {
    if node.typeText == "" then "CALL" else Upper(node.typeText)
  }

  function NonEmpty(s: string): Option<string> {
    if s == "" then None else Some(s)
  }

  predicate FailedNode(node: Node)
    requires node.Frame?
  {
    node.error != "" || node.revertReason != ""
  }

  predicate FailedFrame(frame: CallFrame) {
    frame.error.Some? || frame.revertReason.Some?
  }

  function FrameOf(node: Node, depth: nat, path: string): CallFrame
    requires node.Frame?
  {
    CallFrame(path, depth, CallType(node), node.sender, node.recipient, node.value,
              NonEmpty(node.error), NonEmpty(node.revertReason), Unknown)
  }

  // ----- the reference: recursive pre-order

  function Preorder(node: Node, depth: nat, path: string): (frames: seq<CallFrame>)
    ensures node.Frame? ==> |frames| >= 1
    decreases node, 1
  {
    if node.Junk? then []
    else [FrameOf(node, depth, path)] + PreorderFrom(node.calls, 0, depth + 1, path)
  }

  /** Pre-order of the siblings `nodes`, the first of which has index `index`. */
  function PreorderFrom(nodes: seq<Node>, index: nat, depth: nat, parent: string): seq<CallFrame>
    decreases nodes, 0
  {
    if nodes == [] then []
    else Preorder(nodes[0], depth, parent + "." + Show(index))
         + PreorderFrom(nodes[1..], index + 1, depth, parent)
  }

  function Size(node: Node): nat
    decreases node, 1
  {
    if node.Junk? then 1 else 1 + SizeAll(node.calls)
  }

  function SizeAll(nodes: seq<Node>): nat
    decreases nodes, 0
  {
    if nodes == [] then 0 else Size(nodes[0]) + SizeAll(nodes[1..])
  }

  // ----- the explicit stack

  datatype Pending = Pending(node: Node, depth: nat, path: string)

  /** Everything a stack will still emit, its top being its last element. */
  function Unwind(stack: seq<Pending>): seq<CallFrame> {
    if stack == [] then []
    else
      var top := stack[|stack| - 1];
      Preorder(top.node, top.depth, top.path) + Unwind(stack[..|stack| - 1])
  }

  function StackSize(stack: seq<Pending>): nat {
    if stack == [] then 0
    else Size(stack[|stack| - 1].node) + StackSize(stack[..|stack| - 1])
  }

  lemma UnwindPush(stack: seq<Pending>, p: Pending)
    ensures Unwind(stack + [p]) == Preorder(p.node, p.depth, p.path) + Unwind(stack)
    ensures StackSize(stack + [p]) == Size(p.node) + StackSize(stack)
  {
    assert (stack + [p])[..|stack|] == stack;
  }

  lemma Regroup<T>(a: seq<T>, b: seq<T>, c: seq<T>, d: seq<T>)
    ensures a + ((b + c) + d) == (a + b) + (c + d)
  {
  }

  /** Emitting a frame and pushing its children keeps what is still to come. */
  lemma EmitFrame(all: seq<CallFrame>, frames: seq<CallFrame>, top: Pending, rest: seq<Pending>, stack: seq<Pending>)
    requires top.node.Frame? && frames + Unwind(rest + [top]) == all
    requires Unwind(stack) == PreorderFrom(top.node.calls, 0, top.depth + 1, top.path) + Unwind(rest)
    ensures frames + [FrameOf(top.node, top.depth, top.path)] + Unwind(stack) == all
  {
    UnwindPush(rest, top);
    var f, p, u :=
      [FrameOf(top.node, top.depth, top.path)], PreorderFrom(top.node.calls, 0, top.depth + 1, top.path), Unwind(rest);
    Regroup(frames, f, p, u);
  }

  /** `stack.extend(... reversed(list(enumerate(children))))`. */
  method PushChildren(base: seq<Pending>, children: seq<Node>, depth: nat, path: string)
    returns (stack: seq<Pending>)
    ensures Unwind(stack) == PreorderFrom(children, 0, depth, path) + Unwind(base)
    ensures StackSize(stack) == SizeAll(children) + StackSize(base)
  {
    hide Preorder, Unwind, StackSize, Size, Show;
    stack := base;
    assert children[|children|..] == [];
    for i := |children| downto 0
      invariant Unwind(stack) == PreorderFrom(children[i..], i, depth, path) + Unwind(base)
      invariant StackSize(stack) == SizeAll(children[i..]) + StackSize(base)
    {
      var child := Pending(children[i], depth, path + "." + Show(i));
      UnwindPush(stack, child);
      assert children[i..][0] == children[i] && children[i..][1..] == children[i + 1..];
      stack := stack + [child];
    }
    assert children[0..] == children;
  }

  lemma OneUnwinds(p: Pending)
    ensures Unwind([p]) == Preorder(p.node, p.depth, p.path) && Unwind([]) == []
  {
    UnwindPush([], p);
    assert [] + [p] == [p];
  }

  lemma JunkUnwinds(rest: seq<Pending>, top: Pending)
    requires top.node.Junk?
    ensures Unwind(rest + [top]) == Unwind(rest)
  {
    UnwindPush(rest, top);
  }

  method FlattenTrace(trace: Node) returns (frames: seq<CallFrame>, truncated: bool)
    ensures frames == Take(Preorder(trace, 0, "0"), 2000)
    ensures truncated <==> |Preorder(trace, 0, "0")| > 2000
  {
    hide Preorder, Unwind, StackSize, FrameOf;
    frames, truncated := [], false;
    var stack := [Pending(trace, 0, "0")];
    ghost var all := Preorder(trace, 0, "0");
    OneUnwinds(stack[0]);
    while stack != []
      invariant !truncated && |frames| <= MAX_CALL_FRAMES
      invariant frames + Unwind(stack) == all
      decreases StackSize(stack)
    {
      var top := stack[|stack| - 1];
      var rest := stack[..|stack| - 1];
      assert stack == rest + [top];
      UnwindPush(rest, top);
      stack := rest;
      if !top.node.Frame? {
        JunkUnwinds(rest, top);
        continue;
      }
      if |frames| >= MAX_CALL_FRAMES {
        truncated := true;
        assert all[..MAX_CALL_FRAMES] == frames;
        break;
      }
      stack := PushChildren(rest, top.node.calls, top.depth + 1, top.path);
      EmitFrame(all, frames, top, rest, stack);
      frames := frames + [FrameOf(top.node, top.depth, top.path)];
    }
  }
}
