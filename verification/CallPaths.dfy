/** Textual call paths against positions in the tree. */
module CallPaths {
  import opened Basics
  import opened Decimal
  import opened CallTrace

  /** Child indices from the root down; the root is the empty position. */
  type Position = seq<nat>

  predicate Reaches(root: Node, p: Position)
    decreases p
  {
    root.Frame? && (p == [] || (p[0] < |root.calls| && Reaches(root.calls[p[0]], p[1..])))
  }

  function At(root: Node, p: Position): (node: Node)
    requires Reaches(root, p)
    ensures node.Frame?
    decreases p
  {
    if p == [] then root else At(root.calls[p[0]], p[1..])
  }

  /** "0", then ".i" for each index. */
  function PathText(p: Position): (s: string)
    ensures |s| >= 1
  {
    if p == [] then "0" else PathText(Parent(p)) + "." + Show(p[|p| - 1])
  }

  function Parent(p: Position): Position
    requires p != []
  {
    p[..|p| - 1]
  }

  /** The test of `has_failed_ancestor`: `path == f or path.startswith(f + ".")`. */
  predicate PathCovers(f: string, path: string) {
    path == f || f + "." <= path
  }

  // ----- path texts mirror positions

  /** A text ends in at most one dot followed by digits only. */
  lemma LastDotUnique(a: string, s: string, b: string, t: string)
    requires AllDigits(s) && AllDigits(t)
    requires a + "." + s == b + "." + t
    ensures a == b && s == t
  {
    var text := a + "." + s;
    assert forall k :: |a| < k < |text| ==> IsDigit(text[k]);
    assert forall k :: |b| < k < |text| ==> text[k] == t[k - |b| - 1];
    assert text[|a|] == '.' && text[|b|] == '.';
    assert a == text[..|a|] && b == text[..|b|];
    assert s == text[|a| + 1..] && t == text[|b| + 1..];
  }

  lemma {:induction false} PathTextInjective(p: Position, q: Position)
    requires PathText(p) == PathText(q)
    ensures p == q
  {
    if p != [] && q != [] {
      var s, t := Show(p[|p| - 1]), Show(q[|q| - 1]);
      LastDotUnique(PathText(Parent(p)), s, PathText(Parent(q)), t);
      PathTextInjective(Parent(p), Parent(q));
      ShowInjective(p[|p| - 1], q[|q| - 1]);
      assert p == Parent(p) + [p[|p| - 1]] && q == Parent(q) + [q[|q| - 1]];
    }
  }

  /** A dotted prefix of a text that ends in a dot and digits ends at that dot or before it. */
  lemma DottedPrefixOfText(a: string, t: string, b: string)
    requires AllDigits(t)
    ensures b + "." <= a + "." + t <==> b == a || b + "." <= a
  {
    var text, n := a + "." + t, |b|;
    assert text[..|a|] == a && text[..|a| + 1] == a + ".";
    if b + "." <= text {
      assert forall k :: |a| < k < |text| ==> text[k] == t[k - |a| - 1];
      assert text[n] == (b + ".")[n];
      assert n <= |a|;
      assert b == text[..n];
      assert n < |a| ==> b + "." == text[..n + 1] == a[..n + 1];
    }
    if b + "." <= a {
      assert a == text[..|a|];
    }
  }

  lemma {:induction false} DottedPrefix(p: Position, q: Position)
    ensures PathText(p) + "." <= PathText(q) <==> p < q
  {
    if q != [] {
      hide Show;
      DottedPrefix(p, Parent(q));
      DottedPrefixOfText(PathText(Parent(q)), Show(q[|q| - 1]), PathText(p));
      if PathText(p) == PathText(Parent(q)) {
        PathTextInjective(p, Parent(q));
      }
      assert p < q <==> p == Parent(q) || p < Parent(q);
    }
  }

  /** The string test decides "is the node itself or one of its ancestors", so index 1 never
      passes for index 10. */
  lemma PathCoversIsAncestry(p: Position, q: Position)
    ensures PathCovers(PathText(p), PathText(q)) <==> p <= q
  {
    DottedPrefix(p, q);
    assert p <= q && |p| >= |q| ==> p == q;
    if PathText(p) == PathText(q) {
      PathTextInjective(p, q);
    }
  }

  // ----- the positions of the pre-order listing

  function Positions(node: Node, prefix: Position): seq<Position>
    decreases node, 1
  {
    if node.Junk? then [] else [prefix] + PositionsFrom(node.calls, 0, prefix)
  }

  function PositionsFrom(nodes: seq<Node>, index: nat, prefix: Position): seq<Position>
    decreases nodes, 0
  {
    if nodes == [] then []
    else Positions(nodes[0], prefix + [index]) + PositionsFrom(nodes[1..], index + 1, prefix)
  }

  /** Lexicographic order of positions, an ancestor before its descendants. */
  predicate Before(p: Position, q: Position) {
    q != [] && (p == [] || p[0] < q[0] || (p[0] == q[0] && Before(p[1..], q[1..])))
  }

  lemma {:induction false} BeforeAsymmetric(p: Position, q: Position)
    ensures !(Before(p, q) && Before(q, p)) && !Before(p, p)
    decreases p, q
  {
    if p != [] && q != [] {
      BeforeAsymmetric(p[1..], q[1..]);
    } else if p != [] {
      BeforeAsymmetric(p[1..], []);
    }
  }

  lemma {:induction false} PrefixIsBefore(p: Position, q: Position)
    requires p < q
    ensures Before(p, q)
  {
    if p != [] {
      PrefixIsBefore(p[1..], q[1..]);
    }
  }

  lemma {:induction false} SiblingsOrdered(prefix: Position, i: nat, j: nat, p: Position, q: Position)
    requires i < j && prefix + [i] <= p && prefix + [j] <= q
    ensures Before(p, q)
  {
    if prefix == [] {
      assert p[0] == i && q[0] == j;
    } else {
      assert p[0] == prefix[0] == q[0];
      assert prefix[1..] + [i] == (prefix + [i])[1..] <= p[1..];
      assert prefix[1..] + [j] == (prefix + [j])[1..] <= q[1..];
      SiblingsOrdered(prefix[1..], i, j, p[1..], q[1..]);
    }
  }

  ghost predicate Increasing(ps: seq<Position>) {
    forall i, j :: 0 <= i < j < |ps| ==> Before(ps[i], ps[j])
  }

  lemma {:induction false} PositionsOrdered(node: Node, prefix: Position)
    ensures Increasing(Positions(node, prefix))
    ensures forall p :: p in Positions(node, prefix) ==> prefix <= p
    decreases node, 1
  {
    if node.Frame? {
      PositionsFromOrdered(node.calls, 0, prefix);
      var rest := PositionsFrom(node.calls, 0, prefix);
      forall j | 0 <= j < |rest| ensures Before(prefix, rest[j]) {
        assert rest[j] in rest;
        PrefixIsBefore(prefix, rest[j]);
      }
    }
  }

  lemma {:induction false} PositionsFromOrdered(nodes: seq<Node>, index: nat, prefix: Position)
    ensures Increasing(PositionsFrom(nodes, index, prefix))
    ensures forall p :: p in PositionsFrom(nodes, index, prefix) ==>
              prefix < p && index <= p[|prefix|]
    decreases nodes, 0
  {
    if nodes != [] {
      PositionsOrdered(nodes[0], prefix + [index]);
      PositionsFromOrdered(nodes[1..], index + 1, prefix);
      var first, rest := Positions(nodes[0], prefix + [index]), PositionsFrom(nodes[1..], index + 1, prefix);
      forall i, j | 0 <= i < |first| && 0 <= j < |rest| ensures Before(first[i], rest[j]) {
        assert first[i] in first && rest[j] in rest;
        var k := rest[j][|prefix|];
        assert rest[j][..|prefix| + 1] == prefix + [k];
        SiblingsOrdered(prefix, index, k, first[i], rest[j]);
      }
    }
  }

  lemma {:induction false} PositionsComplete(node: Node, prefix: Position, p: Position)
    ensures prefix + p in Positions(node, prefix) <==> Reaches(node, p)
    decreases node, 1
  {
    if node.Frame? {
      if p == [] {
        assert prefix + p == prefix;
      } else {
        PositionsFromComplete(node.calls, 0, prefix, p);
        assert prefix + p != prefix by { assert |prefix + p| != |prefix|; }
      }
    }
  }

  lemma PositionElsewhere(node: Node, prefix: Position, index: nat, p: Position)
    requires p != [] && p[0] != index
    ensures prefix + p !in Positions(node, prefix + [index])
  {
    hide Positions, Increasing;
    PositionsOrdered(node, prefix + [index]);
    assert (prefix + p)[|prefix|] == p[0] && (prefix + [index])[|prefix|] == index;
  }

  lemma {:induction false} PositionsFromComplete(nodes: seq<Node>, index: nat, prefix: Position, p: Position)
    requires p != []
    ensures prefix + p in PositionsFrom(nodes, index, prefix) <==>
            index <= p[0] < index + |nodes| && Reaches(nodes[p[0] - index], p[1..])
    decreases nodes, 0
  {
    if nodes != [] {
      PositionsFromComplete(nodes[1..], index + 1, prefix, p);
      if p[0] == index {
        PositionsComplete(nodes[0], prefix + [index], p[1..]);
        assert prefix + [index] + p[1..] == prefix + p;
      } else {
        PositionElsewhere(nodes[0], prefix, index, p);
        if index < p[0] < index + |nodes| {
          assert nodes[1..][p[0] - index - 1] == nodes[p[0] - index];
        }
      }
    }
  }

  // ----- the listing, frame by frame

  /** `frames` lists, in order, the nodes of `root` at the positions `ps`. */
  ghost predicate Lists(root: Node, frames: seq<CallFrame>, ps: seq<Position>) {
    && |frames| == |ps|
    && forall k :: 0 <= k < |ps| ==>
         Reaches(root, ps[k]) && frames[k] == FrameOf(At(root, ps[k]), |ps[k]|, PathText(ps[k]))
  }

  lemma {:induction false} ReachesAppend(root: Node, p: Position, i: nat)
    requires Reaches(root, p)
    ensures Reaches(root, p + [i]) <==> i < |At(root, p).calls| && At(root, p).calls[i].Frame?
    ensures Reaches(root, p + [i]) ==> At(root, p + [i]) == At(root, p).calls[i]
    decreases p
  {
    if p == [] {
      assert ([] + [i])[1..] == [];
    } else {
      ReachesAppend(root.calls[p[0]], p[1..], i);
      assert (p + [i])[1..] == p[1..] + [i];
    }
  }

  lemma {:induction false} PreorderLists(root: Node, node: Node, prefix: Position)
    requires node.Frame? ==> Reaches(root, prefix) && At(root, prefix) == node
    ensures Lists(root, Preorder(node, |prefix|, PathText(prefix)), Positions(node, prefix))
    decreases node, 1
  {
    if node.Frame? {
      assert node.calls[0..] == node.calls;
      PreorderFromLists(root, node.calls, 0, prefix);
    }
  }

  lemma {:induction false} PreorderFromLists(root: Node, nodes: seq<Node>, index: nat, prefix: Position)
    requires Reaches(root, prefix)
    requires index + |nodes| == |At(root, prefix).calls| && nodes == At(root, prefix).calls[index..]
    ensures Lists(root, PreorderFrom(nodes, index, |prefix| + 1, PathText(prefix)), PositionsFrom(nodes, index, prefix))
    decreases nodes, 0
  {
    hide Show, At, Reaches, FrameOf;
    if nodes != [] {
      var child := prefix + [index];
      ReachesAppend(root, prefix, index);
      assert Parent(child) == prefix;
      assert nodes[0] == At(root, prefix).calls[index];
      PreorderLists(root, nodes[0], child);
      PreorderFromLists(root, nodes[1..], index + 1, prefix);
    }
  }

  /** The flattened list is the pre-order of the tree: it holds exactly the object nodes, each
      with its own data, depth and path, in lexicographic order of position. */
  lemma PreorderStructure(root: Node)
    ensures Lists(root, Preorder(root, 0, "0"), Positions(root, []))
    ensures Increasing(Positions(root, []))
    ensures forall p :: p in Positions(root, []) <==> Reaches(root, p)
  {
    PreorderLists(root, root, []);
    PositionsOrdered(root, []);
    forall p: Position ensures p in Positions(root, []) <==> Reaches(root, p) {
      PositionsComplete(root, [], p);
      assert [] + p == p;
    }
  }

  /** What a listed frame says of its node: the type in upper case or CALL, the parties and value, and
      the two kinds of failure apart, each absent when its text is empty. */
  lemma FrameFields(root: Node, k: nat)
    requires k < |Preorder(root, 0, "0")|
    ensures k < |Positions(root, [])| && Reaches(root, Positions(root, [])[k])
    ensures var node, frame := At(root, Positions(root, [])[k]), Preorder(root, 0, "0")[k];
            && node.Frame? && frame.depth == |Positions(root, [])[k]|
            && frame.callType == (if node.typeText == "" then "CALL" else Upper(node.typeText))
            && frame.sender == node.sender && frame.recipient == node.recipient && frame.value == node.value
            && frame.error == (if node.error == "" then None else Some(node.error))
            && frame.revertReason == (if node.revertReason == "" then None else Some(node.revertReason))
            && frame.effect == Unknown
  {
    PreorderStructure(root);
    hide Preorder, Positions, PathText, At, Upper;
  }

  lemma PathsDistinct(root: Node, i: nat, j: nat)
    requires i < j < |Preorder(root, 0, "0")|
    ensures Preorder(root, 0, "0")[i].path != Preorder(root, 0, "0")[j].path
  {
    PreorderStructure(root);
    var ps := Positions(root, []);
    BeforeAsymmetric(ps[i], ps[j]);
    if PathText(ps[i]) == PathText(ps[j]) {
      PathTextInjective(ps[i], ps[j]);
    }
  }
}
