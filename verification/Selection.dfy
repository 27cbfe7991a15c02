/** Keeping the first element of each identity in an ordered list. */
module Selection {

  function Firsts<T, I(==)>(xs: seq<T>, id: T -> I, seen: set<I>): seq<T>
    decreases xs
  {
    if xs == [] then []
    else if id(xs[0]) in seen then Firsts(xs[1..], id, seen)
    else [xs[0]] + Firsts(xs[1..], id, seen + {id(xs[0])})
  }

  function Ids<T, I(==)>(xs: seq<T>, id: T -> I): set<I>
    decreases xs
  {
    if xs == [] then {} else {id(xs[0])} + Ids(xs[1..], id)
  }

  lemma {:induction false} IdsMembers<T, I>(xs: seq<T>, id: T -> I, x: T)
    requires x in xs
    ensures id(x) in Ids(xs, id)
    decreases xs
  {
    if x != xs[0] {
      IdsMembers(xs[1..], id, x);
    }
  }

  lemma {:induction false} FirstsMembers<T, I>(xs: seq<T>, id: T -> I, seen: set<I>)
    ensures forall x :: x in Firsts(xs, id, seen) ==> x in xs && id(x) !in seen
    decreases xs
  {
    if xs != [] {
      FirstsMembers(xs[1..], id, if id(xs[0]) in seen then seen else seen + {id(xs[0])});
    }
  }

  lemma {:induction false} FirstsDistinct<T, I>(xs: seq<T>, id: T -> I, seen: set<I>)
    ensures forall i, j :: 0 <= i < j < |Firsts(xs, id, seen)| ==>
            id(Firsts(xs, id, seen)[i]) != id(Firsts(xs, id, seen)[j])
    decreases xs
  {
    if xs != [] {
      var now := if id(xs[0]) in seen then seen else seen + {id(xs[0])};
      FirstsDistinct(xs[1..], id, now);
      FirstsMembers(xs[1..], id, now);
      var rest := Firsts(xs[1..], id, now);
      assert forall j :: 0 <= j < |rest| ==> rest[j] in rest;
    }
  }

  /** One element is kept per identity not seen before. */
  lemma {:induction false} FirstsCount<T, I>(xs: seq<T>, id: T -> I, seen: set<I>)
    ensures Ids(Firsts(xs, id, seen), id) == Ids(xs, id) - seen
    ensures |Firsts(xs, id, seen)| == |Ids(xs, id) - seen|
    decreases xs
  {
    if xs != [] {
      var h := id(xs[0]);
      var now := if h in seen then seen else seen + {h};
      FirstsCount(xs[1..], id, now);
      if h in seen {
        assert Ids(xs, id) - seen == Ids(xs[1..], id) - seen;
      } else {
        var rest := Firsts(xs[1..], id, now);
        assert ([xs[0]] + rest)[1..] == rest;
        assert Ids(xs, id) - seen == (Ids(xs[1..], id) - now) + {h};
      }
    }
  }

  /** In a list ordered by `le`, an element whose identity is not among the first i kept is no
      smaller than the next one kept. */
  lemma {:induction false} FirstsLeast<T, I>(xs: seq<T>, id: T -> I, seen: set<I>, le: (T, T) -> bool, i: nat, x: T)
    requires forall j, k :: 0 <= j <= k < |xs| ==> le(xs[j], xs[k])
    requires i < |Firsts(xs, id, seen)| && x in xs
    requires id(x) !in seen && id(x) !in Ids(Firsts(xs, id, seen)[..i], id)
    ensures le(Firsts(xs, id, seen)[i], x)
    decreases xs
  {
    var h := id(xs[0]);
    var now := if h in seen then seen else seen + {h};
    var rest := Firsts(xs[1..], id, now);
    if h in seen {
      FirstsLeast(xs[1..], id, seen, le, i, x);
    } else if i > 0 {
      var kept := Firsts(xs, id, seen);
      assert kept[..i][1..] == rest[..i - 1];
      assert h in Ids(kept[..i], id);
      FirstsLeast(xs[1..], id, now, le, i - 1, x);
    } else {
      var k :| 0 <= k < |xs| && xs[k] == x;
      assert le(xs[0], xs[k]);
    }
  }

  /** What is kept stays in order. */
  lemma {:induction false} FirstsOrdered<T, I>(xs: seq<T>, id: T -> I, seen: set<I>, le: (T, T) -> bool)
    requires forall j, k :: 0 <= j <= k < |xs| ==> le(xs[j], xs[k])
    ensures forall i, j :: 0 <= i < j < |Firsts(xs, id, seen)| ==> le(Firsts(xs, id, seen)[i], Firsts(xs, id, seen)[j])
    decreases xs
  {
    if xs != [] {
      var now := if id(xs[0]) in seen then seen else seen + {id(xs[0])};
      FirstsOrdered(xs[1..], id, now, le);
      FirstsMembers(xs[1..], id, now);
      var rest := Firsts(xs[1..], id, now);
      forall j | 0 <= j < |rest| ensures le(xs[0], rest[j]) {
        assert rest[j] in xs[1..];
        var k :| 0 <= k < |xs[1..]| && xs[1..][k] == rest[j];
        assert le(xs[0], xs[k + 1]);
      }
    }
  }
}
