/** Sort keys: Python tuples of integers and characters, compared lexicographically. */
module Keys {
  import opened Sorting

  type Key = seq<int>

  predicate KeyLe(a: Key, b: Key) {
    a == [] || (b != [] && (a[0] < b[0] || (a[0] == b[0] && KeyLe(a[1..], b[1..]))))
  }

  lemma {:induction false} KeyLeTotal(a: Key, b: Key)
    ensures KeyLe(a, b) || KeyLe(b, a)
    ensures KeyLe(a, b) && KeyLe(b, a) ==> a == b
  {
    if a != [] && b != [] && a[0] == b[0] {
      KeyLeTotal(a[1..], b[1..]);
      assert a == [a[0]] + a[1..] && b == [b[0]] + b[1..];
    }
  }

  lemma {:induction false} KeyLeTransitive(a: Key, b: Key, c: Key)
    requires KeyLe(a, b) && KeyLe(b, c)
    ensures KeyLe(a, c)
  {
    if a != [] && a[0] == b[0] && b[0] == c[0] {
      KeyLeTransitive(a[1..], b[1..], c[1..]);
    }
  }

  /** The order of keys of four numbers, written out. */
  lemma KeyOfFour(a: Key, b: Key)
    requires |a| == 4 && |b| == 4 && KeyLe(a, b)
    ensures || a[0] < b[0]
            || (a[0] == b[0] && (a[1] < b[1] || (a[1] == b[1] && (a[2] < b[2] || (a[2] == b[2] && a[3] <= b[3])))))
  {
    assert a[1..][0] == a[1] && a[1..][1..] == a[2..] && b[1..][0] == b[1] && b[1..][1..] == b[2..];
    assert a[2..][0] == a[2] && a[2..][1..] == a[3..] && b[2..][0] == b[2] && b[2..][1..] == b[3..];
    assert a[3..][0] == a[3] && b[3..][0] == b[3];
    assert KeyLe(a[1..], b[1..]) ==> a[1] < b[1] || (a[1] == b[1] && KeyLe(a[2..], b[2..]));
    assert KeyLe(a[2..], b[2..]) ==> a[2] < b[2] || (a[2] == b[2] && KeyLe(a[3..], b[3..]));
  }

  /** Order elements by a key function. */
  function ByKey<T>(key: T -> Key): (T, T) -> bool {
    (a: T, b: T) => KeyLe(key(a), key(b))
  }

  lemma ByKeyTotalPreorder<T(!new)>(key: T -> Key)
    ensures TotalPreorder(ByKey(key))
  {
    var le := ByKey(key);
    forall a, b ensures le(a, b) || le(b, a) {
      KeyLeTotal(key(a), key(b));
    }
    forall a, b, c | le(a, b) && le(b, c) ensures le(a, c) {
      KeyLeTransitive(key(a), key(b), key(c));
    }
  }

  lemma SortedByKey<T(!new)>(s: seq<T>, key: T -> Key, i: int, j: int)
    requires 0 <= i <= j < |s|
    ensures KeyLe(key(Sort(s, ByKey(key))[i]), key(Sort(s, ByKey(key))[j]))
  {
    ByKeyTotalPreorder(key);
    SortOrdered(s, ByKey(key));
    KeyLeTotal(key(Sort(s, ByKey(key))[i]), key(Sort(s, ByKey(key))[j]));
  }

  /** Characters as key components, so that texts compare as Python strings do. */
  function TextKey(s: string): Key {
    seq(|s|, i requires 0 <= i < |s| => s[i] as int)
  }

  /** How Python compares texts: character by character, a prefix first. */
  predicate TextLe(s: string, t: string) {
    s == [] || (t != [] && (s[0] < t[0] || (s[0] == t[0] && TextLe(s[1..], t[1..]))))
  }

  lemma TextKeyTail(s: string)
    requires s != []
    ensures TextKey(s)[0] == s[0] as int && TextKey(s)[1..] == TextKey(s[1..])
  {
  }

  lemma {:induction false} TextKeyOrder(s: string, t: string)
    ensures KeyLe(TextKey(s), TextKey(t)) <==> TextLe(s, t)
  {
    if s != [] && t != [] {
      TextKeyTail(s);
      TextKeyTail(t);
      TextKeyOrder(s[1..], t[1..]);
    }
  }

  /** The key of two texts: -1 ends the first, since it is below every character. */
  function PairKey(s: string, u: string): Key {
    TextKey(s) + [-1] + TextKey(u)
  }

  lemma PairKeyTail(s: string, u: string)
    ensures PairKey(s, u) != []
    ensures s != [] ==> PairKey(s, u)[0] == s[0] as int && PairKey(s, u)[1..] == PairKey(s[1..], u)
    ensures PairKey([], u)[0] == -1 && PairKey([], u)[1..] == TextKey(u)
  {
    if s != [] {
      TextKeyTail(s);
      assert PairKey(s, u) == [s[0] as int] + PairKey(s[1..], u);
    }
    assert PairKey([], u) == [-1] + TextKey(u);
  }

  /** It orders by the first text, then by the second. */
  lemma {:induction false} PairKeyOrder(s: string, u: string, t: string, v: string)
    requires KeyLe(PairKey(s, u), PairKey(t, v))
    ensures if s == t then TextLe(u, v) else TextLe(s, t)
  {
    hide PairKey, TextKey;
    PairKeyTail(s, u);
    PairKeyTail(t, v);
    if s == [] && t == [] {
      TextKeyOrder(u, v);
    } else if s != [] && t != [] && s[0] == t[0] {
      PairKeyOrder(s[1..], u, t[1..], v);
      assert s == [s[0]] + s[1..] && t == [t[0]] + t[1..];
    }
  }
}
