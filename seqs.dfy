/** Order-preserving duplicate removal, as Kotlin's `distinct()` and `toSet()` (a
    LinkedHashSet) do it: the first occurrence of every element is kept, in order. */
module Seqs {

  predicate NoDuplicates<T(==)>(s: seq<T>) {
    forall i, j :: 0 <= i < j < |s| ==> s[i] != s[j]
  }

  /** The position of the first occurrence of `x` in `s`. */
  function IndexOf<T(==)>(s: seq<T>, x: T): (i: nat)
    requires x in s
    ensures i < |s| && s[i] == x
    ensures forall j :: 0 <= j < i ==> s[j] != x
  {
    if s[0] == x then 0 else 1 + IndexOf(s[1..], x)
  }

  function Dedup<T(==)>(s: seq<T>): (r: seq<T>)
    ensures NoDuplicates(r)
    ensures forall i :: 0 <= i < |r| ==> r[i] in s
    ensures forall i :: 0 <= i < |s| ==> s[i] in r
    decreases |s|
  {
    if |s| == 0 then []
    else
      var prev := Dedup(s[..|s| - 1]);
      assert s == s[..|s| - 1] + [s[|s| - 1]];
      if s[|s| - 1] in prev then prev else prev + [s[|s| - 1]]
  }

  lemma IndexOfExtend<T>(s: seq<T>, y: T, x: T)
    requires x in s
    ensures IndexOf(s + [y], x) == IndexOf(s, x)
  {
    var k := IndexOf(s, x);
    assert (s + [y])[k] == x;
    assert forall j :: 0 <= j < k ==> (s + [y])[j] != x by {
      forall j | 0 <= j < k ensures (s + [y])[j] != x {
        assert (s + [y])[j] == s[j];
      }
    }
  }

  /** `Dedup` keeps elements in the order of their first occurrence. */
  lemma {:induction false} DedupFirstOccurrenceOrder<T>(s: seq<T>, i: nat, j: nat)
    requires i < j < |Dedup(s)|
    ensures IndexOf(s, Dedup(s)[i]) < IndexOf(s, Dedup(s)[j])
    decreases |s|
  {
    var init, last := s[..|s| - 1], s[|s| - 1];
    assert s == init + [last];
    var prev := Dedup(init);
    var r := Dedup(s);
    assert r[i] in prev;
    IndexOfExtend(init, last, r[i]);
    if j < |prev| {
      IndexOfExtend(init, last, r[j]);
      DedupFirstOccurrenceOrder(init, i, j);
    } else {
      assert r[j] == last && last !in init;
    }
  }

  /** A sequence without repetitions is its own `Dedup`. */
  lemma {:induction false} DedupDistinct<T>(s: seq<T>)
    requires NoDuplicates(s)
    ensures Dedup(s) == s
  {
    if s != [] {
      var init := s[..|s| - 1];
      DedupDistinct(init);
      assert s[|s| - 1] !in init by {
        forall j | 0 <= j < |init| ensures init[j] != s[|s| - 1] {
          assert init[j] == s[j];
        }
      }
      assert s == init + [s[|s| - 1]];
    }
  }

  /** Appending never reorders or drops what `Dedup` already kept. */
  lemma {:induction false} DedupPrefix<T>(s: seq<T>, t: seq<T>)
    ensures |Dedup(s)| <= |Dedup(s + t)| && Dedup(s + t)[..|Dedup(s)|] == Dedup(s)
    decreases |t|
  {
    if t == [] {
      assert s + t == s;
    } else {
      var u := t[..|t| - 1];
      DedupPrefix(s, u);
      assert (s + t)[..|s + t| - 1] == s + u;
    }
  }

  /** `map` over a list, position by position. */
  function Map<T, U>(f: T -> U, s: seq<T>): (r: seq<U>)
    ensures |r| == |s| && forall i :: 0 <= i < |s| ==> r[i] == f(s[i])
  {
    if s == [] then [] else Map(f, s[..|s| - 1]) + [f(s[|s| - 1])]
  }

  /** Under a one-to-one function, an image is in the mapped list exactly when its preimage is
      in the list. */
  lemma MapMember<T, U>(f: T -> U, s: seq<T>, x: T)
    requires forall a, b :: f(a) == f(b) ==> a == b
    ensures f(x) in Map(f, s) <==> x in s
  {
    if f(x) in Map(f, s) {
      var i :| 0 <= i < |s| && Map(f, s)[i] == f(x);
      assert s[i] == x;
    }
  }

  /** Mapping by a one-to-one function commutes with `Dedup`. */
  lemma {:induction false} DedupMap<T, U>(f: T -> U, s: seq<T>)
    requires forall a, b :: f(a) == f(b) ==> a == b
    ensures Dedup(Map(f, s)) == Map(f, Dedup(s))
  {
    if s != [] {
      var init, last := s[..|s| - 1], s[|s| - 1];
      var prev := Dedup(init);
      DedupMap(f, init);
      var m := Map(f, s);
      assert m[..|m| - 1] == Map(f, init);
      assert Dedup(m) == if f(last) in Map(f, prev) then Map(f, prev) else Map(f, prev) + [f(last)];
      MapMember(f, prev, last);
      if last in prev {
        assert Dedup(s) == prev;
      } else {
        assert Dedup(s) == prev + [last];
        assert (prev + [last])[..|prev|] == prev;
      }
    }
  }
}
