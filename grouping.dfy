/** Kotlin's `groupBy`, as both code generators use it to collect the definitions sharing a
    root literal: elements are visited in order and appended to the list of their key in a
    `LinkedHashMap`, so the groups come out in the order their keys first appear and each
    group keeps its elements in their original order. */
module Grouping {
  import opened Seqs

  datatype Group<C> = Group(key: string, members: seq<C>)

  function KeysOf<C>(items: seq<C>, key: C -> string): (r: seq<string>)
    ensures |r| == |items| && forall i :: 0 <= i < |items| ==> r[i] == key(items[i])
  {
    if items == [] then [] else KeysOf(items[..|items| - 1], key) + [key(items[|items| - 1])]
  }

  function GroupKeys<C>(gs: seq<Group<C>>): (r: seq<string>)
    ensures |r| == |gs| && forall i :: 0 <= i < |gs| ==> r[i] == gs[i].key
  {
    if gs == [] then [] else [gs[0].key] + GroupKeys(gs[1..])
  }

  /** The elements whose key is `k`, in their original order: the reference meaning of one
      group. */
  function Filter<C>(items: seq<C>, key: C -> string, k: string): seq<C>
  {
    if items == [] then []
    else
      var init, last := items[..|items| - 1], items[|items| - 1];
      Filter(init, key, k) + (if key(last) == k then [last] else [])
  }

  /** A group holds only elements of the input, each of the group's key. */
  lemma {:induction false} FilterMembers<C>(items: seq<C>, key: C -> string, k: string)
    ensures forall x :: x in Filter(items, key, k) ==> x in items && key(x) == k
  {
    if items != [] {
      var init := items[..|items| - 1];
      FilterMembers(init, key, k);
      assert forall x :: x in init ==> x in items;
    }
  }

  /** `getOrPut(k) { mutableListOf() }.add(x)`: the element joins the group of its key, or a
      new group at the end. */
  function AddTo<C>(gs: seq<Group<C>>, k: string, x: C): seq<Group<C>> {
    if gs == [] then [Group(k, [x])]
    else if gs[0].key == k then [gs[0].(members := gs[0].members + [x])] + gs[1..]
    else [gs[0]] + AddTo(gs[1..], k, x)
  }

  /** `items.groupBy(key)`. */
  function GroupBy<C>(items: seq<C>, key: C -> string): seq<Group<C>> {
    if items == [] then []
    else AddTo(GroupBy(items[..|items| - 1], key), key(items[|items| - 1]), items[|items| - 1])
  }

  /** Adding to a group leaves every key in place and appends a new key at the end. */
  lemma {:induction false} AddToKeys<C>(gs: seq<Group<C>>, k: string, x: C)
    ensures GroupKeys(AddTo(gs, k, x)) == if k in GroupKeys(gs) then GroupKeys(gs) else GroupKeys(gs) + [k]
  {
    if gs != [] && gs[0].key != k {
      AddToKeys(gs[1..], k, x);
      assert GroupKeys(gs) == [gs[0].key] + GroupKeys(gs[1..]);
    }
  }

  /** Adding to a group extends exactly the group of its key; a new key starts a one-element
      group at the end. */
  lemma {:induction false} AddToMembers<C>(gs: seq<Group<C>>, k: string, x: C)
    requires NoDuplicates(GroupKeys(gs))
    ensures |AddTo(gs, k, x)| == if k in GroupKeys(gs) then |gs| else |gs| + 1
    ensures forall i :: 0 <= i < |gs| ==>
      AddTo(gs, k, x)[i] == if gs[i].key == k then gs[i].(members := gs[i].members + [x]) else gs[i]
    ensures k !in GroupKeys(gs) ==> AddTo(gs, k, x)[|gs|] == Group(k, [x])
  {
    AddToKeys(gs, k, x);
    if gs != [] && gs[0].key == k {
      forall i | 1 <= i < |gs|
        ensures gs[i].key != k
      {
        assert GroupKeys(gs)[i] != GroupKeys(gs)[0];
      }
    } else if gs != [] {
      var t := gs[1..];
      assert GroupKeys(gs) == [gs[0].key] + GroupKeys(t);
      assert NoDuplicates(GroupKeys(t)) by {
        forall i, j | 0 <= i < j < |t|
          ensures t[i].key != t[j].key
        {
          assert GroupKeys(gs)[i + 1] != GroupKeys(gs)[j + 1];
        }
      }
      AddToMembers(t, k, x);
      assert AddTo(gs, k, x) == [gs[0]] + AddTo(t, k, x);
    }
  }

  /** The groups come out in the order their keys first appear. */
  lemma {:induction false} GroupByKeys<C>(items: seq<C>, key: C -> string)
    ensures GroupKeys(GroupBy(items, key)) == Dedup(KeysOf(items, key))
  {
    if items != [] {
      var init, last := items[..|items| - 1], items[|items| - 1];
      GroupByKeys(init, key);
      AddToKeys(GroupBy(init, key), key(last), last);
      var ks := KeysOf(items, key);
      assert ks[..|ks| - 1] == KeysOf(init, key);
    }
  }

  /** Every group holds exactly the elements of its key, in their original order. */
  lemma {:induction false} GroupByMembers<C>(items: seq<C>, key: C -> string)
    ensures forall i :: 0 <= i < |GroupBy(items, key)| ==>
      GroupBy(items, key)[i].members == Filter(items, key, GroupBy(items, key)[i].key)
  {
    if items != [] {
      var init, last := items[..|items| - 1], items[|items| - 1];
      var prev := GroupBy(init, key);
      GroupByMembers(init, key);
      assert NoDuplicates(GroupKeys(prev)) by {
        GroupByKeys(init, key);
      }
      assert items == init + [last];
      forall i | 0 <= i < |GroupBy(items, key)|
        ensures GroupBy(items, key)[i].members == Filter(items, key, GroupBy(items, key)[i].key)
      {
        GroupByMembersStep(init, last, key, prev, i);
      }
    }
  }

  /** One group of `GroupBy(init + [last])` from the groups of `init`. */
  lemma GroupByMembersStep<C>(init: seq<C>, last: C, key: C -> string, prev: seq<Group<C>>, i: nat)
    requires prev == GroupBy(init, key) && NoDuplicates(GroupKeys(prev))
    requires forall j :: 0 <= j < |prev| ==> prev[j].members == Filter(init, key, prev[j].key)
    requires i < |GroupBy(init + [last], key)|
    ensures GroupBy(init + [last], key)[i].members == Filter(init + [last], key, GroupBy(init + [last], key)[i].key)
  {
    assert (init + [last])[..|init|] == init;
    assert GroupBy(init + [last], key) == AddTo(prev, key(last), last);
    AddToLength(prev, key(last), last);
    if i < |prev| {
      OldGroupGrows(init, last, key, prev, i);
    } else {
      NewGroupStarts(init, last, key, prev, i);
    }
  }

  lemma {:induction false} AddToLength<C>(gs: seq<Group<C>>, k: string, x: C)
    ensures |gs| <= |AddTo(gs, k, x)| <= |gs| + 1
  {
    if gs != [] && gs[0].key != k {
      AddToLength(gs[1..], k, x);
    }
  }

  lemma OldGroupGrows<C>(init: seq<C>, last: C, key: C -> string, prev: seq<Group<C>>, i: nat)
    requires NoDuplicates(GroupKeys(prev)) && i < |prev| <= |AddTo(prev, key(last), last)|
    requires prev[i].members == Filter(init, key, prev[i].key)
    ensures AddTo(prev, key(last), last)[i].members == Filter(init + [last], key, AddTo(prev, key(last), last)[i].key)
  {
    var g := AddTo(prev, key(last), last)[i];
    assert g == if prev[i].key == key(last) then prev[i].(members := prev[i].members + [last]) else prev[i] by {
      AddToMembers(prev, key(last), last);
    }
    FilterSnoc(init + [last], key, g.key);
    assert (init + [last])[..|init|] == init;
  }

  lemma NewGroupStarts<C>(init: seq<C>, last: C, key: C -> string, prev: seq<Group<C>>, i: nat)
    requires prev == GroupBy(init, key) && NoDuplicates(GroupKeys(prev))
    requires |prev| <= i < |AddTo(prev, key(last), last)|
    ensures AddTo(prev, key(last), last)[i].members == Filter(init + [last], key, AddTo(prev, key(last), last)[i].key)
  {
    var g := AddTo(prev, key(last), last)[i];
    assert key(last) !in GroupKeys(prev) && g == Group(key(last), [last]) by {
      AddToMembers(prev, key(last), last);
    }
    FilterAbsent(init, key, key(last));
    FilterSnoc(init + [last], key, g.key);
    assert (init + [last])[..|init|] == init;
  }

  lemma FilterSnoc<C>(items: seq<C>, key: C -> string, k: string)
    requires items != []
    ensures Filter(items, key, k) ==
      Filter(items[..|items| - 1], key, k) + (if key(items[|items| - 1]) == k then [items[|items| - 1]] else [])
  {
  }

  /** No element of a key that does not occur. */
  lemma {:induction false} FilterAbsent<C>(items: seq<C>, key: C -> string, k: string)
    requires k !in GroupKeys(GroupBy(items, key))
    ensures Filter(items, key, k) == []
  {
    if items != [] {
      var init, last := items[..|items| - 1], items[|items| - 1];
      assert k !in GroupKeys(GroupBy(init, key)) && key(last) != k by {
        AddToKeys(GroupBy(init, key), key(last), last);
      }
      FilterAbsent(init, key, k);
    }
  }
}
