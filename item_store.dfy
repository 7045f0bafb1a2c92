/** The item filter store (stores/itemStore.ts): two lists of selected
    filters, each toggled by one action. */
module ItemStore {
  import opened Catalog

  /** `Array.prototype.indexOf`: the first index holding `x`, or -1. */
  function IndexOf<T(==)>(s: seq<T>, x: T): (i: int)
    ensures -1 <= i < |s|
    ensures i == -1 <==> x !in s
    ensures 0 <= i ==> s[i] == x && x !in s[..i]
  {
    if s == [] then -1
    else if s[0] == x then 0
    else
      var j := IndexOf(s[1..], x);
      assert j >= 0 ==> s[..j + 1] == [s[0]] + s[1..][..j];
      if j == -1 then -1 else j + 1
  }

  /** The body of both actions: `splice(index, 1)` when present, else `push`. */
  function Toggle<T(==)>(s: seq<T>, x: T): (r: seq<T>)
    ensures x in s ==> |r| == |s| - 1
    ensures x !in s ==> |r| == |s| + 1 && r[|s|] == x
  {
    var i := IndexOf(s, x);
    if i > -1 then s[..i] + s[i + 1..] else s + [x]
  }

  ghost predicate NoDuplicates<T>(s: seq<T>) {
    forall i, j :: 0 <= i < j < |s| ==> s[i] != s[j]
  }

  /** Everything in `s` except `x`, in order: an independent reading of
      "remove the selection". */
  function Without<T(==)>(s: seq<T>, x: T): (r: seq<T>)
    ensures forall k :: 0 <= k < |r| ==> r[k] in s && r[k] != x
    ensures forall k :: 0 <= k < |s| && s[k] != x ==> s[k] in r
  {
    if s == [] then [] else (if s[0] == x then [] else [s[0]]) + Without(s[1..], x)
  }

  /** Toggling adds one occurrence of an absent value and removes one
      occurrence of a present one. */
  lemma ToggleCounts<T>(s: seq<T>, x: T)
    ensures x !in s ==> multiset(Toggle(s, x)) == multiset(s) + multiset{x}
    ensures x in s ==> multiset(Toggle(s, x)) == multiset(s) - multiset{x}
  {
    var i := IndexOf(s, x);
    if i > -1 {
      assert s == s[..i] + [s[i]] + s[i + 1..];
    }
  }

  /** On a duplicate-free list, toggling flips membership of `x`, leaves
      every other value's membership alone, and keeps the list duplicate-free. */
  lemma ToggleFlips<T>(s: seq<T>, x: T)
    requires NoDuplicates(s)
    ensures x in Toggle(s, x) <==> x !in s
    ensures forall y :: y != x ==> (y in Toggle(s, x) <==> y in s)
    ensures NoDuplicates(Toggle(s, x))
  {
    var i := IndexOf(s, x);
    if i > -1 {
      assert s == s[..i] + [s[i]] + s[i + 1..];
      assert x !in s[i + 1..] by {
        forall k | i + 1 <= k < |s|
          ensures s[k] != x
        {
          assert s[i] != s[k];
        }
      }
      RemovalKeepsNoDuplicates(s, i);
    } else {
      assert Toggle(s, x) == s + [x];
    }
  }

  lemma RemovalKeepsNoDuplicates<T>(s: seq<T>, i: nat)
    requires NoDuplicates(s) && i < |s|
    ensures NoDuplicates(s[..i] + s[i + 1..])
  {
    var t := s[..i] + s[i + 1..];
    forall a, b | 0 <= a < b < |t|
      ensures t[a] != t[b]
    {
      var a' := if a < i then a else a + 1;
      var b' := if b < i then b else b + 1;
      assert t[a] == s[a'] && t[b] == s[b'];
    }
  }

  /** On a duplicate-free list, removing the selection keeps every other
      value in its order. */
  lemma {:induction false} ToggleRemoves<T>(s: seq<T>, x: T)
    requires NoDuplicates(s) && x in s
    ensures Toggle(s, x) == Without(s, x)
  {
    if s[0] == x {
      WithoutAbsent(s[1..], x);
      assert s[1..] == s[..0] + s[1..];
    } else {
      assert s == [s[0]] + s[1..];
      ToggleRemoves(s[1..], x);
      var i := IndexOf(s[1..], x);
      assert s[..i + 1] == [s[0]] + s[1..][..i];
      assert s[i + 2..] == s[1..][i + 1..];
    }
  }

  lemma {:induction false} WithoutAbsent<T>(s: seq<T>, x: T)
    requires x !in s
    ensures Without(s, x) == s
  {
    if s != [] {
      assert s[0] != x && x !in s[1..];
      WithoutAbsent(s[1..], x);
      assert Without(s, x) == [s[0]] + s[1..];
      assert s == [s[0]] + s[1..];
    }
  }

  /** Selecting a new value appends it, and selecting it again restores the
      previous list. */
  lemma ToggleTwice<T>(s: seq<T>, x: T)
    requires x !in s
    ensures Toggle(s, x) == s + [x]
    ensures Toggle(Toggle(s, x), x) == s
  {
    var t := s + [x];
    assert forall k :: 0 <= k < |s| ==> t[k] == s[k];
    assert t[..|s|] == s;
  }

  /** The reactive `itemFilters` object and its two actions. */
  class ItemFilters {
    var category: seq<string>
    var condition: seq<Condition>

    ghost predicate Valid()
      reads this
    {
      NoDuplicates(category) && NoDuplicates(condition)
    }

    constructor()
      ensures category == [] && condition == []
      ensures Valid()
    {
      category := [];
      condition := [];
    }

    method SetCategoryFilter(categoryId: string)
      requires Valid()
      modifies this
      ensures Valid()
      ensures category == Toggle(old(category), categoryId)
      ensures condition == old(condition)
      ensures categoryId in category <==> categoryId !in old(category)
    {
      ToggleFlips(category, categoryId);
      var index := IndexOf(category, categoryId);
      if index > -1 {
        category := category[..index] + category[index + 1..];
      } else {
        category := category + [categoryId];
      }
    }

    method SetConditionFilter(c: Condition)
      requires Valid()
      modifies this
      ensures Valid()
      ensures condition == Toggle(old(condition), c)
      ensures category == old(category)
      ensures c in condition <==> c !in old(condition)
    {
      ToggleFlips(condition, c);
      var index := IndexOf(condition, c);
      if index > -1 {
        condition := condition[..index] + condition[index + 1..];
      } else {
        condition := condition + [c];
      }
    }
  }
}
