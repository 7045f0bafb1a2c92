/** `GET /api/category` (server/api/category/index.get.ts): the categories,
    "Free" first, with public ids. */
module CategoryList {
  import opened Wrappers
  import opened Catalog
  import Encrypt

  const FreeName: string := "Free"

  predicate IsFree(c: Category) {
    c.name == FreeName
  }

  /** The comparator handed to `Array.prototype.sort`. */
  function Compare(a: Category, b: Category): (r: int)
    ensures r < 0 <==> IsFree(a)
    ensures r > 0 <==> !IsFree(a) && IsFree(b)
    ensures -1 <= r <= 1
  {
    if IsFree(a) then -1 else if IsFree(b) then 1 else 0
  }

  /** Category names are unique (schema.ts), so at most one is "Free". */
  ghost predicate AtMostOneFree(s: seq<Category>) {
    forall i, j :: 0 <= i < j < |s| && IsFree(s[i]) ==> !IsFree(s[j])
  }

  function Frees(s: seq<Category>): (r: seq<Category>)
    ensures forall k :: 0 <= k < |r| ==> IsFree(r[k])
  {
    if s == [] then [] else (if IsFree(s[0]) then [s[0]] else []) + Frees(s[1..])
  }

  function Others(s: seq<Category>): (r: seq<Category>)
    ensures forall k :: 0 <= k < |r| ==> !IsFree(r[k])
  {
    if s == [] then [] else (if IsFree(s[0]) then [] else [s[0]]) + Others(s[1..])
  }

  /** The order the sort produces: the "Free" category, then the others in
      their original order. */
  function FreeFirst(s: seq<Category>): (r: seq<Category>)
    ensures multiset(r) == multiset(s)
    ensures |r| == |s|
  {
    SplitIsPermutation(s);
    assert |multiset(Frees(s) + Others(s))| == |multiset(s)|;
    Frees(s) + Others(s)
  }

  /** Sorted for `Compare`: no non-"Free" category comes before a "Free" one. */
  ghost predicate SortedByCompare(s: seq<Category>) {
    forall i, j :: 0 <= i < j < |s| ==> Compare(s[i], s[j]) <= 0
  }

  lemma {:induction false} SplitIsPermutation(s: seq<Category>)
    ensures multiset(Frees(s)) + multiset(Others(s)) == multiset(s)
  {
    if s != [] {
      SplitIsPermutation(s[1..]);
      assert s == [s[0]] + s[1..];
    }
  }

  /** The result of the sort is a permutation of its input, sorted for the
      comparator, and (the sort being stable and the comparator returning 0
      between two other categories) keeps the other categories in order. */
  lemma FreeFirstIsStableSort(s: seq<Category>)
    ensures SortedByCompare(FreeFirst(s))
    ensures Others(FreeFirst(s)) == Others(s)
  {
    OthersOfConcat(Frees(s), Others(s));
    OthersOfFrees(s);
    OthersOfOthers(s);
  }

  lemma {:induction false} OthersOfConcat(a: seq<Category>, b: seq<Category>)
    ensures Others(a + b) == Others(a) + Others(b)
  {
    if a != [] {
      assert (a + b)[0] == a[0];
      assert (a + b)[1..] == a[1..] + b;
      OthersOfConcat(a[1..], b);
    } else {
      assert a + b == b;
    }
  }

  lemma {:induction false} OthersOfFrees(s: seq<Category>)
    ensures Others(Frees(s)) == []
  {
    if s != [] {
      OthersOfConcat(if IsFree(s[0]) then [s[0]] else [], Frees(s[1..]));
      OthersOfFrees(s[1..]);
    }
  }

  lemma {:induction false} OthersOfOthers(s: seq<Category>)
    ensures Others(Others(s)) == Others(s)
  {
    if s != [] {
      OthersOfConcat(if IsFree(s[0]) then [] else [s[0]], Others(s[1..]));
      OthersOfOthers(s[1..]);
    }
  }

  /** With one "Free" category, it comes first. */
  lemma FreeComesFirst(s: seq<Category>, f: nat)
    requires f < |s| && IsFree(s[f])
    ensures FreeFirst(s) != [] && IsFree(FreeFirst(s)[0])
  {
    FreesNonEmpty(s, f);
  }

  lemma {:induction false} FreesNonEmpty(s: seq<Category>, f: nat)
    requires f < |s| && IsFree(s[f])
    ensures Frees(s) != []
  {
    if !IsFree(s[0]) {
      FreesNonEmpty(s[1..], f - 1);
    }
  }

  lemma {:induction false} FreesOfNoFree(s: seq<Category>)
    requires forall k :: 0 <= k < |s| ==> !IsFree(s[k])
    ensures Frees(s) == [] && Others(s) == s
  {
    if s != [] {
      FreesOfNoFree(s[1..]);
    }
  }

  lemma {:induction false} SplitAt(s: seq<Category>, f: nat)
    requires f < |s| && IsFree(s[f]) && AtMostOneFree(s)
    ensures Frees(s) == [s[f]]
    ensures Others(s) == s[..f] + s[f + 1..]
  {
    if f == 0 {
      FreesOfNoFree(s[1..]);
    } else {
      assert s[1..][f - 1] == s[f];
      SplitAt(s[1..], f - 1);
      assert s[1..][..f - 1] == s[1..f];
      assert s[1..][f..] == s[f + 1..];
      assert [s[0]] + s[1..f] == s[..f];
    }
  }

  /** The sorted order, for the one "Free" category at index `f`: that
      category, then everything before it, then everything after it. */
  lemma FreeFirstAt(s: seq<Category>, f: nat)
    requires f < |s| && IsFree(s[f]) && AtMostOneFree(s)
    ensures FreeFirst(s) == [s[f]] + s[..f] + s[f + 1..]
  {
    SplitAt(s, f);
  }

  /** `categories.sort(...)`, in place: the "Free" category is moved to the
      front and everything before it shifts up by one. */
  method SortFreeFirst(a: array<Category>)
    requires AtMostOneFree(a[..])
    modifies a
    ensures a[..] == FreeFirst(old(a[..]))
  {
    var f := 0;
    while f < a.Length && !IsFree(a[f])
      invariant 0 <= f <= a.Length
      invariant forall k :: 0 <= k < f ==> !IsFree(a[k])
    {
      f := f + 1;
    }
    if f == a.Length {
      FreesOfNoFree(a[..]);
      return;
    }
    ghost var s := a[..];
    var free := a[f];
    var j := f;
    while j > 0
      invariant 0 <= j <= f
      invariant forall k :: 0 <= k <= j ==> a[k] == s[k]
      invariant forall k :: j < k <= f ==> a[k] == s[k - 1]
      invariant forall k :: f < k < a.Length ==> a[k] == s[k]
    {
      a[j] := a[j - 1];
      j := j - 1;
    }
    a[0] := free;
    FreeFirstAt(s, f);
    assert a[..] == [s[f]] + s[..f] + s[f + 1..];
  }

  /** `{ ...c, id: encodeId(c.id) }`. */
  function PublicCategory(c: Category): (r: Category)
    ensures Encrypt.DecodeId(r.id) == Some(c.id)
    ensures r.(id := c.id) == c
  {
    Encrypt.DecodeEncodeId(c.id);
    c.(id := Encrypt.EncodeId(c.id))
  }

  datatype CategoriesResponse = CategoriesResponse(statusCode: int, categories: seq<Category>)

  /** The handler: sort in place, then re-encode every id. */
  method ListCategories(categories: seq<Category>) returns (r: CategoriesResponse)
    requires AtMostOneFree(categories)
    ensures r.statusCode == 200
    ensures |r.categories| == |categories|
    ensures forall k :: 0 <= k < |r.categories| ==> r.categories[k] == PublicCategory(FreeFirst(categories)[k])
    ensures (exists k :: 0 <= k < |categories| && IsFree(categories[k])) ==> IsFree(r.categories[0])
  {
    var a := new Category[|categories|](i requires 0 <= i < |categories| => categories[i]);
    assert a[..] == categories;
    SortFreeFirst(a);
    FreeFirstIsStableSort(categories);
    if exists k :: 0 <= k < |categories| && IsFree(categories[k]) {
      var f :| 0 <= f < |categories| && IsFree(categories[f]);
      FreeComesFirst(categories, f);
    }
    var sorted := a[..];
    r := CategoriesResponse(200, seq(|sorted|, k requires 0 <= k < |sorted| => PublicCategory(sorted[k])));
  }
}
