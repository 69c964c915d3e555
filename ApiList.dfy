/**
 * The operation list of the current document: one item per `(path, method)`
 * key pair, ordered by path and then by method, rendered as a counted list of
 * rows or as the empty message.
 */
module ApiList {
  import opened Strings
  import opened OpenApi

  datatype ApiItem = ApiItem(path: string, verb: string)

  /** Every `(path, method)` key pair of the document. */
  ghost function Pairs(paths: Paths): set<ApiItem> {
    set p, m | p in paths && m in paths[p] :: ApiItem(p, m)
  }

  /** The comparator: by path, and by method between equal paths. */
  predicate ItemBelow(a: ApiItem, b: ApiItem) {
    if a.path == b.path then Below(a.verb, b.verb) else Below(a.path, b.path)
  }

  lemma ItemBelowIrreflexive(a: ApiItem)
    ensures !ItemBelow(a, a)
  {
    BelowIrreflexive(a.verb);
  }

  lemma ItemBelowTransitive(a: ApiItem, b: ApiItem, c: ApiItem)
    requires ItemBelow(a, b) && ItemBelow(b, c)
    ensures ItemBelow(a, c)
  {
    if a.path == b.path && b.path == c.path {
      BelowTransitive(a.verb, b.verb, c.verb);
    } else if a.path != b.path && b.path != c.path {
      BelowTransitive(a.path, b.path, c.path);
      if a.path == c.path {
        BelowAsymmetric(a.path, b.path);
      }
    }
  }

  /** Distinct items are always ordered one way or the other. */
  lemma ItemBelowTotal(a: ApiItem, b: ApiItem)
    ensures a == b || ItemBelow(a, b) || ItemBelow(b, a)
  {
    BelowTotal(a.path, b.path);
    BelowTotal(a.verb, b.verb);
  }

  /** `a` may come before `b`: the comparator does not put `b` first. */
  predicate ItemAtMost(a: ApiItem, b: ApiItem) {
    !ItemBelow(b, a)
  }

  lemma ItemAtMostTransitive(a: ApiItem, b: ApiItem, c: ApiItem)
    requires ItemAtMost(a, b) && ItemAtMost(b, c)
    ensures ItemAtMost(a, c)
  {
    if ItemBelow(c, a) {
      ItemBelowTotal(a, b);
      if a != b {
        ItemBelowTransitive(c, a, b);
      }
    }
  }

  predicate Sorted(s: seq<ApiItem>) {
    forall i, j :: 0 <= i < j < |s| ==> ItemAtMost(s[i], s[j])
  }

  predicate StrictlySorted(s: seq<ApiItem>) {
    forall i, j :: 0 <= i < j < |s| ==> ItemBelow(s[i], s[j])
  }

  predicate NoDuplicates(s: seq<ApiItem>) {
    forall i, j :: 0 <= i < j < |s| ==> s[i] != s[j]
  }

  /** Inserts `x` after every item that sorts before it. */
  function Insert(x: ApiItem, s: seq<ApiItem>): (r: seq<ApiItem>)
    requires Sorted(s)
    ensures Sorted(r) && multiset(r) == multiset(s) + multiset{x}
    decreases |s|
  {
    if s == [] then [x]
    else if ItemAtMost(x, s[0]) then
      assert forall j :: 0 < j < |s| ==> ItemAtMost(x, s[j]) by {
        forall j | 0 < j < |s|
          ensures ItemAtMost(x, s[j])
        {
          ItemAtMostTransitive(x, s[0], s[j]);
        }
      }
      [x] + s
    else
      var rest := Insert(x, s[1..]);
      assert s == [s[0]] + s[1..];
      assert ItemAtMost(s[0], x) by {
        ItemBelowTotal(x, s[0]);
        if ItemBelow(x, s[0]) {
          BelowAsymmetricItem(x, s[0]);
        }
      }
      LowerBoundKept(s[0], x, s[1..], rest);
      [s[0]] + rest
  }

  /** An item no later than every item of `t` and than `x` is no later than any item of a permutation of `t + [x]`. */
  lemma LowerBoundKept(y: ApiItem, x: ApiItem, t: seq<ApiItem>, r: seq<ApiItem>)
    requires forall j :: 0 <= j < |t| ==> ItemAtMost(y, t[j])
    requires ItemAtMost(y, x)
    requires multiset(r) == multiset(t) + multiset{x}
    ensures forall k :: 0 <= k < |r| ==> ItemAtMost(y, r[k])
  {
    forall k | 0 <= k < |r|
      ensures ItemAtMost(y, r[k])
    {
      assert r[k] in multiset(r);
      if r[k] != x {
        assert r[k] in multiset(t);
        var j :| 0 <= j < |t| && t[j] == r[k];
      }
    }
  }

  lemma BelowAsymmetricItem(a: ApiItem, b: ApiItem)
    requires ItemBelow(a, b)
    ensures !ItemBelow(b, a)
  {
    if ItemBelow(b, a) {
      ItemBelowTransitive(a, b, a);
      ItemBelowIrreflexive(a);
    }
  }

  /** `apis.sort(...)`: the same items, each no later than the next. */
  function SortItems(s: seq<ApiItem>): (r: seq<ApiItem>)
    ensures Sorted(r) && multiset(r) == multiset(s)
    decreases |s|
  {
    if s == [] then []
    else
      assert s == [s[0]] + s[1..];
      Insert(s[0], SortItems(s[1..]))
  }

  /** A permutation of a list without duplicates has none either. */
  lemma PermutationKeepsNoDuplicates(s: seq<ApiItem>, r: seq<ApiItem>)
    requires multiset(r) == multiset(s) && NoDuplicates(s)
    ensures NoDuplicates(r)
  {
    forall i, j | 0 <= i < j < |r|
      ensures r[i] != r[j]
    {
      if r[i] == r[j] {
        assert multiset(r)[r[i]] >= 2 by {
          assert r == r[..i] + [r[i]] + r[i + 1..j] + [r[j]] + r[j + 1..];
        }
        MultiplicityAtMostOne(s, r[i]);
      }
    }
  }

  /** Each item occurs at most once in a list without duplicates. */
  lemma {:induction false} MultiplicityAtMostOne(s: seq<ApiItem>, x: ApiItem)
    requires NoDuplicates(s)
    ensures multiset(s)[x] <= 1
    decreases |s|
  {
    if s != [] {
      assert s == [s[0]] + s[1..];
      MultiplicityAtMostOne(s[1..], x);
      if s[0] == x {
        assert x !in s[1..];
      }
    }
  }

  /** Sorted without duplicates is strictly sorted. */
  lemma SortedDistinctIsStrict(s: seq<ApiItem>)
    requires Sorted(s) && NoDuplicates(s)
    ensures StrictlySorted(s)
  {
    forall i, j | 0 <= i < j < |s|
      ensures ItemBelow(s[i], s[j])
    {
      ItemBelowTotal(s[i], s[j]);
    }
  }

  /**
   * Two strictly sorted lists of the same items are equal: the order of the
   * list does not depend on how the sort is carried out.
   */
  lemma {:induction false} StrictlySortedUnique(a: seq<ApiItem>, b: seq<ApiItem>)
    requires StrictlySorted(a) && StrictlySorted(b)
    requires forall x :: x in a <==> x in b
    ensures a == b
    decreases |a|
  {
    if a != [] {
      assert a[0] in b;
    }
    if b != [] {
      assert b[0] in a;
    }
    if a != [] && b != [] {
      if a[0] != b[0] {
        var i :| 0 <= i < |b| && b[i] == a[0];
        var j :| 0 <= j < |a| && a[j] == b[0];
        BelowAsymmetricItem(a[0], a[j]);
      }
      forall x
        ensures x in a[1..] <==> x in b[1..]
      {
        if x in a[1..] {
          var k :| 1 <= k < |a| && a[k] == x;
          ItemBelowIrreflexive(a[0]);
          assert x in b;
        }
        if x in b[1..] {
          var k :| 1 <= k < |b| && b[k] == x;
          ItemBelowIrreflexive(b[0]);
          assert x in a;
        }
      }
      StrictlySortedUnique(a[1..], b[1..]);
      assert a == [a[0]] + a[1..] && b == [b[0]] + b[1..];
    }
  }

  /** The items of a list, as a set. */
  ghost function Items(s: seq<ApiItem>): set<ApiItem> {
    set x | x in s
  }

  /** A list without duplicates has as many items as its set of items. */
  lemma {:induction false} DistinctCardinality(s: seq<ApiItem>)
    requires NoDuplicates(s)
    ensures |Items(s)| == |s|
    decreases |s|
  {
    if s != [] {
      var last := s[|s| - 1];
      var init := s[..|s| - 1];
      DistinctCardinality(init);
      assert Items(s) == Items(init) + {last};
      assert last !in Items(init);
    }
  }

  /**
   * The listing: a loop over the paths, an inner loop over each path's
   * methods pushing one item per method, then the sort. The result holds
   * every key pair exactly once, ordered by path and then by method.
   */
  method ListApis(paths: Paths) returns (apis: seq<ApiItem>)
    ensures forall x :: x in apis <==> x in Pairs(paths)
    ensures |apis| == |Pairs(paths)|
    ensures StrictlySorted(apis) && NoDuplicates(apis)
  {
    apis := [];
    var pathKeys := paths.Keys;
    while pathKeys != {}
      invariant pathKeys <= paths.Keys
      invariant forall x :: x in apis <==> x.path in paths && x.path !in pathKeys && x.verb in paths[x.path]
      invariant NoDuplicates(apis)
      decreases pathKeys
    {
      var path :| path in pathKeys;
      var verbs := paths[path].Keys;
      while verbs != {}
        invariant verbs <= paths[path].Keys
        invariant forall x :: x in apis <==>
          (x.path in paths && x.path !in pathKeys && x.verb in paths[x.path])
          || (x.path == path && x.verb in paths[path] && x.verb !in verbs)
        invariant NoDuplicates(apis)
        decreases verbs
      {
        var verb :| verb in verbs;
        apis := apis + [ApiItem(path, verb)];
        verbs := verbs - {verb};
      }
      pathKeys := pathKeys - {path};
    }
    assert Items(apis) == Pairs(paths);
    DistinctCardinality(apis);
    var unsorted := apis;
    apis := SortItems(apis);
    PermutationKeepsNoDuplicates(unsorted, apis);
    SortedDistinctIsStrict(apis);
    forall x
      ensures x in apis <==> x in unsorted
    {
      assert x in apis <==> x in multiset(apis);
    }
    assert Items(apis) == Items(unsorted);
  }

  /** One row: the upper-cased method badge, the path, and the keys a click passes on. */
  datatype Row = Row(badge: string, path: string, click: ApiItem)

  datatype ListView = EmptyMessage | Listing(count: nat, rows: seq<Row>)

  /** The rendered list: the empty message for no items, else the count and one row per item in order. */
  function Render(apis: seq<ApiItem>): (r: ListView)
    ensures r.EmptyMessage? <==> apis == []
    ensures r.Listing? ==>
      && r.count == |apis| && |r.rows| == |apis|
      && forall i :: 0 <= i < |apis| ==>
           r.rows[i].click == apis[i] && r.rows[i].path == apis[i].path && r.rows[i].badge == ToUpper(apis[i].verb)
  {
    if |apis| == 0 then EmptyMessage
    else Listing(|apis|, seq(|apis|, i requires 0 <= i < |apis| => Row(ToUpper(apis[i].verb), apis[i].path, apis[i])))
  }
}
