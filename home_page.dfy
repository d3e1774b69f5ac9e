/** The home page's list of articles (`pages/index.tsx`): how many masonry
    columns it uses, how it deals the articles into them, and how it pages in
    more articles or reloads them for a tag or category filter. The article
    request and the router are parameters: the reply a request gets is an
    argument, the queries and routes are recorded. */
module HomePage {
  import opened Js

  const PageSize: nat := 10

  /** An article; only its `id` is read here. */
  datatype Article = Article(id: int, rest: Json)

  /** The column count for the window width, 1 until the page is mounted. */
  function NumCols(mounted: bool, width: int): (n: nat)
    ensures 1 <= n <= 3
  {
    if mounted then
      if width >= 1280 then 3
      else if width >= 768 then 2
      else if width >= 575 then 2
      else 1
    else 1
  }

  /** The width steps collapse to three: 3 columns from 1280, 2 from 575, 1 below. */
  lemma NumColsRule(mounted: bool, width: int)
    ensures NumCols(mounted, width) ==
      if !mounted then 1 else if width >= 1280 then 3 else if width >= 575 then 2 else 1
  {
  }

  /** The indices `i < m` with `i % n == j`, in increasing order. */
  function ColumnIndices(m: nat, n: nat, j: nat): seq<nat>
    requires n >= 1
  {
    if m == 0 then []
    else ColumnIndices(m - 1, n, j) + (if (m - 1) % n == j then [m - 1] else [])
  }

  /** Column `j` of `n`: the articles whose index is `j` modulo `n`, in list order. */
  function Column(articles: seq<Article>, n: nat, j: nat): seq<Article>
    requires n >= 1
    decreases |articles|
  {
    if articles == [] then []
    else
      var m := |articles| - 1;
      Column(articles[..m], n, j) + (if m % n == j then [articles[m]] else [])
  }

  /** The `columns` memo: article `index` is pushed onto column `index % numCols`. */
  method Columns(articles: seq<Article>, numCols: nat) returns (cols: array<seq<Article>>)
    requires numCols >= 1
    ensures fresh(cols) && cols.Length == numCols
    ensures forall j :: 0 <= j < numCols ==> cols[j] == Column(articles, numCols, j)
  {
    cols := new seq<Article>[numCols](_ => []);
    var index := 0;
    while index < |articles|
      invariant 0 <= index <= |articles|
      invariant forall j :: 0 <= j < numCols ==> cols[j] == Column(articles[..index], numCols, j)
    {
      assert articles[..index + 1][..index] == articles[..index];
      cols[index % numCols] := cols[index % numCols] + [articles[index]];
      index := index + 1;
    }
    assert articles[..|articles|] == articles;
  }

  /** Column `j` picks the articles at `ColumnIndices`, which increase and are
      all `j` modulo `n`: the relative order of the list is kept. */
  lemma {:induction false} ColumnPicks(articles: seq<Article>, n: nat, j: nat)
    requires n >= 1
    ensures var idx := ColumnIndices(|articles|, n, j);
            |Column(articles, n, j)| == |idx| &&
            (forall k :: 0 <= k < |idx| ==> idx[k] < |articles| && idx[k] % n == j &&
                                             Column(articles, n, j)[k] == articles[idx[k]]) &&
            (forall k, l :: 0 <= k < l < |idx| ==> idx[k] < idx[l])
    decreases |articles|
  {
    if articles != [] {
      var m := |articles| - 1;
      ColumnPicks(articles[..m], n, j);
    }
  }

  /** Every index lands in the column of its remainder. */
  lemma {:induction false} IndexInItsColumn(m: nat, n: nat, i: nat)
    requires n >= 1 && i < m
    ensures i in ColumnIndices(m, n, i % n)
    decreases m
  {
    if i < m - 1 {
      IndexInItsColumn(m - 1, n, i);
    }
  }

  /** The articles of columns `0` to `k - 1` together, as a multiset. */
  function Gathered(articles: seq<Article>, n: nat, k: nat): multiset<Article>
    requires n >= 1
  {
    if k == 0 then multiset{} else Gathered(articles, n, k - 1) + multiset(Column(articles, n, k - 1))
  }

  lemma {:induction false} GatheredEmpty(n: nat, k: nat)
    requires n >= 1
    ensures Gathered([], n, k) == multiset{}
  {
    if k > 0 {
      GatheredEmpty(n, k - 1);
    }
  }

  lemma ColumnSnoc(a: seq<Article>, x: Article, n: nat, j: nat)
    requires n >= 1
    ensures Column(a + [x], n, j) == Column(a, n, j) + (if |a| % n == j then [x] else [])
  {
    assert (a + [x])[..|a|] == a;
  }

  lemma {:induction false} GatheredSnoc(a: seq<Article>, x: Article, n: nat, k: nat)
    requires n >= 1
    ensures Gathered(a + [x], n, k) == Gathered(a, n, k) + (if |a| % n < k then multiset{x} else multiset{})
  {
    if k > 0 {
      GatheredSnoc(a, x, n, k - 1);
      ColumnSnoc(a, x, n, k - 1);
      var before := Column(a, n, k - 1);
      if |a| % n == k - 1 {
        assert multiset(before + [x]) == multiset(before) + multiset{x};
      } else {
        assert before + [] == before;
      }
    }
  }

  /** The columns together hold every article exactly as often as the list does. */
  lemma {:induction false} ColumnsPartition(articles: seq<Article>, n: nat)
    requires n >= 1
    ensures Gathered(articles, n, n) == multiset(articles)
    decreases |articles|
  {
    if articles != [] {
      var m := |articles| - 1;
      var a, x := articles[..m], articles[m];
      ColumnsPartition(a, n);
      GatheredSnoc(a, x, n, n);
      assert |a| % n < n;
      assert articles == a + [x];
      assert multiset(a + [x]) == multiset(a) + multiset{x};
    } else {
      GatheredEmpty(n, n);
    }
  }

  /** The ids of a list of articles. */
  function Ids(list: seq<Article>): set<int> {
    set i | 0 <= i < |list| :: list[i].id
  }

  /** The articles of `next` whose id is not among those of `prev`, in order. */
  function Fresh(prev: seq<Article>, next: seq<Article>): seq<Article>
    decreases |next|
  {
    if next == [] then []
    else (if next[0].id in Ids(prev) then [] else [next[0]]) + Fresh(prev, next[1..])
  }

  /** `[...prev, ...newArticles]`. */
  function Merge(prev: seq<Article>, next: seq<Article>): seq<Article> {
    prev + Fresh(prev, next)
  }

  /** An article is appended exactly when it is on the next page and its id is new. */
  lemma {:induction false} FreshSpec(prev: seq<Article>, next: seq<Article>, x: Article)
    ensures x in Fresh(prev, next) <==> x in next && x.id !in Ids(prev)
    decreases |next|
  {
    if next != [] {
      FreshSpec(prev, next[1..], x);
      assert x in next <==> x == next[0] || x in next[1..];
    }
  }

  predicate UniqueIds(list: seq<Article>) {
    forall i, j :: 0 <= i < j < |list| ==> list[i].id != list[j].id
  }

  lemma IdsCons(x: Article, rest: seq<Article>)
    ensures Ids([x] + rest) == {x.id} + Ids(rest)
  {
    var l := [x] + rest;
    forall id | id in Ids(rest) ensures id in Ids(l) {
      var i :| 0 <= i < |rest| && rest[i].id == id;
      assert l[i + 1] == rest[i];
    }
    assert l[0] == x;
  }

  lemma {:induction false} FreshIds(prev: seq<Article>, next: seq<Article>)
    ensures Ids(Fresh(prev, next)) <= Ids(next) - Ids(prev)
    decreases |next|
  {
    if next != [] {
      FreshIds(prev, next[1..]);
      IdsCons(next[0], next[1..]);
      assert next == [next[0]] + next[1..];
      if next[0].id !in Ids(prev) {
        IdsCons(next[0], Fresh(prev, next[1..]));
      } else {
        assert Fresh(prev, next) == Fresh(prev, next[1..]);
      }
    }
  }

  lemma {:induction false} FreshUnique(prev: seq<Article>, next: seq<Article>)
    requires UniqueIds(next)
    ensures UniqueIds(Fresh(prev, next))
    decreases |next|
  {
    if next != [] {
      var x, tail := next[0], next[1..];
      assert UniqueIds(tail) by {
        forall i, j | 0 <= i < j < |tail| ensures tail[i].id != tail[j].id {
          assert tail[i] == next[i + 1] && tail[j] == next[j + 1];
        }
      }
      FreshUnique(prev, tail);
      FreshIds(prev, tail);
      var rest := Fresh(prev, tail);
      if x.id !in Ids(prev) {
        assert x.id !in Ids(tail) by {
          forall i | 0 <= i < |tail| ensures tail[i].id != x.id {
            assert tail[i] == next[i + 1];
          }
        }
        var f := [x] + rest;
        forall i, j | 0 <= i < j < |f| ensures f[i].id != f[j].id {
          assert f[j] == rest[j - 1];
          if i > 0 {
            assert f[i] == rest[i - 1];
          } else {
            assert rest[j - 1].id in Ids(rest);
          }
        }
      }
    }
  }

  /** Merging a page whose ids are distinct into a list whose ids are distinct
      keeps them distinct, and the old list stays in front. */
  lemma MergeKeepsIdsUnique(prev: seq<Article>, next: seq<Article>)
    requires UniqueIds(prev) && UniqueIds(next)
    ensures UniqueIds(Merge(prev, next))
    ensures Merge(prev, next)[..|prev|] == prev
  {
    FreshIds(prev, next);
    FreshUnique(prev, next);
    var f := Fresh(prev, next);
    var r := Merge(prev, next);
    forall i, j | 0 <= i < j < |r| ensures r[i].id != r[j].id {
      if j >= |prev| && i < |prev| {
        assert r[j] == f[j - |prev|];
        assert r[j].id in Ids(f);
        assert r[i].id in Ids(prev);
      } else if i >= |prev| {
        assert r[i] == f[i - |prev|] && r[j] == f[j - |prev|];
      }
    }
  }

  /** `v || undefined` (or `|| null`) for an optional filter: the empty text counts as none. */
  function OrNone(v: Option<string>): (r: Option<string>)
    ensures r.Some? <==> v.Some? && v.value != ""
    ensures r.Some? ==> r == v
  {
    if v.Some? && v.value != "" then v else None
  }

  /** The arguments of a `getArticlesByOption` call. */
  datatype Query = Query(page: int, pageSize: nat, tags: Option<string>, category: Option<string>)

  /** What a request gives: a response with its `articles` field (maybe missing), or an exception. */
  datatype Reply = Got(articles: Option<seq<Article>>) | Threw

  /** The query `reloadWithFilter` puts in the address: `tag` and `category`, each only when set. */
  function RouteQuery(tag: Option<string>, category: Option<string>): Assoc {
    (if OrNone(tag).Some? then [("tag", JStr(tag.value))] else []) +
    (if OrNone(category).Some? then [("category", JStr(category.value))] else [])
  }

  lemma RouteQueryFields(tag: Option<string>, category: Option<string>)
    ensures Get(RouteQuery(tag, category), "tag") == if OrNone(tag).Some? then Some(JStr(tag.value)) else None
    ensures Get(RouteQuery(tag, category), "category") ==
      if OrNone(category).Some? then Some(JStr(category.value)) else None
    ensures forall k :: k in Keys(RouteQuery(tag, category)) ==> k == "tag" || k == "category"
  {
    var a := if OrNone(tag).Some? then [("tag", JStr(tag.value))] else [];
    var b := if OrNone(category).Some? then [("category", JStr(category.value))] else [];
    GetConcat(a, b, "tag");
    GetConcat(a, b, "category");
  }

  /** The page's state: the list, the paging flags, the filters, and the
      requests and address changes made so far. */
  class Home {
    var articles: seq<Article>
    var page: int
    var hasMore: bool
    var loading: bool
    var selectedTag: Option<string>
    var selectedCategory: Option<string>
    var requests: seq<Query>
    var routes: seq<Assoc>

    constructor (initial: seq<Article>)
      ensures articles == initial && page == 1 && hasMore && !loading
      ensures selectedTag == None && selectedCategory == None && requests == [] && routes == []
    {
      articles := initial;
      page := 1;
      hasMore := true;
      loading := false;
      selectedTag := None;
      selectedCategory := None;
      requests := [];
      routes := [];
    }

    /** `loadMore`, where the request for the next page gets `res`. A missing
        `articles` field makes `res.articles.length` throw, and like a failed
        request that is only logged. */
    method LoadMore(res: Reply)
      modifies this
      ensures selectedTag == old(selectedTag) && selectedCategory == old(selectedCategory) && routes == old(routes)
      ensures old(loading) || !old(hasMore) ==>
        articles == old(articles) && page == old(page) && hasMore == old(hasMore) &&
        loading == old(loading) && requests == old(requests)
      ensures !(old(loading) || !old(hasMore)) ==>
        !loading &&
        requests == old(requests) + [Query(old(page) + 1, PageSize, OrNone(selectedTag), OrNone(selectedCategory))] &&
        (res.Got? && res.articles.Some? && res.articles.value == [] ==>
           !hasMore && articles == old(articles) && page == old(page)) &&
        (res.Got? && res.articles.Some? && res.articles.value != [] ==>
           hasMore && articles == Merge(old(articles), res.articles.value) && page == old(page) + 1) &&
        (res.Threw? || res.articles.None? ==>
           hasMore == old(hasMore) && articles == old(articles) && page == old(page))
    {
      if loading || !hasMore {
        return;
      }
      loading := true;
      var nextPage := page + 1;
      requests := requests + [Query(nextPage, PageSize, OrNone(selectedTag), OrNone(selectedCategory))];
      if res.Got? && res.articles.Some? {
        var list := res.articles.value;
        if |list| == 0 {
          hasMore := false;
        } else {
          var prev := articles;
          var newArticles := Fresh(prev, list);
          articles := prev + newArticles;
          page := nextPage;
        }
      }
      loading := false;
    }

    /** `reloadWithFilter` for the filters `tag` and `category`, where the request
        gets `res`. A failed request is not caught: the address is then left as it was. */
    method ReloadWithFilter(tag: Option<string>, category: Option<string>, res: Reply)
      modifies this
      ensures selectedTag == OrNone(tag) && selectedCategory == OrNone(category)
      ensures page == 1 && !loading
      ensures requests == old(requests) + [Query(1, PageSize, OrNone(tag), OrNone(category))]
      ensures res.Threw? ==> articles == old(articles) && hasMore && routes == old(routes)
      ensures res.Got? ==>
        articles == (if res.articles.Some? then res.articles.value else []) &&
        (hasMore <==> res.articles.Some? && |res.articles.value| >= PageSize) &&
        routes == old(routes) + [RouteQuery(tag, category)]
    {
      selectedTag := OrNone(tag);
      selectedCategory := OrNone(category);
      page := 1;
      hasMore := true;
      loading := true;
      requests := requests + [Query(1, PageSize, OrNone(tag), OrNone(category))];
      if res.Threw? {
        loading := false;
        return;
      }
      articles := if res.articles.Some? then res.articles.value else [];
      if res.articles.None? || |res.articles.value| < PageSize {
        hasMore := false;
      }
      loading := false;
      var q: Assoc := [];
      if OrNone(tag).Some? {
        q := q + [("tag", JStr(tag.value))];
      }
      if OrNone(category).Some? {
        q := q + [("category", JStr(category.value))];
      }
      assert q == RouteQuery(tag, category);
      routes := routes + [q];
    }
  }
}
