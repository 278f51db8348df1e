/**
 * The latest-posts block's editor logic: the newest post of each category
 * with duplicates dropped, word-limited excerpts, which parts of a post are
 * drawn, and the numbered page list.
 */
module LatestPosts {
  import opened Js

  // ---------------------------------------------------------------------------
  // Excerpt truncation
  // ---------------------------------------------------------------------------

  /** The end index `Array.prototype.slice(0, end)` uses on an array of length `len`. */
  function SliceEnd(len: nat, end: Option<int>): (k: nat)
    ensures k <= len
    ensures end.None? ==> k == len
    ensures end.Some? && end.value >= 0 ==> k == if end.value < len then end.value else len
    ensures end.Some? && end.value < 0 ==> k == if len + end.value > 0 then len + end.value else 0
  {
    if end.None? then len
    else if end.value >= 0 then (if end.value < len then end.value else len)
    else if len + end.value > 0 then len + end.value
    else 0
  }

  /** `rendered.split(" ").slice(0, limit).join(" ")`. */
  function Excerpt(rendered: string, limit: Option<int>): string {
    var words := Split(rendered, ' ');
    Join(words[..SliceEnd(|words|, limit)], ' ')
  }

  /**
   * The excerpt is a prefix of the rendered text; for a positive limit its
   * words are the first `limit` words of the text, and there are at most
   * `limit` of them. Without a limit the text is kept whole.
   */
  lemma ExcerptIsWordPrefix(rendered: string, limit: Option<int>)
    ensures Excerpt(rendered, limit) <= rendered
    ensures limit.None? ==> Excerpt(rendered, limit) == rendered
    ensures limit == Some(0) ==> Excerpt(rendered, limit) == ""
    ensures limit.Some? && limit.value > 0 ==>
      var words := Split(rendered, ' ');
      var k := if limit.value < |words| then limit.value else |words|;
      && Split(Excerpt(rendered, limit), ' ') == words[..k]
      && |Split(Excerpt(rendered, limit), ' ')| <= limit.value
  {
    var words := Split(rendered, ' ');
    var k := SliceEnd(|words|, limit);
    JoinPrefixIsPrefix(rendered, ' ', k);
    if limit.None? {
      JoinSplit(rendered, ' ');
      assert words[..k] == words;
    }
    if k >= 1 {
      SplitJoin(words[..k], ' ');
    }
  }

  // ---------------------------------------------------------------------------
  // Pagination
  // ---------------------------------------------------------------------------

  /** A JavaScript number as far as the page count needs it. */
  datatype Number = NaN | Finite(n: int)

  /** `Math.ceil(numberOfPosts / 4)`; an undefined count gives NaN. */
  function TotalPages(numberOfPosts: Option<nat>): (t: Number)
    ensures numberOfPosts.None? <==> t.NaN?
    ensures numberOfPosts.Some? ==>
      && t.n >= 0
      && 4 * t.n >= numberOfPosts.value
      && (t.n > 0 ==> 4 * (t.n - 1) < numberOfPosts.value)
  {
    if numberOfPosts.None? then NaN else Finite((numberOfPosts.value + 3) / 4)
  }

  /** One numbered button. */
  datatype PageButton = PageButton(page: nat, primary: bool)

  /**
   * `NumberedPagination`: nothing for fewer than two pages, otherwise one
   * button per page 1..total in order, the current one primary. NaN fails
   * the `< 2` test and builds an array of length zero.
   */
  function NumberedPagination(total: Number, current: Option<int>): (r: Option<seq<PageButton>>)
    ensures r.None? <==> total.Finite? && total.n < 2
    ensures total.NaN? ==> r == Some([])
    ensures r.Some? && total.Finite? ==> |r.value| == total.n
    ensures r.Some? ==> forall i :: 0 <= i < |r.value| ==> r.value[i].page == i + 1
    ensures r.Some? ==> forall i :: 0 <= i < |r.value| ==>
                          (r.value[i].primary <==> current == Some(r.value[i].page))
  {
    match total
    case NaN => Some([])
    case Finite(t) =>
      if t < 2 then None
      else Some(seq(t, i requires 0 <= i < t => PageButton(i + 1, current == Some(i + 1))))
  }

  /** At most one button is primary, and exactly one when the current page is in range. */
  lemma OnePrimaryPage(total: Number, current: Option<int>)
    requires NumberedPagination(total, current).Some?
    ensures var bs := NumberedPagination(total, current).value;
      && (forall i, j :: 0 <= i < j < |bs| ==> !(bs[i].primary && bs[j].primary))
      && (current.Some? && 1 <= current.value <= |bs| ==> bs[current.value - 1].primary)
  {
  }

  /** The editor's pagination for a post count and page, as `Edit` would compute them if supplied. */
  function Pagination(numberOfPosts: nat, page: int): (r: Option<seq<PageButton>>)
    ensures r.None? <==> numberOfPosts <= 4
    ensures r.Some? ==> 4 * (|r.value| - 1) < numberOfPosts <= 4 * |r.value|
    ensures r.Some? ==> forall i :: 0 <= i < |r.value| ==> r.value[i].page == i + 1
  {
    NumberedPagination(TotalPages(Some(numberOfPosts)), Some(page))
  }

  /**
   * The pagination as the component is wired: `numberOfPosts` and `page` are
   * read from the component's props, which the data wrapper never fills.
   */
  function PaginationAsWired(propsNumberOfPosts: Option<nat>, propsPage: Option<int>): Option<seq<PageButton>> {
    NumberedPagination(TotalPages(propsNumberOfPosts), propsPage)
  }

  /** As wired, the props are undefined, so the editor draws an empty pagination container. */
  lemma AsWiredShowsNoPages()
    ensures PaginationAsWired(None, None) == Some([])
    ensures forall n: nat :: n > 4 ==> |Pagination(n, 1).value| >= 2
  {
  }

  // ---------------------------------------------------------------------------
  // What each post shows
  // ---------------------------------------------------------------------------

  /** The display attributes of the block. */
  datatype Display = Display(
    metaPosition: Option<string>,
    enablePostTitle: bool,
    enableAuthor: bool,
    enableDate: bool,
    enableExcerpt: bool,
    enableReadMore: bool)

  /** Which parts of one post are drawn. */
  datatype PostParts = PostParts(
    content: bool, title: bool, author: bool, date: bool, excerpt: bool, readMore: bool)

  /**
   * The post's parts. Everything but the featured image sits inside a
   * content block drawn only when the date, author or title is enabled;
   * the title and meta follow `metaPosition` ("bottom": title then meta,
   * "top": meta then a title that needs the meta).
   */
  function Parts(d: Display): (p: PostParts)
    ensures p.content <==> d.enableDate || d.enableAuthor || d.enablePostTitle
    ensures p.title <==> d.enablePostTitle && (d.metaPosition == Some("bottom")
                         || (d.metaPosition == Some("top") && (d.enableAuthor || d.enableDate)))
    ensures p.author <==> d.enableAuthor && d.metaPosition in {Some("bottom"), Some("top")}
    ensures p.date <==> d.enableDate && d.metaPosition in {Some("bottom"), Some("top")}
    ensures p.excerpt <==> p.content && d.enableExcerpt
    ensures p.readMore <==> p.content && d.enableReadMore
  {
    var content := d.enableDate || d.enableAuthor || d.enablePostTitle;
    var meta := d.enableAuthor || d.enableDate;
    var bottom := content && d.metaPosition == Some("bottom");
    var top := content && d.metaPosition == Some("top") && meta;
    PostParts(
      content,
      (bottom && d.enablePostTitle) || (top && d.enablePostTitle),
      (bottom && meta && d.enableAuthor) || (top && d.enableAuthor),
      (bottom && meta && d.enableDate) || (top && d.enableDate),
      content && (d.enableExcerpt || d.enableReadMore) && d.enableExcerpt,
      content && (d.enableExcerpt || d.enableReadMore) && d.enableReadMore)
  }

  /** With the meta on top and neither author nor date enabled, no title is drawn. */
  lemma TopMetaHidesLoneTitle(d: Display)
    requires d.metaPosition == Some("top") && !d.enableAuthor && !d.enableDate
    ensures !Parts(d).title
    ensures d.enablePostTitle ==> Parts(d).content
  {
  }

  // ---------------------------------------------------------------------------
  // Latest post per category
  // ---------------------------------------------------------------------------

  /** A post, with the fields the block reads. */
  datatype Post = Post(id: int, excerpt: string, title: string, link: string)

  /** The `categories_exclude` argument: a string, a list of ids, or unset. */
  datatype Exclusion = ExcludeText(s: string) | ExcludeIds(ids: seq<int>) | ExcludeUnset

  /** `"" === excludedCategory ? [] : excludedCategory`. */
  function ExcludeArg(e: Exclusion): (r: Exclusion)
    ensures e == ExcludeText("") ==> r == ExcludeIds([])
    ensures e != ExcludeText("") ==> r == e
  {
    if e == ExcludeText("") then ExcludeIds([]) else e
  }

  /** The arguments of one per-category post query. */
  datatype Query = Query(category: int, order: string, orderBy: string, perPage: int, exclude: Exclusion)

  /** The block attributes the data wrapper reads. */
  datatype QueryAttrs = QueryAttrs(order: Option<string>, orderBy: Option<string>, excludedCategory: Exclusion)

  /** The query for one category, with `order = "desc"` and `orderBy = "date"` defaults. */
  function QueryFor(a: QueryAttrs, category: int): (q: Query)
    ensures q.category == category && q.perPage == 1
    ensures q.order == (if a.order.Some? then a.order.value else "desc")
    ensures q.orderBy == (if a.orderBy.Some? then a.orderBy.value else "date")
    ensures q.exclude == ExcludeArg(a.excludedCategory)
  {
    Query(category,
          if a.order.Some? then a.order.value else "desc",
          if a.orderBy.Some? then a.orderBy.value else "date",
          1, ExcludeArg(a.excludedCategory))
  }

  /**
   * Each category gets a request of its own: the queries of two categories
   * coincide only when the categories do. An empty exclusion string never
   * reaches a request, and applying the exclusion rule again changes nothing.
   */
  lemma QueryPerCategory(a: QueryAttrs, c1: int, c2: int)
    ensures QueryFor(a, c1) == QueryFor(a, c2) <==> c1 == c2
    ensures QueryFor(a, c1).exclude != ExcludeText("")
    ensures ExcludeArg(ExcludeArg(a.excludedCategory)) == ExcludeArg(a.excludedCategory)
  {
  }

  /** The first result of a category's query, when the store has a non-empty one. */
  function FirstOf(store: Query -> Option<seq<Post>>, a: QueryAttrs, category: int): Option<Post> {
    var r := store(QueryFor(a, category));
    if r.Some? && |r.value| > 0 then Some(r.value[0]) else None
  }

  /** The first result of every category's query, in category order. */
  function Firsts(store: Query -> Option<seq<Post>>, a: QueryAttrs, categories: seq<int>): seq<Post>
    decreases |categories|
  {
    if |categories| == 0 then []
    else
      var n := |categories| - 1;
      var f := FirstOf(store, a, categories[n]);
      Firsts(store, a, categories[..n]) + (if f.Some? then [f.value] else [])
  }

  function Ids(ps: seq<Post>): set<int> {
    set p | p in ps :: p.id
  }

  /** Keep each post unless a post with the same id was kept earlier. */
  function Dedup(ps: seq<Post>): seq<Post>
    decreases |ps|
  {
    if |ps| == 0 then []
    else
      var d := Dedup(ps[..|ps| - 1]);
      var last := ps[|ps| - 1];
      if last.id in Ids(d) then d else d + [last]
  }

  /** `sub` is `whole` with some elements left out, order kept. */
  predicate IsSubsequence(sub: seq<Post>, whole: seq<Post>)
    decreases |whole|
  {
    if |sub| == 0 then true
    else if |whole| == 0 then false
    else if sub[|sub| - 1] == whole[|whole| - 1]
    then IsSubsequence(sub[..|sub| - 1], whole[..|whole| - 1])
         || IsSubsequence(sub, whole[..|whole| - 1])
    else IsSubsequence(sub, whole[..|whole| - 1])
  }

  lemma {:induction false} SubsequenceExtend(sub: seq<Post>, whole: seq<Post>, x: Post)
    requires IsSubsequence(sub, whole)
    ensures IsSubsequence(sub, whole + [x])
    ensures IsSubsequence(sub + [x], whole + [x])
  {
    assert (whole + [x])[..|whole|] == whole;
    assert (sub + [x])[..|sub|] == sub;
  }

  /** A post is the first of its id in `ps`. */
  predicate FirstOccurrence(ps: seq<Post>, i: int)
    requires 0 <= i < |ps|
  {
    forall k :: 0 <= k < i ==> ps[k].id != ps[i].id
  }

  /** Dedup of a list extended by one post: the post is kept iff its id is new. */
  lemma DedupSnoc(ps: seq<Post>, x: Post)
    ensures Dedup(ps + [x]) == if x.id in Ids(Dedup(ps)) then Dedup(ps) else Dedup(ps) + [x]
  {
    assert (ps + [x])[..|ps|] == ps;
  }

  /** The kept posts have pairwise distinct ids. */
  lemma {:induction false} DedupDistinct(ps: seq<Post>)
    ensures var d := Dedup(ps); forall i, j :: 0 <= i < j < |d| ==> d[i].id != d[j].id
    decreases |ps|
  {
    if |ps| > 0 {
      var n := |ps| - 1;
      DedupDistinct(ps[..n]);
      var d0 := Dedup(ps[..n]);
      var d := Dedup(ps);
      DedupSnoc(ps[..n], ps[n]);
      assert ps == ps[..n] + [ps[n]];
      if ps[n].id !in Ids(d0) {
        assert d == d0 + [ps[n]];
        forall i, j | 0 <= i < j < |d|
          ensures d[i].id != d[j].id
        {
          if j < |d| - 1 {
            assert d[i] == d0[i] && d[j] == d0[j];
          } else {
            assert d[i] in d0;
            assert d[i].id in Ids(d0);
          }
        }
      }
    }
  }

  /** Every kept post is an input post, and every input id survives. */
  lemma {:induction false} DedupIdsAndElements(ps: seq<Post>)
    ensures Ids(Dedup(ps)) == Ids(ps)
    ensures forall i :: 0 <= i < |Dedup(ps)| ==> Dedup(ps)[i] in ps
    decreases |ps|
  {
    if |ps| > 0 {
      var n := |ps| - 1;
      DedupIdsAndElements(ps[..n]);
      assert ps == ps[..n] + [ps[n]];
      assert Ids(ps) == Ids(ps[..n]) + {ps[n].id};
      var d0 := Dedup(ps[..n]);
      if ps[n].id !in Ids(d0) {
        assert Ids(d0 + [ps[n]]) == Ids(d0) + {ps[n].id};
      }
    } else {
      assert Ids(ps) == {};
    }
  }

  /** The first post of every id is kept. */
  lemma {:induction false} DedupKeepsFirsts(ps: seq<Post>)
    ensures forall i :: 0 <= i < |ps| && FirstOccurrence(ps, i) ==> ps[i] in Dedup(ps)
    decreases |ps|
  {
    if |ps| > 0 {
      var n := |ps| - 1;
      var init := ps[..n];
      DedupKeepsFirsts(init);
      DedupIdsAndElements(init);
      var d0 := Dedup(init);
      assert ps == init + [ps[n]];
      DedupSnoc(init, ps[n]);
      assert forall p :: p in d0 ==> p in Dedup(ps);
      forall i | 0 <= i < |ps| && FirstOccurrence(ps, i)
        ensures ps[i] in Dedup(ps)
      {
        if i == n {
          forall p | p in init
            ensures p.id != ps[n].id
          {
            var k :| 0 <= k < n && init[k] == p;
          }
          assert ps[n].id !in Ids(init);
        } else {
          assert FirstOccurrence(init, i);
        }
      }
    }
  }

  /** The kept posts appear in their original order. */
  lemma {:induction false} DedupKeepsOrder(ps: seq<Post>)
    ensures IsSubsequence(Dedup(ps), ps)
    decreases |ps|
  {
    if |ps| > 0 {
      var n := |ps| - 1;
      DedupKeepsOrder(ps[..n]);
      SubsequenceExtend(Dedup(ps[..n]), ps[..n], ps[n]);
      assert ps == ps[..n] + [ps[n]];
    }
  }

  lemma IdsSnoc(ps: seq<Post>, x: Post)
    ensures Ids(ps + [x]) == Ids(ps) + {x.id}
  {
    assert forall p :: p in ps + [x] <==> p in ps || p == x;
  }

  lemma FirstsSnoc(store: Query -> Option<seq<Post>>, a: QueryAttrs, cats: seq<int>, i: nat)
    requires i < |cats|
    ensures var f := FirstOf(store, a, cats[i]);
      Firsts(store, a, cats[..i + 1]) == Firsts(store, a, cats[..i]) + (if f.Some? then [f.value] else [])
  {
    assert cats[..i + 1][..i] == cats[..i];
  }

  /**
   * The data wrapper's loop: for each category take the first result of its
   * query and keep it unless its id was already kept.
   */
  method CollectLatestPosts(store: Query -> Option<seq<Post>>, a: QueryAttrs, categories: Option<seq<int>>)
    returns (posts: seq<Post>)
    ensures var cats := if categories.Some? then categories.value else [];
      posts == Dedup(Firsts(store, a, cats))
    ensures forall i, j :: 0 <= i < j < |posts| ==> posts[i].id != posts[j].id
    ensures categories.None? ==> posts == []
  {
    var cats := if categories.Some? then categories.value else [];
    posts := [];
    var fetched: set<int> := {};
    var i := 0;
    while i < |cats|
      invariant 0 <= i <= |cats|
      invariant posts == Dedup(Firsts(store, a, cats[..i]))
      invariant fetched == Ids(posts)
    {
      var result := store(QueryFor(a, cats[i]));
      ghost var before := Firsts(store, a, cats[..i]);
      FirstsSnoc(store, a, cats, i);
      if result.Some? && |result.value| > 0 {
        var latest := result.value[0];
        assert Firsts(store, a, cats[..i + 1]) == before + [latest];
        DedupSnoc(before, latest);
        if latest.id !in fetched {
          IdsSnoc(posts, latest);
          posts := posts + [latest];
          fetched := fetched + {latest.id};
        }
      } else {
        assert Firsts(store, a, cats[..i + 1]) == before + [];
        assert before + [] == before;
      }
      i := i + 1;
    }
    assert cats[..|cats|] == cats;
    DedupDistinct(Firsts(store, a, cats));
  }

  /** Every collected post is the first result of some category's query. */
  lemma {:induction false} FirstsComeFromQueries(
    store: Query -> Option<seq<Post>>, a: QueryAttrs, categories: seq<int>, p: Post)
    requires p in Firsts(store, a, categories)
    ensures exists c :: c in categories && FirstOf(store, a, c) == Some(p)
    decreases |categories|
  {
    var n := |categories| - 1;
    var f := FirstOf(store, a, categories[n]);
    if f.Some? && p == f.value {
    } else {
      FirstsComeFromQueries(store, a, categories[..n], p);
      var c :| c in categories[..n] && FirstOf(store, a, c) == Some(p);
      assert c in categories;
    }
  }

  /** A category whose query has a first result contributes that post. */
  lemma {:induction false} FirstsContain(
    store: Query -> Option<seq<Post>>, a: QueryAttrs, categories: seq<int>, c: int)
    requires c in categories && FirstOf(store, a, c).Some?
    ensures FirstOf(store, a, c).value in Firsts(store, a, categories)
    decreases |categories|
  {
    var n := |categories| - 1;
    if categories[n] != c {
      assert c in categories[..n];
      FirstsContain(store, a, categories[..n], c);
    }
  }

  /**
   * What the block lists: each post is the latest of one of the categories,
   * every category with a post is represented by its latest post's id, no
   * id appears twice, and the posts keep the category order.
   */
  lemma LatestPostsCharacterized(store: Query -> Option<seq<Post>>, a: QueryAttrs, categories: seq<int>)
    ensures var posts := Dedup(Firsts(store, a, categories));
      && (forall p :: p in posts ==> exists c :: c in categories && FirstOf(store, a, c) == Some(p))
      && (forall c :: c in categories && FirstOf(store, a, c).Some? ==>
            FirstOf(store, a, c).value.id in Ids(posts))
      && (forall i, j :: 0 <= i < j < |posts| ==> posts[i].id != posts[j].id)
      && IsSubsequence(posts, Firsts(store, a, categories))
  {
    var fs := Firsts(store, a, categories);
    var posts := Dedup(fs);
    DedupIdsAndElements(fs);
    DedupDistinct(fs);
    DedupKeepsOrder(fs);
    forall p | p in posts
      ensures exists c :: c in categories && FirstOf(store, a, c) == Some(p)
    {
      FirstsComeFromQueries(store, a, categories, p);
    }
    forall c | c in categories && FirstOf(store, a, c).Some?
      ensures FirstOf(store, a, c).value.id in Ids(posts)
    {
      FirstsContain(store, a, categories, c);
    }
  }
}
