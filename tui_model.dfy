/**
 * The terminal browser's state (internal/tui/model.go): the view, the full
 * and filtered item lists, the sorted tag list, the tag selection and its
 * backup, cursor and scroll position, the window size, the numeric-prefix
 * buffer and the status line. `InitTUI` loads every stored item, shuffles
 * it in place and extracts the sorted, duplicate-free tag list.
 */
module TuiModel {
  import opened Wrappers
  import opened GoStrings
  import opened Domain
  import Readings

  datatype ViewState = ViewList | ViewDetail | ViewFilter

  /**
   * `Model`. The Go maps `selectedTags` and `backupSelectedTags` (tag to
   * true) are sets; the service handle is not a field: the toggle is issued
   * as a `Cmd` value instead.
   */
  datatype Model = Model(
    articles: seq<Article>,
    filteredArticles: seq<Article>,
    tags: seq<string>,
    selectedTags: set<string>,
    backupSelectedTags: set<string>,
    view: ViewState,
    cursor: int,
    scrollOffset: int,
    width: int,
    height: int,
    inputBuffer: string,
    statusMessage: string)

  /** The messages the model reacts to; `OtherMsg` stands for any other `tea.Msg`. */
  datatype Msg =
    | KeyMsg(key: string)
    | WindowSizeMsg(width: int, height: int)
    | StatusMsg(text: string)
    | ClearStatusMsg
    | OtherMsg

  /**
   * The commands `Update` returns, as values: nothing, quit, a clear of the
   * status line two seconds later, a toggle of an item in the current week,
   * or opening a URL.
   */
  datatype Cmd = NoCmd | Quit | ScheduleClear | Toggle(articleID: string) | OpenUrl(url: string)

  /** Go's zero `Model{}`, returned beside an error. */
  const ZeroModel := Model([], [], [], {}, {}, ViewList, 0, 0, 0, 0, "", "")

  /** Every tag of every item. */
  function TagSet(articles: seq<Article>): (r: set<string>)
    ensures forall t :: t in r <==> exists a :: a in articles && t in a.tags
  {
    if articles == [] then {}
    else
      var front, last := articles[..|articles| - 1], articles[|articles| - 1];
      assert articles == front + [last];
      TagSet(front) + (set t | t in last.tags)
  }

  /** Reordering the items does not change the tag set. */
  lemma TagSetPermutation(xs: seq<Article>, ys: seq<Article>)
    requires multiset(xs) == multiset(ys)
    ensures TagSet(xs) == TagSet(ys)
  {
    forall a ensures a in xs <==> a in ys {
      assert a in xs <==> a in multiset(xs);
      assert a in ys <==> a in multiset(ys);
    }
  }

  /** No element occurs twice. */
  predicate NoDuplicates(s: seq<string>) {
    forall i, j :: 0 <= i < j < |s| ==> s[i] != s[j]
  }

  lemma {:induction false} NoDuplicatesCount(s: seq<string>, x: string)
    requires NoDuplicates(s)
    ensures multiset(s)[x] <= 1
  {
    if s != [] {
      var front := s[..|s| - 1];
      assert s == front + [s[|s| - 1]];
      NoDuplicatesCount(front, x);
      if s[|s| - 1] == x {
        assert x !in front;
      }
    }
  }

  lemma RepeatedCount(s: seq<string>, i: int, j: int)
    requires 0 <= i < j < |s| && s[i] == s[j]
    ensures multiset(s)[s[i]] >= 2
  {
    assert s == s[..i] + [s[i]] + s[i + 1..j] + [s[j]] + s[j + 1..];
  }

  /** A permutation of a duplicate-free sequence is duplicate-free. */
  lemma NoDuplicatesPermutation(xs: seq<string>, ys: seq<string>)
    requires NoDuplicates(xs) && multiset(xs) == multiset(ys)
    ensures NoDuplicates(ys)
  {
    forall i, j | 0 <= i < j < |ys| ensures ys[i] != ys[j] {
      if ys[i] == ys[j] {
        RepeatedCount(ys, i, j);
        NoDuplicatesCount(xs, ys[i]);
      }
    }
  }

  /** `rand.Shuffle` with swaps (Fisher-Yates); the random index is a free choice. */
  method Shuffle(a: array<Article>)
    modifies a
    ensures multiset(a[..]) == old(multiset(a[..]))
  {
    var i := a.Length - 1;
    while i > 0
      invariant i < a.Length
      invariant multiset(a[..]) == old(multiset(a[..]))
    {
      var j :| 0 <= j <= i;
      a[i], a[j] := a[j], a[i];
      i := i - 1;
    }
  }

  /** The first `n` elements are in order. */
  ghost predicate SortedPrefix(s: seq<string>, n: int) {
    forall k :: 0 < k < n && k < |s| ==> LessEq(s[k - 1], s[k])
  }

  /** `sort.Strings`: insertion sort by adjacent swaps. */
  method SortStrings(a: array<string>)
    modifies a
    ensures SortedAdjacent(a[..])
    ensures multiset(a[..]) == old(multiset(a[..]))
  {
    var i := 1;
    while i < a.Length
      invariant SortedPrefix(a[..], i)
      invariant multiset(a[..]) == old(multiset(a[..]))
    {
      SinkLast(a, i);
      i := i + 1;
    }
  }

  /**
   * While `a[i]` sinks to position `j`: the rest of the first `i + 1`
   * elements is in order, across the gap and above it.
   */
  ghost predicate Sinking(s: seq<string>, i: int, j: int) {
    && 0 <= j <= i < |s|
    && (forall k :: 0 < k <= i && k != j ==> LessEq(s[k - 1], s[k]))
    && (0 < j < i ==> LessEq(s[j - 1], s[j + 1]))
    && (j < i ==> Less(s[j], s[j + 1]))
  }

  lemma SinkStep(s: seq<string>, i: int, j: int)
    requires Sinking(s, i, j) && 0 < j && Less(s[j], s[j - 1])
    ensures Sinking(s[j - 1 := s[j]][j := s[j - 1]], i, j - 1)
  {
  }

  lemma SinkDone(s: seq<string>, i: int, j: int)
    requires Sinking(s, i, j) && (j == 0 || !Less(s[j], s[j - 1]))
    ensures SortedPrefix(s, i + 1)
  {
    if j > 0 && s[j - 1] != s[j] {
      LessTotal(s[j], s[j - 1]);
    }
  }

  /** One insertion step: move `a[i]` left past every greater element. */
  method SinkLast(a: array<string>, i: int)
    requires 0 < i < a.Length
    requires SortedPrefix(a[..], i)
    modifies a
    ensures SortedPrefix(a[..], i + 1)
    ensures multiset(a[..]) == old(multiset(a[..]))
  {
    var j := i;
    while j > 0 && Less(a[j], a[j - 1])
      invariant Sinking(a[..], i, j)
      invariant multiset(a[..]) == old(multiset(a[..]))
    {
      ghost var s := a[..];
      SinkStep(s, i, j);
      a[j - 1], a[j] := a[j], a[j - 1];
      assert a[..] == s[j - 1 := s[j]][j := s[j - 1]];
      j := j - 1;
    }
    SinkDone(a[..], i, j);
  }

  /**
   * The tag extraction of `InitTUI`: every tag of every item into a set,
   * the set into a list (in Go's unspecified map order), then sorted.
   */
  method CollectTags(articles: seq<Article>) returns (tags: seq<string>)
    ensures StrictlySorted(tags)
    ensures forall t :: t in tags <==> t in TagSet(articles)
  {
    var tagSet := GatherTags(articles);
    var list := SetToList(tagSet);
    var arr := new string[|list|](k requires 0 <= k < |list| => list[k]);
    assert arr[..] == list;
    SortStrings(arr);
    tags := arr[..];
    NoDuplicatesPermutation(list, tags);
    AdjacentToStrict(tags);
    forall t ensures t in tags <==> t in list {
      assert t in tags <==> t in multiset(tags);
      assert t in list <==> t in multiset(list);
    }
  }

  /** The map-filling loop over the items. */
  method GatherTags(articles: seq<Article>) returns (tagSet: set<string>)
    ensures tagSet == TagSet(articles)
  {
    tagSet := {};
    for i := 0 to |articles|
      invariant tagSet == TagSet(articles[..i])
    {
      assert articles[..i + 1][..i] == articles[..i];
      tagSet := AddTags(tagSet, articles[i].tags);
    }
    assert articles[..|articles|] == articles;
  }

  /** The inner map-filling loop: one item's tags. */
  method AddTags(tagSet: set<string>, ts: seq<string>) returns (r: set<string>)
    ensures r == tagSet + set t | t in ts
  {
    r := tagSet;
    for j := 0 to |ts|
      invariant r == tagSet + set t | t in ts[..j]
    {
      assert ts[..j + 1] == ts[..j] + [ts[j]];
      r := r + {ts[j]};
    }
    assert ts[..|ts|] == ts;
  }

  /** The map-to-list loop: the keys in some order, each once. */
  method SetToList(tagSet: set<string>) returns (list: seq<string>)
    ensures forall t :: t in list <==> t in tagSet
    ensures NoDuplicates(list)
  {
    list := [];
    var rest := tagSet;
    while rest != {}
      invariant rest <= tagSet
      invariant forall t :: t in list <==> t in tagSet && t !in rest
      invariant NoDuplicates(list)
      decreases rest
    {
      var t :| t in rest;
      list := list + [t];
      rest := rest - {t};
    }
  }

  /**
   * `InitTUI`: load every stored item (`fetched` is what the load returned);
   * on failure return the zero model and exactly that error. Otherwise
   * shuffle the items, extract the sorted tag list and start in the list
   * view with everything shown and nothing selected.
   */
  method InitTUI(svc: Readings.Service) returns (m: Model, err: Option<string>, ghost fetched: Result<seq<Article>>)
    requires svc.repo.Valid()
    ensures err.Some? <==> fetched.Err?
    ensures fetched.Err? ==> err == Some(fetched.error) && m == ZeroModel
    ensures fetched.Ok? ==>
      && |fetched.value| == |svc.repo.articles|
      && (forall a :: a in fetched.value <==> a in svc.repo.articles.Values)
      && DistinctIds(fetched.value)
      && multiset(m.articles) == multiset(fetched.value)
      && m.filteredArticles == m.articles
      && StrictlySorted(m.tags)
      && (forall t :: t in m.tags <==> exists a :: a in m.articles && t in a.tags)
      && m == Model(m.articles, m.articles, m.tags, {}, {}, ViewList, 0, 0, 0, 0, "", "")
  {
    var all := svc.GetAll();
    fetched := all;
    if all.Err? {
      return ZeroModel, Some(all.error), fetched;
    }
    var items := all.value;
    var arr := new Article[|items|](k requires 0 <= k < |items| => items[k]);
    assert arr[..] == items;
    Shuffle(arr);
    var articles := arr[..];
    var tags := CollectTags(articles);
    m := Model(articles, articles, tags, {}, {}, ViewList, 0, 0, 0, 0, "", "");
    err := None;
  }

  /** `Init`: the program starts without a command. */
  function Init(m: Model): (c: Cmd)
    ensures c == NoCmd
  {
    NoCmd
  }
}
