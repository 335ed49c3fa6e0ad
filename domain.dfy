/**
 * Reading items, the current week, and the local store that the cache
 * service consumes through its `Repository` interface. The store is modelled
 * by its contract only: a map from identifier to item with insert-or-replace
 * upsert, a random sample of at most `count` items, and full enumeration.
 * Failures of the storage engine are nondeterministic; ghost logs record
 * every call so that callers can state which calls happened.
 */
module Domain {
  import opened Wrappers
  import GoStrings

  /** A reading item. `fetchedAt` is kept as its rendered "2006-01-02 15:04" text. */
  datatype Article = Article(id: string, title: string, url: string, tags: seq<string>, fetchedAt: string)

  /** A week page: its identifier and the ordered identifiers of its reading list. */
  datatype Week = Week(id: string, readingListIDs: seq<string>)

  /** One call of `SaveUpsert`: the batch and the error it returned, if any. */
  datatype UpsertCall = UpsertCall(batch: seq<Article>, err: Option<string>)

  /** One call of `GetRandom`: its arguments and what it returned. */
  datatype RandomCall = RandomCall(count: int, tag: string, result: Result<seq<Article>>)

  /** The stored map is keyed by each item's own identifier. */
  ghost predicate KeyedById(store: map<string, Article>) {
    forall k :: k in store ==> store[k].id == k
  }

  /** Insert-or-replace of a batch, item after item: a later item with the same identifier wins. */
  function Upserted(store: map<string, Article>, batch: seq<Article>): (r: map<string, Article>)
    ensures KeyedById(store) ==> KeyedById(r)
  {
    if batch == [] then store
    else
      var last := batch[|batch| - 1];
      Upserted(store, batch[..|batch| - 1])[last.id := last]
  }

  /** Some item of `batch` carries identifier `k`. */
  ghost predicate InBatch(batch: seq<Article>, k: string) {
    exists i :: 0 <= i < |batch| && batch[i].id == k
  }

  /** `batch[i]` is the last item of the batch with its identifier. */
  ghost predicate LastWithItsId(batch: seq<Article>, i: int) {
    0 <= i < |batch| && forall j :: i < j < |batch| ==> batch[j].id != batch[i].id
  }

  /** Removing the last item of a batch: `k` is in the batch iff in its front or the last item's. */
  lemma InBatchSnoc(batch: seq<Article>, k: string)
    requires batch != []
    ensures InBatch(batch, k) <==> InBatch(batch[..|batch| - 1], k) || batch[|batch| - 1].id == k
  {
    var front := batch[..|batch| - 1];
    if InBatch(front, k) {
      var i :| 0 <= i < |front| && front[i].id == k;
      assert batch[i].id == k;
    }
    if InBatch(batch, k) {
      var i :| 0 <= i < |batch| && batch[i].id == k;
      if i < |front| { assert front[i].id == k; }
    }
  }

  /** An upsert stores exactly the old identifiers and the batch's. */
  lemma {:induction false} UpsertedKeys(store: map<string, Article>, batch: seq<Article>, k: string)
    ensures k in Upserted(store, batch) <==> k in store || InBatch(batch, k)
  {
    if batch != [] {
      UpsertedKeys(store, batch[..|batch| - 1], k);
      InBatchSnoc(batch, k);
    }
  }

  /** Each identifier of the batch ends up holding the batch's last item with that identifier. */
  lemma {:induction false} UpsertedLastWins(store: map<string, Article>, batch: seq<Article>, i: int)
    requires LastWithItsId(batch, i)
    ensures batch[i].id in Upserted(store, batch) && Upserted(store, batch)[batch[i].id] == batch[i]
  {
    var n := |batch| - 1;
    if i < n {
      var front := batch[..n];
      assert LastWithItsId(front, i);
      UpsertedLastWins(store, front, i);
    }
  }

  /** Stored items whose identifier is not in the batch are untouched. */
  lemma {:induction false} UpsertedKeepsOthers(store: map<string, Article>, batch: seq<Article>, k: string)
    requires k in store && !InBatch(batch, k)
    ensures k in Upserted(store, batch) && Upserted(store, batch)[k] == store[k]
  {
    if batch != [] {
      InBatchSnoc(batch, k);
      UpsertedKeepsOthers(store, batch[..|batch| - 1], k);
    }
  }

  /** Upserting the same batch twice leaves the store as upserting it once. */
  lemma UpsertIdempotent(store: map<string, Article>, batch: seq<Article>)
    ensures Upserted(Upserted(store, batch), batch) == Upserted(store, batch)
  {
    var once := Upserted(store, batch);
    var twice := Upserted(once, batch);
    forall k ensures k in twice <==> k in once {
      UpsertedKeys(store, batch, k);
      UpsertedKeys(once, batch, k);
    }
    forall k | k in twice ensures twice[k] == once[k] {
      if InBatch(batch, k) {
        var i := LastIndexOf(batch, k);
        UpsertedLastWins(store, batch, i);
        UpsertedLastWins(once, batch, i);
      } else {
        UpsertedKeepsOthers(once, batch, k);
      }
    }
  }

  /** The position of the last item of `batch` with identifier `k`. */
  lemma LastIndexOf(batch: seq<Article>, k: string) returns (i: int)
    requires InBatch(batch, k)
    ensures LastWithItsId(batch, i) && batch[i].id == k
  {
    i := |batch| - 1;
    while batch[i].id != k
      invariant 0 <= i < |batch|
      invariant forall j :: i < j < |batch| ==> batch[j].id != k
      invariant InBatch(batch[..i + 1], k)
      decreases i
    {
      var w :| 0 <= w < i + 1 && batch[..i + 1][w].id == k;
      assert batch[..i][w].id == k;
      i := i - 1;
    }
  }

  /**
   * The tag filter of `GetRandom`: an empty tag matches every item, another
   * tag matches an item having a tag that contains it.
   */
  predicate MatchesTag(a: Article, tag: string) {
    tag == "" || exists t | t in a.tags :: GoStrings.Contains(t, tag)
  }

  /** No two items of `s` share an identifier. */
  ghost predicate DistinctIds(s: seq<Article>) {
    forall i, j :: 0 <= i < j < |s| ==> s[i].id != s[j].id
  }

  lemma DistinctIdsSnoc(s: seq<Article>, a: Article, ids: set<string>)
    requires DistinctIds(s) && a.id !in ids
    requires forall i :: 0 <= i < |s| ==> s[i].id in ids
    ensures DistinctIds(s + [a])
  {
  }

  /** `all` lists the stored items of the identifiers in `done`, each once. */
  ghost predicate Gathered(store: map<string, Article>, all: seq<Article>, done: set<string>) {
    && |all| == |done|
    && (forall i :: 0 <= i < |all| ==> all[i].id in done && all[i].id in store && all[i] == store[all[i].id])
    && (forall k :: k in done ==> k in store && store[k] in all)
    && DistinctIds(all)
  }

  /** Listing one more stored item keeps `Gathered`. */
  lemma GatheredSnoc(store: map<string, Article>, all: seq<Article>, done: set<string>, k: string)
    requires Gathered(store, all, done) && k in store && k !in done && store[k].id == k
    ensures Gathered(store, all + [store[k]], done + {k})
  {
    var a := store[k];
    var all' := all + [a];
    DistinctIdsSnoc(all, a, done);
    assert forall i :: 0 <= i < |all| ==> all'[i] == all[i];
    assert all'[|all|] == a;
    forall j | j in done + {k} ensures store[j] in all' {
      if j != k {
        var i :| 0 <= i < |all| && all[i] == store[j];
        assert all'[i] == store[j];
      }
    }
  }

  /** The local store (`Repository`), a map from identifier to item. */
  class Repository {
    var articles: map<string, Article>
    ghost var upsertLog: seq<UpsertCall>
    ghost var randomLog: seq<RandomCall>

    ghost predicate Valid()
      reads this
    {
      KeyedById(articles)
    }

    constructor (initial: map<string, Article>)
      requires KeyedById(initial)
      ensures Valid()
      ensures articles == initial && upsertLog == [] && randomLog == []
    {
      articles := initial;
      upsertLog := [];
      randomLog := [];
    }

    /**
     * `SaveUpsert`: insert-or-replace every item of the batch, in one
     * transaction; on failure nothing is committed.
     */
    method SaveUpsert(batch: seq<Article>) returns (err: Option<string>)
      requires Valid()
      modifies this
      ensures Valid()
      ensures upsertLog == old(upsertLog) + [UpsertCall(batch, err)] && randomLog == old(randomLog)
      ensures articles == if err.None? then Upserted(old(articles), batch) else old(articles)
    {
      var failed: bool :| true;
      if failed {
        err := Some("failed to save articles");
        upsertLog := upsertLog + [UpsertCall(batch, err)];
        return;
      }
      var i := 0;
      while i < |batch|
        invariant 0 <= i <= |batch|
        invariant articles == Upserted(old(articles), batch[..i])
        invariant upsertLog == old(upsertLog) && randomLog == old(randomLog)
      {
        assert batch[..i + 1][..i] == batch[..i];
        articles := articles[batch[i].id := batch[i]];
        i := i + 1;
      }
      assert batch[..i] == batch;
      err := None;
      upsertLog := upsertLog + [UpsertCall(batch, err)];
    }

    /**
     * `GetRandom`: up to `count` stored items matching `tag` (no limit for a
     * negative count, as SQL's `LIMIT`), in unspecified order, or a failure.
     */
    method GetRandom(count: int, tag: string) returns (r: Result<seq<Article>>)
      requires Valid()
      modifies this
      ensures Valid()
      ensures articles == old(articles) && upsertLog == old(upsertLog)
      ensures randomLog == old(randomLog) + [RandomCall(count, tag, r)]
      ensures r.Ok? ==> count >= 0 ==> |r.value| <= count
      ensures r.Ok? ==> forall a :: a in r.value ==> a in articles.Values && MatchesTag(a, tag)
    {
      var failed: bool :| true;
      if failed {
        r := Err("failed to query articles");
      } else {
        var pool := articles.Keys;
        var picked: seq<Article> := [];
        while pool != {} && (count < 0 || |picked| < count)
          invariant pool <= articles.Keys
          invariant count >= 0 ==> |picked| <= count
          invariant forall a :: a in picked ==> a in articles.Values && MatchesTag(a, tag)
          decreases pool
        {
          var k :| k in pool;
          pool := pool - {k};
          if MatchesTag(articles[k], tag) {
            picked := picked + [articles[k]];
          }
        }
        r := Ok(picked);
      }
      randomLog := randomLog + [RandomCall(count, tag, r)];
    }

    /** `GetAll`: every stored item exactly once, in unspecified order, or a failure. */
    method GetAll() returns (r: Result<seq<Article>>)
      requires Valid()
      ensures r.Ok? ==> |r.value| == |articles|
      ensures r.Ok? ==> forall a :: a in r.value <==> a in articles.Values
      ensures r.Ok? ==> DistinctIds(r.value)
    {
      var failed: bool :| true;
      if failed {
        return Err("failed to query articles");
      }
      var pool := articles.Keys;
      ghost var done: set<string> := {};
      var all: seq<Article> := [];
      while pool != {}
        invariant pool !! done && pool + done == articles.Keys
        invariant Gathered(articles, all, done)
        decreases pool
      {
        var k :| k in pool;
        GatheredSnoc(articles, all, done, k);
        pool := pool - {k};
        done := done + {k};
        all := all + [articles[k]];
      }
      assert done == articles.Keys;
      r := Ok(all);
    }
  }
}
