/**
 * The read-through cache service (package `readings`, service.go). It
 * consults the local store first, synchronises from the remote knowledge
 * base only when the store yields nothing, and keeps the current week's
 * reading list in an in-memory cache that changes only when the remote
 * update succeeds.
 */
module Readings {
  import opened Wrappers
  import opened Domain
  import opened Seqs

  /** The reading list with every occurrence of `id` removed, the others in order. */
  function RemoveAll(ids: seq<string>, id: string): (r: seq<string>)
    ensures id !in r
    ensures forall x :: x != id ==> multiset(r)[x] == multiset(ids)[x]
    ensures Subsequence(r, ids)
  {
    if ids == [] then []
    else
      var front, last := ids[..|ids| - 1], ids[|ids| - 1];
      assert ids == front + [last];
      var r' := RemoveAll(front, id);
      if last == id then
        SubsequenceExtend(r', front, last);
        r'
      else
        r' + [last]
  }

  /** Without `id` in the list, removing it changes nothing. */
  lemma {:induction false} RemoveAllAbsent(ids: seq<string>, id: string)
    requires id !in ids
    ensures RemoveAll(ids, id) == ids
  {
    if ids != [] {
      RemoveAllAbsent(ids[..|ids| - 1], id);
      assert ids == ids[..|ids| - 1] + [ids[|ids| - 1]];
    }
  }

  /**
   * The reading list after toggling `id`: every occurrence removed if it is
   * present, otherwise `id` appended at the end.
   */
  function Toggled(ids: seq<string>, id: string): (r: seq<string>)
    ensures id in r <==> id !in ids
    ensures forall x :: x != id ==> multiset(r)[x] == multiset(ids)[x]
    ensures id in ids ==> Subsequence(r, ids)
    ensures id !in ids ==> r[..|r| - 1] == ids && r[|r| - 1] == id
  {
    if id in ids then RemoveAll(ids, id) else ids + [id]
  }

  /** Adding an absent item and toggling it again restores the original list. */
  lemma AddThenRemove(ids: seq<string>, id: string)
    requires id !in ids
    ensures Toggled(Toggled(ids, id), id) == ids
  {
    assert RemoveAll(ids + [id], id) == RemoveAll(ids, id) by {
      assert (ids + [id])[..|ids|] == ids;
    }
    RemoveAllAbsent(ids, id);
  }

  /** Removing a present item and toggling it again moves it to the end, once. */
  lemma RemoveThenAdd(ids: seq<string>, id: string)
    requires id in ids
    ensures Toggled(Toggled(ids, id), id) == RemoveAll(ids, id) + [id]
  {
  }

  /** Toggling an item absent from a one-item list appends it. */
  lemma ToggleAppends(a: string, b: string)
    requires a != b
    ensures Toggled([a], b) == [a, b]
  {
  }

  /** Toggling the second of two distinct items leaves the first alone. */
  lemma ToggleRemovesSecond(a: string, b: string)
    requires a != b
    ensures Toggled([a, b], b) == [a]
  {
    assert [a, b][..1] == [a];
    RemoveAllAbsent([a], b);
  }

  /** The package's toggle tests: "article-2" is added to, then removed from, a week's list. */
  lemma ToggleExamples()
    ensures Toggled(["article-1"], "article-2") == ["article-1", "article-2"]
    ensures Toggled(["article-1", "article-2"], "article-2") == ["article-1"]
  {
    var one, two := "article-1", "article-2";
    assert one[8] != two[8];
    ToggleAppends(one, two);
    ToggleRemovesSecond(one, two);
  }

  /** One call of `UpdateWeekReadingList`: the week page, the list sent and the error returned, if any. */
  datatype WeekUpdate = WeekUpdate(weekID: string, readingPageIDs: seq<string>, err: Option<string>)

  /**
   * The remote knowledge base (`NotionClient`): the not-yet-completed items,
   * the reading list of every week page, and which week's span contains
   * "now". Transport failures are nondeterministic; ghost logs record calls.
   */
  class NotionClient {
    var remoteArticles: seq<Article>
    var weekLists: map<string, seq<string>>
    var currentWeekID: Option<string>
    ghost var fetchArticlesLog: seq<Result<seq<Article>>>
    ghost var fetchWeekLog: seq<Result<Week>>
    ghost var updateLog: seq<WeekUpdate>

    constructor (articles: seq<Article>, lists: map<string, seq<string>>, current: Option<string>)
      ensures remoteArticles == articles && weekLists == lists && currentWeekID == current
      ensures fetchArticlesLog == [] && fetchWeekLog == [] && updateLog == []
    {
      remoteArticles, weekLists, currentWeekID := articles, lists, current;
      fetchArticlesLog, fetchWeekLog, updateLog := [], [], [];
    }

    /** `FetchArticles`: every remote item not marked complete, or a failure. */
    method FetchArticles() returns (r: Result<seq<Article>>)
      modifies this
      ensures remoteArticles == old(remoteArticles) && weekLists == old(weekLists)
      ensures currentWeekID == old(currentWeekID)
      ensures fetchArticlesLog == old(fetchArticlesLog) + [r]
      ensures fetchWeekLog == old(fetchWeekLog) && updateLog == old(updateLog)
      ensures r.Ok? ==> r.value == remoteArticles
    {
      var failed: bool :| true;
      r := if failed then Err("failed to query database") else Ok(remoteArticles);
      fetchArticlesLog := fetchArticlesLog + [r];
    }

    /** `FetchCurrentWeek`: the week whose span contains "now", or a failure. */
    method FetchCurrentWeek() returns (r: Result<Week>)
      modifies this
      ensures remoteArticles == old(remoteArticles) && weekLists == old(weekLists)
      ensures currentWeekID == old(currentWeekID)
      ensures fetchWeekLog == old(fetchWeekLog) + [r]
      ensures fetchArticlesLog == old(fetchArticlesLog) && updateLog == old(updateLog)
      ensures r.Ok? ==> currentWeekID.Some? && currentWeekID.value in weekLists
      ensures r.Ok? ==> r.value == Week(currentWeekID.value, weekLists[currentWeekID.value])
      ensures currentWeekID.None? ==> r == Err("no current week found in Notion")
    {
      var failed: bool :| true;
      if currentWeekID.None? || currentWeekID.value !in weekLists {
        r := Err("no current week found in Notion");
      } else if failed {
        r := Err("failed to query weeks database");
      } else {
        r := Ok(Week(currentWeekID.value, weekLists[currentWeekID.value]));
      }
      fetchWeekLog := fetchWeekLog + [r];
    }

    /** `UpdateWeekReadingList`: overwrites the week page's whole reading list. */
    method UpdateWeekReadingList(weekID: string, ids: seq<string>) returns (err: Option<string>)
      modifies this
      ensures remoteArticles == old(remoteArticles) && currentWeekID == old(currentWeekID)
      ensures weekLists == if err.None? then old(weekLists)[weekID := ids] else old(weekLists)
      ensures updateLog == old(updateLog) + [WeekUpdate(weekID, ids, err)]
      ensures fetchArticlesLog == old(fetchArticlesLog) && fetchWeekLog == old(fetchWeekLog)
    {
      var failed: bool :| true;
      if failed {
        err := Some("failed to update week reading list");
      } else {
        weekLists := weekLists[weekID := ids];
        err := None;
      }
      updateLog := updateLog + [WeekUpdate(weekID, ids, err)];
    }
  }

  /**
   * The toggle loop of `ToggleReadingInCurrentWeek`: copy every identifier
   * but `id`; when none was `id`, append it.
   */
  method ToggleIDs(ids: seq<string>, id: string) returns (newIDs: seq<string>, added: bool)
    ensures newIDs == Toggled(ids, id)
    ensures added == (id !in ids)
  {
    var found := false;
    newIDs := [];
    for i := 0 to |ids|
      invariant newIDs == RemoveAll(ids[..i], id)
      invariant found <==> id in ids[..i]
    {
      assert ids[..i + 1] == ids[..i] + [ids[i]];
      if ids[i] == id {
        found := true;
      } else {
        newIDs := newIDs + [ids[i]];
      }
    }
    assert ids[..|ids|] == ids;
    added := false;
    if !found {
      RemoveAllAbsent(ids, id);
      newIDs := newIDs + [id];
      added := true;
    }
  }

  /** `Service`: the local store, the remote client and the lazily resolved current week. */
  class Service {
    const repo: Repository
    const notion: NotionClient
    var currentWeek: Option<Week>

    /** `NewService`: nothing is cached yet. */
    constructor (repo: Repository, notion: NotionClient)
      ensures this.repo == repo && this.notion == notion && currentWeek == None
    {
      this.repo := repo;
      this.notion := notion;
      currentWeek := None;
    }

    /**
     * `Sync`: fetch every remote item, then upsert exactly that list; a
     * failed fetch never reaches the store.
     */
    method Sync() returns (err: Option<string>)
      requires repo.Valid()
      modifies repo, notion
      ensures repo.Valid()
      ensures repo.randomLog == old(repo.randomLog)
      ensures notion.remoteArticles == old(notion.remoteArticles) && notion.weekLists == old(notion.weekLists)
      ensures notion.currentWeekID == old(notion.currentWeekID)
      ensures notion.fetchWeekLog == old(notion.fetchWeekLog) && notion.updateLog == old(notion.updateLog)
      ensures |notion.fetchArticlesLog| == |old(notion.fetchArticlesLog)| + 1
      ensures notion.fetchArticlesLog[..|old(notion.fetchArticlesLog)|] == old(notion.fetchArticlesLog)
      ensures var fetched := notion.fetchArticlesLog[|old(notion.fetchArticlesLog)|];
        match fetched
        case Err(e) =>
          err == Some(e) && repo.upsertLog == old(repo.upsertLog) && repo.articles == old(repo.articles)
        case Ok(items) =>
          && items == notion.remoteArticles
          && repo.upsertLog == old(repo.upsertLog) + [UpsertCall(items, err)]
          && repo.articles == if err.None? then Upserted(old(repo.articles), items) else old(repo.articles)
    {
      var fetched := notion.FetchArticles();
      if fetched.Err? {
        return Some(fetched.error);
      }
      err := repo.SaveUpsert(fetched.value);
    }

    /**
     * `GetReadings`: a random sample from the store; only an empty sample
     * triggers one `Sync` and one more sample, which is returned as it is.
     */
    method GetReadings(count: int, tag: string) returns (r: Result<seq<Article>>)
      requires repo.Valid()
      modifies repo, notion
      ensures repo.Valid()
      ensures notion.remoteArticles == old(notion.remoteArticles) && notion.weekLists == old(notion.weekLists)
      ensures notion.fetchWeekLog == old(notion.fetchWeekLog) && notion.updateLog == old(notion.updateLog)
      ensures |repo.randomLog| > |old(repo.randomLog)|
      ensures repo.randomLog[..|old(repo.randomLog)|] == old(repo.randomLog)
      ensures var first := repo.randomLog[|old(repo.randomLog)|];
        && first.count == count && first.tag == tag
        && match first.result
          case Err(e) =>
            && r == Err("failed to get readings: " + e)
            && |repo.randomLog| == |old(repo.randomLog)| + 1
            && notion.fetchArticlesLog == old(notion.fetchArticlesLog)
            && repo.upsertLog == old(repo.upsertLog) && repo.articles == old(repo.articles)
          case Ok(sample) =>
            if |sample| >= count || sample != [] then
              && r == Ok(sample)
              && |repo.randomLog| == |old(repo.randomLog)| + 1
              && notion.fetchArticlesLog == old(notion.fetchArticlesLog)
              && repo.upsertLog == old(repo.upsertLog) && repo.articles == old(repo.articles)
            else
              && |notion.fetchArticlesLog| == |old(notion.fetchArticlesLog)| + 1
              && match notion.fetchArticlesLog[|old(notion.fetchArticlesLog)|]
                case Err(e) =>
                  && r == Err("failed to sync: " + e)
                  && |repo.randomLog| == |old(repo.randomLog)| + 1
                  && repo.upsertLog == old(repo.upsertLog) && repo.articles == old(repo.articles)
                case Ok(items) =>
                  && items == notion.remoteArticles
                  && |repo.upsertLog| == |old(repo.upsertLog)| + 1
                  && repo.upsertLog[..|old(repo.upsertLog)|] == old(repo.upsertLog)
                  && repo.upsertLog[|old(repo.upsertLog)|].batch == items
                  && match repo.upsertLog[|old(repo.upsertLog)|].err
                    case Some(e) =>
                      && r == Err("failed to sync: " + e)
                      && |repo.randomLog| == |old(repo.randomLog)| + 1
                      && repo.articles == old(repo.articles)
                    case None =>
                      && repo.articles == Upserted(old(repo.articles), items)
                      && |repo.randomLog| == |old(repo.randomLog)| + 2
                      && repo.randomLog[|old(repo.randomLog)| + 1] == RandomCall(count, tag, r)
    {
      var sample := repo.GetRandom(count, tag);
      if sample.Err? {
        return Err("failed to get readings: " + sample.error);
      }
      if |sample.value| >= count {
        return sample;
      }
      if |sample.value| == 0 {
        var err := Sync();
        if err.Some? {
          return Err("failed to sync: " + err.value);
        }
        r := repo.GetRandom(count, tag);
        return;
      }
      r := sample;
    }

    /** `GetAll`: the store's enumeration, passed through; nothing remote is touched. */
    method GetAll() returns (r: Result<seq<Article>>)
      requires repo.Valid()
      ensures r.Ok? ==> |r.value| == |repo.articles|
      ensures r.Ok? ==> forall a :: a in r.value <==> a in repo.articles.Values
      ensures r.Ok? ==> DistinctIds(r.value)
    {
      r := repo.GetAll();
    }

    /**
     * `ToggleReadingInCurrentWeek`: resolve the current week once, toggle
     * `articleID` in its reading list, push the whole new list, and cache it
     * only when the push succeeds.
     */
    method ToggleReadingInCurrentWeek(articleID: string) returns (added: bool, err: Option<string>)
      modifies this, notion
      ensures notion.remoteArticles == old(notion.remoteArticles)
      ensures notion.fetchArticlesLog == old(notion.fetchArticlesLog)
      ensures old(currentWeek).Some? ==> notion.fetchWeekLog == old(notion.fetchWeekLog)
      ensures old(currentWeek).None? ==>
        |notion.fetchWeekLog| == |old(notion.fetchWeekLog)| + 1
        && notion.fetchWeekLog[..|old(notion.fetchWeekLog)|] == old(notion.fetchWeekLog)
      ensures var resolved :=
          if old(currentWeek).Some? then Ok(old(currentWeek).value)
          else notion.fetchWeekLog[|old(notion.fetchWeekLog)|];
        match resolved
        case Err(e) =>
          && !added && err == Some(e) && currentWeek == None
          && notion.updateLog == old(notion.updateLog) && notion.weekLists == old(notion.weekLists)
        case Ok(week) =>
          var newIDs := Toggled(week.readingListIDs, articleID);
          && notion.updateLog == old(notion.updateLog) + [WeekUpdate(week.id, newIDs, err)]
          && notion.weekLists == (if err.None? then old(notion.weekLists)[week.id := newIDs] else old(notion.weekLists))
          && (err.None? ==> currentWeek == Some(Week(week.id, newIDs)) && added == (articleID !in week.readingListIDs))
          && (err.Some? ==> currentWeek == Some(week) && !added)
    {
      if currentWeek.None? {
        var week := notion.FetchCurrentWeek();
        if week.Err? {
          return false, Some(week.error);
        }
        currentWeek := Some(week.value);
      }
      var week := currentWeek.value;
      var newIDs;
      newIDs, added := ToggleIDs(week.readingListIDs, articleID);
      err := notion.UpdateWeekReadingList(week.id, newIDs);
      if err.Some? {
        added := false;
        return;
      }
      currentWeek := Some(Week(week.id, newIDs));
    }
  }
}
