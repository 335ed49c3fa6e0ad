/**
 * The terminal browser's state machine (internal/tui/update.go): `Update`
 * maps a model and a message to the next model and a command. Commands are
 * values; running the toggle command is `ExecToggle`. The three loops of the
 * source (copying the tag selection, selecting every tag, `applyFilter`) are
 * methods proved equal to the functions the state machine is stated with.
 */
module TuiUpdate {
  import opened Wrappers
  import opened GoStrings
  import opened Domain
  import opened Seqs
  import opened TuiModel
  import Readings

  /** `x` clamped into `[lo, hi]`. */
  function Clamp(x: int, lo: int, hi: int): int
    requires lo <= hi
  {
    if x < lo then lo else if x > hi then hi else x
  }

  /**
   * The repeat count typed before a motion key: the buffered number when it
   * parses to a positive int, otherwise 1 (an empty buffer, "0", or a number
   * too large for `strconv.Atoi`).
   */
  function Count(buffer: string): (c: int)
    ensures 1 <= c <= MaxInt64
    ensures AllDigits(buffer) && 0 < DigitsValue(buffer) <= MaxInt64 ==> c == DigitsValue(buffer)
    ensures AllDigits(buffer) && (DigitsValue(buffer) == 0 || DigitsValue(buffer) > MaxInt64) ==> c == 1
  {
    if buffer != "" then
      match Atoi(buffer)
      case Some(c) => if c > 0 then c else 1
      case None => 1
    else 1
  }

  /** Typing the decimal digits of a positive int64 gives that count. */
  lemma CountDecimal(n: nat)
    requires 1 <= n <= MaxInt64
    ensures Count(Decimal(n)) == n
  {
    DigitsValueDecimal(n);
  }

  /** The list view scrolls so that the cursor lies in `[scrollOffset, scrollOffset + height - 4)`. */
  predicate CursorVisible(m: Model) {
    m.scrollOffset <= m.cursor < m.scrollOffset + (m.height - 4)
  }

  /** `up`/`k` in the list: back by `count`, stopping at the top. */
  function MoveUp(m: Model, count: int): (r: Model)
    requires count >= 1
    ensures r == m.(cursor := r.cursor, scrollOffset := r.scrollOffset)
    ensures m.cursor <= 0 ==> r == m
    ensures m.cursor > 0 ==> 0 <= r.cursor < m.cursor && r.scrollOffset <= r.cursor
    ensures m.scrollOffset >= 0 ==> r.scrollOffset >= 0
  {
    if m.cursor > 0 then
      var c := if m.cursor - count < 0 then 0 else m.cursor - count;
      m.(cursor := c, scrollOffset := if c < m.scrollOffset then c else m.scrollOffset)
    else m
  }

  /** The scroll position after the cursor moved down to `c`. */
  function FollowDown(scroll: int, c: int, height: int): (s: int)
    ensures scroll >= 0 ==> s >= 0
    ensures height > 4 && c >= 0 ==> c < s + (height - 4)
  {
    if c >= scroll + (height - 4) then
      if c - (height - 4) + 1 < 0 then 0 else c - (height - 4) + 1
    else scroll
  }

  /** `down`/`j` in the list: forward by `count`, stopping at the last item. */
  function MoveDown(m: Model, count: int): (r: Model)
    requires count >= 1
    ensures r == m.(cursor := r.cursor, scrollOffset := r.scrollOffset)
    ensures !(m.cursor < |m.filteredArticles| - 1) ==> r == m
    ensures 0 <= m.cursor < |m.filteredArticles| - 1 ==>
      m.cursor < r.cursor < |m.filteredArticles| && (m.height > 4 ==> r.cursor < r.scrollOffset + (m.height - 4))
    ensures m.scrollOffset >= 0 ==> r.scrollOffset >= 0
  {
    var n := |m.filteredArticles|;
    if m.cursor < n - 1 then
      var c := if m.cursor + count >= n then n - 1 else m.cursor + count;
      m.(cursor := c, scrollOffset := FollowDown(m.scrollOffset, c, m.height))
    else m
  }

  /**
   * `down`/`j` as written for Go's 64-bit `int`: the sum `m.cursor + count`
   * wraps around before it is compared with the list length.
   */
  function MoveDownAsWritten(m: Model, count: int): (r: Model)
    requires 1 <= count <= MaxInt64 && MinInt64 <= m.cursor <= MaxInt64
    ensures r == m.(cursor := r.cursor, scrollOffset := r.scrollOffset)
    ensures m.cursor < |m.filteredArticles| - 1 ==> r.cursor < |m.filteredArticles|
  {
    var n := |m.filteredArticles|;
    if m.cursor < n - 1 then
      var sum := Wrap64(m.cursor + count);
      var c := if sum >= n then n - 1 else sum;
      m.(cursor := c, scrollOffset := FollowDown(m.scrollOffset, c, m.height))
    else m
  }

  /** Without overflow the code as written and the clamped motion agree. */
  lemma MoveDownAgreesWithoutOverflow(m: Model, count: int)
    requires 1 <= count <= MaxInt64 && MinInt64 <= m.cursor <= MaxInt64
    requires m.cursor + count <= MaxInt64
    ensures MoveDownAsWritten(m, count) == MoveDown(m, count)
  {
  }

  /**
   * With three items listed, the cursor on the second and
   * "9223372036854775807" typed, `j` leaves the cursor at the most negative
   * int64: outside the list, so a following `enter` indexes out of range.
   */
  lemma MoveDownOverflows(m: Model)
    requires |m.filteredArticles| == 3 && m.cursor == 1
    ensures Count(Decimal(MaxInt64)) == MaxInt64
    ensures MoveDownAsWritten(m, MaxInt64).cursor == MinInt64
    ensures MoveDown(m, MaxInt64).cursor == 2
  {
    CountDecimal(MaxInt64);
  }

  /** The scroll adjustment of `g`/`G`: centre the cursor unless it is already visible. */
  function Recenter(m: Model): (r: Model)
    ensures r == m.(scrollOffset := r.scrollOffset)
    ensures CursorVisible(m) ==> r == m
    ensures m.scrollOffset >= 0 ==> r.scrollOffset >= 0
    ensures m.height > 4 && m.cursor >= 0 ==> CursorVisible(r)
  {
    if m.cursor < m.scrollOffset || m.cursor >= m.scrollOffset + (m.height - 4) then
      var s := m.cursor - Quo(m.height - 4, 2);
      m.(scrollOffset := if s < 0 then 0 else s)
    else m
  }

  /** `g`/`G` after a number: go to the 0-based `target`, clamped to the list. */
  function JumpTo(m: Model, target: int): (r: Model)
    ensures r == m.(cursor := r.cursor, scrollOffset := r.scrollOffset)
    ensures |m.filteredArticles| > 0 ==> r.cursor == Clamp(target, 0, |m.filteredArticles| - 1)
    ensures |m.filteredArticles| == 0 ==> r.cursor == -1
    ensures m.scrollOffset >= 0 ==> r.scrollOffset >= 0
  {
    var n := |m.filteredArticles|;
    var t := if target < 0 then 0 else target;
    var t := if t >= n then n - 1 else t;
    Recenter(m.(cursor := t))
  }

  /** A one-character digit key. */
  predicate IsDigitKey(key: string) {
    |key| == 1 && IsDigit(key[0])
  }

  /** Where the cursor may be in the list: on an item, or at 0 or -1 when nothing is listed. */
  predicate ListCursorOk(n: int, c: int) {
    if n > 0 then 0 <= c < n else -1 <= c <= 0
  }

  /** `enter` in the list indexes `filteredArticles` at the cursor. */
  predicate ListIndexOk(m: Model, msg: Msg) {
    msg.KeyMsg? && msg.key == "enter" && |m.filteredArticles| > 0 ==> 0 <= m.cursor < |m.filteredArticles|
  }

  /** `updateList`. */
  function UpdateList(m: Model, msg: Msg): (r: (Model, Cmd))
    requires ListIndexOk(m, msg)
    ensures r.0 == m.(cursor := r.0.cursor, scrollOffset := r.0.scrollOffset, inputBuffer := r.0.inputBuffer,
                      view := r.0.view, backupSelectedTags := r.0.backupSelectedTags)
    ensures !msg.KeyMsg? ==> r == (m, NoCmd)
    ensures msg.KeyMsg? && IsDigitKey(msg.key) ==> r == (m.(inputBuffer := m.inputBuffer + msg.key), NoCmd)
    ensures msg.KeyMsg? && !IsDigitKey(msg.key) ==> r.0.inputBuffer == ""
    ensures r.1 == NoCmd || r.1.Toggle?
    ensures r.1.Toggle? <==> msg.KeyMsg? && msg.key == "enter" && |m.filteredArticles| > 0
    ensures r.1.Toggle? ==> r.1.articleID == m.filteredArticles[m.cursor].id
    ensures msg.KeyMsg? && msg.key == "/" ==>
      r.0.view == ViewFilter && r.0.backupSelectedTags == m.selectedTags && r.0.cursor == 0 && r.0.scrollOffset == 0
    ensures !(msg.KeyMsg? && msg.key == "/") ==> r.0.view == m.view && r.0.backupSelectedTags == m.backupSelectedTags
    ensures ListCursorOk(|m.filteredArticles|, m.cursor) ==> ListCursorOk(|m.filteredArticles|, r.0.cursor)
    ensures m.scrollOffset >= 0 ==> r.0.scrollOffset >= 0
  {
    match msg
    case KeyMsg(key) =>
      if IsDigitKey(key) then (m.(inputBuffer := m.inputBuffer + key), NoCmd)
      else
        var count := Count(m.inputBuffer);
        var n := |m.filteredArticles|;
        var cleared := m.(inputBuffer := "");
        if key == "up" || key == "k" then (MoveUp(cleared, count), NoCmd)
        else if key == "down" || key == "j" then (MoveDown(cleared, count), NoCmd)
        else if key == "g" then
          if m.inputBuffer == "" then (cleared.(cursor := 0, scrollOffset := 0), NoCmd)
          else (JumpTo(cleared, count - 1), NoCmd)
        else if key == "G" then
          if m.inputBuffer == "" then (Recenter(cleared.(cursor := n - 1)), NoCmd)
          else (JumpTo(cleared, count - 1), NoCmd)
        else if key == "enter" then
          if n > 0 then (cleared, Toggle(m.filteredArticles[m.cursor].id)) else (cleared, NoCmd)
        else if key == "/" then
          (cleared.(view := ViewFilter, backupSelectedTags := m.selectedTags, cursor := 0, scrollOffset := 0), NoCmd)
        else (cleared, NoCmd)
    case _ => (m, NoCmd)
  }

  /**
   * The list motions on a non-empty list, stated with `Clamp`: by the count
   * up and down, to the top or bottom without a number, to line N with one.
   */
  lemma ListMotions(m: Model, key: string)
    requires 0 <= m.cursor < |m.filteredArticles|
    ensures var n, count, r := |m.filteredArticles|, Count(m.inputBuffer), UpdateList(m, KeyMsg(key)).0;
      && ((key == "up" || key == "k") ==> r.cursor == Clamp(m.cursor - count, 0, n - 1))
      && ((key == "down" || key == "j") ==> r.cursor == Clamp(m.cursor + count, 0, n - 1))
      && (key == "g" && m.inputBuffer == "" ==> r.cursor == 0 && r.scrollOffset == 0)
      && (key == "G" && m.inputBuffer == "" ==> r.cursor == n - 1)
      && ((key == "g" || key == "G") && m.inputBuffer != "" ==> r.cursor == Clamp(count - 1, 0, n - 1))
  {
  }

  /** `enter` in the detail view reads `filteredArticles` at the cursor when it is below the length. */
  predicate DetailIndexOk(m: Model, msg: Msg) {
    msg.KeyMsg? && msg.key == "enter" && m.cursor < |m.filteredArticles| ==> 0 <= m.cursor
  }

  /** `updateDetail`: back to the list, or open the selected item's URL. */
  function UpdateDetail(m: Model, msg: Msg): (r: (Model, Cmd))
    requires DetailIndexOk(m, msg)
    ensures msg.KeyMsg? && (msg.key == "esc" || msg.key == "q") ==> r == (m.(view := ViewList), NoCmd)
    ensures r.1.OpenUrl? <==> msg.KeyMsg? && msg.key == "enter" && m.cursor < |m.filteredArticles|
    ensures r.1.OpenUrl? ==> r.0 == m && r.1.url == m.filteredArticles[m.cursor].url
    ensures !(msg.KeyMsg? && msg.key in {"esc", "q", "enter"}) ==> r == (m, NoCmd)
    ensures r.1 == NoCmd || r.1.OpenUrl?
  {
    match msg
    case KeyMsg(key) =>
      if key == "esc" || key == "q" then (m.(view := ViewList), NoCmd)
      else if key == "enter" && m.cursor < |m.filteredArticles| then (m, OpenUrl(m.filteredArticles[m.cursor].url))
      else (m, NoCmd)
    case _ => (m, NoCmd)
  }

  /** An item passes a non-empty tag selection when one of its tags is selected. */
  predicate HasSelectedTag(a: Article, selected: set<string>) {
    exists t :: t in a.tags && t in selected
  }

  /** The items having a selected tag, in their order. */
  function KeepTagged(articles: seq<Article>, selected: set<string>): (r: seq<Article>)
    ensures Subsequence(r, articles)
    ensures forall a :: a in r <==> a in articles && HasSelectedTag(a, selected)
  {
    if articles == [] then []
    else
      var front, last := articles[..|articles| - 1], articles[|articles| - 1];
      assert articles == front + [last];
      var kept := KeepTagged(front, selected);
      if HasSelectedTag(last, selected) then
        kept + [last]
      else
        SubsequenceExtend(kept, front, last);
        kept
  }

  /**
   * The filter `enter` applies: every item when nothing is selected,
   * otherwise the items with at least one selected tag, order kept.
   */
  function FilterArticles(articles: seq<Article>, selected: set<string>): (r: seq<Article>)
    ensures Subsequence(r, articles)
    ensures forall a :: a in r <==> a in articles && (selected == {} || HasSelectedTag(a, selected))
    ensures selected == {} ==> r == articles
  {
    if selected == {} then
      SubsequenceRefl(articles);
      articles
    else KeepTagged(articles, selected)
  }

  /** `KeepTagged` keeps every occurrence of an item with a selected tag, and no other item. */
  lemma {:induction false} KeepTaggedCounts(articles: seq<Article>, selected: set<string>, a: Article)
    ensures multiset(KeepTagged(articles, selected))[a] == if HasSelectedTag(a, selected) then multiset(articles)[a] else 0
  {
    if articles != [] {
      var front, last := articles[..|articles| - 1], articles[|articles| - 1];
      assert articles == front + [last];
      KeepTaggedCounts(front, selected, a);
    }
  }

  /**
   * `FilterArticles` keeps every occurrence of an item it shows: all of
   * them for an empty selection, otherwise those with a selected tag.
   */
  lemma FilterArticlesCounts(articles: seq<Article>, selected: set<string>, a: Article)
    ensures multiset(FilterArticles(articles, selected))[a] ==
            if selected == {} || HasSelectedTag(a, selected) then multiset(articles)[a] else 0
  {
    if selected != {} {
      KeepTaggedCounts(articles, selected, a);
    }
  }

  /**
   * Selecting every tag is not the same as selecting none: the items
   * without tags are hidden.
   */
  lemma SelectAllHidesUntagged(articles: seq<Article>, tags: seq<string>, a: Article)
    requires tags != [] && a in articles
    requires forall b, t :: b in articles && t in b.tags ==> t in tags
    ensures a in FilterArticles(articles, set t | t in tags) <==> a.tags != []
  {
    var selected := set t | t in tags;
    assert tags[0] in selected;
    if a.tags != [] {
      assert a.tags[0] in a.tags && a.tags[0] in selected;
      assert HasSelectedTag(a, selected);
    }
  }

  /** The selection with every tag added. */
  function WithAll(selected: set<string>, tags: seq<string>): (r: set<string>)
    ensures forall t :: t in r <==> t in selected || t in tags
  {
    selected + set t | t in tags
  }

  /** The selection with `tag` flipped. */
  function Flip(selected: set<string>, tag: string): (r: set<string>)
    ensures forall t :: t in r <==> (t in selected) != (t == tag)
  {
    if tag in selected then selected - {tag} else selected + {tag}
  }

  /** `space` in the filter view reads `tags` at the cursor when it is below the length. */
  predicate FilterIndexOk(m: Model, msg: Msg) {
    msg.KeyMsg? && msg.key == " " && m.cursor < |m.tags| ==> 0 <= m.cursor
  }

  /** `updateFilter`: move over the tags, toggle, select all, apply or cancel. */
  function UpdateFilter(m: Model, msg: Msg): (r: (Model, Cmd))
    requires FilterIndexOk(m, msg)
    ensures r.1 == NoCmd
    ensures r.0 == m.(selectedTags := r.0.selectedTags, filteredArticles := r.0.filteredArticles, view := r.0.view,
                      cursor := r.0.cursor, scrollOffset := r.0.scrollOffset)
    ensures var key := if msg.KeyMsg? then msg.key else "";
      && (key == "enter" || key == "esc" ==> r.0.view == ViewList)
      && (key != "enter" && key != "esc" ==> r.0.view == m.view)
      && (key == "enter" ==> r.0.filteredArticles == FilterArticles(m.articles, m.selectedTags) && r.0.selectedTags == m.selectedTags)
      && (key == "esc" ==> r.0.selectedTags == m.backupSelectedTags && r.0.filteredArticles == m.filteredArticles)
      && (key == "enter" || key == "esc" ==> r.0.cursor == 0 && r.0.scrollOffset == 0)
      && (key != "enter" ==> r.0.filteredArticles == m.filteredArticles)
      && (key == " " && 0 <= m.cursor < |m.tags| ==> r.0.selectedTags == Flip(m.selectedTags, m.tags[m.cursor]))
      && (key == "right" ==> r.0.selectedTags == WithAll(m.selectedTags, m.tags))
      && (key !in {" ", "right", "esc"} ==> r.0.selectedTags == m.selectedTags)
      && (key !in {"up", "k", "down", "j", "enter", "esc"} ==> r.0.cursor == m.cursor && r.0.scrollOffset == m.scrollOffset)
  {
    match msg
    case KeyMsg(key) =>
      if key == "up" || key == "k" then
        if m.cursor > 0 then
          var c := m.cursor - 1;
          (m.(cursor := c, scrollOffset := if c < m.scrollOffset then c else m.scrollOffset), NoCmd)
        else (m, NoCmd)
      else if key == "down" || key == "j" then
        if m.cursor < |m.tags| - 1 then
          var c := m.cursor + 1;
          (m.(cursor := c, scrollOffset := if c >= m.scrollOffset + (m.height - 4) then m.scrollOffset + 1 else m.scrollOffset), NoCmd)
        else (m, NoCmd)
      else if key == " " then
        if m.cursor < |m.tags| then (m.(selectedTags := Flip(m.selectedTags, m.tags[m.cursor])), NoCmd)
        else (m, NoCmd)
      else if key == "right" then (m.(selectedTags := WithAll(m.selectedTags, m.tags)), NoCmd)
      else if key == "enter" then
        (m.(filteredArticles := FilterArticles(m.articles, m.selectedTags), view := ViewList, cursor := 0, scrollOffset := 0), NoCmd)
      else if key == "esc" then
        (m.(selectedTags := m.backupSelectedTags, view := ViewList, cursor := 0, scrollOffset := 0), NoCmd)
      else (m, NoCmd)
    case _ => (m, NoCmd)
  }

  /**
   * The filter view's motions: one tag up or down, stopping at either end;
   * moving up past the top of the window moves the window to the cursor,
   * moving down past its bottom scrolls it by one. So a cursor inside the
   * `height-4` window stays inside it.
   */
  lemma FilterMotions(m: Model, key: string)
    requires FilterIndexOk(m, KeyMsg(key))
    ensures var n, r := |m.tags|, UpdateFilter(m, KeyMsg(key)).0;
      && ((key == "up" || key == "k") ==>
        && r.cursor == (if m.cursor > 0 then m.cursor - 1 else m.cursor)
        && r.scrollOffset == (if 0 < m.cursor <= m.scrollOffset then m.cursor - 1 else m.scrollOffset))
      && ((key == "down" || key == "j") ==>
        && r.cursor == (if m.cursor < n - 1 then m.cursor + 1 else m.cursor)
        && r.scrollOffset == (if m.cursor < n - 1 && m.cursor + 1 >= m.scrollOffset + (m.height - 4)
                              then m.scrollOffset + 1 else m.scrollOffset))
      && (0 <= m.cursor < n ==>
        && ((key == "up" || key == "k") ==> r.cursor == Clamp(m.cursor - 1, 0, n - 1))
        && ((key == "down" || key == "j") ==> r.cursor == Clamp(m.cursor + 1, 0, n - 1)))
      && (key in {"up", "k", "down", "j"} && m.height > 4 && CursorVisible(m) ==> CursorVisible(r))
  {
  }

  /** The key that quits from any view but the filter view. */
  predicate IsQuitKey(msg: Msg) {
    msg.KeyMsg? && (msg.key == "ctrl+c" || msg.key == "q")
  }

  /** Go's index-out-of-range panics of `Update`, as a precondition. */
  predicate IndexesInRange(m: Model, msg: Msg) {
    match m.view
    case ViewList => ListIndexOk(m, msg)
    case ViewDetail => DetailIndexOk(m, msg)
    case ViewFilter => FilterIndexOk(m, msg)
  }

  /** `Update`: global keys and messages first, then the current view's handler. */
  function Update(m: Model, msg: Msg): (r: (Model, Cmd))
    requires IndexesInRange(m, msg)
    ensures r.0.articles == m.articles && r.0.tags == m.tags
    ensures r.1 == Quit <==> IsQuitKey(msg) && m.view != ViewFilter
    ensures r.1 == Quit ==> r.0 == m
    ensures IsQuitKey(msg) && m.view == ViewFilter ==> r == (m, NoCmd)
    ensures msg.WindowSizeMsg? ==> r == (m.(width := msg.width, height := msg.height), NoCmd)
    ensures r.1 == ScheduleClear <==> msg.StatusMsg?
    ensures msg.StatusMsg? ==> r.0 == m.(statusMessage := msg.text)
    ensures msg.ClearStatusMsg? ==> r == (m.(statusMessage := ""), NoCmd)
    ensures msg.OtherMsg? ==> r == (m, NoCmd)
    ensures m.view == ViewFilter && !(msg.KeyMsg? && msg.key in {"enter", "esc"}) ==>
      r.0.view == ViewFilter && r.0.backupSelectedTags == m.backupSelectedTags && r.0.filteredArticles == m.filteredArticles
  {
    if IsQuitKey(msg) && m.view != ViewFilter then (m, Quit)
    else
      match msg
      case StatusMsg(text) => (m.(statusMessage := text), ScheduleClear)
      case ClearStatusMsg => (m.(statusMessage := ""), NoCmd)
      case WindowSizeMsg(width, height) => UpdateView(m.(width := width, height := height), msg)
      case _ => UpdateView(m, msg)
  }

  /** The handler of the current view. */
  function UpdateView(m: Model, msg: Msg): (Model, Cmd)
    requires IndexesInRange(m, msg)
  {
    match m.view
    case ViewList => UpdateList(m, msg)
    case ViewDetail => UpdateDetail(m, msg)
    case ViewFilter => UpdateFilter(m, msg)
  }

  /** A tag selection drawn from the tag list. */
  ghost predicate WithinTags(selected: set<string>, tags: seq<string>) {
    forall t :: t in selected ==> t in tags
  }

  /**
   * What holds in every state reached from `InitTUI`'s model: the detail
   * view is never entered; the scroll offset is never negative; the buffer
   * holds digits only; selection and backup are drawn from the tags; in the
   * list the shown items are the filter of the selection and the cursor is
   * on one of them (or at 0 or -1 when none is shown); in the filter view
   * the shown items are the filter of the backup, and the cursor is on a
   * tag (or 0 when there are none) and not above the window.
   */
  ghost predicate Inv(m: Model) {
    && m.view != ViewDetail
    && m.scrollOffset >= 0
    && AllDigits(m.inputBuffer)
    && WithinTags(m.selectedTags, m.tags)
    && WithinTags(m.backupSelectedTags, m.tags)
    && (m.view == ViewList ==>
          m.filteredArticles == FilterArticles(m.articles, m.selectedTags)
          && ListCursorOk(|m.filteredArticles|, m.cursor))
    && (m.view == ViewFilter ==>
          m.filteredArticles == FilterArticles(m.articles, m.backupSelectedTags)
          && m.scrollOffset <= m.cursor
          && (m.cursor == 0 || m.cursor < |m.tags|))
  }

  /** `InitTUI`'s model satisfies the invariant. */
  lemma InitialInv(articles: seq<Article>, tags: seq<string>)
    ensures Inv(Model(articles, articles, tags, {}, {}, ViewList, 0, 0, 0, 0, "", ""))
  {
  }

  /**
   * `Update` never panics in a reachable state and keeps the invariant; a
   * toggle command it issues names a loaded item.
   */
  lemma UpdateInv(m: Model, msg: Msg)
    requires Inv(m)
    ensures IndexesInRange(m, msg)
    ensures Inv(Update(m, msg).0)
    ensures Update(m, msg).1.Toggle? ==> exists a :: a in m.articles && a.id == Update(m, msg).1.articleID
  {
    match msg
    case WindowSizeMsg(width, height) => ViewKeepsInv(m.(width := width, height := height), msg);
    case _ => ViewKeepsInv(m, msg);
  }

  /** The view handlers keep `Inv`, and a toggle names a loaded item. */
  lemma ViewKeepsInv(m: Model, msg: Msg)
    requires Inv(m)
    ensures IndexesInRange(m, msg)
    ensures Inv(UpdateView(m, msg).0)
    ensures UpdateView(m, msg).1.Toggle? ==> exists a :: a in m.articles && a.id == UpdateView(m, msg).1.articleID
  {
    if m.view == ViewList {
      ListKeepsInv(m, msg);
    } else {
      FilterKeepsInv(m, msg);
    }
  }

  lemma ListKeepsInv(m: Model, msg: Msg)
    requires Inv(m) && m.view == ViewList
    ensures ListIndexOk(m, msg)
    ensures Inv(UpdateList(m, msg).0)
    ensures UpdateList(m, msg).1.Toggle? ==> exists a :: a in m.articles && a.id == UpdateList(m, msg).1.articleID
  {
    if UpdateList(m, msg).1.Toggle? {
      var a := m.filteredArticles[m.cursor];
      SubsequenceMembers(m.filteredArticles, m.articles, a);
    }
  }

  lemma FilterKeepsInv(m: Model, msg: Msg)
    requires Inv(m) && m.view == ViewFilter
    ensures FilterIndexOk(m, msg)
    ensures Inv(UpdateFilter(m, msg).0)
  {
    if msg.KeyMsg? && msg.key == " " && 0 <= m.cursor < |m.tags| {
      assert m.tags[m.cursor] in m.tags;
    }
  }

  /**
   * The program loop, one message at a time, stopping at the first `Quit`:
   * the final model and the commands issued.
   */
  function Run(m: Model, msgs: seq<Msg>): (r: (Model, seq<Cmd>))
    requires Inv(m)
    ensures Inv(r.0) && r.0.articles == m.articles && r.0.tags == m.tags
    ensures |r.1| <= |msgs|
    ensures forall k :: 0 <= k < |r.1| - 1 ==> r.1[k] != Quit
    ensures forall k :: 0 <= k < |r.1| && r.1[k].Toggle? ==> exists a :: a in m.articles && a.id == r.1[k].articleID
    decreases |msgs|
  {
    if msgs == [] then (m, [])
    else
      UpdateInv(m, msgs[0]);
      var step := Update(m, msgs[0]);
      if step.1 == Quit then (step.0, [Quit])
      else
        var rest := Run(step.0, msgs[1..]);
        (rest.0, [step.1] + rest.1)
  }

  /** A key message other than `enter` and `esc`. */
  predicate KeepsFilterOpen(msg: Msg) {
    !(msg.KeyMsg? && msg.key in {"enter", "esc"})
  }

  /** In the filter view, any messages but `enter` and `esc`, then `esc`, restore the backup. */
  lemma {:induction false} FilterCancelRestores(m: Model, mid: seq<Msg>)
    requires Inv(m) && m.view == ViewFilter
    requires forall k :: 0 <= k < |mid| ==> KeepsFilterOpen(mid[k])
    ensures var r := Run(m, mid + [KeyMsg("esc")]).0;
      && r.view == ViewList && r.selectedTags == m.backupSelectedTags
      && r.filteredArticles == m.filteredArticles && r.cursor == 0 && r.scrollOffset == 0
    decreases |mid|
  {
    var msgs := mid + [KeyMsg("esc")];
    UpdateInv(m, msgs[0]);
    if mid != [] {
      assert msgs[1..] == mid[1..] + [KeyMsg("esc")];
      FilterCancelRestores(Update(m, mid[0]).0, mid[1..]);
    } else {
      assert msgs[1..] == [];
    }
  }

  /**
   * Opening the filter with `/`, doing anything there but applying, and
   * cancelling with `esc` leaves the selection and the shown items as they
   * were.
   */
  lemma FilterSessionCancel(m: Model, mid: seq<Msg>)
    requires Inv(m) && m.view == ViewList
    requires forall k :: 0 <= k < |mid| ==> KeepsFilterOpen(mid[k])
    ensures var r := Run(m, [KeyMsg("/")] + mid + [KeyMsg("esc")]).0;
      r.view == ViewList && r.selectedTags == m.selectedTags && r.filteredArticles == m.filteredArticles
  {
    var msgs := [KeyMsg("/")] + mid + [KeyMsg("esc")];
    UpdateInv(m, msgs[0]);
    assert msgs[1..] == mid + [KeyMsg("esc")];
    FilterCancelRestores(Update(m, msgs[0]).0, mid);
  }

  // The items of the package's filtering test.
  const GoItem := Article("1", "Go Article", "", ["go"], "")
  const RustItem := Article("2", "Rust Article", "", ["rust"], "")
  const BothItem := Article("3", "Both Article", "", ["go", "rust"], "")

  /** KeepTagged one item at a time from the end. */
  lemma KeepTaggedSnoc(front: seq<Article>, last: Article, selected: set<string>)
    ensures KeepTagged(front + [last], selected)
      == KeepTagged(front, selected) + if HasSelectedTag(last, selected) then [last] else []
  {
    assert (front + [last])[..|front|] == front;
  }

  /** KeepTagged on three items, item by item. */
  lemma KeepTaggedThree(a: Article, b: Article, c: Article, selected: set<string>)
    ensures KeepTagged([a, b, c], selected)
      == (if HasSelectedTag(a, selected) then [a] else [])
       + (if HasSelectedTag(b, selected) then [b] else [])
       + (if HasSelectedTag(c, selected) then [c] else [])
  {
    KeepTaggedSnoc([], a, selected);
    KeepTaggedSnoc([a], b, selected);
    KeepTaggedSnoc([a, b], c, selected);
    assert [] + [a] == [a] && [a] + [b] == [a, b] && [a, b] + [c] == [a, b, c];
  }

  /** Selecting "go" keeps the first and the third item, in that order. */
  lemma FilterExampleOneTag()
    ensures FilterArticles([GoItem, RustItem, BothItem], {"go"}) == [GoItem, BothItem]
  {
    var one: set<string> := {"go"};
    assert GoItem.tags[0] in one && BothItem.tags[0] in one;
    assert HasSelectedTag(GoItem, one) && HasSelectedTag(BothItem, one);
    assert RustItem.tags == ["rust"] && "rust" != "go";
    assert !HasSelectedTag(RustItem, one);
    KeepTaggedThree(GoItem, RustItem, BothItem, one);
  }

  /** Selecting both tags keeps all three items. */
  lemma FilterExampleBothTags()
    ensures FilterArticles([GoItem, RustItem, BothItem], {"go", "rust"}) == [GoItem, RustItem, BothItem]
  {
    var two: set<string> := {"go", "rust"};
    var go, rust := GoItem.tags[0], RustItem.tags[0];
    assert go in two && rust in two && BothItem.tags[0] == go;
    assert HasSelectedTag(GoItem, two);
    assert HasSelectedTag(RustItem, two);
    assert HasSelectedTag(BothItem, two);
    KeepTaggedThree(GoItem, RustItem, BothItem, two);
  }

  /** The package's quit and resize tests, from the zero model. */
  lemma ZeroModelExamples()
    ensures Update(ZeroModel, KeyMsg("q")).1 == Quit
    ensures Update(ZeroModel, KeyMsg("ctrl+c")).1 == Quit
    ensures var r := Update(ZeroModel, WindowSizeMsg(100, 50)).0; r.width == 100 && r.height == 50
  {
  }

  /** The tag-selection copy of `/` (a map copied entry by entry). */
  method SnapshotSelection(selected: set<string>) returns (backup: set<string>)
    ensures backup == selected
  {
    backup := {};
    var rest := selected;
    while rest != {}
      invariant rest <= selected
      invariant backup == selected - rest
      decreases |rest|
    {
      var t :| t in rest;
      backup := backup + {t};
      rest := rest - {t};
    }
  }

  /** `right` in the filter view: every tag marked selected, one by one. */
  method SelectAll(selected: set<string>, tags: seq<string>) returns (r: set<string>)
    ensures r == WithAll(selected, tags)
  {
    r := selected;
    for i := 0 to |tags|
      invariant forall t :: t in r <==> t in selected || t in tags[..i]
    {
      assert tags[..i + 1] == tags[..i] + [tags[i]];
      r := r + {tags[i]};
    }
    assert tags[..|tags|] == tags;
  }

  /** `applyFilter`: the items with a selected tag, appended in order (all of them for an empty selection). */
  method ApplyFilter(articles: seq<Article>, selected: set<string>) returns (filtered: seq<Article>)
    ensures filtered == FilterArticles(articles, selected)
  {
    if |selected| == 0 {
      return articles;
    }
    filtered := [];
    for i := 0 to |articles|
      invariant filtered == KeepTagged(articles[..i], selected)
    {
      var a := articles[i];
      var matched := false;
      var j := 0;
      while j < |a.tags|
        invariant 0 <= j <= |a.tags|
        invariant !matched
        invariant forall k :: 0 <= k < j ==> a.tags[k] !in selected
      {
        if a.tags[j] in selected {
          matched := true;
          break;
        }
        j := j + 1;
      }
      assert matched <==> HasSelectedTag(a, selected);
      assert articles[..i + 1] == articles[..i] + [a];
      if matched {
        filtered := filtered + [a];
      }
    }
    assert articles[..|articles|] == articles;
  }

  /**
   * The toggle command of `enter` in the list, run against the service: an
   * error from resolving the week or from the push is reported as "Error: "
   * and its text; a successful push reports "Added to reading list" when the
   * item was absent from the week's list and "Removed from reading list"
   * when it was present.
   */
  method ExecToggle(svc: Readings.Service, articleID: string) returns (msg: Msg)
    modifies svc, svc.notion
    ensures msg.StatusMsg?
    ensures old(svc.currentWeek).None? ==> |svc.notion.fetchWeekLog| == |old(svc.notion.fetchWeekLog)| + 1
    ensures |svc.notion.updateLog| <= |old(svc.notion.updateLog)| + 1
    ensures var resolved :=
        if old(svc.currentWeek).Some? then Ok(old(svc.currentWeek).value)
        else svc.notion.fetchWeekLog[|old(svc.notion.fetchWeekLog)|];
      match resolved
      case Err(e) => msg.text == "Error: " + e && svc.notion.updateLog == old(svc.notion.updateLog)
      case Ok(week) =>
        && |svc.notion.updateLog| == |old(svc.notion.updateLog)| + 1
        && var push := svc.notion.updateLog[|old(svc.notion.updateLog)|];
           && push.weekID == week.id
           && push.readingPageIDs == Readings.Toggled(week.readingListIDs, articleID)
           && match push.err
              case Some(e) => msg.text == "Error: " + e
              case None =>
                msg.text == if articleID in week.readingListIDs then "Removed from reading list" else "Added to reading list"
    ensures msg.text == "Added to reading list" ==>
      svc.currentWeek.Some? && articleID in svc.currentWeek.value.readingListIDs
    ensures msg.text == "Removed from reading list" ==>
      svc.currentWeek.Some? && articleID !in svc.currentWeek.value.readingListIDs
    ensures msg.text in {"Added to reading list", "Removed from reading list"} || HasPrefix(msg.text, "Error: ")
  {
    var added, err := svc.ToggleReadingInCurrentWeek(articleID);
    if err.Some? {
      msg := StatusMsg("Error: " + err.value);
      assert msg.text[0] == 'E';
      return;
    }
    if added {
      return StatusMsg("Added to reading list");
    }
    return StatusMsg("Removed from reading list");
  }
}
