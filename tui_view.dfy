/**
 * Rendering (internal/tui/view.go), with every style taken as the identity:
 * the list, detail and filter views, the help bar, and `View` joining the
 * content and the help bar. The text is built in loops, as the source's
 * `strings.Builder` code does, and each loop is proved to produce the text
 * a function describes.
 */
module TuiView {
  import opened GoStrings
  import opened Domain
  import opened TuiModel
  import TuiUpdate

  /** Text lines, each followed by a line break. */
  function Lines(ls: seq<string>): string {
    if ls == [] then "" else Lines(ls[..|ls| - 1]) + ls[|ls| - 1] + "\n"
  }

  lemma LinesSnoc(ls: seq<string>, l: string)
    ensures Lines(ls + [l]) == Lines(ls) + l + "\n"
  {
    assert (ls + [l])[..|ls|] == ls;
  }

  lemma {:induction false} LinesAppend(xs: seq<string>, ys: seq<string>)
    ensures Lines(xs + ys) == Lines(xs) + Lines(ys)
    decreases |ys|
  {
    if ys != [] {
      var front := ys[..|ys| - 1];
      assert xs + ys == (xs + front) + [ys[|ys| - 1]];
      LinesSnoc(xs + front, ys[|ys| - 1]);
      LinesAppend(xs, front);
    } else {
      assert xs + ys == xs;
    }
  }

  /** The padding loops: one line break per blank line. */
  method WriteBlank(k: int) returns (s: string)
    ensures s == Lines(Blank(k))
  {
    s := "";
    for i := 0 to if k < 0 then 0 else k
      invariant s == Lines(Blank(i))
    {
      LinesSnoc(Blank(i), "");
      s := s + "\n";
    }
  }

  /** `k` empty lines (none for a negative `k`). */
  function Blank(k: int): (r: seq<string>)
    ensures |r| == if k < 0 then 0 else k
    ensures forall i :: 0 <= i < |r| ==> r[i] == ""
    decreases k
  {
    if k <= 0 then [] else Blank(k - 1) + [""]
  }

  /** The rows below the two header lines and above the help bar: at least one. */
  function Available(height: int): (a: int)
    ensures a >= 1 && a >= height - 3
  {
    if height - 3 < 1 then 1 else height - 3
  }

  /** Row `i` lies in the drawn slice `r`. */
  predicate Drawn(r: (int, int), i: int) {
    r.0 <= i < r.1
  }

  /** Row `i` of `n` lies in the window of `Available(height)` rows from `scroll`. */
  predicate InWindow(i: int, scroll: int, height: int, n: int) {
    scroll <= i < scroll + Available(height) && i < n
  }

  /** The slice `[start, end)` of `n` rows drawn from the scroll offset. */
  function VisibleRange(scroll: int, height: int, n: int): (r: (int, int))
    requires scroll >= 0 && n >= 0
    ensures 0 <= r.0 <= r.1 <= n
    ensures r.1 - r.0 <= Available(height)
    ensures forall i :: Drawn(r, i) <==> InWindow(i, scroll, height, n)
  {
    var end := if scroll + Available(height) > n then n else scroll + Available(height);
    var start := if scroll > end then end else scroll;
    (start, end)
  }

  /** A missing title is shown as "Untitled". */
  function DisplayTitle(a: Article): (t: string)
    ensures t != ""
    ensures a.title != "" ==> t == a.title
  {
    if a.title == "" then "Untitled" else a.title
  }

  /** Row `i` of the list: the title, marked "> " on the cursor's row. */
  function ListRow(m: Model, i: int): string
    requires 0 <= i < |m.filteredArticles|
  {
    if i == m.cursor then "> " + DisplayTitle(m.filteredArticles[i]) else DisplayTitle(m.filteredArticles[i])
  }

  /** The list rows `start` up to `end`. */
  function ListRows(m: Model, start: int, end: int): (r: seq<string>)
    requires 0 <= start <= end <= |m.filteredArticles|
    ensures |r| == end - start
    decreases end - start
  {
    if start == end then [] else ListRows(m, start, end - 1) + [ListRow(m, end - 1)]
  }

  /** The list rows are the rows of the items in the window, in order. */
  lemma {:induction false} ListRowsAt(m: Model, start: int, end: int, i: int)
    requires 0 <= start <= i < end <= |m.filteredArticles|
    ensures ListRows(m, start, end)[i - start] == ListRow(m, i)
    decreases end - start
  {
    if i < end - 1 {
      ListRowsAt(m, start, end - 1, i);
    }
  }

  /** The list rows and the blank lines that fill the window. */
  function ListLines(m: Model): seq<string>
    requires m.scrollOffset >= 0
  {
    var (start, end) := VisibleRange(m.scrollOffset, m.height, |m.filteredArticles|);
    ListRows(m, start, end) + Blank(Available(m.height) - (end - start))
  }

  /** `viewList` as text: the title, a blank line, then the rows or the empty notice. */
  function ListText(m: Model): string
    requires |m.filteredArticles| > 0 ==> m.scrollOffset >= 0
  {
    if |m.filteredArticles| == 0 then
      "Readings" + "\n\n" + "No articles found." + Lines(Blank(m.height - 3 - 1))
    else
      "Readings" + "\n\n" + Lines(ListLines(m))
  }

  /** A non-empty list fills exactly the available rows. */
  lemma ListFillsWindow(m: Model)
    requires m.scrollOffset >= 0 && |m.filteredArticles| > 0
    ensures |ListLines(m)| == Available(m.height)
  {
  }

  /**
   * When the cursor lies in the `height-4` window from the scroll offset,
   * its item is drawn, marked: the drawn window has one row more.
   */
  lemma CursorRowDrawn(m: Model)
    requires m.scrollOffset >= 0 && 0 <= m.cursor < |m.filteredArticles|
    requires TuiUpdate.CursorVisible(m)
    ensures var (start, end) := VisibleRange(m.scrollOffset, m.height, |m.filteredArticles|);
      && start <= m.cursor < end
      && ListLines(m)[m.cursor - start] == "> " + DisplayTitle(m.filteredArticles[m.cursor])
  {
    var (start, end) := VisibleRange(m.scrollOffset, m.height, |m.filteredArticles|);
    ListRowsAt(m, start, end, m.cursor);
  }

  /** Every drawn row but the cursor's shows the plain title. */
  lemma OtherRowsPlain(m: Model, i: int)
    requires m.scrollOffset >= 0 && 0 <= i < |m.filteredArticles| && i != m.cursor
    ensures var (start, end) := VisibleRange(m.scrollOffset, m.height, |m.filteredArticles|);
      start <= i < end ==> ListLines(m)[i - start] == DisplayTitle(m.filteredArticles[i])
  {
    var (start, end) := VisibleRange(m.scrollOffset, m.height, |m.filteredArticles|);
    if start <= i < end {
      ListRowsAt(m, start, end, i);
    }
  }

  /** The row loop of `viewList`. */
  method WriteListRows(m: Model, start: int, end: int) returns (s: string)
    requires 0 <= start <= end <= |m.filteredArticles|
    ensures s == Lines(ListRows(m, start, end))
  {
    s := "";
    for i := start to end
      invariant s == Lines(ListRows(m, start, i))
    {
      LinesSnoc(ListRows(m, start, i), ListRow(m, i));
      var title := DisplayTitle(m.filteredArticles[i]);
      if i == m.cursor {
        s := s + ("> " + title);
      } else {
        s := s + title;
      }
      s := s + "\n";
    }
  }

  /** The list text of a non-empty list is the header, the drawn rows and the padding. */
  lemma ListTextRows(m: Model)
    requires m.scrollOffset >= 0 && |m.filteredArticles| > 0
    ensures var (start, end) := VisibleRange(m.scrollOffset, m.height, |m.filteredArticles|);
      ListText(m) == "Readings" + "\n\n"
        + (Lines(ListRows(m, start, end)) + Lines(Blank(Available(m.height) - (end - start))))
  {
    var (start, end) := VisibleRange(m.scrollOffset, m.height, |m.filteredArticles|);
    var rows, fill := ListRows(m, start, end), Blank(Available(m.height) - (end - start));
    assert ListLines(m) == rows + fill;
    LinesAppend(rows, fill);
    assert Lines(ListLines(m)) == Lines(rows) + Lines(fill);
  }

  /** `viewList`. */
  method ViewList(m: Model) returns (s: string)
    requires |m.filteredArticles| > 0 ==> m.scrollOffset >= 0
    ensures s == ListText(m)
  {
    if |m.filteredArticles| == 0 {
      var linesUsed := 3;
      var fill := WriteBlank(m.height - linesUsed - 1);
      s := "Readings" + "\n\n" + "No articles found." + fill;
      return;
    }
    var (start, end) := VisibleRange(m.scrollOffset, m.height, |m.filteredArticles|);
    var rows := WriteListRows(m, start, end);
    var fill := WriteBlank(Available(m.height) - (end - start));
    ListTextRows(m);
    s := "Readings" + "\n\n" + (rows + fill);
  }

  /** `viewDetail` reads the item at the cursor when the cursor is below the length. */
  predicate DetailIndexOk(m: Model) {
    m.cursor < |m.filteredArticles| ==> m.cursor >= 0
  }

  /** `viewDetail`: the selected item's title, URL and fetch time, or a notice. */
  function ViewDetail(m: Model): (s: string)
    requires DetailIndexOk(m)
    ensures m.cursor >= |m.filteredArticles| ==> s == "No article selected"
    ensures m.cursor < |m.filteredArticles| ==>
      var a := m.filteredArticles[m.cursor];
      HasPrefix(s, a.title + "\n\n") && HasSuffix(s, "\nFetched: " + a.fetchedAt)
      && Contains(s, "URL: " + a.url)
  {
    if m.cursor >= |m.filteredArticles| then "No article selected"
    else
      var a := m.filteredArticles[m.cursor];
      var s := a.title + "\n\n" + ("URL: " + a.url) + "\n" + ("Fetched: " + a.fetchedAt);
      assert OccursAt(s, "URL: " + a.url, |a.title| + 2);
      s
  }

  /** The box of a filter row. */
  function Checkbox(selected: bool): (box: string)
    ensures box == if selected then "[x] " else "[ ] "
    ensures box == "[x] " <==> selected
  {
    if selected then "[x] " else
      assert "[ ] "[1] == ' ';
      "[ ] "
  }

  /** Row `i` of the filter view: box and tag, marked "> " on the cursor's row. */
  function FilterRow(m: Model, i: int): string
    requires 0 <= i < |m.tags|
  {
    var item := Checkbox(m.tags[i] in m.selectedTags) + m.tags[i];
    if i == m.cursor then "> " + item else item
  }

  /**
   * A filter row shows "[x] " after the marker exactly when its tag is
   * selected, and "[ ] " otherwise.
   */
  lemma FilterRowChecked(m: Model, i: int)
    requires 0 <= i < |m.tags|
    ensures var row, k := FilterRow(m, i), if i == m.cursor then 2 else 0;
      && |row| >= k + 4
      && (row[k..k + 4] == "[x] " <==> m.tags[i] in m.selectedTags)
      && row[k..k + 4] == (if m.tags[i] in m.selectedTags then "[x] " else "[ ] ")
      && HasSuffix(row, m.tags[i])
  {
    var row, k := FilterRow(m, i), if i == m.cursor then 2 else 0;
    var box := Checkbox(m.tags[i] in m.selectedTags);
    assert row == (if k == 2 then "> " else "") + box + m.tags[i];
    assert row[k..k + 4] == box;
  }

  /** The filter rows `start` up to `end`. */
  function FilterRows(m: Model, start: int, end: int): (r: seq<string>)
    requires 0 <= start <= end <= |m.tags|
    ensures |r| == end - start
    decreases end - start
  {
    if start == end then [] else FilterRows(m, start, end - 1) + [FilterRow(m, end - 1)]
  }

  lemma {:induction false} FilterRowsAt(m: Model, start: int, end: int, i: int)
    requires 0 <= start <= i < end <= |m.tags|
    ensures FilterRows(m, start, end)[i - start] == FilterRow(m, i)
    decreases end - start
  {
    if i < end - 1 {
      FilterRowsAt(m, start, end - 1, i);
    }
  }

  /** The filter rows and the blank lines that fill the window. */
  function FilterLines(m: Model): seq<string>
    requires m.scrollOffset >= 0
  {
    var (start, end) := VisibleRange(m.scrollOffset, m.height, |m.tags|);
    FilterRows(m, start, end) + Blank(Available(m.height) - (end - start))
  }

  /** A drawn filter row is the row of the tag at its position in the window. */
  lemma FilterLineAt(m: Model, i: int)
    requires m.scrollOffset >= 0 && 0 <= i < |m.tags|
    ensures var (start, end) := VisibleRange(m.scrollOffset, m.height, |m.tags|);
      && |FilterLines(m)| == Available(m.height)
      && (start <= i < end ==> FilterLines(m)[i - start] == FilterRow(m, i))
  {
    var (start, end) := VisibleRange(m.scrollOffset, m.height, |m.tags|);
    if start <= i < end {
      FilterRowsAt(m, start, end, i);
    }
  }

  /** `viewFilter` as text: the title, a blank line, then the rows or the empty notice. */
  function FilterText(m: Model): string
    requires |m.tags| > 0 ==> m.scrollOffset >= 0
  {
    if |m.tags| == 0 then "Filter by Tags" + "\n\n" + "No tags available."
    else "Filter by Tags" + "\n\n" + Lines(FilterLines(m))
  }

  /** The row loop of `viewFilter`. */
  method WriteFilterRows(m: Model, start: int, end: int) returns (s: string)
    requires 0 <= start <= end <= |m.tags|
    ensures s == Lines(FilterRows(m, start, end))
  {
    s := "";
    for i := start to end
      invariant s == Lines(FilterRows(m, start, i))
    {
      LinesSnoc(FilterRows(m, start, i), FilterRow(m, i));
      var tag := m.tags[i];
      var prefix := "[ ] ";
      if tag in m.selectedTags {
        prefix := "[x] ";
      }
      assert prefix == Checkbox(tag in m.selectedTags);
      if i == m.cursor {
        s := s + ("> " + (prefix + tag));
      } else {
        s := s + (prefix + tag);
      }
      s := s + "\n";
    }
  }

  /** `viewFilter`. */
  method ViewFilter(m: Model) returns (s: string)
    requires |m.tags| > 0 ==> m.scrollOffset >= 0
    ensures s == FilterText(m)
  {
    s := "Filter by Tags" + "\n\n";
    if |m.tags| == 0 {
      s := s + "No tags available.";
      return;
    }
    var available := Available(m.height);
    var (start, end) := VisibleRange(m.scrollOffset, m.height, |m.tags|);
    var rows := WriteFilterRows(m, start, end);
    var fill := WriteBlank(available - (end - start));
    LinesAppend(FilterRows(m, start, end), Blank(available - (end - start)));
    assert FilterLines(m) == FilterRows(m, start, end) + Blank(available - (end - start));
    assert Lines(FilterLines(m)) == rows + fill;
    s := s + (rows + fill);
  }

  /** The help bar's key and description pairs per view. */
  function HelpKeys(view: ViewState): (keys: seq<string>)
    ensures |keys| % 2 == 0 && |keys| > 0
  {
    match view
    case ViewList => ["j/k", "nav", "/", "filter", "enter", "details", "q", "quit"]
    case ViewDetail => ["enter", "open url", "esc", "back", "q", "back"]
    case ViewFilter => ["j/k", "nav", "space", "toggle", "right", "all", "enter", "apply", "esc", "cancel"]
  }

  /** Key and description pairs, each as "key description". */
  function Pairs(keys: seq<string>): string
    requires |keys| % 2 == 0
  {
    if keys == [] then "" else Pairs(keys[..|keys| - 2]) + keys[|keys| - 2] + " " + keys[|keys| - 1]
  }

  /** The help bar's text: the view's pairs, then the typed number if there is one. */
  function HelpText(m: Model): (s: string)
    ensures HasPrefix(s, Pairs(HelpKeys(m.view)))
    ensures m.inputBuffer == "" ==> s == Pairs(HelpKeys(m.view))
    ensures m.inputBuffer != "" ==> HasSuffix(s, "  " + m.inputBuffer) && |s| == |Pairs(HelpKeys(m.view))| + 2 + |m.inputBuffer|
  {
    var pairs := Pairs(HelpKeys(m.view));
    if m.inputBuffer == "" then pairs else pairs + ("  " + m.inputBuffer)
  }

  /** `helpView`. */
  method HelpView(m: Model) returns (s: string)
    ensures s == HelpText(m)
  {
    var keys := HelpKeys(m.view);
    s := "";
    var i := 0;
    while i < |keys|
      invariant 0 <= i <= |keys| && i % 2 == 0
      invariant s == Pairs(keys[..i])
    {
      assert keys[..i + 2][..i] == keys[..i];
      s := s + keys[i] + " " + keys[i + 1];
      i := i + 2;
    }
    assert keys[..i] == keys;
    if m.inputBuffer != "" {
      s := s + ("  " + m.inputBuffer);
    }
  }

  /** What `View` needs to index within range in the current view. */
  predicate ViewIndexOk(m: Model) {
    match m.view
    case ViewList => |m.filteredArticles| > 0 ==> m.scrollOffset >= 0
    case ViewDetail => DetailIndexOk(m)
    case ViewFilter => |m.tags| > 0 ==> m.scrollOffset >= 0
  }

  /** The current view's content. */
  function Content(m: Model): string
    requires ViewIndexOk(m)
  {
    match m.view
    case ViewList => ListText(m)
    case ViewDetail => ViewDetail(m)
    case ViewFilter => FilterText(m)
  }

  /** Rendering never indexes out of range in a reachable state. */
  lemma ReachableRenders(m: Model)
    requires TuiUpdate.Inv(m)
    ensures ViewIndexOk(m)
  {
  }

  /** `View`: the current view's content above the help bar. */
  method View(m: Model) returns (s: string)
    requires ViewIndexOk(m)
    ensures s == Content(m) + "\n" + HelpText(m)
  {
    var content: string;
    match m.view {
      case ViewList => content := ViewList(m);
      case ViewDetail => content := ViewDetail(m);
      case ViewFilter => content := ViewFilter(m);
    }
    var help := HelpView(m);
    s := content + "\n" + help;
  }
}
