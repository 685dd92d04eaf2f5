/** The HTML-like label of a task node: the task name, one coloured badge
    per inherited callback and the escaped action text. */
module Labels {
  import opened Strings
  import opened Workflows

  /** `'<FONT POINT-SIZE="10" COLOR="{}">{}</FONT>'.format(color, text)`. */
  function Badge(color: string, text: string): string
  {
    "<FONT POINT-SIZE=\"10\" COLOR=\"" + color + "\">" + text + "</FONT>"
  }

  /** The badges of one category: one per entry, showing the entry's task
      name (the bare string, or the key of a one-key mapping). */
  function CategoryBadges(category: string, entries: seq<CallbackEntry>): seq<string>
    requires category in Categories
  {
    seq(|entries|, i requires 0 <= i < |entries| => Badge(Color(category), entries[i].target))
  }

  /** The badges of all categories of `d`, category after category. */
  function Badges(d: Callbacks): (r: seq<string>)
    requires CategoryKeyed(d)
    ensures |r| == EntryCount(d)
  {
    if d == [] then []
    else Badges(d[..|d| - 1]) + CategoryBadges(d[|d| - 1].0, d[|d| - 1].1)
  }

  /** The number of callback entries over all categories of `d`. */
  function EntryCount(d: Callbacks): nat
  {
    if d == [] then 0 else EntryCount(d[..|d| - 1]) + |d[|d| - 1].1|
  }

  lemma {:induction false} EntryCountPrefix(d: Callbacks, k: nat)
    requires k < |d|
    ensures EntryCount(d[..k]) + |d[k].1| <= EntryCount(d)
  {
    if k < |d| - 1 {
      assert d[..|d| - 1][..k] == d[..k];
      EntryCountPrefix(d[..|d| - 1], k);
    } else {
      assert d[..k + 1] == d;
    }
  }

  /** The number of entries of the categories before the `k`th. */
  function Offset(d: Callbacks, k: nat): (n: nat)
    requires k < |d|
    ensures n + |d[k].1| <= EntryCount(d)
  {
    EntryCountPrefix(d, k);
    EntryCount(d[..k])
  }

  /** One badge per callback entry, in category-then-entry order: the `j`th
      entry of the `k`th category gives the badge after all badges of the
      categories before it, in that category's colour. */
  lemma {:induction false} BadgesInOrder(d: Callbacks)
    requires CategoryKeyed(d)
    ensures forall k, j :: 0 <= k < |d| && 0 <= j < |d[k].1| ==>
              Badges(d)[Offset(d, k) + j] == Badge(Color(d[k].0), d[k].1[j].target)
  {
    if d != [] {
      var n := |d| - 1;
      var front := d[..n];
      BadgesInOrder(front);
      forall k, j | 0 <= k < |d| && 0 <= j < |d[k].1|
        ensures Badges(d)[Offset(d, k) + j] == Badge(Color(d[k].0), d[k].1[j].target)
      {
        if k < n {
          assert front[..k] == d[..k] && front[k] == d[k];
          assert Offset(front, k) == Offset(d, k);
        } else {
          assert d[..k] == front;
        }
      }
    }
  }

  /** The label of a task node (the result of `generate_label_html`). */
  function Label(taskName: string, action: string, d: Callbacks): string
    requires CategoryKeyed(d)
  {
    "<" + taskName + "<BR />" + Join(" ", Badges(d)) + "<BR /><FONT POINT-SIZE=\"10\">"
      + ActionFooter(action) + "</FONT>>"
  }

  /** `generate_label_html`: the badges are collected category by category
      in a loop, then joined with spaces between the name and the footer. */
  method GenerateLabelHtml(taskName: string, action: string, taskDefault: Callbacks)
    returns (html: string)
    requires CategoryKeyed(taskDefault)
    ensures html == Label(taskName, action, taskDefault)
  {
    var htmlTasks: seq<string> := [];
    var i := 0;
    while i < |taskDefault|
      invariant 0 <= i <= |taskDefault|
      invariant htmlTasks == Badges(taskDefault[..i])
    {
      var taskType := taskDefault[i].0;
      var taskAction := taskDefault[i].1;
      assert taskDefault[..i + 1][..i] == taskDefault[..i];
      htmlTasks := htmlTasks + CategoryBadges(taskType, taskAction);
      i := i + 1;
    }
    assert taskDefault[..i] == taskDefault;
    html := "<" + taskName + "<BR />" + Join(" ", htmlTasks) + "<BR /><FONT POINT-SIZE=\"10\">"
      + ReplaceDots(HtmlEscape(action)) + "</FONT>>";
  }
}
