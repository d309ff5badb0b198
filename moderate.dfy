/**
 * The moderator pop-up (src/js/moderate.js): prioritize and delete clicks on
 * the comment table, the manual-comment form, the auto-refresh toggle, and
 * what its `refresh` shows.
 */
module Moderate {
  import opened Wrappers
  import opened Text
  import opened Comments
  import opened Shared

  /** Which button of a comment row was clicked. */
  datatype RowAction = PrioritizeButton | DeleteButton | Elsewhere

  /**
   * The click handler on the comment table: prioritize raises the priority
   * of the records with the row's id by one, delete marks them deleted, any
   * other click does nothing.
   */
  method TableClick(sh: Store, action: RowAction, id: string)
    modifies sh
    ensures action == PrioritizeButton ==> sh.comments == Prioritized(old(sh.comments), id)
    ensures action == DeleteButton ==> sh.comments == SoftDeleted(old(sh.comments), id)
    ensures action == Elsewhere ==> sh.comments == old(sh.comments)
    ensures sh.commentsDirty == (old(sh.commentsDirty) || Differs(old(sh.comments), sh.comments))
    ensures sh.config == old(sh.config) && sh.reactions == old(sh.reactions) && sh.post == old(sh.post)
    ensures sh.events == old(sh.events) && sh.lastRefreshTime == old(sh.lastRefreshTime)
    ensures sh.refreshOnNextComments == old(sh.refreshOnNextComments) && sh.connected == old(sh.connected)
  {
    var before := sh.comments;
    if action == PrioritizeButton {
      sh.comments := Prioritized(sh.comments, id);
    } else if action == DeleteButton {
      sh.comments := SoftDeleted(sh.comments, id);
    }
    sh.TableChanged(before);
  }

  /** The id of a manually added comment: 'ZZZZZ' and the current time in milliseconds. */
  function ManualId(now: nat): (id: string)
    ensures |id| > 5 && id[..5] == "ZZZZZ" && AllDigits(id[5..])
    ensures DigitsValue(id[5..]) == now
  {
    "ZZZZZ" + DecimalString(now)
  }

  /** The record the new-comment form inserts (src/js/moderate.js:63-70). */
  function ManualComment(name: string, message: string, priority: int, now: nat): (c: Comment)
    ensures |c.id| > 5 && c.id[..5] == "ZZZZZ" && c.created == now && !c.deleted
    ensures c.name == name && c.message == message && c.priority == priority
  {
    Comment(ManualId(now), now, name, message, false, priority)
  }

  /** Two manual comments made at different milliseconds get different ids. */
  lemma ManualIdsDiffer(now1: nat, now2: nat)
    requires now1 != now2
    ensures ManualId(now1) != ManualId(now2)
  {
  }

  /**
   * The new-comment form: exactly one record is appended, with the entered
   * name and message, the button's priority and `deleted: false`. The table
   * does not check the id, so it is unique only when no record has it yet.
   */
  method NewComment(sh: Store, name: string, message: string, buttonPriority: int, now: nat)
    modifies sh
    ensures sh.comments == old(sh.comments) + [ManualComment(name, message, buttonPriority, now)]
    ensures sh.commentsDirty
    ensures sh.config == old(sh.config) && sh.reactions == old(sh.reactions) && sh.post == old(sh.post)
    ensures sh.events == old(sh.events) && sh.lastRefreshTime == old(sh.lastRefreshTime)
    ensures sh.refreshOnNextComments == old(sh.refreshOnNextComments) && sh.connected == old(sh.connected)
  {
    var before := sh.comments;
    sh.comments := sh.comments + [ManualComment(name, message, buttonPriority, now)];
    sh.TableChanged(before);
  }

  /** The configuration after the auto-refresh button: only `autoRefresh` is negated. */
  function ToggledAutoRefresh(c: Config): (r: Config)
    ensures r.autoRefresh == !c.autoRefresh
    ensures r.(autoRefresh := c.autoRefresh) == c
  {
    c.(autoRefresh := !c.autoRefresh)
  }

  /** Toggling twice restores the configuration. */
  lemma ToggleAutoRefreshTwice(c: Config)
    ensures ToggledAutoRefresh(ToggledAutoRefresh(c)) == c
  {
  }

  /** The auto-refresh button (src/js/moderate.js:76-79): negate, then emit teleprompterRefresh. */
  method ToggleAutoRefresh(sh: Store)
    modifies sh
    ensures sh.config == ToggledAutoRefresh(old(sh.config))
    ensures sh.events == old(sh.events) + [TeleprompterRefresh]
    ensures sh.comments == old(sh.comments) && sh.reactions == old(sh.reactions) && sh.post == old(sh.post)
    ensures sh.lastRefreshTime == old(sh.lastRefreshTime) && sh.commentsDirty == old(sh.commentsDirty)
    ensures sh.refreshOnNextComments == old(sh.refreshOnNextComments) && sh.connected == old(sh.connected)
  {
    sh.config := ToggledAutoRefresh(sh.config);
    sh.Emit(TeleprompterRefresh);
  }

  // ---- what `refresh` renders (src/js/moderate.js:82-111)

  /** One row of the comment table: the prioritize button is active when the priority is nonzero. */
  datatype Row = Row(id: string, name: string, message: string, prioritizeActive: bool)

  function RowOf(c: Comment): (r: Row)
    ensures r.id == c.id && r.name == c.name && r.message == c.message
    ensures r.prioritizeActive <==> c.priority != 0
  {
    Row(c.id, c.name, c.message, c.priority != 0)
  }

  function Rows(s: seq<Comment>): (r: seq<Row>)
    ensures |r| == |s| && forall i :: 0 <= i < |s| ==> r[i] == RowOf(s[i])
  {
    if s == [] then [] else [RowOf(s[0])] + Rows(s[1..])
  }

  /**
   * The panel after `refresh`: with no post, the title is cleared and the
   * auto-refresh button and the table are left as they were (`None`); with a
   * post, its title, the button state and one row per displayed record.
   */
  datatype Panel = Panel(title: string, autoRefreshActive: Option<bool>, rows: Option<seq<Row>>)

  function ModeratorPanel(post: Option<Post>, config: Config, t: seq<Comment>): (p: Panel)
    ensures post.None? ==> p == Panel("", None, None)
    ensures post.Some? ==> p.title == post.value.title && p.autoRefreshActive == Some(config.autoRefresh)
    ensures post.Some? ==> p.rows.Some? && |p.rows.value| == |DisplayList(t)|
    ensures post.Some? ==> forall i :: 0 <= i < |p.rows.value| ==> p.rows.value[i] == RowOf(DisplayList(t)[i])
  {
    if post.None? then Panel("", None, None)
    else Panel(post.value.title, Some(config.autoRefresh), Some(Rows(DisplayList(t))))
  }

  /**
   * With a post, the rows are exactly the records not deleted, in display
   * order (priority descending, then most recent first): they are the rows of
   * an ordered rearrangement of the live records, each record as often as the
   * table holds it.
   */
  lemma PanelRowsAreDisplayList(post: Option<Post>, config: Config, t: seq<Comment>)
    requires post.Some?
    ensures var rows := ModeratorPanel(post, config, t).rows.value;
      && (forall i :: 0 <= i < |rows| ==> exists c :: c in t && !c.deleted && rows[i] == RowOf(c))
      && (forall c :: c in t && !c.deleted ==> RowOf(c) in rows)
      && (exists d :: Ordered(d) && multiset(d) == multiset(Live(t)) &&
                      |d| == |rows| && forall i :: 0 <= i < |d| ==> rows[i] == RowOf(d[i]))
  {
    var d := DisplayList(t);
    var rows := Rows(d);
    DisplayListExactly(t);
    assert Ordered(d) && multiset(d) == multiset(Live(t));
    forall c | c in t && !c.deleted ensures RowOf(c) in rows {
      var i :| 0 <= i < |d| && d[i] == c;
      assert rows[i] == RowOf(c);
    }
    forall i | 0 <= i < |rows| ensures exists c :: c in t && !c.deleted && rows[i] == RowOf(c) {
      assert d[i] in d;
    }
  }

  /** A deleted record leaves the moderator's rows. */
  lemma DeleteHidesRow(post: Option<Post>, config: Config, t: seq<Comment>, id: string)
    requires post.Some?
    ensures forall r :: r in ModeratorPanel(post, config, SoftDeleted(t, id)).rows.value ==> r.id != id
  {
    var d := DisplayList(SoftDeleted(t, id));
    DeletedNotDisplayed(t, id);
    forall r | r in Rows(d) ensures r.id != id {
      var i :| 0 <= i < |Rows(d)| && Rows(d)[i] == r;
      assert d[i] in d;
    }
  }

  /** A prioritized record shows an active prioritize button once its priority is nonzero. */
  lemma PrioritizedRowActive(t: seq<Comment>, id: string, i: nat)
    requires i < |t| && t[i].id == id && t[i].priority >= 0
    ensures RowOf(Prioritized(t, id)[i]).prioritizeActive
  {
    PrioritizedAt(t, id, i);
  }
}
