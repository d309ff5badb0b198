/**
 * The teleprompter frame (src/js/teleprompter.js): the style a configUpdate
 * applies, the reaction counts it shows, the list a teleprompterRefresh
 * renders, and the countdown run on every animation frame.
 */
module Teleprompter {
  import opened Wrappers
  import opened Comments
  import opened Shared
  import Index

  // ---- configUpdate (src/js/teleprompter.js:14-21)

  /** The scale factor of one axis: -1 when that axis is flipped, 1 otherwise. */
  function ScaleSign(flipped: bool): (s: int)
    ensures s == 1 || s == -1
    ensures s == -1 <==> flipped
  {
    if flipped then -1 else 1
  }

  /** The font size in `em` and the transform's scale factors. */
  datatype Style = Style(fontSizeEm: real, scaleX: int, scaleY: int)

  /** `(zoom || 1) + 'em'` and `scale(±1, ±1)`. */
  function ConfigStyle(c: Config): (s: Style)
    ensures s.fontSizeEm == if c.zoom == 0.0 then 1.0 else c.zoom
    ensures s.fontSizeEm != 0.0
    ensures s.scaleX == ScaleSign(c.flipHorizontal) && s.scaleY == ScaleSign(c.flipVertical)
  {
    Style(if c.zoom == 0.0 then 1.0 else c.zoom, ScaleSign(c.flipHorizontal), ScaleSign(c.flipVertical))
  }

  // ---- reactionsUpdate (src/js/teleprompter.js:24-29)

  /** `reactions.get(type) || 0`: the stored count, or 0 for a type the map lacks. */
  function ReactionCount(reactions: map<string, int>, reaction: string): (n: int)
    ensures reaction !in reactions ==> n == 0
    ensures reaction in reactions ==> n == reactions[reaction]
  {
    if reaction in reactions then reactions[reaction] else 0
  }

  /**
   * After a cycle's reaction responses, a reaction group shows the count its
   * request returned; after a post switch every group shows 0.
   */
  lemma ReactionGroupShowsFetched(m: map<string, int>, fetches: seq<Index.Fetch<int>>, i: nat)
    requires |fetches| == |PossibleReactions| && i < |fetches| && fetches[i].Fetched?
    ensures ReactionCount(Index.ReactionsAfter(m, fetches, |fetches|), PossibleReactions[i]) == fetches[i].value
    ensures ReactionCount(map[], PossibleReactions[i]) == 0
  {
    Index.ReactionsAfterAt(m, fetches, |fetches|, PossibleReactions[i]);
  }

  // ---- teleprompterRefresh (src/js/teleprompter.js:32-62)

  /**
   * One rendered comment. `shownTime` is the instant whose relative time is
   * shown (`moment(Math.min(new Date(), comment.created)).fromNow()`).
   */
  datatype Card = Card(name: string, shownTime: int, message: string)

  function CardOf(c: Comment, now: int): (k: Card)
    ensures k.shownTime <= now && k.shownTime <= c.created
    ensures k.shownTime == now || k.shownTime == c.created
    ensures k.name == c.name && k.message == c.message
  {
    Card(c.name, if now <= c.created then now else c.created, c.message)
  }

  function Cards(s: seq<Comment>, now: int): (r: seq<Card>)
    ensures |r| == |s| && forall i :: 0 <= i < |s| ==> r[i] == CardOf(s[i], now)
  {
    if s == [] then [] else [CardOf(s[0], now)] + Cards(s[1..], now)
  }

  /** No card shows a time in the future. */
  lemma CardsNeverInFuture(t: seq<Comment>, now: int)
    ensures forall k :: k in Cards(DisplayList(t), now) ==> k.shownTime <= now
  {
    forall k | k in Cards(DisplayList(t), now) ensures k.shownTime <= now {
      var i :| 0 <= i < |Cards(DisplayList(t), now)| && Cards(DisplayList(t), now)[i] == k;
    }
  }

  /** The list is empty exactly when every record is deleted. */
  lemma NoCardsIffAllDeleted(t: seq<Comment>, now: int)
    ensures Cards(DisplayList(t), now) == [] <==> forall i :: 0 <= i < |t| ==> t[i].deleted
  {
    DisplayListExactly(t);
    if Cards(DisplayList(t), now) != [] {
      assert DisplayList(t)[0] in DisplayList(t);
    } else {
      forall i | 0 <= i < |t| ensures t[i].deleted {
        assert t[i] in t;
      }
    }
  }

  /**
   * The teleprompterRefresh handler: the countdown is shown exactly when
   * auto-refresh is on, the refresh time is set, the cards are the displayed
   * list, and an empty list adds one once-subscription to commentsUpdate.
   */
  method Refresh(sh: Store, now: int) returns (cards: seq<Card>, countdownVisible: bool)
    modifies sh
    ensures cards == Cards(DisplayList(sh.comments), now)
    ensures countdownVisible == sh.config.autoRefresh
    ensures sh.lastRefreshTime == Some(now)
    ensures sh.refreshOnNextComments == old(sh.refreshOnNextComments) + (if cards == [] then 1 else 0)
    ensures sh.config == old(sh.config) && sh.comments == old(sh.comments) && sh.reactions == old(sh.reactions)
    ensures sh.post == old(sh.post) && sh.events == old(sh.events)
    ensures sh.commentsDirty == old(sh.commentsDirty) && sh.connected == old(sh.connected)
  {
    countdownVisible := sh.config.autoRefresh;
    sh.lastRefreshTime := Some(now);
    cards := Cards(DisplayList(sh.comments), now);
    if cards == [] {
      sh.refreshOnNextComments := sh.refreshOnNextComments + 1;
    }
  }

  /**
   * An empty refresh followed by the next commentsUpdate: that emission
   * re-emits teleprompterRefresh once and consumes the subscription.
   */
  method RefreshThenCommentsArrive(sh: Store, now: int)
    requires sh.refreshOnNextComments == 0
    requires forall i :: 0 <= i < |sh.comments| ==> sh.comments[i].deleted
    modifies sh
    ensures sh.events == old(sh.events) + [CommentsUpdate, TeleprompterRefresh]
    ensures sh.refreshOnNextComments == 0 && sh.lastRefreshTime == Some(now)
    ensures sh.config == old(sh.config) && sh.comments == old(sh.comments) && sh.reactions == old(sh.reactions)
    ensures sh.post == old(sh.post) && sh.commentsDirty == old(sh.commentsDirty) && sh.connected == old(sh.connected)
  {
    NoCardsIffAllDeleted(sh.comments, now);
    var cards, _ := Refresh(sh, now);
    assert sh.refreshOnNextComments == 1;
    sh.Emit(CommentsUpdate);
  }

  // ---- onFrame (src/js/teleprompter.js:105-123)

  /** What a frame does: nothing, refresh, hold at zero, or show the countdown. */
  datatype FrameStep = Idle | RefreshDue | Expired | Countdown(max: int, value: int)

  /** The frame decision, with `timeLeft = refreshInterval - (now - lastRefreshTime)`. */
  function FrameDecision(last: Option<int>, c: Config, now: int): (f: FrameStep)
    ensures f.Idle? <==> last.None?
    ensures f.RefreshDue? <==> last.Some? && c.autoRefresh && now - last.value >= c.refreshInterval
    ensures f.Expired? <==> last.Some? && !c.autoRefresh && now - last.value >= c.refreshInterval
    ensures f.Countdown? ==> f.max == c.refreshInterval && f.value == c.refreshInterval - (now - last.value) && f.value > 0
  {
    if last.None? then Idle
    else
      var timeLeft := c.refreshInterval - (now - last.value);
      if timeLeft <= 0 then (if c.autoRefresh then RefreshDue else Expired)
      else Countdown(c.refreshInterval, timeLeft)
  }

  /**
   * A frame `elapsed` milliseconds after a refresh: the countdown runs, and
   * never shows more than the interval, until the interval has passed; then
   * the frame refreshes if auto-refresh is on and holds otherwise.
   */
  lemma FrameAfterRefresh(t0: int, c: Config, elapsed: nat)
    ensures elapsed < c.refreshInterval ==>
      FrameDecision(Some(t0), c, t0 + elapsed) == Countdown(c.refreshInterval, c.refreshInterval - elapsed)
    ensures elapsed < c.refreshInterval ==> 0 < c.refreshInterval - elapsed <= c.refreshInterval
    ensures elapsed >= c.refreshInterval ==>
      FrameDecision(Some(t0), c, t0 + elapsed) == if c.autoRefresh then RefreshDue else Expired
  {
  }

  /**
   * One animation frame. A due refresh clears the refresh time and emits
   * exactly one teleprompterRefresh; every other frame changes nothing.
   */
  method OnFrame(sh: Store, now: int) returns (step: FrameStep)
    modifies sh
    ensures step == FrameDecision(old(sh.lastRefreshTime), sh.config, now)
    ensures step.RefreshDue? ==> sh.lastRefreshTime == None && sh.events == old(sh.events) + [TeleprompterRefresh]
    ensures !step.RefreshDue? ==> sh.lastRefreshTime == old(sh.lastRefreshTime) && sh.events == old(sh.events)
    ensures sh.config == old(sh.config) && sh.comments == old(sh.comments) && sh.reactions == old(sh.reactions)
    ensures sh.post == old(sh.post) && sh.refreshOnNextComments == old(sh.refreshOnNextComments)
    ensures sh.commentsDirty == old(sh.commentsDirty) && sh.connected == old(sh.connected)
  {
    step := FrameDecision(sh.lastRefreshTime, sh.config, now);
    if step.RefreshDue? {
      sh.lastRefreshTime := None;
      sh.Emit(TeleprompterRefresh);
    }
  }
}
