/**
 * `window.shared` (src/js/index.js:14-48): the one store that the main
 * window, the teleprompter frame and the moderator pop-up all hold a
 * reference to, with its configuration, comment table, reaction counts,
 * current post and the pub/sub bus.
 */
module Shared {
  import opened Wrappers
  import opened Comments

  /** The configuration record. `zoom` is a real standing in for a JavaScript number. */
  datatype Config = Config(
    autoRefresh: bool,
    flipHorizontal: bool,
    flipVertical: bool,
    refreshInterval: int,
    textMode: bool,
    zoom: real)

  /** The keys present in the persisted configuration; an absent key is `None`. */
  datatype PersistedConfig = PersistedConfig(
    autoRefresh: Option<bool>,
    flipHorizontal: Option<bool>,
    flipVertical: Option<bool>,
    refreshInterval: Option<int>,
    textMode: Option<bool>,
    zoom: Option<real>)

  const NothingPersisted := PersistedConfig(None, None, None, None, None, None)

  function DefaultConfig(): Config {
    Config(true, false, false, 10000, false, 1.0)
  }

  /**
   * `Object.assign(defaults, JSON.parse(localStorage.config || '{}'))`: every
   * persisted key overrides its default, every absent key keeps it.
   */
  function InitialConfig(stored: Option<PersistedConfig>): (c: Config)
    ensures stored.None? ==> c == DefaultConfig()
    ensures stored.Some? ==>
      && c.autoRefresh == stored.value.autoRefresh.GetOr(true)
      && c.flipHorizontal == stored.value.flipHorizontal.GetOr(false)
      && c.flipVertical == stored.value.flipVertical.GetOr(false)
      && c.refreshInterval == stored.value.refreshInterval.GetOr(10000)
      && c.textMode == stored.value.textMode.GetOr(false)
      && c.zoom == stored.value.zoom.GetOr(1.0)
  {
    var p := stored.GetOr(NothingPersisted);
    var d := DefaultConfig();
    Config(
      p.autoRefresh.GetOr(d.autoRefresh),
      p.flipHorizontal.GetOr(d.flipHorizontal),
      p.flipVertical.GetOr(d.flipVertical),
      p.refreshInterval.GetOr(d.refreshInterval),
      p.textMode.GetOr(d.textMode),
      p.zoom.GetOr(d.zoom))
  }

  /** `JSON.stringify(config)` on unload (src/js/index.js:342-343): every key is written. */
  function Persist(c: Config): (p: PersistedConfig)
    ensures p.autoRefresh.Some? && p.flipHorizontal.Some? && p.flipVertical.Some?
    ensures p.refreshInterval.Some? && p.textMode.Some? && p.zoom.Some?
  {
    PersistedConfig(Some(c.autoRefresh), Some(c.flipHorizontal), Some(c.flipVertical),
                    Some(c.refreshInterval), Some(c.textMode), Some(c.zoom))
  }

  /** A configuration saved on unload is the configuration of the next load. */
  lemma PersistRoundTrip(c: Config)
    ensures InitialConfig(Some(Persist(c))) == c
  {
  }

  /** The topics of the pub/sub bus. */
  datatype Topic = ConfigUpdate | PostUpdate | CommentsUpdate | ReactionsUpdate | TeleprompterRefresh

  /** The current post, with its display title already computed. */
  datatype Post = Post(id: string, created: int, title: string)

  /** The six reaction types requested on every poll cycle (src/js/index.js:68). */
  const PossibleReactions: seq<string> := ["LIKE", "LOVE", "HAHA", "WOW", "SAD", "ANGRY"]

  /** `n` copies of one topic. */
  function Repeat(t: Topic, n: nat): (r: seq<Topic>)
    ensures |r| == n && forall i :: 0 <= i < n ==> r[i] == t
  {
    if n == 0 then [] else Repeat(t, n - 1) + [t]
  }

  /** The comment table holds something else than before. */
  predicate Differs(before: seq<Comment>, after: seq<Comment>) {
    before != after
  }

  class Store {
    var config: Config
    /** The comment table. */
    var comments: seq<Comment>
    /** The reaction-count `Map`, keyed by reaction type. */
    var reactions: map<string, int>
    var post: Option<Post>
    /** When the teleprompter last refreshed its list, if a countdown is running. */
    var lastRefreshTime: Option<int>
    /** Every topic emitted on the bus, in order. */
    var events: seq<Topic>
    /** Pending `once('commentsUpdate', …)` handlers that re-emit teleprompterRefresh. */
    var refreshOnNextComments: nat
    /** A table change whose debounced commentsUpdate has not fired yet. */
    var commentsDirty: bool
    /** `connectedWithFacebook` (src/js/index.js:32). */
    var connected: bool

    /** The store as the main window creates it on load (src/js/index.js:15-48). */
    constructor (stored: Option<PersistedConfig>)
      ensures config == InitialConfig(stored)
      ensures comments == [] && reactions == map[] && post == None
      ensures lastRefreshTime == None && events == []
      ensures refreshOnNextComments == 0 && !commentsDirty && !connected
    {
      config := InitialConfig(stored);
      comments := [];
      reactions := map[];
      post := None;
      lastRefreshTime := None;
      events := [];
      refreshOnNextComments := 0;
      commentsDirty := false;
      connected := false;
    }

    /**
     * `pubsub.emit(t)`: the topic is logged; emitting commentsUpdate also runs
     * and consumes every pending once-handler, each of which emits
     * teleprompterRefresh.
     */
    method Emit(t: Topic)
      modifies this
      ensures t != CommentsUpdate ==> events == old(events) + [t]
      ensures t != CommentsUpdate ==> refreshOnNextComments == old(refreshOnNextComments)
      ensures t == CommentsUpdate ==>
        events == old(events) + [CommentsUpdate] + Repeat(TeleprompterRefresh, old(refreshOnNextComments))
      ensures t == CommentsUpdate ==> refreshOnNextComments == 0
      ensures config == old(config) && comments == old(comments) && reactions == old(reactions)
      ensures post == old(post) && lastRefreshTime == old(lastRefreshTime)
      ensures commentsDirty == old(commentsDirty) && connected == old(connected)
    {
      events := events + [t];
      if t == CommentsUpdate {
        var pending := refreshOnNextComments;
        refreshOnNextComments := 0;
        var k := 0;
        while k < pending
          invariant 0 <= k <= pending
          invariant events == old(events) + [CommentsUpdate] + Repeat(TeleprompterRefresh, k)
          modifies this`events
        {
          events := events + [TeleprompterRefresh];
          k := k + 1;
        }
      }
    }

    /** Records a change to the comment table, whose notification is debounced. */
    method TableChanged(before: seq<Comment>)
      modifies this`commentsDirty
      ensures commentsDirty == (old(commentsDirty) || Differs(before, comments))
    {
      commentsDirty := commentsDirty || Differs(before, comments);
    }

    /**
     * The debounced `onDBChange` firing (src/js/index.js:43): one commentsUpdate
     * for however many table changes came before it.
     */
    method FlushCommentsUpdate()
      modifies this
      ensures !commentsDirty
      ensures old(commentsDirty) ==>
        events == old(events) + [CommentsUpdate] + Repeat(TeleprompterRefresh, old(refreshOnNextComments))
      ensures old(commentsDirty) ==> refreshOnNextComments == 0
      ensures !old(commentsDirty) ==> events == old(events) && refreshOnNextComments == old(refreshOnNextComments)
      ensures config == old(config) && comments == old(comments) && reactions == old(reactions)
      ensures post == old(post) && lastRefreshTime == old(lastRefreshTime) && connected == old(connected)
    {
      if commentsDirty {
        commentsDirty := false;
        Emit(CommentsUpdate);
      }
    }
  }
}
