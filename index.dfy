/**
 * The main window (src/js/index.js): the initial store, one poll cycle
 * (`loadCommentsReactions`) and the delay before the next one, the post
 * title, the post-URL form, and the reset on a change of `location.hash`.
 */
module Index {
  import opened Wrappers
  import opened Text
  import opened Comments
  import opened Shared

  // ---- API responses, as the poll cycle receives them

  /**
   * The outcome of one Graph API request through `fbAPIPromise`: its payload,
   * a rejection (an error response), or no response at all (the SDK callback
   * receives `undefined`).
   */
  datatype Fetch<+T> = Fetched(value: T) | FetchFailed | Unanswered

  /**
   * One element of a comments response. `fromName` is `from.name` when `from`
   * and its name are present; `message` is absent on some attachments.
   */
  datatype FetchedComment = FetchedComment(
    id: string,
    createdTime: int,
    fromName: Option<string>,
    message: Option<string>)

  /** A post response; `createdText` is its creation date as `moment(...).format('LLL')` renders it. */
  datatype FetchedPost = FetchedPost(
    id: string,
    createdTime: int,
    message: Option<string>,
    story: Option<string>,
    createdText: string)

  /** JavaScript truthiness of an optional string: present and not empty. */
  predicate Truthy(s: Option<string>) {
    s.Some? && s.value != []
  }

  // ---- post title (src/js/index.js:146-150)

  /** `post.message || post.story || 'Post on ' + date`: never empty. */
  function PostTitle(message: Option<string>, story: Option<string>, createdText: string): (r: string)
    ensures r != []
    ensures Truthy(message) ==> r == message.value
    ensures !Truthy(message) && Truthy(story) ==> r == story.value
    ensures !Truthy(message) && !Truthy(story) ==> r == "Post on " + createdText
  {
    if Truthy(message) then message.value
    else if Truthy(story) then story.value
    else "Post on " + createdText
  }

  function MakePost(p: FetchedPost): (r: Post)
    ensures r.id == p.id && r.created == p.createdTime && r.title != []
  {
    Post(p.id, p.createdTime, PostTitle(p.message, p.story, p.createdText))
  }

  // ---- comment ingestion (src/js/index.js:101-113)

  /** `(comment.from && comment.from.name) ? comment.from.name : 'Facebook User'`. */
  function AuthorName(fromName: Option<string>): (r: string)
    ensures r != []
    ensures Truthy(fromName) ==> r == fromName.value
    ensures !Truthy(fromName) ==> r == "Facebook User"
  {
    if Truthy(fromName) then fromName.value else "Facebook User"
  }

  /** The record a fetched comment is merged as. */
  function ToIncoming(f: FetchedComment): Incoming
    requires f.message.Some?
  {
    Incoming(f.id, f.createdTime, AuthorName(f.fromName), f.message.value)
  }

  /** One step of the `forEach`: a blank message is thrown out, any other is merged by id. */
  function IngestOne(t: seq<Comment>, f: FetchedComment): (r: seq<Comment>)
    requires f.message.Some?
    ensures |t| <= |r| <= |t| + 1
    ensures forall i :: 0 <= i < |t| ==> r[i].id == t[i].id
  {
    if IsBlank(f.message.value) then t else Merge(t, ToIncoming(f))
  }

  /** The index of the first comment without a message (where `.trim()` throws), or the length. */
  function FirstMissing(fs: seq<FetchedComment>): (k: nat)
    ensures k <= |fs|
    ensures forall i :: 0 <= i < k ==> fs[i].message.Some?
    ensures k < |fs| ==> fs[k].message.None?
  {
    if fs == [] || fs[0].message.None? then 0 else 1 + FirstMissing(fs[1..])
  }

  /** Every comment of `fs`, in order, through `IngestOne`. */
  function IngestAll(t: seq<Comment>, fs: seq<FetchedComment>): (r: seq<Comment>)
    requires forall i :: 0 <= i < |fs| ==> fs[i].message.Some?
    ensures |t| <= |r| <= |t| + |fs|
    ensures forall i :: 0 <= i < |t| ==> r[i].id == t[i].id
  {
    if fs == [] then t else IngestOne(IngestAll(t, fs[..|fs| - 1]), fs[|fs| - 1])
  }

  /** The table after a comments response: the `forEach` runs until it throws, if it does. */
  function CommentsAfter(t: seq<Comment>, r: Fetch<seq<FetchedComment>>): (after: seq<Comment>)
    ensures !r.Fetched? ==> after == t
    ensures r.Fetched? ==> |t| <= |after| <= |t| + FirstMissing(r.value)
    ensures forall i :: 0 <= i < |t| ==> after[i].id == t[i].id
  {
    if !r.Fetched? then t else IngestAll(t, r.value[..FirstMissing(r.value)])
  }

  /** A comments response settles the comments request successfully. */
  predicate CommentsOk(r: Fetch<seq<FetchedComment>>) {
    r.Fetched? && FirstMissing(r.value) == |r.value|
  }

  /**
   * A blank message leaves the table as it was. Any other stores a record with
   * the fetched id, creation time and message and the defaulted author name;
   * a new id gets `deleted: false, priority: 0`, an existing one keeps its
   * moderation state; records with other ids are untouched.
   */
  lemma IngestOneEffect(t: seq<Comment>, f: FetchedComment)
    requires f.message.Some?
    ensures IsBlank(f.message.value) ==> IngestOne(t, f) == t
    ensures !IsBlank(f.message.value) ==> HasId(IngestOne(t, f), f.id)
    ensures !IsBlank(f.message.value) ==>
      forall i :: 0 <= i < |IngestOne(t, f)| && IngestOne(t, f)[i].id == f.id ==>
        && IngestOne(t, f)[i].created == f.createdTime
        && IngestOne(t, f)[i].message == f.message.value
        && IngestOne(t, f)[i].name == AuthorName(f.fromName)
    ensures !IsBlank(f.message.value) && !HasId(t, f.id) ==>
      IngestOne(t, f) == t + [Comment(f.id, f.createdTime, AuthorName(f.fromName), f.message.value, false, 0)]
    ensures !IsBlank(f.message.value) && HasId(t, f.id) ==>
      forall i :: 0 <= i < |t| && t[i].id == f.id ==>
        IngestOne(t, f)[i].deleted == t[i].deleted && IngestOne(t, f)[i].priority == t[i].priority
    ensures forall i :: 0 <= i < |t| && t[i].id != f.id ==> IngestOne(t, f)[i] == t[i]
  {
    if !IsBlank(f.message.value) {
      MergeStores(t, ToIncoming(f));
      MergeKeepsOthers(t, ToIncoming(f));
    }
  }

  /** Ingesting two comments with one id into a table without it leaves exactly one record with it. */
  lemma IngestSameIdTwice(t: seq<Comment>, f: FetchedComment, g: FetchedComment)
    requires f.message.Some? && g.message.Some? && f.id == g.id && !HasId(t, f.id)
    requires !IsBlank(f.message.value) || !IsBlank(g.message.value)
    ensures CountId(IngestOne(IngestOne(t, f), g), f.id) == 1
  {
    assert CountId(t, f.id) == 0;
    if !IsBlank(f.message.value) {
      MergeCount(t, ToIncoming(f), f.id);
    }
    if !IsBlank(g.message.value) {
      MergeCount(IngestOne(t, f), ToIncoming(g), f.id);
    }
  }

  /** Ingestion keeps ids unique. */
  lemma {:induction false} IngestAllKeepsUnique(t: seq<Comment>, fs: seq<FetchedComment>)
    requires forall i :: 0 <= i < |fs| ==> fs[i].message.Some?
    requires UniqueIds(t)
    ensures UniqueIds(IngestAll(t, fs))
  {
    if fs != [] {
      IngestAllKeepsUnique(t, fs[..|fs| - 1]);
      var last := fs[|fs| - 1];
      if !IsBlank(last.message.value) {
        MergeKeepsUnique(IngestAll(t, fs[..|fs| - 1]), ToIncoming(last));
      }
    }
  }

  /** A response whose messages are all blank leaves the table as it was. */
  lemma {:induction false} AllBlankIngestsNothing(t: seq<Comment>, fs: seq<FetchedComment>)
    requires forall i :: 0 <= i < |fs| ==> fs[i].message.Some? && IsBlank(fs[i].message.value)
    ensures IngestAll(t, fs) == t
  {
    if fs != [] {
      AllBlankIngestsNothing(t, fs[..|fs| - 1]);
    }
  }

  // ---- reactions (src/js/index.js:118-131)

  /** The reaction map after the first `k` reaction responses have been applied. */
  function ReactionsAfter(m: map<string, int>, fetches: seq<Fetch<int>>, k: nat): (r: map<string, int>)
    requires k <= |fetches| <= |PossibleReactions|
    ensures m.Keys <= r.Keys
    ensures forall key :: key in r && key !in m ==> key in PossibleReactions[..k]
  {
    if k == 0 then m
    else
      var prev := ReactionsAfter(m, fetches, k - 1);
      if fetches[k - 1].Fetched? then prev[PossibleReactions[k - 1] := fetches[k - 1].value] else prev
  }

  /** How many of the first `k` reaction requests succeeded (one reactionsUpdate each). */
  function Succeeded(fetches: seq<Fetch<int>>, k: nat): (n: nat)
    requires k <= |fetches|
    ensures n <= k
  {
    if k == 0 then 0 else Succeeded(fetches, k - 1) + (if fetches[k - 1].Fetched? then 1 else 0)
  }

  /**
   * Reaction updates write only the six reaction keys: a key whose request
   * succeeded holds that request's total count, every other key (another
   * type's, or one whose request failed) keeps what it had, present or absent.
   */
  lemma ReactionsAfterAt(m: map<string, int>, fetches: seq<Fetch<int>>, k: nat, key: string)
    requires k <= |fetches| == |PossibleReactions|
    ensures (key !in PossibleReactions[..k] || exists i :: 0 <= i < k && PossibleReactions[i] == key && !fetches[i].Fetched?) ==>
      (key in ReactionsAfter(m, fetches, k) <==> key in m) &&
      (key in m ==> ReactionsAfter(m, fetches, k)[key] == m[key])
    ensures forall i :: 0 <= i < k && PossibleReactions[i] == key && fetches[i].Fetched? ==>
      key in ReactionsAfter(m, fetches, k) && ReactionsAfter(m, fetches, k)[key] == fetches[i].value
  {
    if key !in PossibleReactions[..k] || exists i :: 0 <= i < k && PossibleReactions[i] == key && !fetches[i].Fetched? {
      ReactionsAfterKeeps(m, fetches, k, key);
    }
    ReactionsAfterWrites(m, fetches, k, key);
  }

  /** A key that is no requested type, or whose request did not succeed, keeps its old entry. */
  lemma {:induction false} ReactionsAfterKeeps(m: map<string, int>, fetches: seq<Fetch<int>>, k: nat, key: string)
    requires k <= |fetches| == |PossibleReactions|
    requires key !in PossibleReactions[..k] || exists i :: 0 <= i < k && PossibleReactions[i] == key && !fetches[i].Fetched?
    ensures key in ReactionsAfter(m, fetches, k) <==> key in m
    ensures key in m ==> ReactionsAfter(m, fetches, k)[key] == m[key]
  {
    if k > 0 {
      assert PossibleReactions[..k] == PossibleReactions[..k - 1] + [PossibleReactions[k - 1]];
      if PossibleReactions[k - 1] != key {
        ReactionsAfterKeeps(m, fetches, k - 1, key);
      } else {
        // the six types are distinct, so the failed request for `key` is the last one
        assert !fetches[k - 1].Fetched?;
        ReactionsAfterKeeps(m, fetches, k - 1, key);
      }
    }
  }

  /** A key whose request succeeded holds that request's count. */
  lemma {:induction false} ReactionsAfterWrites(m: map<string, int>, fetches: seq<Fetch<int>>, k: nat, key: string)
    requires k <= |fetches| == |PossibleReactions|
    ensures forall i :: 0 <= i < k && PossibleReactions[i] == key && fetches[i].Fetched? ==>
      key in ReactionsAfter(m, fetches, k) && ReactionsAfter(m, fetches, k)[key] == fetches[i].value
  {
    if k > 0 {
      ReactionsAfterWrites(m, fetches, k - 1, key);
    }
  }

  // ---- the cycle's outcome and the next delay (src/js/index.js:51-62, 66-75, 138-144)

  /**
   * Whether `loadCommentsReactions()` resolves: there is a post id, the comments
   * request and its `forEach` succeed, and all six reaction requests succeed.
   */
  predicate CycleOk(postId: string, comments: Fetch<seq<FetchedComment>>, reactions: seq<Fetch<int>>)
    ensures CycleOk(postId, comments, reactions) ==>
      postId != [] && !SomeRejects(comments, reactions) && !SomeUnanswered(comments, reactions)
  {
    postId != [] && CommentsOk(comments) && forall i :: 0 <= i < |reactions| ==> reactions[i].Fetched?
  }

  function Max(a: real, b: real): real {
    if a >= b then a else b
  }

  /**
   * The delay, in milliseconds, before the next cycle: half the refresh
   * interval but at least a second after a success, one second after a failure.
   */
  function NextPollDelay(ok: bool, refreshInterval: int): (d: real)
    ensures d >= 1000.0
    ensures ok ==> d >= refreshInterval as real / 2.0
    ensures ok && refreshInterval >= 2000 ==> d == refreshInterval as real / 2.0
    ensures ok && refreshInterval < 2000 ==> d == 1000.0
    ensures !ok ==> d == 1000.0
  {
    if ok then Max(refreshInterval as real / 2.0, 1000.0) else 1000.0
  }

  /**
   * A cycle without a post id always fails, so it is retried after exactly one
   * second; no cycle is retried sooner; a success waits half the interval.
   */
  lemma PollDelayFacts(postId: string, c: Fetch<seq<FetchedComment>>, r: seq<Fetch<int>>, refreshInterval: int)
    ensures postId == [] ==> NextPollDelay(CycleOk(postId, c, r), refreshInterval) == 1000.0
    ensures NextPollDelay(CycleOk(postId, c, r), refreshInterval) >= 1000.0
    ensures CycleOk(postId, c, r) && refreshInterval >= 2000 ==>
      NextPollDelay(true, refreshInterval) == refreshInterval as real / 2.0
  {
  }

  /** Some request of the cycle rejects: an error response, or the comments `forEach` throwing. */
  predicate SomeRejects(comments: Fetch<seq<FetchedComment>>, reactions: seq<Fetch<int>>) {
    || comments.FetchFailed?
    || (comments.Fetched? && FirstMissing(comments.value) < |comments.value|)
    || exists i :: 0 <= i < |reactions| && reactions[i].FetchFailed?
  }

  /** Some request of the cycle gets no response. */
  predicate SomeUnanswered(comments: Fetch<seq<FetchedComment>>, reactions: seq<Fetch<int>>) {
    comments.Unanswered? || exists i :: 0 <= i < |reactions| && reactions[i].Unanswered?
  }

  /** How the cycle's `Promise.all` ends. */
  datatype Outcome = Resolves | Rejects | NeverSettles

  /**
   * The cycle as written. `fbAPIPromise` reads `res.error` when `res` is
   * missing; the TypeError is thrown inside the SDK callback, after the
   * promise's executor has returned, so that request never settles. The
   * `Promise.all` then still rejects when another request rejects, and
   * otherwise never settles.
   */
  function CycleOutcomeAsWritten(postId: string, comments: Fetch<seq<FetchedComment>>, reactions: seq<Fetch<int>>): (o: Outcome)
    ensures o == Resolves <==> CycleOk(postId, comments, reactions)
    ensures o == NeverSettles <==>
      postId != [] && !SomeRejects(comments, reactions) && SomeUnanswered(comments, reactions)
  {
    if postId == [] || SomeRejects(comments, reactions) then Rejects
    else if SomeUnanswered(comments, reactions) then NeverSettles
    else Resolves
  }

  /**
   * `loadCommentsReactionsLoop` as written schedules the next turn only from
   * `.then` or `.catch`: a cycle that never settles schedules none.
   */
  function NextPollDelayAsWritten(o: Outcome, refreshInterval: int): (d: Option<real>)
    ensures d.None? <==> o == NeverSettles
    ensures d.Some? ==> d.value >= 1000.0
    ensures o == Resolves ==> d == Some(NextPollDelay(true, refreshInterval))
    ensures o == Rejects ==> d == Some(1000.0)
  {
    match o
    case Resolves => Some(NextPollDelay(true, refreshInterval))
    case Rejects => Some(1000.0)
    case NeverSettles => None
  }

  /** As written, one reaction request without a response stops polling for good. */
  lemma UnansweredStopsPollingAsWritten(refreshInterval: int)
    ensures var c: Fetch<seq<FetchedComment>> := Fetched([]);
            var r: seq<Fetch<int>> := [Fetched(0), Fetched(0), Fetched(0), Fetched(0), Fetched(0), Unanswered];
            && NextPollDelayAsWritten(CycleOutcomeAsWritten("1_2", c, r), refreshInterval) == None
            && NextPollDelay(CycleOk("1_2", c, r), refreshInterval) == 1000.0
  {
    var r: seq<Fetch<int>> := [Fetched(0), Fetched(0), Fetched(0), Fetched(0), Fetched(0), Unanswered];
    assert r[5].Unanswered?;
  }

  /**
   * With a missing response rejected (`new Error('No response')`), as the
   * guard evidently intends, every cycle with an unanswered request is
   * retried after one second; where every request is answered, the two
   * versions agree.
   */
  lemma UnansweredIsRetried(postId: string, c: Fetch<seq<FetchedComment>>, r: seq<Fetch<int>>, refreshInterval: int)
    ensures SomeUnanswered(c, r) ==> NextPollDelay(CycleOk(postId, c, r), refreshInterval) == 1000.0
    ensures !SomeUnanswered(c, r) ==>
      NextPollDelayAsWritten(CycleOutcomeAsWritten(postId, c, r), refreshInterval)
        == Some(NextPollDelay(CycleOk(postId, c, r), refreshInterval))
  {
    if SomeUnanswered(c, r) && !c.Unanswered? {
      var i :| 0 <= i < |r| && r[i].Unanswered?;
      assert !r[i].Fetched?;
    }
  }

  // ---- the post-URL form (src/js/index.js:254-290)

  /** `w` occurs in `s` at position `p`. */
  predicate OccursAt(s: string, p: int, w: string) {
    0 <= p && p + |w| <= |s| && s[p..p + |w|] == w
  }

  /** `(?:posts|videos)\/[0-9]` matches at `p`. */
  predicate KindAt(s: string, p: int) {
    || (OccursAt(s, p, "posts/") && p + 6 < |s| && IsDigit(s[p + 6]))
    || (OccursAt(s, p, "videos/") && p + 7 < |s| && IsDigit(s[p + 7]))
  }

  /** `.` of a JavaScript regular expression: anything but a line terminator. */
  predicate AnyChars(s: string) {
    forall k :: 0 <= k < |s| ==> !IsLineTerminator(s[k])
  }

  /**
   * `^.+\/(.+)\/(?:posts|videos)\/([0-9]+)` matches with the first `.+` ending
   * before the slash at `i` and the group `(.+)` ending before the slash at `j`.
   */
  predicate MatchesAt(s: string, i: int, j: int) {
    && 1 <= i && i + 2 <= j && j < |s|
    && s[i] == '/' && s[j] == '/'
    && AnyChars(s[..i]) && AnyChars(s[i + 1..j])
    && KindAt(s, j + 1)
  }

  /** The greedy choice for the group: the last slash `j <= hi` that completes a match. */
  function SearchGroupEnd(s: string, i: int, hi: int): (r: Option<int>)
    ensures r.Some? ==> r.value <= hi && MatchesAt(s, i, r.value)
    ensures r.Some? ==> forall j :: r.value < j <= hi ==> !MatchesAt(s, i, j)
    ensures r.None? ==> forall j :: j <= hi ==> !MatchesAt(s, i, j)
    decreases hi - i
  {
    if hi < i + 2 then None
    else if MatchesAt(s, i, hi) then Some(hi)
    else SearchGroupEnd(s, i, hi - 1)
  }

  /** Backtracking over the greedy `.+`: the last slash `i <= hi` that starts a match, then its group. */
  function SearchPrefixEnd(s: string, hi: int): (r: Option<(int, int)>)
    ensures r.Some? ==> r.value.0 <= hi && MatchesAt(s, r.value.0, r.value.1)
    ensures r.Some? ==> forall i, j :: r.value.0 < i <= hi ==> !MatchesAt(s, i, j)
    ensures r.Some? ==> forall j :: r.value.1 < j ==> !MatchesAt(s, r.value.0, j)
    ensures r.None? ==> forall i, j :: i <= hi ==> !MatchesAt(s, i, j)
    decreases hi
  {
    if hi < 1 then None
    else
      match SearchGroupEnd(s, hi, |s| - 1)
      case Some(j) => Some((hi, j))
      case None => SearchPrefixEnd(s, hi - 1)
  }

  /**
   * Where the post number starts when the group `(.+)` ends before the slash
   * at `j`: after `/posts/` or after `/videos/`.
   */
  function NumberStart(s: string, j: int): int {
    j + 1 + (if OccursAt(s, j + 1, "posts/") then 6 else 7)
  }

  /** The two captured groups: the account alias and the post number. */
  datatype UrlParts = UrlParts(account: string, number: string)

  /**
   * `url.match(...)`: no match when no split of the URL fits the pattern;
   * otherwise the groups of the match JavaScript's backtracking finds first
   * (the longest prefix, then the longest account group, then all the digits).
   */
  function MatchPostUrl(url: string): (r: Option<UrlParts>)
    ensures r.None? <==> forall i, j :: !MatchesAt(url, i, j)
    ensures r.None? <==> SearchPrefixEnd(url, |url| - 1).None?
    ensures r.Some? ==>
      var (i, j) := SearchPrefixEnd(url, |url| - 1).value;
      var p := NumberStart(url, j);
      && MatchesAt(url, i, j) && p < |url|
      && r.value.account == url[i + 1..j]
      && r.value.number == LeadingDigits(url[p..])
    ensures r.Some? ==> r.value.account != [] && r.value.number != [] && AllDigits(r.value.number)
  {
    match SearchPrefixEnd(url, |url| - 1)
    case None => None
    case Some((i, j)) =>
      var p := NumberStart(url, j);
      assert OccursAt(url, j + 1, "posts/") ==> url[j + 1] == 'p';
      assert OccursAt(url, j + 1, "videos/") ==> url[j + 1] == 'v';
      assert IsDigit(url[p..][0]);
      Some(UrlParts(url[i + 1..j], LeadingDigits(url[p..])))
  }

  /** How the post-URL form ends. */
  datatype UrlOutcome =
    | SetHash(postId: string)  // `location.hash` is set to the post id
    | Alert                    // 'Your URL was not recognized.'
    | NoAnswer                 // the account lookup never settles: neither happens

  /**
   * The submit handler: the post id `accountId + '_' + number` is put in the
   * hash; a URL that does not match, or a lookup that fails, shows the alert;
   * a lookup without a response never settles, so nothing happens. `lookup`
   * stands for the Graph API request that resolves an account alias to its id.
   */
  function OpenUrl(url: string, lookup: string -> Fetch<string>): (r: UrlOutcome)
    ensures MatchPostUrl(url).None? ==> r == Alert
    ensures MatchPostUrl(url).Some? ==>
      var m := MatchPostUrl(url).value;
      && (lookup(m.account).Fetched? <==> r.SetHash?)
      && (lookup(m.account).FetchFailed? <==> r.Alert?)
      && (lookup(m.account).Unanswered? <==> r.NoAnswer?)
      && (r.SetHash? ==> r.postId == lookup(m.account).value + "_" + m.number)
  {
    match MatchPostUrl(url)
    case None => Alert
    case Some(m) =>
      match lookup(m.account)
      case Fetched(accountId) => SetHash(accountId + "_" + m.number)
      case FetchFailed => Alert
      case Unanswered => NoAnswer
  }

  /** A recognised URL's post id ends with `_` followed by the post number's digits. */
  lemma OpenUrlShape(url: string, lookup: string -> Fetch<string>)
    requires OpenUrl(url, lookup).SetHash?
    ensures exists a, n :: OpenUrl(url, lookup).postId == a + "_" + n && n != [] && AllDigits(n)
  {
    var m := MatchPostUrl(url).value;
    assert OpenUrl(url, lookup).postId == lookup(m.account).value + "_" + m.number;
  }

  // ---- state changes on the store

  /** Ingesting one more comment of a response extends the ingested prefix by it. */
  lemma IngestAllStep(t: seq<Comment>, fs: seq<FetchedComment>, i: nat)
    requires i < FirstMissing(fs)
    ensures forall k :: 0 <= k < i ==> fs[..i][k].message.Some?
    ensures IngestAll(t, fs[..i + 1]) == IngestOne(IngestAll(t, fs[..i]), fs[i])
  {
    assert fs[..i + 1][..i] == fs[..i];
  }

  /** The `forEach` over a comments response, merging each non-blank comment in turn. */
  method IngestComments(sh: Store, fs: seq<FetchedComment>) returns (completed: bool)
    modifies sh`comments
    ensures sh.comments == IngestAll(old(sh.comments), fs[..FirstMissing(fs)])
    ensures completed <==> FirstMissing(fs) == |fs|
  {
    var i := 0;
    while i < |fs| && fs[i].message.Some?
      invariant 0 <= i <= FirstMissing(fs)
      invariant sh.comments == IngestAll(old(sh.comments), fs[..i])
    {
      IngestAllStep(old(sh.comments), fs, i);
      sh.comments := IngestOne(sh.comments, fs[i]);
      i := i + 1;
    }
    completed := i == |fs|;
  }

  /** The post request's `.then`, made only when no post is cached: the post is stored and postUpdate emitted. */
  method CachePost(sh: Store, r: Fetch<FetchedPost>)
    modifies sh`post, sh`events
    ensures old(sh.post).None? && r.Fetched? ==>
      sh.post == Some(MakePost(r.value)) && sh.events == old(sh.events) + [PostUpdate]
    ensures !(old(sh.post).None? && r.Fetched?) ==> sh.post == old(sh.post) && sh.events == old(sh.events)
  {
    if sh.post.None? && r.Fetched? {
      sh.post := Some(MakePost(r.value));
      sh.events := sh.events + [PostUpdate];
    }
  }

  /** The comments request's `.then`: the response is ingested and the table change recorded. */
  method MergeResponse(sh: Store, r: Fetch<seq<FetchedComment>>) returns (ok: bool)
    modifies sh`comments, sh`commentsDirty
    ensures sh.comments == CommentsAfter(old(sh.comments), r)
    ensures sh.commentsDirty == (old(sh.commentsDirty) || Differs(old(sh.comments), sh.comments))
    ensures ok == CommentsOk(r)
  {
    var before := sh.comments;
    ok := false;
    if r.Fetched? {
      ok := IngestComments(sh, r.value);
    }
    sh.commentsDirty := sh.commentsDirty || Differs(before, sh.comments);
  }

  /** The six reaction requests' `reactions.set(type, count)` and `emit('reactionsUpdate')`. */
  method ApplyReactions(sh: Store, fetches: seq<Fetch<int>>)
    requires |fetches| == |PossibleReactions|
    modifies sh`reactions, sh`events
    ensures sh.reactions == ReactionsAfter(old(sh.reactions), fetches, |fetches|)
    ensures sh.events == old(sh.events) + Repeat(ReactionsUpdate, Succeeded(fetches, |fetches|))
  {
    for k := 0 to |fetches|
      invariant sh.reactions == ReactionsAfter(old(sh.reactions), fetches, k)
      invariant sh.events == old(sh.events) + Repeat(ReactionsUpdate, Succeeded(fetches, k))
    {
      if fetches[k].Fetched? {
        sh.reactions := sh.reactions[PossibleReactions[k] := fetches[k].value];
        sh.events := sh.events + [ReactionsUpdate];
      }
    }
  }

  /**
   * The fields one cycle with a post id writes: the post is fetched if none is
   * cached, comments are merged, reaction counts are written with one
   * reactionsUpdate each, and a changed table marks a commentsUpdate as pending.
   */
  twostate predicate CycleWrites(sh: Store, postFetch: Fetch<FetchedPost>,
                                 commentsFetch: Fetch<seq<FetchedComment>>, reactionFetches: seq<Fetch<int>>)
    requires |reactionFetches| == |PossibleReactions|
    reads sh
  {
    var fetchPost := old(sh.post).None? && postFetch.Fetched?;
    && sh.post == (if fetchPost then Some(MakePost(postFetch.value)) else old(sh.post))
    && sh.comments == CommentsAfter(old(sh.comments), commentsFetch)
    && sh.reactions == ReactionsAfter(old(sh.reactions), reactionFetches, |reactionFetches|)
    && sh.events == old(sh.events) + (if fetchPost then [PostUpdate] else [])
                    + Repeat(ReactionsUpdate, Succeeded(reactionFetches, |reactionFetches|))
    && sh.commentsDirty == (old(sh.commentsDirty) || Differs(old(sh.comments), sh.comments))
  }

  /**
   * The store after one cycle, in terms of the store before it: without a post
   * id nothing changes; otherwise the cycle's writes are made and nothing else
   * changes.
   */
  twostate predicate CycleApplied(sh: Store, postId: string, postFetch: Fetch<FetchedPost>,
                                  commentsFetch: Fetch<seq<FetchedComment>>, reactionFetches: seq<Fetch<int>>)
    requires |reactionFetches| == |PossibleReactions|
    reads sh
  {
    && (postId == [] ==> unchanged(sh))
    && (postId != [] ==> CycleWrites(sh, postFetch, commentsFetch, reactionFetches))
    && sh.config == old(sh.config) && sh.lastRefreshTime == old(sh.lastRefreshTime)
    && sh.refreshOnNextComments == old(sh.refreshOnNextComments) && sh.connected == old(sh.connected)
  }

  /**
   * `loadCommentsReactions()` as one sequential step. Without a post id it
   * rejects at once and touches nothing. Otherwise the post is fetched if none
   * is cached, comments are merged, reaction counts are written, and the
   * result tells whether the cycle resolved.
   */
  method LoadCommentsReactions(sh: Store, postId: string, postFetch: Fetch<FetchedPost>,
                               commentsFetch: Fetch<seq<FetchedComment>>, reactionFetches: seq<Fetch<int>>)
    returns (ok: bool)
    requires |reactionFetches| == |PossibleReactions|
    modifies sh
    ensures ok == CycleOk(postId, commentsFetch, reactionFetches)
    ensures CycleApplied(sh, postId, postFetch, commentsFetch, reactionFetches)
  {
    if postId == [] {
      return false;
    }
    ok := RunCycle(sh, postFetch, commentsFetch, reactionFetches);
  }

  /** The requests of a cycle that has a post id, and whether they all succeed. */
  method RunCycle(sh: Store, postFetch: Fetch<FetchedPost>,
                  commentsFetch: Fetch<seq<FetchedComment>>, reactionFetches: seq<Fetch<int>>)
    returns (ok: bool)
    requires |reactionFetches| == |PossibleReactions|
    modifies sh`post, sh`events, sh`comments, sh`commentsDirty, sh`reactions
    ensures ok == (CommentsOk(commentsFetch) && forall i :: 0 <= i < |reactionFetches| ==> reactionFetches[i].Fetched?)
    ensures old(sh.post).None? && postFetch.Fetched? ==>
      sh.post == Some(MakePost(postFetch.value)) &&
      sh.events == old(sh.events) + [PostUpdate] + Repeat(ReactionsUpdate, Succeeded(reactionFetches, |reactionFetches|))
    ensures !(old(sh.post).None? && postFetch.Fetched?) ==>
      sh.post == old(sh.post) &&
      sh.events == old(sh.events) + Repeat(ReactionsUpdate, Succeeded(reactionFetches, |reactionFetches|))
    ensures sh.comments == CommentsAfter(old(sh.comments), commentsFetch)
    ensures sh.reactions == ReactionsAfter(old(sh.reactions), reactionFetches, |reactionFetches|)
    ensures sh.commentsDirty == (old(sh.commentsDirty) || Differs(old(sh.comments), sh.comments))
  {
    CachePost(sh, postFetch);
    ok := FetchTables(sh, commentsFetch, reactionFetches);
  }

  /** The comments request and the six reaction requests, and whether they all succeed. */
  method FetchTables(sh: Store, commentsFetch: Fetch<seq<FetchedComment>>, reactionFetches: seq<Fetch<int>>)
    returns (ok: bool)
    requires |reactionFetches| == |PossibleReactions|
    modifies sh`events, sh`comments, sh`commentsDirty, sh`reactions
    ensures ok == (CommentsOk(commentsFetch) && forall i :: 0 <= i < |reactionFetches| ==> reactionFetches[i].Fetched?)
    ensures sh.comments == CommentsAfter(old(sh.comments), commentsFetch)
    ensures sh.reactions == ReactionsAfter(old(sh.reactions), reactionFetches, |reactionFetches|)
    ensures sh.events == old(sh.events) + Repeat(ReactionsUpdate, Succeeded(reactionFetches, |reactionFetches|))
    ensures sh.commentsDirty == (old(sh.commentsDirty) || Differs(old(sh.comments), sh.comments))
  {
    var commentsOk := MergeResponse(sh, commentsFetch);
    ApplyReactions(sh, reactionFetches);
    ok := commentsOk && forall i :: 0 <= i < |reactionFetches| ==> reactionFetches[i].Fetched?;
  }

  /**
   * One turn of `loadCommentsReactionsLoop`: a cycle, then the delay before the
   * next. A request without a response counts as a rejection here, as
   * `fbAPIPromise` evidently intends (see `UnansweredIsRetried`).
   */
  method PollStep(sh: Store, postId: string, postFetch: Fetch<FetchedPost>,
                  commentsFetch: Fetch<seq<FetchedComment>>, reactionFetches: seq<Fetch<int>>)
    returns (delay: real)
    requires |reactionFetches| == |PossibleReactions|
    modifies sh
    ensures delay == NextPollDelay(CycleOk(postId, commentsFetch, reactionFetches), old(sh.config).refreshInterval)
    ensures delay >= 1000.0
    ensures CycleApplied(sh, postId, postFetch, commentsFetch, reactionFetches)
  {
    var ok := LoadCommentsReactions(sh, postId, postFetch, commentsFetch, reactionFetches);
    delay := NextPollDelay(ok, sh.config.refreshInterval);
  }

  /**
   * The `hashchange` handler's effect on the store: with a post id while
   * connected, the table and the reaction map are emptied, the post is
   * dropped, and reactionsUpdate, postUpdate, teleprompterRefresh are emitted
   * in that order; otherwise nothing in the store changes. The cycle the
   * handler starts at once is a separate `LoadCommentsReactions` call.
   */
  method HashChange(sh: Store, postId: string)
    modifies sh
    ensures postId != [] && old(sh.connected) ==>
      && sh.comments == [] && sh.reactions == map[] && sh.post == None
      && sh.events == old(sh.events) + [ReactionsUpdate, PostUpdate, TeleprompterRefresh]
      && sh.commentsDirty == (old(sh.commentsDirty) || old(sh.comments) != [])
      && sh.config == old(sh.config) && sh.lastRefreshTime == old(sh.lastRefreshTime)
      && sh.refreshOnNextComments == old(sh.refreshOnNextComments) && sh.connected
    ensures !(postId != [] && old(sh.connected)) ==> unchanged(sh)
  {
    if postId != [] && sh.connected {
      var before := sh.comments;
      sh.comments := [];
      sh.TableChanged(before);
      sh.reactions := map[];
      sh.Emit(ReactionsUpdate);
      sh.post := None;
      sh.Emit(PostUpdate);
      sh.Emit(TeleprompterRefresh);
    }
  }

  /** `auth.statusChange` (src/js/index.js:233-238): on 'connected', record it and re-run the hash handler. */
  method AuthStatusChange(sh: Store, status: string, postId: string)
    modifies sh
    ensures status == "connected" ==> sh.connected
    ensures status == "connected" && postId != [] ==>
      && sh.comments == [] && sh.reactions == map[] && sh.post == None
      && sh.events == old(sh.events) + [ReactionsUpdate, PostUpdate, TeleprompterRefresh]
      && sh.commentsDirty == (old(sh.commentsDirty) || old(sh.comments) != [])
    ensures status == "connected" && postId == [] ==>
      && sh.comments == old(sh.comments) && sh.reactions == old(sh.reactions) && sh.post == old(sh.post)
      && sh.events == old(sh.events) && sh.commentsDirty == old(sh.commentsDirty)
    ensures status != "connected" ==> unchanged(sh)
    ensures sh.config == old(sh.config) && sh.lastRefreshTime == old(sh.lastRefreshTime)
    ensures sh.refreshOnNextComments == old(sh.refreshOnNextComments)
  {
    if status == "connected" {
      sh.connected := true;
      HashChange(sh, postId);
    }
  }

  /** The `unload` handler's persisted configuration (src/js/index.js:342-343). */
  method Unload(sh: Store) returns (saved: PersistedConfig)
    ensures saved == Persist(sh.config)
    ensures InitialConfig(Some(saved)) == sh.config
  {
    saved := Persist(sh.config);
    PersistRoundTrip(sh.config);
  }
}
