/**
 * The single-page version (js/main.js): configuration kept in local storage,
 * the promise wrapper around the SDK's API call and the checks on its three
 * responses, one refresh cycle, and the countdown that starts the next one.
 */
module Legacy {
  import opened Wrappers
  import opened Text
  import Teleprompter

  // ---- configuration in local storage (js/main.js:27-53)

  /** A JSON value as it can appear in the stored configuration. */
  datatype Json = JNull | JBool(b: bool) | JNum(n: real) | JStr(s: string)

  /** JavaScript truthiness. */
  predicate Truthy(v: Json) {
    match v
    case JNull => false
    case JBool(b) => b
    case JNum(n) => n != 0.0
    case JStr(s) => s != []
  }

  type ConfigObject = map<string, Json>

  /** `config[key]`; an absent key reads as a falsy value. */
  function Get(c: ConfigObject, key: string): Json {
    if key in c then c[key] else JNull
  }

  function DefaultConfig(): ConfigObject {
    map["flipHorizontal" := JBool(false), "flipVertical" := JBool(false), "zoom" := JNum(1.0)]
  }

  /** What `loadConfig()` returns for a given stored configuration. */
  function LoadedConfig(stored: Option<ConfigObject>): (c: ConfigObject)
    ensures stored.Some? ==> c == stored.value
    ensures stored.None? ==>
      !Truthy(Get(c, "flipHorizontal")) && !Truthy(Get(c, "flipVertical")) && Get(c, "zoom") == JNum(1.0)
  {
    stored.GetOr(DefaultConfig())
  }

  /** The page style `applyConfig` sets: font size `(zoom || 1)` em and the transform's scale factors. */
  datatype PageStyle = PageStyle(fontSize: Json, scaleX: int, scaleY: int)

  function ApplyConfig(c: ConfigObject): (s: PageStyle)
    ensures s.fontSize == if Truthy(Get(c, "zoom")) then c["zoom"] else JNum(1.0)
    ensures Truthy(s.fontSize)
    ensures s.scaleX == -1 <==> Truthy(Get(c, "flipHorizontal"))
    ensures s.scaleY == -1 <==> Truthy(Get(c, "flipVertical"))
    ensures s.scaleX in {1, -1} && s.scaleY in {1, -1}
  {
    PageStyle(
      if Truthy(Get(c, "zoom")) then c["zoom"] else JNum(1.0),
      Teleprompter.ScaleSign(Truthy(Get(c, "flipHorizontal"))),
      Teleprompter.ScaleSign(Truthy(Get(c, "flipVertical"))))
  }

  /** After `setConfigItem(key, value)`, the loaded configuration has `value` at `key` and every other key as before. */
  lemma SetThenLoad(stored: Option<ConfigObject>, key: string, value: Json)
    ensures key in LoadedConfig(Some(LoadedConfig(stored)[key := value]))
    ensures LoadedConfig(Some(LoadedConfig(stored)[key := value]))[key] == value
    ensures forall k :: k != key ==>
      (k in LoadedConfig(Some(LoadedConfig(stored)[key := value])) <==> k in LoadedConfig(stored)) &&
      (k in LoadedConfig(stored) ==> LoadedConfig(Some(LoadedConfig(stored)[key := value]))[k] == LoadedConfig(stored)[k])
  {
  }

  // ---- the API wrapper and the response checks (js/main.js:55-135)

  /** A parsed API response: an optional `error` and an optional `data` array. */
  datatype Response<T> = Response(error: Option<string>, data: Option<seq<T>>)

  /** How a promise ends: resolved, rejected, or never settled. */
  datatype Settlement<T> = Resolved(value: T) | Rejected(reason: string) | Unsettled

  /**
   * `fbApi` as written: for a missing response the handler evaluates
   * `res.error` on `undefined`, which throws inside the SDK callback before
   * `reject` runs, so the promise never settles.
   */
  function FbApiAsWritten<T>(res: Option<Response<T>>): (s: Settlement<Response<T>>)
    ensures res.None? ==> s.Unsettled?
    ensures res.Some? && res.value.error.Some? ==> s == Rejected(res.value.error.value)
    ensures res.Some? && res.value.error.None? ==> s == Resolved(res.value)
  {
    if res.None? then Unsettled
    else if res.value.error.Some? then Rejected(res.value.error.value)
    else Resolved(res.value)
  }

  /**
   * `fbApi` as intended: rejects when the response is missing or carries
   * `error`, and otherwise resolves with the whole response.
   */
  function FbApi<T>(res: Option<Response<T>>): (r: Result<Response<T>, string>)
    ensures r.Success? <==> res.Some? && res.value.error.None?
    ensures r.Success? ==> r.value == res.value
    ensures res.Some? && res.value.error.Some? ==> r == Failure(res.value.error.value)
  {
    if res.None? then Failure("No response")
    else if res.value.error.Some? then Failure(res.value.error.value)
    else Success(res.value)
  }

  /** The two agree on every response that arrives; they differ only on a missing one. */
  lemma FbApiAgreesOnPresent<T>(res: Option<Response<T>>)
    ensures res.Some? ==> (FbApi(res).Success? <==> FbApiAsWritten(res).Resolved?)
    ensures res.Some? && FbApi(res).Success? ==> FbApiAsWritten(res) == Resolved(FbApi(res).value)
    ensures res.Some? && FbApi(res).Failure? ==> FbApiAsWritten(res) == Rejected(FbApi(res).error)
    ensures res.None? ==> FbApi(res).Failure? && FbApiAsWritten(res).Unsettled?
  {
  }

  /** A data array is missing or empty (`!res.data || !res.data.length`, `!res.data[0]`). */
  predicate NoData<T>(r: Response<T>) {
    r.data.None? || r.data.value == []
  }

  datatype Video = Video(id: string)

  /** `getLastLiveVideo`: the first video, or 'No live videos found.' when there is none. */
  function GetLastLiveVideo(res: Option<Response<Video>>): (r: Result<Video, string>)
    ensures FbApi(res).Failure? ==> r == Failure(FbApi(res).error)
    ensures FbApi(res).Success? && NoData(res.value) ==> r == Failure("No live videos found.")
    ensures FbApi(res).Success? && !NoData(res.value) ==> r == Success(res.value.data.value[0])
  {
    match FbApi(res)
    case Failure(e) => Failure(e)
    case Success(v) => if NoData(v) then Failure("No live videos found.") else Success(v.data.value[0])
  }

  /** A comment as the legacy page renders it. */
  datatype LegacyComment = LegacyComment(fromName: string, createdTime: int, message: string)

  /** `getComments`: the data array unchanged, or 'No recent comments.' when it is missing or empty. */
  function GetComments(res: Option<Response<LegacyComment>>): (r: Result<seq<LegacyComment>, string>)
    ensures FbApi(res).Failure? ==> r == Failure(FbApi(res).error)
    ensures FbApi(res).Success? && NoData(res.value) ==> r == Failure("No recent comments.")
    ensures FbApi(res).Success? && !NoData(res.value) ==> r == Success(res.value.data.value) && r.value != []
  {
    match FbApi(res)
    case Failure(e) => Failure(e)
    case Success(v) => if NoData(v) then Failure("No recent comments.") else Success(v.data.value)
  }

  /** One element of a reactions response. */
  datatype ReactionItem = ReactionItem(reactionType: string)

  /**
   * `getReactions` as written: no data gives an empty map, but any reaction
   * reaches `video.reactions`, and `video` is not bound in that scope, so the
   * callback throws a ReferenceError and the promise rejects.
   */
  function GetReactionsAsWritten(res: Option<Response<ReactionItem>>): (s: Settlement<map<string, nat>>)
    ensures FbApiAsWritten(res).Resolved? && NoData(res.value) ==> s == Resolved(map[])
    ensures FbApiAsWritten(res).Resolved? && !NoData(res.value) ==> s == Rejected("video is not defined")
    ensures !FbApiAsWritten(res).Resolved? ==> s == match FbApiAsWritten(res) case Rejected(e) => Rejected(e) case _ => Unsettled
  {
    match FbApiAsWritten(res)
    case Unsettled => Unsettled
    case Rejected(e) => Rejected(e)
    case Resolved(v) => if NoData(v) then Resolved(map[]) else Rejected("video is not defined")
  }

  /** How many items have the (lower-cased) type `key`. */
  function Occurrences(items: seq<ReactionItem>, key: string): nat {
    if items == [] then 0
    else Occurrences(items[..|items| - 1], key) + (if AsciiLower(items[|items| - 1].reactionType) == key then 1 else 0)
  }

  /**
   * The intended per-type tally: one key per lower-cased type that occurs,
   * holding the number of its occurrences.
   */
  function CountReactions(items: seq<ReactionItem>): (m: map<string, nat>)
    ensures forall key :: key in m <==> Occurrences(items, key) > 0
    ensures forall key :: key in m ==> m[key] == Occurrences(items, key)
  {
    if items == [] then map[]
    else
      var prev := CountReactions(items[..|items| - 1]);
      var key := AsciiLower(items[|items| - 1].reactionType);
      prev[key := (if key in prev then prev[key] else 0) + 1]
  }

  /** `getReactions` as intended: an empty map without data, the per-type tally otherwise. */
  function GetReactions(res: Option<Response<ReactionItem>>): (r: Result<map<string, nat>, string>)
    ensures FbApi(res).Failure? ==> r == Failure(FbApi(res).error)
    ensures FbApi(res).Success? && NoData(res.value) ==> r == Success(map[])
    ensures FbApi(res).Success? && !NoData(res.value) ==> r == Success(CountReactions(res.value.data.value))
  {
    match FbApi(res)
    case Failure(e) => Failure(e)
    case Success(v) => if NoData(v) then Success(map[]) else Success(CountReactions(v.data.value))
  }

  // ---- one refresh cycle (js/main.js:137-183)

  /** What a successful cycle puts on the page. */
  datatype Loaded = Loaded(video: Video, comments: seq<LegacyComment>, reactions: map<string, nat>)

  /**
   * The cycle as intended: the live video, then its comments and reactions
   * together (`$.when`); the first failure is what the page shows. The three
   * responses are those the API returns for the video found first.
   */
  function Cycle(videoRes: Option<Response<Video>>, commentRes: Option<Response<LegacyComment>>,
                 reactionRes: Option<Response<ReactionItem>>): (r: Result<Loaded, string>)
    ensures r.Success? <==> GetLastLiveVideo(videoRes).Success? && GetComments(commentRes).Success? && GetReactions(reactionRes).Success?
    ensures r.Success? ==> r.value == Loaded(GetLastLiveVideo(videoRes).value, GetComments(commentRes).value, GetReactions(reactionRes).value)
    ensures GetLastLiveVideo(videoRes).Failure? ==> r == Failure(GetLastLiveVideo(videoRes).error)
    ensures GetLastLiveVideo(videoRes).Success? && GetComments(commentRes).Failure? ==>
      r == Failure(GetComments(commentRes).error)
    ensures GetLastLiveVideo(videoRes).Success? && GetComments(commentRes).Success? && GetReactions(reactionRes).Failure? ==>
      r == Failure(GetReactions(reactionRes).error)
  {
    match GetLastLiveVideo(videoRes)
    case Failure(e) => Failure(e)
    case Success(video) =>
      match GetComments(commentRes)
      case Failure(e) => Failure(e)
      case Success(cs) =>
        match GetReactions(reactionRes)
        case Failure(e) => Failure(e)
        case Success(rs) => Success(Loaded(video, cs, rs))
  }

  /**
   * The cycle as written: a missing response anywhere it is awaited leaves it
   * unsettled, and any reaction at all makes it reject.
   */
  function CycleAsWritten(videoRes: Option<Response<Video>>, commentRes: Option<Response<LegacyComment>>,
                          reactionRes: Option<Response<ReactionItem>>): (s: Settlement<Loaded>)
    ensures videoRes.None? ==> s.Unsettled?
    ensures s.Resolved? ==> Cycle(videoRes, commentRes, reactionRes) == Success(s.value)
    ensures s.Resolved? ==> s.value.reactions == map[]
  {
    match FbApiAsWritten(videoRes)
    case Unsettled => Unsettled
    case Rejected(e) => Rejected(e)
    case Resolved(_) =>
      match GetLastLiveVideo(videoRes)
      case Failure(e) => Rejected(e)
      case Success(video) =>
        var cs := match FbApiAsWritten(commentRes)
          case Unsettled => Unsettled
          case Rejected(e) => Rejected(e)
          case Resolved(_) => match GetComments(commentRes) case Failure(e) => Rejected(e) case Success(v) => Resolved(v);
        var rs := GetReactionsAsWritten(reactionRes);
        if cs.Rejected? then Rejected(cs.reason)
        else if rs.Rejected? then Rejected(rs.reason)
        else if cs.Unsettled? || rs.Unsettled? then Unsettled
        else Resolved(Loaded(video, cs.value, rs.value))
  }

  /**
   * As written, a live video that has comments and at least one reaction is
   * never shown: the cycle rejects with the ReferenceError, while the intended
   * cycle shows the video, its comments and the per-type tally.
   */
  lemma ReactionsBreakCycleAsWritten(video: Video, cs: seq<LegacyComment>, items: seq<ReactionItem>)
    requires cs != [] && items != []
    ensures var videoRes := Some(Response(None, Some([video])));
      var commentRes := Some(Response(None, Some(cs)));
      var reactionRes := Some(Response(None, Some(items)));
      && CycleAsWritten(videoRes, commentRes, reactionRes) == Rejected("video is not defined")
      && Cycle(videoRes, commentRes, reactionRes) == Success(Loaded(video, cs, CountReactions(items)))
  {
  }

  /** A single LIKE is tallied as one 'like'. */
  lemma OneLikeCounted()
    ensures CountReactions([ReactionItem("LIKE")]) == map["like" := 1]
  {
    assert AsciiLower("LIKE") == "like";
    var m := CountReactions([ReactionItem("LIKE")]);
    assert m.Keys == {"like"};
  }

  // ---- the countdown (js/main.js:16, 185-196)

  const ReloadInterval: int := 10 * 1000

  /** What a frame does: nothing, start a refresh, or show the countdown. */
  datatype FrameStep = Idle | StartRefresh | Countdown(max: int, value: int)

  function FrameDecision(lastReloadTime: Option<int>, now: int): (f: FrameStep)
    ensures f.Idle? <==> lastReloadTime.None?
    ensures f.StartRefresh? <==> lastReloadTime.Some? && now - lastReloadTime.value >= ReloadInterval
    ensures f.Countdown? ==> f.max == ReloadInterval && 0 < f.value
    ensures f.Countdown? && now >= lastReloadTime.value ==> f.value <= ReloadInterval
    ensures f.Countdown? ==> f.value == ReloadInterval - (now - lastReloadTime.value)
  {
    if lastReloadTime.None? then Idle
    else
      var timeLeft := ReloadInterval - (now - lastReloadTime.value);
      if timeLeft <= 0 then StartRefresh else Countdown(ReloadInterval, timeLeft)
  }

  class Page {
    /** `localStorage.config`, if set. */
    var stored: Option<ConfigObject>
    /** `lastReloadTime`; `None` while a cycle is in flight (and before the first). */
    var lastReloadTime: Option<int>

    constructor (storage: Option<ConfigObject>)
      ensures stored == storage && lastReloadTime == None
    {
      stored := storage;
      lastReloadTime := None;
    }

    method SaveConfig(c: ConfigObject)
      modifies this`stored
      ensures stored == Some(c)
    {
      stored := Some(c);
    }

    /** `loadConfig`: with nothing stored, the defaults are saved first; the stored configuration is returned. */
    method LoadConfig() returns (c: ConfigObject)
      modifies this`stored
      ensures old(stored).None? ==> stored == Some(DefaultConfig()) && c == DefaultConfig()
      ensures old(stored).Some? ==> stored == old(stored) && c == old(stored).value
      ensures c == LoadedConfig(old(stored)) && stored == Some(c)
    {
      if stored.None? {
        SaveConfig(DefaultConfig());
      }
      c := stored.value;
    }

    /** `setConfigItem`: load, set one key, save, and apply. */
    method SetConfigItem(key: string, value: Json) returns (style: PageStyle)
      modifies this`stored
      ensures stored == Some(LoadedConfig(old(stored))[key := value])
      ensures style == ApplyConfig(stored.value)
    {
      var c := LoadConfig();
      c := c[key := value];
      SaveConfig(c);
      style := ApplyConfig(c);
    }

    /** The flipHorizontal and flipVertical buttons: `setConfigItem(key, !loadConfig()[key])`. */
    method ToggleItem(key: string) returns (style: PageStyle)
      modifies this`stored
      ensures stored == Some(LoadedConfig(old(stored))[key := JBool(!Truthy(Get(LoadedConfig(old(stored)), key)))])
      ensures style == ApplyConfig(stored.value)
    {
      var c := LoadConfig();
      style := SetConfigItem(key, JBool(!Truthy(Get(c, key))));
    }

    /** Toggling a flip twice leaves that flip's effect on the page as it was. */
    method ToggleTwice(key: string) returns (style: PageStyle)
      modifies this`stored
      ensures stored.Some?
      ensures Truthy(Get(stored.value, key)) == Truthy(Get(LoadedConfig(old(stored)), key))
      ensures forall k :: k != key && k in LoadedConfig(old(stored)) ==> k in stored.value && stored.value[k] == LoadedConfig(old(stored))[k]
    {
      style := ToggleItem(key);
      style := ToggleItem(key);
    }

    /** The start of `refresh`: the reload time is cleared while the cycle is in flight. */
    method StartRefresh()
      modifies this`lastReloadTime
      ensures lastReloadTime == None
    {
      lastReloadTime := None;
    }

    /**
     * A whole `refresh` with the intended wrapper and tally: the reload time is
     * cleared, the cycle settles, and the reload time is set when it does.
     */
    method Refresh(videoRes: Option<Response<Video>>, commentRes: Option<Response<LegacyComment>>,
                   reactionRes: Option<Response<ReactionItem>>, now: int) returns (shown: Result<Loaded, string>)
      modifies this`lastReloadTime
      ensures shown == Cycle(videoRes, commentRes, reactionRes)
      ensures lastReloadTime == Some(now)
    {
      StartRefresh();
      shown := Cycle(videoRes, commentRes, reactionRes);
      lastReloadTime := Some(now);
    }

    /**
     * `refresh` as written: the reload time is set only if the cycle settles,
     * so an unsettled cycle leaves every later frame idle.
     */
    method RefreshAsWritten(videoRes: Option<Response<Video>>, commentRes: Option<Response<LegacyComment>>,
                            reactionRes: Option<Response<ReactionItem>>, now: int) returns (shown: Settlement<Loaded>)
      modifies this`lastReloadTime
      ensures shown == CycleAsWritten(videoRes, commentRes, reactionRes)
      ensures shown.Unsettled? ==> lastReloadTime == None
      ensures !shown.Unsettled? ==> lastReloadTime == Some(now)
    {
      StartRefresh();
      shown := CycleAsWritten(videoRes, commentRes, reactionRes);
      if !shown.Unsettled? {
        lastReloadTime := Some(now);
      }
    }

    /** `onFrame`: a due frame starts a refresh, clearing the reload time. */
    method OnFrame(now: int) returns (step: FrameStep)
      modifies this`lastReloadTime
      ensures step == FrameDecision(old(lastReloadTime), now)
      ensures step.StartRefresh? ==> lastReloadTime == None
      ensures !step.StartRefresh? ==> lastReloadTime == old(lastReloadTime)
    {
      step := FrameDecision(lastReloadTime, now);
      if step.StartRefresh? {
        StartRefresh();
      }
    }
  }

  /**
   * As written, a missing live-video response stalls the page for good: the
   * cycle never settles, the reload time stays cleared, and no later frame
   * starts another refresh; the intended wrapper shows an error and the
   * countdown resumes.
   */
  lemma MissingResponseStallsAsWritten(commentRes: Option<Response<LegacyComment>>,
                                       reactionRes: Option<Response<ReactionItem>>, now: int)
    ensures CycleAsWritten(None, commentRes, reactionRes) == Unsettled
    ensures FrameDecision(None, now) == Idle
    ensures Cycle(None, commentRes, reactionRes) == Failure("No response")
  {
  }
}
