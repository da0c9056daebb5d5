/** `mastodon_api.py`: which timeline the client requests, how a post's
    media ids are gathered, and the configuration an app registration
    yields. The client library's calls are parameters returning a `Result`. */
module MastodonApi {
  import opened Wrappers
  import opened Strings
  import opened Config

  // ---------------------------------------------------------------------
  // get_toots

  /** The timeline endpoint `get_toots` calls. */
  datatype Timeline = Home | Local | Public | Hashtag(tag: string) | ListTimeline(listId: string)

  const TagPrefix: string := "tag:"
  const ListPrefix: string := "list:"
  const UnknownTimelinePrefix: string := "不明なタイムラインタイプ: "
  const FetchErrorPrefix: string := "タイムライン取得エラー: "

  /** `s.split(":", 1)[1]`: everything after the first colon. */
  function AfterFirstColon(s: string): (r: string)
    requires ':' in s
    ensures |r| < |s| && r == s[|s| - |r|..]
    ensures s[|s| - |r| - 1] == ':' && ':' !in s[..|s| - |r| - 1]
  {
    var i := FirstIndexOf(s, ':', 0);
    assert ':' !in s[..i];
    s[i + 1..]
  }

  /** The timeline a timeline-type string selects: one of the exact names
      "home", "local" and "public", or a hashtag or list named by what
      follows the first colon after `tag` or `list`; None for anything else. */
  function TimelineFor(t: string): (r: Option<Timeline>)
    ensures r == Some(Home) <==> t == "home"
    ensures r == Some(Local) <==> t == "local"
    ensures r == Some(Public) <==> t == "public"
    ensures r.Some? && r.value.Hashtag? <==> StartsWith(t, TagPrefix)
    ensures r.Some? && r.value.Hashtag? ==> r.value.tag == t[|TagPrefix|..]
    ensures r.Some? && r.value.ListTimeline? <==> StartsWith(t, ListPrefix)
    ensures r.Some? && r.value.ListTimeline? ==> r.value.listId == t[|ListPrefix|..]
  {
    if t == "home" then
      assert t[0] != TagPrefix[0] && t[0] != ListPrefix[0];
      Some(Home)
    else if t == "local" then
      assert t[0] != TagPrefix[0] && t[1] != ListPrefix[1];
      Some(Local)
    else if t == "public" then
      assert t[0] != TagPrefix[0] && t[0] != ListPrefix[0];
      Some(Public)
    else if StartsWith(t, TagPrefix) then
      assert t[3] == ':';
      assert ':' !in t[..3];
      Some(Hashtag(AfterFirstColon(t)))
    else if StartsWith(t, ListPrefix) then
      assert t[4] == ':';
      assert ':' !in t[..4];
      Some(ListTimeline(AfterFirstColon(t)))
    else None
  }

  /** No timeline is selected exactly when the string is none of the three
      names and carries neither prefix. */
  lemma UnknownTimeline(t: string)
    ensures TimelineFor(t).None? <==>
      t != "home" && t != "local" && t != "public" && !StartsWith(t, TagPrefix) && !StartsWith(t, ListPrefix)
  {
  }

  /** Only the first colon splits: "tag:a:b" names the hashtag "a:b", "tag:"
      the empty hashtag, and "tag" without a colon nothing at all. */
  lemma TimelineExamples()
    ensures TimelineFor("tag:a:b") == Some(Hashtag("a:b"))
    ensures TimelineFor("tag:") == Some(Hashtag(""))
    ensures TimelineFor("list:42") == Some(ListTimeline("42"))
    ensures TimelineFor("tag") == None
    ensures TimelineFor("Home") == None
  {
    assert StartsWith("tag:a:b", TagPrefix);
    assert StartsWith("tag:", TagPrefix);
    assert StartsWith("list:42", ListPrefix);
    UnknownTimeline("tag");
    UnknownTimeline("Home");
  }

  /** What a call returned and what it printed, one entry per `print`. */
  datatype Outcome<T> = Outcome(value: Option<T>, printed: seq<string>)

  /** `get_toots(mastodon, timeline_type, count)`; `fetch` stands for the
      library's timeline call with `limit=count`. */
  function GetToots<T>(t: string, count: int, fetch: (Timeline, int) -> Result<T>): (r: Outcome<T>)
    ensures TimelineFor(t).None? ==> r == Outcome(None, [UnknownTimelinePrefix + t])
    ensures TimelineFor(t).Some? ==>
      var fetched := fetch(TimelineFor(t).value, count);
      && (fetched.Success? ==> r == Outcome(Some(fetched.value), []))
      && (fetched.Failure? ==> r == Outcome(None, [FetchErrorPrefix + fetched.error]))
  {
    match TimelineFor(t)
    case None => Outcome(None, [UnknownTimelinePrefix + t])
    case Some(timeline) =>
      match fetch(timeline, count)
      case Success(toots) => Outcome(Some(toots), [])
      case Failure(e) => Outcome(None, [FetchErrorPrefix + e])
  }

  /** `get_toots` returns toots exactly when the string names a timeline and
      the library call for it succeeds, and then returns what the call
      returned. */
  lemma GetTootsSucceeds<T>(t: string, count: int, fetch: (Timeline, int) -> Result<T>)
    ensures GetToots(t, count, fetch).value.Some? <==>
      TimelineFor(t).Some? && fetch(TimelineFor(t).value, count).Success?
    ensures GetToots(t, count, fetch).value.Some? ==>
      GetToots(t, count, fetch).value.value == fetch(TimelineFor(t).value, count).value
  {
  }

  // ---------------------------------------------------------------------
  // post_toot

  const UploadErrorPrefix: string := "メディアアップロードエラー ("
  const PostErrorPrefix: string := "投稿エラー: "

  /** The line printed for a failed upload: the file in parentheses, then
      the error. */
  function UploadErrorLine(file: string, e: string): (line: string)
    ensures StartsWith(line, UploadErrorPrefix + file + ")")
    ensures EndsWith(line, "): " + e)
  {
    UploadErrorPrefix + file + "): " + e
  }

  /** The ids of the uploads that succeeded, in file order; `outcomes[i]` is
      what the i-th call of `media_post` returned. */
  function UploadedIds<Id>(outcomes: seq<Result<Id>>): (ids: seq<Id>)
    ensures |ids| <= |outcomes|
  {
    if outcomes == [] then []
    else
      var last := outcomes[|outcomes| - 1];
      UploadedIds(outcomes[..|outcomes| - 1]) + (if last.Success? then [last.value] else [])
  }

  /** One printed line per failed upload, in file order. */
  function UploadErrors<Id>(files: seq<string>, outcomes: seq<Result<Id>>): (lines: seq<string>)
    requires |outcomes| == |files|
    ensures |lines| <= |files|
  {
    if files == [] then []
    else
      var n := |files| - 1;
      UploadErrors(files[..n], outcomes[..n])
      + (if outcomes[n].Failure? then [UploadErrorLine(files[n], outcomes[n].error)] else [])
  }

  /** Every file is either uploaded or reported, never both and never
      neither. */
  lemma {:induction false} UploadsAccounted<Id>(files: seq<string>, outcomes: seq<Result<Id>>)
    requires |outcomes| == |files|
    ensures |UploadedIds(outcomes)| + |UploadErrors(files, outcomes)| == |files|
  {
    if files != [] {
      UploadsAccounted(files[..|files| - 1], outcomes[..|files| - 1]);
    }
  }

  /** When every upload succeeds the ids are the uploads' ids, one per file in
      order; when every upload fails there are none. */
  lemma {:induction false} UploadedIdsExtremes<Id>(outcomes: seq<Result<Id>>)
    ensures (forall i :: 0 <= i < |outcomes| ==> outcomes[i].Success?) ==>
      UploadedIds(outcomes) == seq(|outcomes|, i requires 0 <= i < |outcomes| && outcomes[i].Success? => outcomes[i].value)
    ensures (forall i :: 0 <= i < |outcomes| ==> outcomes[i].Failure?) ==> UploadedIds(outcomes) == []
  {
    if outcomes != [] {
      var init := outcomes[..|outcomes| - 1];
      UploadedIdsExtremes(init);
      assert forall i :: 0 <= i < |init| ==> init[i] == outcomes[i];
    }
  }

  /** A failed upload is skipped: the ids gathered with it are the ids
      gathered without it. */
  lemma UploadFailureSkipped<Id>(before: seq<Result<Id>>, failed: Result<Id>, after: seq<Result<Id>>)
    requires failed.Failure?
    ensures UploadedIds(before + [failed] + after) == UploadedIds(before + after)
    decreases |after|
  {
    if after == [] {
      assert (before + [failed])[..|before|] == before;
      assert before + [failed] + [] == before + [failed];
      assert before + [] == before;
    } else {
      var n := |after| - 1;
      assert (before + [failed] + after)[..|before| + 1 + n] == before + [failed] + after[..n];
      assert (before + after)[..|before| + n] == before + after[..n];
      UploadFailureSkipped(before, failed, after[..n]);
    }
  }

  /** The same path given twice is uploaded twice, each call with its own
      outcome. */
  lemma RepeatedPathUploads(file: string, e: string)
    ensures UploadedIds([Success(1), Success(2)]) == [1, 2]
    ensures UploadedIds([Failure(e), Success(2)]) == [2]
    ensures UploadErrors([file, file], [Failure(e), Success(2)]) == [UploadErrorLine(file, e)]
  {
    assert [Success(1), Success(2)][..1] == [Success(1)];
    assert [Failure(e), Success(2)][..1] == [Failure(e)];
    assert [file, file][..1] == [file];
  }

  /** The arguments of `status_post`. */
  datatype StatusRequest<Id> = StatusRequest(
    text: string,
    mediaIds: Option<seq<Id>>,
    visibility: string,
    sensitive: bool,
    spoilerText: Option<string>)

  /** The loop of `post_toot` over the media files; `outcomes[i]` is what
      `media_post(files[i])` returned. */
  method UploadMedia<Id>(files: seq<string>, outcomes: seq<Result<Id>>)
    returns (mediaIds: seq<Id>, printed: seq<string>)
    requires |outcomes| == |files|
    ensures mediaIds == UploadedIds(outcomes)
    ensures printed == UploadErrors(files, outcomes)
  {
    mediaIds, printed := [], [];
    for i := 0 to |files|
      invariant mediaIds == UploadedIds(outcomes[..i])
      invariant printed == UploadErrors(files[..i], outcomes[..i])
    {
      assert files[..i + 1][..i] == files[..i];
      assert outcomes[..i + 1][..i] == outcomes[..i];
      match outcomes[i]
      case Success(id) =>
        mediaIds := mediaIds + [id];
      case Failure(e) =>
        printed := printed + [UploadErrorLine(files[i], e)];
    }
    assert files[..|files|] == files;
    assert outcomes[..|files|] == outcomes;
  }

  /** `post_toot(mastodon, text, visibility, media_files, sensitive,
      spoiler_text)`: uploads each file, skipping failures, then posts the
      status with the gathered ids, or with no ids when none succeeded; the
      post is returned, or None when posting fails. A missing `media_files`
      is the empty sequence; `uploads[i]` is what the i-th `media_post`
      call returned. */
  method PostToot<Id, S>(text: string, visibility: string, mediaFiles: seq<string>,
                         sensitive: bool, spoilerText: Option<string>,
                         uploads: seq<Result<Id>>, post: StatusRequest<Id> -> Result<S>)
    returns (request: StatusRequest<Id>, toot: Option<S>, printed: seq<string>)
    requires |uploads| == |mediaFiles|
    ensures var ids := UploadedIds(uploads);
            request == StatusRequest(text, if ids == [] then None else Some(ids), visibility, sensitive, spoilerText)
    ensures post(request).Success? ==> toot == Some(post(request).value)
    ensures post(request).Failure? ==> toot == None
    ensures printed == UploadErrors(mediaFiles, uploads)
                       + (if post(request).Failure? then [PostErrorPrefix + post(request).error] else [])
  {
    var mediaIds;
    mediaIds, printed := UploadMedia(mediaFiles, uploads);
    request := StatusRequest(text, if mediaIds != [] then Some(mediaIds) else None, visibility, sensitive, spoilerText);
    match post(request)
    case Success(posted) =>
      toot := Some(posted);
    case Failure(e) =>
      toot := None;
      printed := printed + [PostErrorPrefix + e];
  }

  // ---------------------------------------------------------------------
  // create_app

  const AppName: string := "mastodon-cli"
  const AppScopes: seq<string> := ["read", "write"]
  const AppWebsiteVar: string := "MASTODON_APP_WEBSITE"
  const RegistrationErrorPrefix: string := "アプリケーション登録エラー: "

  /** The arguments of `Mastodon.create_app`. */
  datatype AppRegistration = AppRegistration(name: string, apiBaseUrl: string, scopes: seq<string>, website: Option<string>)

  /** A client id and secret issued by the instance. */
  datatype Credentials = Credentials(clientId: string, clientSecret: string)

  /** The configuration `create_app` returns: the instance URL and the new
      client credentials, and no other key. */
  function AppConfig(instanceUrl: string, c: Credentials): (config: map<string, string>)
    ensures config.Keys == {InstanceUrlKey, ClientIdKey, ClientSecretKey}
    ensures config[InstanceUrlKey] == instanceUrl
    ensures config[ClientIdKey] == c.clientId && config[ClientSecretKey] == c.clientSecret
  {
    map[InstanceUrlKey := instanceUrl, ClientIdKey := c.clientId, ClientSecretKey := c.clientSecret]
  }

  /** `create_app` either exits with the given status after printing, or
      returns the app configuration, the `.env` lines having been saved. */
  datatype AppOutcome =
    | Exited(status: int, printed: seq<string>)
    | Registered(config: map<string, string>, envLines: seq<string>)

  /** `create_app(instance_url)`: registers the app under the fixed name and
      scopes with the website taken from the environment; on success saves
      the client id and secret and returns a configuration holding exactly
      the instance URL, the client id and the client secret; on failure
      prints the error and exits with status 1. `existing` is the text of
      `.env`, None when it does not exist. */
  method CreateApp(instanceUrl: string, env: Env, existing: Option<string>,
                   register: AppRegistration -> Result<Credentials>)
    returns (registration: AppRegistration, outcome: AppOutcome)
    ensures registration == AppRegistration(AppName, instanceUrl, AppScopes, Getenv(env, AppWebsiteVar))
    ensures outcome.Registered? <==> register(registration).Success?
    ensures register(registration).Failure? ==>
      outcome == Exited(1, [RegistrationErrorPrefix + register(registration).error])
    ensures register(registration).Success? ==>
      var c := register(registration).value;
      && outcome.config == AppConfig(instanceUrl, c)
      && TokensSaved(StartingLines(existing, env), outcome.envLines, c.clientId, c.clientSecret, None)
  {
    registration := AppRegistration(AppName, instanceUrl, AppScopes, Getenv(env, AppWebsiteVar));
    match register(registration)
    case Failure(e) =>
      outcome := Exited(1, [RegistrationErrorPrefix + e]);
    case Success(c) =>
      var appConfig := AppConfig(instanceUrl, c);
      var written := SaveTokensToEnv(existing, env, c.clientId, c.clientSecret, None);
      outcome := Registered(appConfig, written);
  }
}
