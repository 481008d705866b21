/**
 * `TwitchClient`: a session that holds a shared HTTP connection and an OAuth token, the
 * Helix calls that need both, and the yt-dlp downloads that build their options from a
 * base dictionary. Network traffic is represented by the requests a call would send and
 * the decoded responses it is given.
 */
module Twitch {
  import opened Wrappers
  import opened Errors
  import opened Text
  import opened Helix
  import opened YtDlpOptions

  /** The shared httpx connection pool; only whether it is still open is modelled. */
  class Connection {
    var isOpen: bool

    constructor ()
      ensures isOpen
    {
      isOpen := true;
    }

    /** `aclose()`. */
    method Close()
      modifies this
      ensures !isOpen
    {
      isOpen := false;
    }
  }

  class TwitchClient {
    const clientId: string
    const clientSecret: string
    const apiBase: string
    const authUrl: string

    /** The shared connection, present between Enter and Exit. */
    var client: Option<Connection>
    /** The bearer token obtained on Enter. */
    var authToken: Option<string>

    constructor (clientId: string, clientSecret: string, apiBase: string := DEFAULT_API_BASE, authUrl: string := DEFAULT_AUTH_URL)
      ensures this.clientId == clientId && this.clientSecret == clientSecret
      ensures this.apiBase == apiBase && this.authUrl == authUrl
      ensures client == None && authToken == None
    {
      this.clientId := clientId;
      this.clientSecret := clientSecret;
      this.apiBase := apiBase;
      this.authUrl := authUrl;
      client := None;
      authToken := None;
    }

    /**
     * `__aenter__`: opens a new connection, then authenticates over it with one POST of
     * the client credentials to the token endpoint, whose answer is `answer`. When
     * authentication fails the connection stays assigned and the token keeps its previous
     * value, since the exception leaves `__aenter__` before the assignment and
     * `__aexit__` is not run.
     */
    method Enter(answer: TokenResponse) returns (outcome: Result<(), Error>, sent: seq<Request>)
      modifies this
      ensures client.Some? && fresh(client.value) && client.value.isOpen
      ensures sent == [Post(authUrl, map[], map["client_id" := Str(clientId), "client_secret" := Str(clientSecret),
                                               "grant_type" := Str("client_credentials")])]
      ensures outcome.Success? <==> AccessToken(answer).Success?
      ensures outcome.Success? ==> authToken == Some(AccessToken(answer).value)
      ensures outcome.Failure? ==> outcome.error == AccessToken(answer).error && authToken == old(authToken)
    {
      var connection := new Connection();
      client := Some(connection);
      var credentials := map["client_id" := Str(clientId), "client_secret" := Str(clientSecret),
                             "grant_type" := Str("client_credentials")];
      sent := [Post(authUrl, map[], credentials)];
      match AccessToken(answer)
      case Success(token) =>
        authToken := Some(token);
        outcome := Success(());
      case Failure(e) =>
        outcome := Failure(e);
    }

    /**
     * `__aexit__`: closes the connection if there is one, then clears both fields,
     * whatever state the session was in.
     */
    method Exit()
      modifies this, if client.Some? then {client.value} else {}
      ensures client == None && authToken == None
      ensures old(client).Some? ==> !old(client).value.isOpen
    {
      if client.Some? {
        client.value.Close();
      }
      client := None;
      authToken := None;
    }

    /** `_assert_client`: the shared connection, or the not-initialized error. */
    function AssertClient(): (r: Result<Connection, Error>)
      reads this
      ensures r.Success? <==> client.Some?
      ensures r.Success? ==> r.value == client.value
      ensures r.Failure? ==> r.error == NotInitialized
    {
      if client.None? then Failure(NotInitialized) else Success(client.value)
    }

    /**
     * `_get_broadcaster_id_from_name`: fails before sending anything when the session is
     * not entered or has no token; otherwise sends one users request for the login name
     * and takes the `id` of the first user, or raises not-found when there is none.
     */
    function GetBroadcasterIdFromName(name: string, users: Response): (x: Exchange<string>)
      reads this
      ensures client.None? ==> x == Exchange([], Failure(NotInitialized))
      ensures client.Some? && !TokenSet(authToken) ==> x == Exchange([], Failure(AuthTokenNotSet))
      ensures client.Some? && TokenSet(authToken) ==>
                && x.sent == [Get(apiBase + "/users", AuthHeaders(clientId, authToken).value, map["login" := Str(name)])]
                && x.result == FirstField(users, "No user found with name: " + name, "id")
    {
      match AssertClient()
      case Failure(e) => Exchange([], Failure(e))
      case Success(_) =>
        match AuthHeaders(clientId, authToken)
        case Failure(e) => Exchange([], Failure(e))
        case Success(headers) =>
          var request := Get(apiBase + "/users", headers, map["login" := Str(name)]);
          Exchange([request], FirstField(users, "No user found with name: " + name, "id"))
    }

    /**
     * `list_recent_vods`: resolves the login name, then asks for that user's archived
     * videos with the clamped page size, and returns them in the API's order. A failed
     * lookup ends the call after the users request.
     */
    function ListRecentVods(name: string, users: Response, videos: Response, limit: int := 20): (x: Exchange<seq<Record>>)
      reads this
      ensures client.None? ==> x == Exchange([], Failure(NotInitialized))
      ensures client.Some? && !TokenSet(authToken) ==> x == Exchange([], Failure(AuthTokenNotSet))
      ensures client.Some? && TokenSet(authToken) ==>
                var lookup := GetBroadcasterIdFromName(name, users);
                && 1 <= |x.sent| && x.sent[..1] == lookup.sent
                && (lookup.result.Failure? ==> x == Exchange(lookup.sent, Failure(lookup.result.error)))
                && (lookup.result.Success? ==>
                      && |x.sent| == 2
                      && x.sent[1] == Get(apiBase + "/videos", AuthHeaders(clientId, authToken).value,
                                          map["user_id" := Str(lookup.result.value), "type" := Str("archive"),
                                              "first" := Int(PageSize(limit))])
                      && x.result == VideoList(videos))
      ensures forall i :: 0 <= i < |x.sent| && "first" in x.sent[i].params ==>
                x.sent[i].params["first"].Int? && 1 <= x.sent[i].params["first"].n <= MAX_PAGE_SIZE
    {
      match AssertClient()
      case Failure(e) => Exchange([], Failure(e))
      case Success(_) =>
        match AuthHeaders(clientId, authToken)
        case Failure(e) => Exchange([], Failure(e))
        case Success(headers) =>
          var lookup := GetBroadcasterIdFromName(name, users);
          match lookup.result
          case Failure(e) => Exchange(lookup.sent, Failure(e))
          case Success(broadcasterId) =>
            var params := map["user_id" := Str(broadcasterId), "type" := Str("archive"), "first" := Int(PageSize(limit))];
            Exchange(lookup.sent + [Get(apiBase + "/videos", headers, params)], VideoList(videos))
    }

    /**
     * `get_vod_thumbnail_url`: asks for the video by id and fills the first record's
     * thumbnail template with the requested size; the URL it returns has no placeholder
     * left.
     */
    function GetVodThumbnailUrl(videoId: string, videos: Response, width: int := 1920, height: int := 1080): (x: Exchange<string>)
      reads this
      ensures client.None? ==> x == Exchange([], Failure(NotInitialized))
      ensures client.Some? && !TokenSet(authToken) ==> x == Exchange([], Failure(AuthTokenNotSet))
      ensures client.Some? && TokenSet(authToken) ==>
                var lookup := FirstField(videos, "No VOD found with ID: " + videoId, "thumbnail_url");
                && x.sent == [Get(apiBase + "/videos", AuthHeaders(clientId, authToken).value, map["id" := Str(videoId)])]
                && (lookup.Failure? ==> x.result == Failure(lookup.error))
                && (lookup.Success? ==> x.result == Success(FillThumbnail(lookup.value, width, height)))
      ensures x.result.Success? ==>
                !Occurs(x.result.value, WIDTH_PLACEHOLDER) && !Occurs(x.result.value, HEIGHT_PLACEHOLDER)
    {
      match AssertClient()
      case Failure(e) => Exchange([], Failure(e))
      case Success(_) =>
        match AuthHeaders(clientId, authToken)
        case Failure(e) => Exchange([], Failure(e))
        case Success(headers) =>
          var request := Get(apiBase + "/videos", headers, map["id" := Str(videoId)]);
          match FirstField(videos, "No VOD found with ID: " + videoId, "thumbnail_url")
          case Failure(e) => Exchange([request], Failure(e))
          case Success(template) =>
            Exchange([request], Success(FillThumbnail(template, width, height)))
    }

    /**
     * `_download_with_yt_dlp` up to the call into yt-dlp: turns verbose output on and
     * installs the console logger unless one is set, in the dictionary it was given.
     */
    method DownloadWithYtDlp(url: string, opts: OptionDict) returns (invocation: Invocation)
      modifies opts
      ensures opts.entries == Finalized(old(opts.entries))
      ensures invocation == Invocation(url, opts.entries)
    {
      if LOGGER !in opts.entries {
        opts.entries := opts.entries[LOGGER := ConsoleLogger];
      }
      opts.entries := opts.entries[VERBOSE := Flag(true)];
      invocation := Invocation(url, opts.entries);
    }

    /**
     * `_download_media`: copies the base dictionary, sets the output template and, for a
     * time range, engages ffmpeg with its argument lists and drops `download_sections`;
     * then hands the copy on. The caller's dictionary is not modified (there is no
     * `modifies` clause), and no session is needed.
     */
    method DownloadMedia(videoId: string, outputPath: string, start: Option<string>, end: Option<string>, base: OptionDict)
      returns (invocation: Invocation)
      ensures invocation == ExpectedInvocation(videoId, outputPath, start, end, base.entries)
    {
      var url := VIDEO_URL_PREFIX + videoId;
      var opts := new OptionDict(base.entries);
      opts.entries := opts.entries[OUTTMPL := Text(outputPath)];
      if Given(start) || Given(end) {
        var inputArgs: seq<string> := [];
        if Given(start) {
          inputArgs := inputArgs + ["-ss", start.value];
        }
        if Given(end) {
          inputArgs := inputArgs + ["-to", end.value];
        }
        var outputArgs := ["-loglevel", "info"];
        assert inputArgs == InputArgs(start, end);
        opts.entries := opts.entries[EXTERNAL_DOWNLOADER := Text("ffmpeg")];
        opts.entries := opts.entries[EXTERNAL_DOWNLOADER_ARGS := DownloaderArgs(map["ffmpeg_i" := inputArgs, "default" := outputArgs])];
        opts.entries := opts.entries - {DOWNLOAD_SECTIONS};
      }
      OptionNamesDistinct();
      assert opts.entries == MediaOptions(base.entries, outputPath, start, end);
      invocation := DownloadWithYtDlp(url, opts);
    }

    /**
     * `download_vod`, with the call to `_download_media` binding its five parameters.
     * As written the wrapper also passes `media_type_log`, which `_download_media` does
     * not declare, so the call raises TypeError (YtDlpOptions.WrapperCallRejected).
     */
    method DownloadVod(videoId: string, outputPath: string, start: Option<string> := None, end: Option<string> := None)
      returns (invocation: Invocation)
      ensures invocation == ExpectedInvocation(videoId, outputPath, start, end, VOD_BASE)
      ensures POSTPROCESSORS !in invocation.options
    {
      var base := new OptionDict(VOD_BASE);
      invocation := DownloadMedia(videoId, outputPath, start, end, base);
      AudioOnlyExtracts(videoId, outputPath, start, end);
    }

    /**
     * `download_vod_audio`, with the same correction as DownloadVod: the audio base
     * dictionary, whose post-processor extracts the audio track into m4a.
     */
    method DownloadVodAudio(videoId: string, outputPath: string, start: Option<string> := None, end: Option<string> := None)
      returns (invocation: Invocation)
      ensures invocation == ExpectedInvocation(videoId, outputPath, start, end, AUDIO_BASE)
      ensures POSTPROCESSORS in invocation.options && invocation.options[POSTPROCESSORS] == PostProcessors(EXTRACT_M4A)
    {
      var base := new OptionDict(AUDIO_BASE);
      invocation := DownloadMedia(videoId, outputPath, start, end, base);
      AudioOnlyExtracts(videoId, outputPath, start, end);
    }
  }

  /**
   * The session of the class's usage note, seen from outside: before it is entered and
   * after it is left, a Helix call fails with the not-initialized error and sends nothing;
   * in between, a successful authentication enters it.
   */
  method SessionLifecycle(token: string, users: Response, videos: Response)
    returns (before: Exchange<string>, entered: Result<(), Error>, after: Exchange<seq<Record>>)
    ensures before == Exchange([], Failure(NotInitialized))
    ensures entered.Success?
    ensures after == Exchange([], Failure(NotInitialized))
  {
    var c := new TwitchClient("id", "secret");
    before := c.GetBroadcasterIdFromName("streamer", users);
    var sent;
    entered, sent := c.Enter(TokenResponse(200, map[ACCESS_TOKEN := token]));
    c.Exit();
    after := c.ListRecentVods("streamer", users, videos);
  }
}
