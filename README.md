# TwitchClient, modelled in Dafny

This project models the asynchronous Twitch client of `src/clients/twitch.py`. The client is a
session object. Entering it opens a shared HTTP connection and fetches an OAuth token with the
client-credentials grant. Leaving it closes the connection and forgets the token. In between, it
makes three Helix API calls:

- resolve a login name to a user id;
- list a broadcaster's recent archived videos;
- get a video's thumbnail URL at a chosen size.

It also builds the yt-dlp option dictionary for a full or audio-only VOD download, optionally
clipped to a time range by ffmpeg.

The project has six modules:

- `Text` (`text.dfy`) holds the two pieces of Python's string library the client relies on:
  `str(n)` on integers and `str.replace`.
- `Helix` (`helix.dfy`) holds the request and response rules of the Helix calls:
  - authentication headers;
  - the page-size clamp;
  - "empty `data` means not found, else read the first record";
  - the thumbnail `{width}`/`{height}` substitution;
  - reading the token endpoint's answer.
- `YtDlpOptions` (`ytdlp_options.dfy`) holds:
  - the two base dictionaries;
  - what `_download_media` adds and removes for an output path and a time range;
  - what `_download_with_yt_dlp` adds before invoking yt-dlp;
  - Python's keyword-argument binding, which decides whether the public download wrappers
    reach `_download_media` at all.
- `Twitch` (`twitch.dfy`) holds the client itself:
  - a class whose fields `client` and `authToken` are updated in place by `Enter` and `Exit`;
  - the Helix calls as functions of that state;
  - the downloads as methods over a mutable `OptionDict`, which models a Python dictionary, so
    that `dict.copy()` and in-place `setdefault`/assignment are modelled as such.
- `Errors` and `Wrappers` hold the exception kinds and `Option`/`Result`.

Network traffic is represented as data. A call takes the decoded responses it would receive as
parameters. It returns an `Exchange`: the requests it would send, in order, and its result or the
exception it raises. A call that fails before sending anything therefore has an empty request
list.

Two behaviours of the code that a reader might not expect:

- The downloads need no entered session. `_download_media` never calls `_assert_client`.
- A failed authentication leaves the new connection assigned. The exception leaves `__aenter__`
  before the token is stored, and `__aexit__` is not run.

## Model

| member | source | states |
|---|---|---|
| Text.Decimal | src/clients/twitch.py:164-166 | `str(n)` is canonical: digits with a leading minus exactly when `n` is negative, `"0"` exactly for zero, and no leading zero otherwise |
| Text.DecimalRoundTrip | src/clients/twitch.py:164-166 | reading the text of `str(n)` back as an integer gives `n`, so the size written into the URL is the size asked for |
| Text.Replace | src/clients/twitch.py:164-166 | `s.replace(p, r)` scans left to right without overlaps; a replacement no longer than the pattern never lengthens the text, and one no shorter never shortens it (its full behaviour is fixed by ReplaceAbsent and ReplaceFirstOccurrence) |
| Text.ReplaceAbsent | src/clients/twitch.py:164-166 | `s.replace(p, r)` returns `s` unchanged when `p` does not occur in `s` |
| Text.ReplaceFirstOccurrence | src/clients/twitch.py:164-166 | `replace` keeps the text before the first occurrence, puts `r` in its place, and continues after it |
| Text.ReplaceLeavesNone | src/clients/twitch.py:164-166 | after `replace(q, r)` with a non-empty `r` that shares no character with `p`, `p` does not occur, if it did not before or if `p` is `q` |
| Helix.PageSize | src/clients/twitch.py:127 | the `first` parameter is always between 1 and 100, equals `limit` within that range, and is 1 below it and 100 above it |
| Helix.AuthHeaders | src/clients/twitch.py:69-78 | a missing or empty token raises the token-not-set error, and only then; otherwise there are exactly the `Client-ID` and `Authorization: Bearer <token>` headers |
| Helix.AuthHeadersCarryToken | src/clients/twitch.py:75-78 | the bearer scheme's token read back from the `Authorization` header is the session's token |
| Helix.RaiseForStatus | src/clients/twitch.py:92-94 | `raise_for_status` (the 2xx test IsSuccess) comes first: the token, lookup and list readers raise the HTTP error exactly for a non-2xx status, whatever the body holds |
| Helix.AccessToken | src/clients/twitch.py:92-94 | the token endpoint's answer yields a token exactly when its status is 2xx and it has `access_token`; otherwise the HTTP error, or KeyError for the missing member |
| Helix.FirstField | src/clients/twitch.py:106-110 | non-2xx raises the HTTP error; not-found is raised exactly when the status passes and `data` is missing or empty; KeyError exactly when the first record lacks the field; otherwise the first record's field |
| Helix.VideoList | src/clients/twitch.py:135-136 | non-2xx raises the HTTP error, and only then; otherwise the `data` list in the API's order, or no videos when `data` is absent |
| Helix.FillThumbnail | src/clients/twitch.py:164-166 | every `{width}` becomes `str(width)`, then every `{height}` becomes `str(height)`; no `{width}` and no `{height}` remains in the URL, whatever the template and the size |
| Helix.FillThumbnailWithoutPlaceholders | src/clients/twitch.py:164-166 | a template without placeholders is returned unchanged |
| Helix.FillFirstPlaceholder | src/clients/twitch.py:164-166 | a placeholder with no `{` before it is replaced and the text before it is kept |
| Helix.FillThumbnailBothPlaceholders | src/clients/twitch.py:164-166 | in a template `prefix{width}middle{height}suffix` without other braces, the placeholders become `str(width)` and `str(height)` and the rest is kept |
| Helix.FillThumbnailExample | src/clients/twitch.py:164-166 | `https://x/{width}x{height}.jpg` at 640 by 360 becomes `https://x/640x360.jpg` |
| YtDlpOptions.VodBaseOptions | src/clients/twitch.py:254-257 | the full-video base dictionary holds exactly the HLS video-and-audio format selector and overwriting, and none of the options `_download_media` sets or removes |
| YtDlpOptions.AudioBaseOptions | src/clients/twitch.py:280-287 | the audio base dictionary holds exactly the HLS audio format selector, the m4a extraction step and overwriting, and none of the options `_download_media` sets or removes |
| YtDlpOptions.VideoUrl | src/clients/twitch.py:216 | the download URL is the Twitch videos prefix followed by the video id, and nothing else |
| YtDlpOptions.InputArgs | src/clients/twitch.py:222-227 | the ffmpeg input arguments are `-ss start` when a start is given, then `-to end` when an end is given, and nothing else |
| YtDlpOptions.MediaOptions | src/clients/twitch.py:218-237 | the output template is the path. A clipped download engages ffmpeg with its argument lists and drops `download_sections`. An unclipped one adds only the template. Every other base option is kept |
| YtDlpOptions.EngageFfmpeg | src/clients/twitch.py:231-237 | ffmpeg becomes the external downloader with the given arguments, `download_sections` is removed, and every other option is kept |
| YtDlpOptions.Finalized | src/clients/twitch.py:194-195 | verbose is on; the caller's logger is kept if there is one, else the console logger is installed; every other option is kept |
| YtDlpOptions.ClipArgumentScenarios | src/clients/twitch.py:222-235 | start only seeks; start and end seek then stop; an empty end counts as absent; the output side always sets `-loglevel info` |
| YtDlpOptions.UnclippedKeepsSections | src/clients/twitch.py:222 | without a time range, ffmpeg is not engaged and `download_sections` is left as it was |
| YtDlpOptions.AudioOnlyExtracts | src/clients/twitch.py:254-287 | an audio download always carries the m4a extraction post-processor; a video download never has one |
| YtDlpOptions.BindKeywords | src/clients/twitch.py:206-213 | a call with keyword arguments binds exactly when every keyword is a parameter and every parameter gets one; any unexpected keyword is reported, by name, before a missing argument; a missing argument names a parameter that received no keyword |
| YtDlpOptions.WrapperCallRejected | src/clients/twitch.py:259-266 | the wrappers' call to `_download_media` raises TypeError for the unexpected keyword `media_type_log` |
| YtDlpOptions.CorrectedCallBinds | src/clients/twitch.py:206-213 | a call passing exactly the five declared parameters binds |
| YtDlpOptions.OptionDict.constructor | src/clients/twitch.py:218 | a copied dictionary starts with the base's entries |
| Twitch.Connection.Close | src/clients/twitch.py:54-55 | a closed connection is no longer open |
| Twitch.TwitchClient.constructor | src/clients/twitch.py:25-38 | the credentials and endpoints are stored, with the Helix and token URLs as defaults; no connection and no token |
| Twitch.TwitchClient.Enter | src/clients/twitch.py:46-50 | a fresh open connection is assigned. Exactly one POST of the client credentials goes to the token URL. The token is stored when the answer yields one. Otherwise the error is raised and the previous token is kept |
| Twitch.TwitchClient.Exit | src/clients/twitch.py:52-57 | the previous connection, if any, is closed; afterwards there is no connection and no token, from any state |
| Twitch.TwitchClient.AssertClient | src/clients/twitch.py:59-67 | the connection is returned exactly when there is one; otherwise the not-initialized error |
| Twitch.TwitchClient.GetBroadcasterIdFromName | src/clients/twitch.py:96-110 | without a session or a token, nothing is sent and the matching error is raised; otherwise one users request for the login name, and the first user's `id` or the not-found error |
| Twitch.TwitchClient.ListRecentVods | src/clients/twitch.py:112-136 | the users lookup comes first, and its failure ends the call. Otherwise a second request, a GET of the videos URL, asks for that user's archives with the clamped page size and the same headers, and the result is the video list. No request's `first` is outside 1..100 |
| Twitch.TwitchClient.GetVodThumbnailUrl | src/clients/twitch.py:138-166 | one videos request by id. The first video's template is filled with `str(width)` and `str(height)`, or the lookup error is raised. A returned URL never contains a placeholder |
| Twitch.TwitchClient.DownloadWithYtDlp | src/clients/twitch.py:168-204 | the given dictionary is changed in place to its finalized form, and yt-dlp is invoked on the URL with exactly that dictionary |
| Twitch.TwitchClient.DownloadMedia | src/clients/twitch.py:206-239 | yt-dlp is invoked on the video's URL with the finalized media options built from a copy of the base; the caller's dictionary is not modified |
| Twitch.TwitchClient.DownloadVod | src/clients/twitch.py:241-266 | corrected: the full-video base dictionary goes through `_download_media`, and the result has no post-processor |
| Twitch.TwitchClient.DownloadVodAudio | src/clients/twitch.py:268-296 | corrected: the audio base dictionary goes through `_download_media`, and the result extracts m4a audio |
| Twitch.SessionLifecycle | src/clients/twitch.py:19-22 | before a session is entered and after it is left, a Helix call sends nothing and fails with the not-initialized error; a successful token answer enters it |

## Left out

- The HTTP transport is not modelled: connection errors, the 30-second timeout, JSON decoding, and the fact that every call is a coroutine. A call takes the decoded responses as parameters.
- Response records carry every field as text. Only `id` and `thumbnail_url` are read, both as strings.
- Helix.VideoList: a JSON `data` member that is present but `null` makes `.get("data", [])` return `None`. The model does not distinguish it from an absent member, which yields no videos.
- The yt-dlp call itself is not modelled: the `YoutubeDL` context, the worker thread, the download and the re-raise after printing. It ends in an `Invocation` naming the URL and the options yt-dlp receives.
- The logger class's console output and the warning printed when yt-dlp is missing are left out.
- The `yt_dlp is None` checks (lines 40-44 and 176-180) are left out. The module is imported unconditionally, so these branches cannot run.
- Option values that a caller's base dictionary may hold are represented by a tag (`Opaque`); they are only copied.
- Text.Decimal: Python (3.10.7 and later) refuses `str(n)` for an integer of more than 4300 decimal digits, the default `int_max_str_digits` limit, and raises ValueError. The model's `str(n)` is total and gives the digits for every integer.
- Helix.FillThumbnail: a width or height of more than 4300 digits makes `str()` raise ValueError at line 164. The model returns a filled URL instead, because its `str(n)` has no digit limit.
- Twitch.TwitchClient.GetVodThumbnailUrl: for a size of more than 4300 digits, Python raises ValueError after sending the videos request and passing the lookup. The model promises the filled URL instead, because its `str(n)` has no digit limit.
- Twitch.TwitchClient.DownloadVod and Twitch.TwitchClient.DownloadVodAudio model the wrappers as evidently intended. As written they fail, as stated under Findings.

## Findings

| source | as written | input that shows it | evidently intended | confidence | as-written member | corrected member |
|---|---|---|---|---|---|---|
| src/clients/twitch.py:259-266 | `download_vod` passes `media_type_log="VOD"` to `_download_media`, which has no such parameter, so every call raises TypeError | any call, e.g. `download_vod("1", "a.mp4")` | call `_download_media` with its five parameters | high, not executed | YtDlpOptions.WrapperCallRejected | Twitch.TwitchClient.DownloadVod |
| src/clients/twitch.py:289-295 | `download_vod_audio` passes `media_type_log="VOD audio"` in the same way and raises TypeError | any call, e.g. `download_vod_audio("1", "a.m4a")` | call `_download_media` with its five parameters | high, not executed | YtDlpOptions.WrapperCallRejected | Twitch.TwitchClient.DownloadVodAudio |
