/**
 * The yt-dlp option dictionary the client assembles before a download: the two base
 * dictionaries, what `_download_media` adds or removes for an output path and an
 * optional time range, and what `_download_with_yt_dlp` adds before invoking yt-dlp.
 */
module YtDlpOptions {
  import opened Wrappers
  import opened Errors

  /** The kinds of value the option dictionary holds. */
  datatype OptVal =
    | Text(s: string)
    | Flag(b: bool)
    /** A list of post-processor dictionaries. */
    | PostProcessors(steps: seq<map<string, string>>)
    /** `external_downloader_args`: argument lists keyed by the part of ffmpeg they go to. */
    | DownloaderArgs(args: map<string, seq<string>>)
    /** The client's logger object, which echoes yt-dlp's messages to standard output. */
    | ConsoleLogger
    /** Any other value a caller may have put into a base dictionary. */
    | Opaque(tag: string)

  type Options = map<string, OptVal>

  const OUTTMPL := "outtmpl"
  const EXTERNAL_DOWNLOADER := "external_downloader"
  const EXTERNAL_DOWNLOADER_ARGS := "external_downloader_args"
  const DOWNLOAD_SECTIONS := "download_sections"
  const POSTPROCESSORS := "postprocessors"
  const LOGGER := "logger"
  const VERBOSE := "verbose"

  const VIDEO_URL_PREFIX := "https://www.twitch.tv/videos/"

  /** Format selector of a full download: best HLS video and audio, else best HLS stream. */
  const VOD_FORMAT := "bestvideo[protocol=m3u8_native]+bestaudio[protocol=m3u8_native]/best[protocol=m3u8_native]"
  /** Format selector of an audio download: best HLS audio, else best audio. */
  const AUDIO_FORMAT := "bestaudio[protocol=m3u8_native]/bestaudio"

  /** The post-processor step that extracts the audio track into an m4a file. */
  const EXTRACT_M4A: seq<map<string, string>> := [map["key" := "FFmpegExtractAudio", "preferredcodec" := "m4a"]]

  /** The base dictionary of `download_vod`. */
  const VOD_BASE: Options := map["format" := Text(VOD_FORMAT), "overwrites" := Flag(true)]

  /** The base dictionary of `download_vod_audio`. */
  const AUDIO_BASE: Options :=
    map["format" := Text(AUDIO_FORMAT), POSTPROCESSORS := PostProcessors(EXTRACT_M4A), "overwrites" := Flag(true)]

  /**
   * The full-video base dictionary: the HLS format selector and overwriting, and no
   * option that `_download_media` sets or removes.
   */
  lemma VodBaseOptions()
    ensures VOD_BASE.Keys == {"format", "overwrites"}
    ensures VOD_BASE["format"] == Text(VOD_FORMAT) && VOD_BASE["overwrites"] == Flag(true)
    ensures OUTTMPL !in VOD_BASE && EXTERNAL_DOWNLOADER !in VOD_BASE && DOWNLOAD_SECTIONS !in VOD_BASE
  {
    OptionNamesDistinct();
    assert OUTTMPL[0] == 'o' && EXTERNAL_DOWNLOADER[0] == 'e' && DOWNLOAD_SECTIONS[0] == 'd';
  }

  /**
   * The audio base dictionary: the audio-only format selector, the m4a extraction step and
   * overwriting, and no option that `_download_media` sets or removes.
   */
  lemma AudioBaseOptions()
    ensures AUDIO_BASE.Keys == {"format", POSTPROCESSORS, "overwrites"}
    ensures AUDIO_BASE["format"] == Text(AUDIO_FORMAT) && AUDIO_BASE["overwrites"] == Flag(true)
    ensures AUDIO_BASE[POSTPROCESSORS] == PostProcessors(EXTRACT_M4A)
    ensures OUTTMPL !in AUDIO_BASE && EXTERNAL_DOWNLOADER !in AUDIO_BASE && DOWNLOAD_SECTIONS !in AUDIO_BASE
  {
    OptionNamesDistinct();
    assert OUTTMPL[0] == 'o' && EXTERNAL_DOWNLOADER[0] == 'e' && DOWNLOAD_SECTIONS[0] == 'd';
    assert POSTPROCESSORS[0] == 'p' && |POSTPROCESSORS| == 14;
  }

  /** The fixed output-side ffmpeg arguments of a clipped download. */
  const OUTPUT_ARGS: seq<string> := ["-loglevel", "info"]

  /** The option names the client touches are pairwise distinct. */
  lemma OptionNamesDistinct()
    ensures OUTTMPL != EXTERNAL_DOWNLOADER && OUTTMPL != EXTERNAL_DOWNLOADER_ARGS && OUTTMPL != DOWNLOAD_SECTIONS
    ensures OUTTMPL != POSTPROCESSORS && OUTTMPL != LOGGER && OUTTMPL != VERBOSE
    ensures EXTERNAL_DOWNLOADER != EXTERNAL_DOWNLOADER_ARGS && EXTERNAL_DOWNLOADER != DOWNLOAD_SECTIONS
    ensures EXTERNAL_DOWNLOADER != POSTPROCESSORS && EXTERNAL_DOWNLOADER != LOGGER && EXTERNAL_DOWNLOADER != VERBOSE
    ensures EXTERNAL_DOWNLOADER_ARGS != DOWNLOAD_SECTIONS && EXTERNAL_DOWNLOADER_ARGS != POSTPROCESSORS
    ensures EXTERNAL_DOWNLOADER_ARGS != LOGGER && EXTERNAL_DOWNLOADER_ARGS != VERBOSE
    ensures DOWNLOAD_SECTIONS != POSTPROCESSORS && DOWNLOAD_SECTIONS != LOGGER && DOWNLOAD_SECTIONS != VERBOSE
    ensures POSTPROCESSORS != LOGGER && POSTPROCESSORS != VERBOSE && LOGGER != VERBOSE
  {
    assert OUTTMPL[0] == 'o' && VERBOSE[0] == 'v';
    assert |EXTERNAL_DOWNLOADER| == 19 && |EXTERNAL_DOWNLOADER_ARGS| == 24 && |DOWNLOAD_SECTIONS| == 17;
    assert |POSTPROCESSORS| == 14 && |LOGGER| == 6 && |OUTTMPL| == 7 && |VERBOSE| == 7;
  }

  /** Python truthiness of a `str | None` time argument: present and non-empty. */
  predicate Given(t: Option<string>) {
    t.Some? && t.value != ""
  }

  /** A clipped download: at least one of the two time arguments is given. */
  predicate Clipped(start: Option<string>, end: Option<string>) {
    Given(start) || Given(end)
  }

  /** The URL yt-dlp is given for a video id. */
  function VideoUrl(videoId: string): (url: string)
    ensures |url| == |VIDEO_URL_PREFIX| + |videoId|
    ensures url[..|VIDEO_URL_PREFIX|] == VIDEO_URL_PREFIX && url[|VIDEO_URL_PREFIX|..] == videoId
  {
    VIDEO_URL_PREFIX + videoId
  }

  /**
   * The input-side ffmpeg arguments of a clipped download: a seek to the start if one
   * is given, then a stop at the end if one is given, and nothing else.
   */
  function InputArgs(start: Option<string>, end: Option<string>): (args: seq<string>)
    ensures |args| == (if Given(start) then 2 else 0) + (if Given(end) then 2 else 0)
    ensures Given(start) ==> args[..2] == ["-ss", start.value]
    ensures Given(end) ==> args[|args| - 2..] == ["-to", end.value]
  {
    (if Given(start) then ["-ss", start.value] else []) + (if Given(end) then ["-to", end.value] else [])
  }

  /** The `external_downloader_args` value of a clipped download. */
  function ClipArgs(start: Option<string>, end: Option<string>): OptVal {
    DownloaderArgs(map["ffmpeg_i" := InputArgs(start, end), "default" := OUTPUT_ARGS])
  }

  /**
   * The dictionary `_download_media` hands on, for a base dictionary: the output template
   * set to the path; for a clipped download, ffmpeg engaged as external downloader with
   * its argument lists and any `download_sections` removed; every other entry of the
   * base kept as it was.
   */
  function MediaOptions(base: Options, outputPath: string, start: Option<string>, end: Option<string>): (o: Options)
    ensures OUTTMPL in o && o[OUTTMPL] == Text(outputPath)
    ensures Clipped(start, end) ==>
              && o.Keys == (base.Keys - {DOWNLOAD_SECTIONS}) + {OUTTMPL, EXTERNAL_DOWNLOADER, EXTERNAL_DOWNLOADER_ARGS}
              && o[EXTERNAL_DOWNLOADER] == Text("ffmpeg")
              && o[EXTERNAL_DOWNLOADER_ARGS] == ClipArgs(start, end)
    ensures !Clipped(start, end) ==> o.Keys == base.Keys + {OUTTMPL}
    ensures forall k :: k in base && !Changed(k, start, end) ==> k in o && o[k] == base[k]
  {
    OptionNamesDistinct();
    var withPath := base[OUTTMPL := Text(outputPath)];
    if Clipped(start, end) then
      var engaged := EngageFfmpeg(withPath, ClipArgs(start, end));
      engaged
    else
      withPath
  }

  /**
   * The clipped branch of `_download_media`: ffmpeg becomes the external downloader with
   * `args`, and `download_sections` is removed; every other option is kept.
   */
  function EngageFfmpeg(o: Options, args: OptVal): (e: Options)
    ensures e.Keys == (o.Keys - {DOWNLOAD_SECTIONS}) + {EXTERNAL_DOWNLOADER, EXTERNAL_DOWNLOADER_ARGS}
    ensures e[EXTERNAL_DOWNLOADER] == Text("ffmpeg") && e[EXTERNAL_DOWNLOADER_ARGS] == args
    ensures forall k :: k in o && k != DOWNLOAD_SECTIONS && k != EXTERNAL_DOWNLOADER && k != EXTERNAL_DOWNLOADER_ARGS ==> e[k] == o[k]
  {
    OptionNamesDistinct();
    var engaged := o[EXTERNAL_DOWNLOADER := Text("ffmpeg")][EXTERNAL_DOWNLOADER_ARGS := args];
    assert (engaged - {DOWNLOAD_SECTIONS}).Keys == engaged.Keys - {DOWNLOAD_SECTIONS};
    engaged - {DOWNLOAD_SECTIONS}
  }

  /** The option names `_download_media` may overwrite or remove. */
  predicate Changed(k: string, start: Option<string>, end: Option<string>) {
    || k == OUTTMPL
    || (Clipped(start, end) && (k == DOWNLOAD_SECTIONS || k == EXTERNAL_DOWNLOADER || k == EXTERNAL_DOWNLOADER_ARGS))
  }

  /**
   * The dictionary yt-dlp receives from `_download_with_yt_dlp`: verbose on, the console
   * logger unless the caller already chose a logger, everything else as given.
   */
  function Finalized(o: Options): (f: Options)
    ensures f.Keys == o.Keys + {LOGGER, VERBOSE}
    ensures f[VERBOSE] == Flag(true)
    ensures f[LOGGER] == if LOGGER in o then o[LOGGER] else ConsoleLogger
    ensures forall k :: k in o && k != LOGGER && k != VERBOSE ==> f[k] == o[k]
  {
    OptionNamesDistinct();
    var withLogger := if LOGGER in o then o else o[LOGGER := ConsoleLogger];
    withLogger[VERBOSE := Flag(true)]
  }

  /** What yt-dlp is asked to do: download one URL with one option dictionary. */
  datatype Invocation = Invocation(url: string, options: Options)

  /** The invocation a download of `videoId` from `base` ends in. */
  function ExpectedInvocation(videoId: string, outputPath: string, start: Option<string>, end: Option<string>, base: Options): Invocation {
    Invocation(VideoUrl(videoId), Finalized(MediaOptions(base, outputPath, start, end)))
  }

  /**
   * Given only a start time, ffmpeg is told to seek and not to stop; given both, it is
   * told to seek and then to stop; the output side always sets the log level.
   */
  lemma ClipArgumentScenarios(start: string, end: string)
    requires start != "" && end != ""
    ensures InputArgs(Some(start), None) == ["-ss", start]
    ensures InputArgs(Some(start), Some("")) == ["-ss", start]
    ensures InputArgs(Some(start), Some(end)) == ["-ss", start, "-to", end]
    ensures InputArgs(None, Some(end)) == ["-to", end]
    ensures ClipArgs(Some(start), Some(end)).args["default"] == ["-loglevel", "info"]
  {
  }

  /** Without a time range, ffmpeg is not engaged and `download_sections` is left as it was. */
  lemma UnclippedKeepsSections(base: Options, outputPath: string, start: Option<string>, end: Option<string>)
    requires !Clipped(start, end)
    ensures var o := MediaOptions(base, outputPath, start, end);
            && (EXTERNAL_DOWNLOADER in o <==> EXTERNAL_DOWNLOADER in base)
            && (DOWNLOAD_SECTIONS in o <==> DOWNLOAD_SECTIONS in base)
            && (DOWNLOAD_SECTIONS in base ==> o[DOWNLOAD_SECTIONS] == base[DOWNLOAD_SECTIONS])
  {
  }

  /**
   * An audio download always extracts the audio track; a video download never runs a
   * post-processor, whatever the path and the time range.
   */
  lemma AudioOnlyExtracts(videoId: string, outputPath: string, start: Option<string>, end: Option<string>)
    ensures var o := ExpectedInvocation(videoId, outputPath, start, end, AUDIO_BASE).options;
            POSTPROCESSORS in o && o[POSTPROCESSORS] == PostProcessors(EXTRACT_M4A)
    ensures POSTPROCESSORS !in ExpectedInvocation(videoId, outputPath, start, end, VOD_BASE).options
  {
    OptionNamesDistinct();
    var audio := MediaOptions(AUDIO_BASE, outputPath, start, end);
    assert POSTPROCESSORS in AUDIO_BASE && !Changed(POSTPROCESSORS, start, end);
    assert audio[POSTPROCESSORS] == PostProcessors(EXTRACT_M4A);
    var video := MediaOptions(VOD_BASE, outputPath, start, end);
    assert POSTPROCESSORS !in video;
  }

  /** The parameters of `_download_media`, all required. */
  const DOWNLOAD_MEDIA_PARAMS: seq<string> := ["video_id", "output_path", "start_time", "end_time", "base_ydl_opts"]

  /** The keyword arguments `download_vod` and `download_vod_audio` pass to `_download_media`. */
  const WRAPPER_KEYWORDS: seq<string> := ["video_id", "output_path", "start_time", "end_time", "media_type_log", "base_ydl_opts"]

  /** The first element of `xs` that is not in `allowed`, if any. */
  function FirstNotIn(xs: seq<string>, allowed: seq<string>): (r: Option<string>)
    ensures r.None? <==> forall i :: 0 <= i < |xs| ==> xs[i] in allowed
    ensures r.Some? ==> r.value in xs && r.value !in allowed
  {
    if xs == [] then None
    else if xs[0] !in allowed then Some(xs[0])
    else FirstNotIn(xs[1..], allowed)
  }

  /**
   * Python's binding of keyword arguments to the parameters of a function whose
   * parameters are all required: an unexpected keyword raises TypeError, and so does a
   * parameter left without an argument.
   */
  function BindKeywords(params: seq<string>, keywords: seq<string>): (r: Result<(), Error>)
    ensures r.Success? <==> (forall k :: k in keywords ==> k in params) && (forall p :: p in params ==> p in keywords)
    ensures r.Failure? && r.error.UnexpectedKeyword? ==> r.error.name in keywords && r.error.name !in params
    ensures r.Failure? ==> r.error.UnexpectedKeyword? || r.error.MissingArgument?
    ensures (exists k :: k in keywords && k !in params) ==> r.Failure? && r.error.UnexpectedKeyword?
    ensures r.Failure? && r.error.MissingArgument? ==> r.error.name in params && r.error.name !in keywords
  {
    match FirstNotIn(keywords, params)
    case Some(k) => Failure(UnexpectedKeyword(k))
    case None =>
      match FirstNotIn(params, keywords)
      case Some(p) => Failure(MissingArgument(p))
      case None => Success(())
  }

  /**
   * As written, both public download wrappers call `_download_media` with the keyword
   * `media_type_log`, which it does not declare: the call raises TypeError before any
   * option is built.
   */
  lemma WrapperCallRejected()
    ensures BindKeywords(DOWNLOAD_MEDIA_PARAMS, WRAPPER_KEYWORDS) == Failure(UnexpectedKeyword("media_type_log"))
  {
    assert WRAPPER_KEYWORDS[0] in DOWNLOAD_MEDIA_PARAMS;
    assert WRAPPER_KEYWORDS[1..][0] in DOWNLOAD_MEDIA_PARAMS;
    assert WRAPPER_KEYWORDS[2..][0] in DOWNLOAD_MEDIA_PARAMS;
    assert WRAPPER_KEYWORDS[3..][0] in DOWNLOAD_MEDIA_PARAMS;
    assert WRAPPER_KEYWORDS[4..][0] !in DOWNLOAD_MEDIA_PARAMS;
  }

  /** Without that keyword the same call binds all five parameters. */
  lemma CorrectedCallBinds()
    ensures BindKeywords(DOWNLOAD_MEDIA_PARAMS, DOWNLOAD_MEDIA_PARAMS) == Success(())
  {
  }

  /**
   * A Python dictionary: an object whose entries are changed in place, so that a copy
   * and the dictionary it was copied from evolve independently.
   */
  class OptionDict {
    var entries: Options

    /** `dict.copy()` of a dictionary holding `init`, and dictionary literals. */
    constructor (init: Options)
      ensures entries == init
    {
      entries := init;
    }
  }
}
