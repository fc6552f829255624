/** The command facade: each operator command becomes a capability URI and
    a payload for `send`, after the argument checks two of them make. */
module Commands {
  import opened Results
  import opened Wire

  datatype Command =
    | Play
    | Pause
    | Stop
    | Rewind
    | FastForward
    | VolumeUp
    | VolumeDown
    | SetVolume(level: int)
    | Mute
    | Unmute
    | ChannelUp
    | ChannelDown
    | PowerOff
    | Toast(message: string)
    | LaunchNetflix
    | PlayVideoURL(url: string)
    | LaunchYouTube(videoId: string)
    | OpenURL(url: string)

  /** What is handed to `send`: the capability URI and the payload. */
  datatype Request = Request(uri: string, payload: map<string, Json>)

  datatype CommandError = VolumeOutOfRange | InvalidURL

  const MinVolume := 0
  const MaxVolume := 100

  predicate HasWebScheme(url: string) {
    "http://" <= url || "https://" <= url
  }

  /** The `params` object of a YouTube launch: a `contentId` only for a non-empty video id. */
  function YouTubeParams(videoId: string): (p: map<string, Json>)
    ensures "contentId" in p <==> videoId != ""
    ensures videoId != "" ==> p == map["contentId" := JString(videoId)]
    ensures videoId == "" ==> p == map[]
  {
    if videoId != "" then map["contentId" := JString(videoId)] else map[]
  }

  /** A capability URI of the TV's `ssap` scheme. */
  function Ssap(path: string): (u: string)
    ensures |u| == |"ssap://"| + |path| && u[..|"ssap://"|] == "ssap://" && u[|"ssap://"|..] == path
  {
    "ssap://" + path
  }

  /** The request a command sends, or the validation error that stops it
      before anything is sent. Only a volume outside [0, 100] and a video URL
      without an `http://` or `https://` prefix are rejected. */
  function Build(c: Command): (r: Result<Request, CommandError>)
    ensures r.Err? <==>
      || (c.SetVolume? && !(MinVolume <= c.level <= MaxVolume))
      || (c.PlayVideoURL? && !HasWebScheme(c.url))
    ensures r.Err? && c.SetVolume? ==> r.error == VolumeOutOfRange
    ensures r.Err? && c.PlayVideoURL? ==> r.error == InvalidURL
  {
    match c
    case Play => Ok(Request(Ssap("media.controls/play"), map[]))
    case Pause => Ok(Request(Ssap("media.controls/pause"), map[]))
    case Stop => Ok(Request(Ssap("media.controls/stop"), map[]))
    case Rewind => Ok(Request(Ssap("media.controls/rewind"), map[]))
    case FastForward => Ok(Request(Ssap("media.controls/fastForward"), map[]))
    case VolumeUp => Ok(Request(Ssap("audio/volumeUp"), map[]))
    case VolumeDown => Ok(Request(Ssap("audio/volumeDown"), map[]))
    case SetVolume(v) =>
      if v < MinVolume || v > MaxVolume then Err(VolumeOutOfRange)
      else Ok(Request(Ssap("audio/setVolume"), map["volume" := JInt(v)]))
    case Mute => Ok(Request(Ssap("audio/setMute"), map["mute" := JBool(true)]))
    case Unmute => Ok(Request(Ssap("audio/setMute"), map["mute" := JBool(false)]))
    case ChannelUp => Ok(Request(Ssap("tv/channelUp"), map[]))
    case ChannelDown => Ok(Request(Ssap("tv/channelDown"), map[]))
    case PowerOff => Ok(Request(Ssap("system/turnOff"), map[]))
    case Toast(msg) =>
      Ok(Request(Ssap("system.notifications/createToast"), map["message" := JString(msg)]))
    case LaunchNetflix => Ok(Request(Ssap("system.launcher/launch"), map["id" := JString("netflix")]))
    case PlayVideoURL(url) =>
      if !HasWebScheme(url) then Err(InvalidURL)
      else Ok(Request(Ssap("system.launcher/open"),
                      map["target" := JString(url), "mimeType" := JString("video/mp4")]))
    case LaunchYouTube(id) =>
      Ok(Request(Ssap("system.launcher/launch"),
                 map["id" := JString("youtube.leanback.v4"), "params" := JObject(YouTubeParams(id))]))
    case OpenURL(url) => Ok(Request(Ssap("system.launcher/open"), map["target" := JString(url)]))
  }

  /** `SetVolume(v)` passes exactly for 0 <= v <= 100 and then sends `{volume: v}`
      to the volume URI; -1 and 101 fail, 0 and 100 pass. */
  lemma SetVolumeRange(v: int)
    ensures Build(SetVolume(v)).Ok? <==> 0 <= v <= 100
    ensures Build(SetVolume(v)).Ok? ==>
      Build(SetVolume(v)).value == Request(Ssap("audio/setVolume"), map["volume" := JInt(v)])
    ensures Build(SetVolume(-1)) == Err(VolumeOutOfRange) && Build(SetVolume(101)) == Err(VolumeOutOfRange)
    ensures Build(SetVolume(0)).Ok? && Build(SetVolume(100)).Ok?
  {
  }

  /** `PlayVideoURL(u)` passes exactly for an `http://` or `https://` URL and
      then opens it as `video/mp4`. */
  lemma PlayVideoURLScheme(u: string)
    ensures Build(PlayVideoURL(u)).Ok? <==> HasWebScheme(u)
    ensures Build(PlayVideoURL(u)).Ok? ==>
      Build(PlayVideoURL(u)).value ==
        Request(Ssap("system.launcher/open"), map["target" := JString(u), "mimeType" := JString("video/mp4")])
    ensures Build(PlayVideoURL("ftp://x")) == Err(InvalidURL)
    ensures Build(PlayVideoURL("http://x")).Ok? && Build(PlayVideoURL("https://x")).Ok?
  {
    assert !("http://" <= "ftp://x") by { assert "ftp://x"[0] != "http://"[0]; }
    assert !("https://" <= "ftp://x") by { assert "ftp://x"[0] != "https://"[0]; }
    assert "http://" <= "http://x" by { assert "http://x"[..7] == "http://"; }
    assert "https://" <= "https://x" by { assert "https://x"[..8] == "https://"; }
  }

  /** A YouTube launch always names the YouTube app and carries a
      `contentId` exactly when a video id was given. */
  lemma LaunchYouTubeContent(videoId: string)
    ensures var p := Build(LaunchYouTube(videoId)).value.payload;
      && p["id"] == JString("youtube.leanback.v4")
      && p["params"].JObject?
      && ("contentId" in p["params"].fields <==> videoId != "")
  {
  }

  /** Every command that passes validation goes to an `ssap://` capability URI. */
  lemma CapabilityUris(c: Command)
    requires Build(c).Ok?
    ensures "ssap://" <= Build(c).value.uri
  {
    match c
    case SetVolume(_) =>
    case PlayVideoURL(_) =>
    case Toast(_) =>
    case LaunchYouTube(_) =>
    case OpenURL(_) =>
    case _ =>
  }
}
