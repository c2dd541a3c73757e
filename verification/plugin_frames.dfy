/** What the plugin's frames say, and which part of it the session model looks at. */
module PluginFrames {
  import opened Captions
  import opened WorkerSession

  /** A decoded frame from the plugin; the tag says which of its sessions the audio belongs to. */
  datatype PluginFrame =
    | Start(session: SessionId, tag: nat, formatOk: bool, live: bool, originUs: int, url: string)
    | Stop(session: SessionId, reason: nat)
    | Audio(session: SessionId, tag: nat, pcm: seq<int>, startUs: int)
    | Pause(session: SessionId)
    | Resume(session: SessionId)
    | Position(session: SessionId, ptsUs: int, pausedFlag: bool, seekFlag: bool)
    | Translate(session: SessionId, enabled: bool, sourceLang: string, targetLang: string)
    | Shutdown
    | Bad     // does not decode, or breaks a rule of its type
    | Other

  /** What the session model sees of a frame. */
  function Seen(f: PluginFrame): ToWorker
  {
    match f
    case Start(s, tag, formatOk, _, _, url) => StartFrame(s, tag, url != "", formatOk)
    case Stop(s, reason) => StopFrame(s, reason)
    case Audio(s, tag, pcm, _) => AudioFrame(s, tag, |pcm|)
    case Pause(s) => PauseFrame(s)
    case Resume(s) => ResumeFrame(s)
    case Position(s, _, pausedFlag, _) => PositionFrame(s, pausedFlag)
    case Translate(s, enabled, from, to) => TranslateFrame(s, enabled, from, to)
    case Shutdown => ShutdownFrame
    case Bad => BadFrame
    case Other => OtherFrame
  }
}
