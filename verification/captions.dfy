/** Values shared by the plugin and the worker. */
module Captions {

  datatype Option<+T> = None | Some(value: T)

  /** The sixteen bytes of a session id, read as one number. */
  newtype SessionId = x: int | 0 <= x < 0x1_0000_0000_0000_0000_0000_0000_0000_0000

  const MAX_TEXT_BYTES: nat := 1024

  // Tiers of the translation service; 0 means that no tier produced the text.
  const TIER_NONE: nat := 0

  datatype FailureCause = NoFailure | Provider | Transport | Parse | Deadline | Local

  /**
    A caption on its way from the recogniser to the plugin. `origin` is not part of the program's struct: it is the
    set of plugin sessions whose audio the text was computed from, carried along for the session theorems. No
    operation reads it.
   */
  datatype CaptionSegment = CaptionSegment(
    session: SessionId,
    id: nat,
    startUs: int,
    endUs: int,
    text: string,
    translated: Option<string>,
    attempted: bool,
    latencyUs: nat,
    tier: nat,
    origin: set<nat>)

  /** Two segments carry the same source cue; only what translation fills in may differ. */
  predicate SameCue(a: CaptionSegment, b: CaptionSegment)
  {
    && a.session == b.session
    && a.id == b.id
    && a.startUs == b.startUs
    && a.endUs == b.endUs
    && a.text == b.text
    && a.origin == b.origin
  }
}
