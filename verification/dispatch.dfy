/** Routing of inbound OSC messages to the handlers by address, and the
    in-order delivery of a stream of messages to the mirror. */
module Dispatch {
  import opened Wrappers
  import opened OscValues
  import opened MixerState
  import opened Handlers

  const VolumeAddress: string := "/live/track/volume"
  const MuteAddress: string := "/live/track/mute"
  const ClipStatusAddress: string := "/live/clip/playing_status"
  const SceneAddress: string := "/live/scene/triggered"
  const ErrorAddress: string := "/live/error"

  /** The handler a message address is mapped to; Unmapped addresses have
      no handler and are dropped. */
  datatype Kind = TrackVolume | TrackMute | ClipPlayingStatus | SceneTriggered | ErrorReport | Unmapped

  /** An inbound OSC message: its address and its argument list. */
  datatype Message = Message(address: string, args: seq<Value>)

  function Route(address: string): Kind {
    if address == VolumeAddress then TrackVolume
    else if address == MuteAddress then TrackMute
    else if address == ClipStatusAddress then ClipPlayingStatus
    else if address == SceneAddress then SceneTriggered
    else if address == ErrorAddress then ErrorReport
    else Unmapped
  }

  /** The channel a message writes to, if any. */
  function TargetChannel(msg: Message): (r: Option<nat>)
    ensures r.Some? ==> r.value < NumChannels
  {
    match Route(msg.address)
    case TrackVolume => Target(msg.args, 2)
    case TrackMute => Target(msg.args, 2)
    case ClipPlayingStatus => Target(msg.args, 3)
    case _ => None
  }

  /** Delivers one message to the handler its address is mapped to. Error
      reports and unmapped addresses leave the mirror as it was; only scene
      messages move the scene, and they touch no channel; every other
      message changes at most the one channel it targets. */
  function Apply(m: Mirror, msg: Message): (r: Mirror)
    requires m.Valid()
    ensures r.Valid()
    ensures Route(msg.address) == ErrorReport || Route(msg.address) == Unmapped ==> r == m
    ensures Route(msg.address) != SceneTriggered ==> r.currentScene == m.currentScene
    ensures Route(msg.address) == SceneTriggered ==> r.channels == m.channels
    ensures forall j :: 0 <= j < NumChannels && TargetChannel(msg) != Some(j) ==> r.channels[j] == m.channels[j]
  {
    match Route(msg.address)
    case TrackVolume => OnTrackVolume(m, msg.args)
    case TrackMute => OnTrackMute(m, msg.args)
    case ClipPlayingStatus => OnClipPlayingStatus(m, msg.args)
    case SceneTriggered => OnSceneTriggered(m, msg.args)
    case ErrorReport => OnError(m, msg.args)
    case Unmapped => m
  }

  /** The mirror after the messages of `msgs` have been handled in order. */
  function ApplyAll(m: Mirror, msgs: seq<Message>): (r: Mirror)
    requires m.Valid()
    ensures r.Valid()
    decreases |msgs|
  {
    if msgs == [] then m else Apply(ApplyAll(m, msgs[..|msgs| - 1]), msgs[|msgs| - 1])
  }
}
