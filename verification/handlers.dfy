/** The inbound-notification handlers, each a pure update of the mirror by
    the argument list of one OSC message. */
module Handlers {
  import opened Wrappers
  import opened OscValues
  import opened MixerState

  /** The channel a handler that needs `arity` arguments writes to: the
      argument list must be long enough and its first argument must select a
      channel. None means the handler writes nothing. */
  function Target(args: seq<Value>, arity: nat): (r: Option<nat>)
    requires arity >= 1
    ensures |args| < arity ==> r.None?
    ensures |args| >= arity ==> r == ChannelOf(args[0])
    ensures r.Some? ==> r.value < NumChannels
  {
    if |args| >= arity then ChannelOf(args[0]) else None
  }

  /** A track-volume notification `(track, volume)` stores `volume`, unchecked,
      as the selected channel's volume and changes nothing else. */
  function OnTrackVolume(m: Mirror, args: seq<Value>): (r: Mirror)
    requires m.Valid()
    ensures r.Valid()
    ensures Target(args, 2).None? ==> r == m
    ensures Target(args, 2).Some? ==> r.channels[Target(args, 2).value].volume == args[1]
    ensures forall j :: 0 <= j < NumChannels ==>
      r.channels[j].mute == m.channels[j].mute && r.channels[j].playingClip == m.channels[j].playingClip
    ensures forall j :: 0 <= j < NumChannels && Target(args, 2) != Some(j) ==> r.channels[j] == m.channels[j]
    ensures r.currentScene == m.currentScene
  {
    match Target(args, 2)
    case None => m
    case Some(i) => m.WithChannel(i, m.channels[i].(volume := args[1]))
  }

  /** A track-mute notification `(track, flag)` stores `bool(flag)` as the
      selected channel's mute flag and changes nothing else. */
  function OnTrackMute(m: Mirror, args: seq<Value>): (r: Mirror)
    requires m.Valid()
    ensures r.Valid()
    ensures Target(args, 2).None? ==> r == m
    ensures Target(args, 2).Some? ==> r.channels[Target(args, 2).value].mute == Truthy(args[1])
    ensures forall j :: 0 <= j < NumChannels ==>
      r.channels[j].volume == m.channels[j].volume && r.channels[j].playingClip == m.channels[j].playingClip
    ensures forall j :: 0 <= j < NumChannels && Target(args, 2) != Some(j) ==> r.channels[j] == m.channels[j]
    ensures r.currentScene == m.currentScene
  {
    match Target(args, 2)
    case None => m
    case Some(i) => m.WithChannel(i, m.channels[i].(mute := Truthy(args[1])))
  }

  /** A clip-playing-status notification `(track, clip, playing)`. When
      `playing` is truthy the clip becomes the channel's playing clip; when it
      is falsy the playing clip is cleared only if it equals `clip`, so a stop
      for any other clip is a no-op. Volume, mute, the other channels and the
      scene never change. */
  function OnClipPlayingStatus(m: Mirror, args: seq<Value>): (r: Mirror)
    requires m.Valid()
    ensures r.Valid()
    ensures Target(args, 3).None? ==> r == m
    ensures Target(args, 3).Some? && Truthy(args[2]) ==>
      r.channels[Target(args, 3).value].playingClip == args[1]
    ensures Target(args, 3).Some? && !Truthy(args[2]) && PyEq(m.channels[Target(args, 3).value].playingClip, args[1]) ==>
      r.channels[Target(args, 3).value].playingClip == Nil
    ensures Target(args, 3).Some? && !Truthy(args[2]) && !PyEq(m.channels[Target(args, 3).value].playingClip, args[1]) ==>
      r == m
    ensures forall j :: 0 <= j < NumChannels ==>
      r.channels[j].volume == m.channels[j].volume && r.channels[j].mute == m.channels[j].mute
    ensures forall j :: 0 <= j < NumChannels && Target(args, 3) != Some(j) ==> r.channels[j] == m.channels[j]
    ensures r.currentScene == m.currentScene
  {
    match Target(args, 3)
    case None => m
    case Some(i) =>
      if Truthy(args[2]) then
        m.WithChannel(i, m.channels[i].(playingClip := args[1]))
      else if PyEq(m.channels[i].playingClip, args[1]) then
        m.WithChannel(i, m.channels[i].(playingClip := Nil))
      else
        m
  }

  /** A scene-triggered notification records its first argument, with no
      range check, as the current scene; without arguments it is a no-op.
      No channel is touched. */
  function OnSceneTriggered(m: Mirror, args: seq<Value>): (r: Mirror)
    ensures r.channels == m.channels
    ensures |args| == 0 ==> r == m
    ensures |args| > 0 ==> r.currentScene == args[0]
  {
    if |args| > 0 then m.(currentScene := args[0]) else m
  }

  /** An error notification is only reported; the mirror is returned as is. */
  function OnError(m: Mirror, args: seq<Value>): (r: Mirror)
    ensures r == m
  {
    m
  }
}
