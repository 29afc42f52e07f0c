/** Algebraic laws of single notifications: repeating one is harmless, a
    later write to the same field supersedes an earlier one, and writes to
    different fields or different channels do not interfere. */
module HandlerLaws {
  import opened OscValues
  import opened MixerState
  import opened Handlers
  import opened Dispatch

  /** Handling the same volume notification twice gives the mirror that
      handling it once gives. */
  lemma VolumeIdempotent(m: Mirror, args: seq<Value>)
    requires m.Valid()
    ensures OnTrackVolume(OnTrackVolume(m, args), args) == OnTrackVolume(m, args)
  {
  }

  /** Handling the same mute notification twice gives the mirror that
      handling it once gives. */
  lemma MuteIdempotent(m: Mirror, args: seq<Value>)
    requires m.Valid()
    ensures OnTrackMute(OnTrackMute(m, args), args) == OnTrackMute(m, args)
  {
  }

  /** Every message, whatever its address, is idempotent: a duplicated
      delivery leaves the mirror as a single delivery does. */
  lemma ApplyIdempotent(m: Mirror, msg: Message)
    requires m.Valid()
    ensures Apply(Apply(m, msg), msg) == Apply(m, msg)
  {
  }

  /** Of two volume notifications for the same channel (or two that both
      miss every channel) the later one wins. */
  lemma VolumeLastWriteWins(m: Mirror, first: seq<Value>, second: seq<Value>)
    requires m.Valid()
    requires Target(first, 2) == Target(second, 2)
    ensures OnTrackVolume(OnTrackVolume(m, first), second) == OnTrackVolume(m, second)
  {
  }

  /** Of two mute notifications for the same channel (or two that both miss
      every channel) the later one wins. */
  lemma MuteLastWriteWins(m: Mirror, first: seq<Value>, second: seq<Value>)
    requires m.Valid()
    requires Target(first, 2) == Target(second, 2)
    ensures OnTrackMute(OnTrackMute(m, first), second) == OnTrackMute(m, second)
  {
  }

  /** A volume write and a mute write never disturb each other, even on the
      same channel: their order does not matter. */
  lemma VolumeMuteCommute(m: Mirror, volumeArgs: seq<Value>, muteArgs: seq<Value>)
    requires m.Valid()
    ensures OnTrackMute(OnTrackVolume(m, volumeArgs), muteArgs) == OnTrackVolume(OnTrackMute(m, muteArgs), volumeArgs)
  {
  }

  /** Two channel messages that target different channels commute. */
  lemma DistinctChannelsCommute(m: Mirror, a: Message, b: Message)
    requires m.Valid()
    requires TargetChannel(a).Some? && TargetChannel(b).Some? && TargetChannel(a) != TargetChannel(b)
    ensures Apply(Apply(m, a), b) == Apply(Apply(m, b), a)
  {
  }
}
