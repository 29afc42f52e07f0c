/** The local mirror of the remote mixer: nine channel records and the index
    of the scene that was last reported as triggered, with the accessors that
    read them back. */
module MixerState {
  import opened Wrappers
  import opened OscValues

  /** One channel's mirrored state. `volume` and `playingClip` hold whatever
      value the last notification carried (no range check is made);
      `playingClip` is Nil when no clip is known to be playing. */
  datatype Channel = Channel(volume: Value, mute: bool, playingClip: Value)

  /** The state every channel starts in: silent, unmuted, no clip. */
  const DefaultChannel: Channel := Channel(Float(0.0), false, Nil)

  /** The scene value recorded before any scene has been triggered. */
  const NoScene: Value := Int(-1)

  /** The mirror: `channels[i]` is the channel numbered i + 1 on the mixer. */
  datatype Mirror = Mirror(channels: seq<Channel>, currentScene: Value) {

    /** A mirror holds exactly the channels 0 .. NumChannels - 1. */
    predicate Valid() {
      |channels| == NumChannels
    }

    /** This mirror with channel `i` replaced by `c`. */
    function WithChannel(i: nat, c: Channel): (r: Mirror)
      requires i < |channels|
      ensures |r.channels| == |channels| && r.currentScene == currentScene
      ensures r.channels[i] == c
      ensures forall j :: 0 <= j < |channels| && j != i ==> r.channels[j] == channels[j]
    {
      this.(channels := channels[i := c])
    }
  }

  /** The state the monitor is constructed with. */
  function Init(): (r: Mirror)
    ensures r.Valid()
    ensures forall i :: 0 <= i < NumChannels ==>
      r.channels[i].volume == Float(0.0) && !r.channels[i].mute && r.channels[i].playingClip == Nil
    ensures r.currentScene == NoScene
  {
    Mirror(seq(NumChannels, _ => DefaultChannel), NoScene)
  }

  /** The state of the channel with the 1-based number `channelNumber`, or
      None when there is no such channel. */
  function GetChannelState(m: Mirror, channelNumber: int): (r: Option<Channel>)
    requires m.Valid()
    ensures r.Some? <==> 1 <= channelNumber <= NumChannels
    ensures r.Some? ==> r.value == m.channels[channelNumber - 1]
  {
    var index := channelNumber - 1;
    if 0 <= index < NumChannels then Some(m.channels[index]) else None
  }

  /** The whole channel table; entry k - 1 is what GetChannelState reports
      for channel number k. */
  function GetAllChannelsState(m: Mirror): (r: seq<Channel>)
    requires m.Valid()
    ensures |r| == NumChannels
    ensures forall k :: 1 <= k <= NumChannels ==> GetChannelState(m, k) == Some(r[k - 1])
  {
    m.channels
  }

  /** The scene value last recorded. */
  function GetCurrentScene(m: Mirror): (r: Value)
    ensures r == m.currentScene
  {
    m.currentScene
  }

  /** Read back through the public accessors, a freshly built mirror reports
      the default record for each of the channel numbers 1 .. 9, nothing for
      any other number, and no scene. */
  lemma InitialReadBack(k: int)
    ensures GetChannelState(Init(), k) == (if 1 <= k <= NumChannels then Some(DefaultChannel) else None)
    ensures GetCurrentScene(Init()) == NoScene
  {
  }
}
