/** Properties of a whole stream of notifications: which messages can have
    put a value into a channel or into the current scene. */
module TraceProperties {
  import opened Wrappers
  import opened OscValues
  import opened MixerState
  import opened Handlers
  import opened Dispatch

  /** What a clip-playing-status message says about one channel. */
  datatype ClipEvent = Started(clip: Value) | Stopped(clip: Value)

  /** The clip event `msg` carries for channel `i`, if it is a well-formed
      clip-playing-status message for that channel. */
  function ClipEventFor(msg: Message, i: nat): Option<ClipEvent> {
    if Route(msg.address) == ClipPlayingStatus && Target(msg.args, 3) == Some(i) then
      Some(if Truthy(msg.args[2]) then Started(msg.args[1]) else Stopped(msg.args[1]))
    else None
  }

  /** An event that cannot displace clip `c` from channel `i`: none at all, or
      a stop for a clip other than `c`. */
  predicate Harmless(e: Option<ClipEvent>, c: Value) {
    e.None? || (e.value.Stopped? && !PyEq(c, e.value.clip))
  }

  /** Some message of `msgs` started clip `c` on channel `i` and no later
      message started another clip there or stopped `c`. */
  predicate StartedAndNotStopped(msgs: seq<Message>, i: nat, c: Value) {
    exists k :: 0 <= k < |msgs| && ClipEventFor(msgs[k], i) == Some(Started(c)) &&
      forall j :: k < j < |msgs| ==> Harmless(ClipEventFor(msgs[j], i), c)
  }

  /** The scene a message records, if it is a scene message with arguments. */
  function SceneOf(msg: Message): Option<Value> {
    if Route(msg.address) == SceneTriggered && |msg.args| > 0 then Some(msg.args[0]) else None
  }

  /** One message's effect on channel `i`'s playing clip, in terms of the
      clip event it carries. */
  lemma ClipStep(m: Mirror, msg: Message, i: nat)
    requires m.Valid() && i < NumChannels
    ensures ClipEventFor(msg, i).None? ==>
      Apply(m, msg).channels[i].playingClip == m.channels[i].playingClip
    ensures ClipEventFor(msg, i).Some? && ClipEventFor(msg, i).value.Started? ==>
      Apply(m, msg).channels[i].playingClip == ClipEventFor(msg, i).value.clip
    ensures ClipEventFor(msg, i).Some? && ClipEventFor(msg, i).value.Stopped? ==>
      Apply(m, msg).channels[i].playingClip ==
        (if PyEq(m.channels[i].playingClip, ClipEventFor(msg, i).value.clip) then Nil else m.channels[i].playingClip)
  {
  }

  /** Appending a harmless event to a trace that started `c` and never
      displaced it keeps that property. */
  lemma ExtendHarmless(p: seq<Message>, x: Message, i: nat, c: Value)
    requires StartedAndNotStopped(p, i, c)
    requires Harmless(ClipEventFor(x, i), c)
    ensures StartedAndNotStopped(p + [x], i, c)
  {
    var q := p + [x];
    var k :| 0 <= k < |p| && ClipEventFor(p[k], i) == Some(Started(c)) &&
      forall j :: k < j < |p| ==> Harmless(ClipEventFor(p[j], i), c);
    assert q[k] == p[k];
    forall j | k < j < |q|
      ensures Harmless(ClipEventFor(q[j], i), c)
    {
      if j < |p| {
        assert q[j] == p[j];
      }
    }
  }

  /** A witness in `p + [x]` that is not the last message is a witness in `p`. */
  lemma DropLast(p: seq<Message>, x: Message, i: nat, c: Value, k: int)
    requires 0 <= k < |p|
    requires ClipEventFor((p + [x])[k], i) == Some(Started(c))
    requires forall j :: k < j < |p| + 1 ==> Harmless(ClipEventFor((p + [x])[j], i), c)
    ensures StartedAndNotStopped(p, i, c)
    ensures Harmless(ClipEventFor(x, i), c)
  {
    var q := p + [x];
    assert q[k] == p[k];
    forall j | k < j < |p|
      ensures Harmless(ClipEventFor(p[j], i), c)
    {
      assert q[j] == p[j];
    }
    assert q[|p|] == x;
  }

  /** Starting from a channel with no clip, channel `i` ends up playing clip
      `c` exactly when some message started `c` there and no later message
      started another clip there or stopped `c`: a stop for any other clip
      never clears it, and a clip is never reported that nobody started. */
  lemma {:induction false} PlayingClipIsLastUnstoppedStart(m: Mirror, msgs: seq<Message>, i: nat, c: Value)
    requires m.Valid() && i < NumChannels
    requires m.channels[i].playingClip == Nil
    requires c != Nil
    ensures ApplyAll(m, msgs).channels[i].playingClip == c <==> StartedAndNotStopped(msgs, i, c)
    decreases |msgs|
  {
    if msgs == [] {
      return;
    }
    var p, x := msgs[..|msgs| - 1], msgs[|msgs| - 1];
    assert msgs == p + [x];
    var before := ApplyAll(m, p);
    PlayingClipIsLastUnstoppedStart(m, p, i, c);
    ClipStep(before, x, i);
    var e := ClipEventFor(x, i);
    if StartedAndNotStopped(msgs, i, c) {
      var k :| 0 <= k < |msgs| && ClipEventFor(msgs[k], i) == Some(Started(c)) &&
        forall j :: k < j < |msgs| ==> Harmless(ClipEventFor(msgs[j], i), c);
      if k < |p| {
        DropLast(p, x, i, c, k);
      }
    } else {
      if Harmless(e, c) && StartedAndNotStopped(p, i, c) {
        ExtendHarmless(p, x, i, c);
      }
    }
  }

  /** A channel that no message targets keeps its state through the whole
      stream. */
  lemma {:induction false} UntargetedChannelUnchanged(m: Mirror, msgs: seq<Message>, i: nat)
    requires m.Valid() && i < NumChannels
    requires forall k :: 0 <= k < |msgs| ==> TargetChannel(msgs[k]) != Some(i)
    ensures ApplyAll(m, msgs).channels[i] == m.channels[i]
    decreases |msgs|
  {
    if msgs != [] {
      var p := msgs[..|msgs| - 1];
      assert forall k :: 0 <= k < |p| ==> p[k] == msgs[k];
      UntargetedChannelUnchanged(m, p, i);
    }
  }

  /** Without any scene message carrying arguments, a stream leaves the
      current scene as it was. */
  lemma {:induction false} SceneUntouched(m: Mirror, msgs: seq<Message>)
    requires m.Valid()
    requires forall k :: 0 <= k < |msgs| ==> SceneOf(msgs[k]).None?
    ensures ApplyAll(m, msgs).currentScene == m.currentScene
    decreases |msgs|
  {
    if msgs != [] {
      var p := msgs[..|msgs| - 1];
      assert forall k :: 0 <= k < |p| ==> p[k] == msgs[k];
      SceneUntouched(m, p);
    }
  }

  /** The current scene after a stream is the scene of its last scene
      message that had arguments, whatever that value is. */
  lemma {:induction false} SceneIsLastTrigger(m: Mirror, msgs: seq<Message>, k: nat)
    requires m.Valid()
    requires k < |msgs| && SceneOf(msgs[k]).Some?
    requires forall j :: k < j < |msgs| ==> SceneOf(msgs[j]).None?
    ensures ApplyAll(m, msgs).currentScene == SceneOf(msgs[k]).value
    decreases |msgs|
  {
    var p, x := msgs[..|msgs| - 1], msgs[|msgs| - 1];
    if k < |p| {
      assert p[k] == msgs[k];
      assert forall j :: k < j < |p| ==> p[j] == msgs[j];
      SceneIsLastTrigger(m, p, k);
    }
  }
}
