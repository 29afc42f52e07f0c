# Ableton state monitor: the mirrored mixer state

This project models the local mirror of a remote Ableton Live mixer that
`AbletonStateMonitor` keeps up to date from OSC push notifications. The
mirror has a table of nine channels, indexed 0 to 8. Each channel holds a
volume, a mute flag and the clip it is playing. The mirror also holds the
current scene. Inbound notifications are routed by OSC address to five
handlers (track volume, track mute, clip playing status, scene triggered,
error). Once the UDP server and threads are stripped away, each handler is a
pure function from the mirror and the message's argument list to a new
mirror. A 1-based accessor reads a channel back out.

Modules, one per concept:

- `OscValues` (`osc_values.dfy`): an OSC argument is a `Value` (None, int, float, bool or string). The module also holds the three pieces of Python semantics the handlers use:
  - `Truthy` models `bool(v)`;
  - `PyEq` models `==`, where int, float and bool compare by numeric value;
  - `ChannelOf` models the range check `0 <= i < 9` followed by the dictionary lookup.
- `MixerState` (`mixer_state.dfy`): the `Channel` and `Mirror` records, the initial state, and the accessors.
- `Handlers` (`handlers.dfy`): the five notification handlers.
- `Dispatch` (`dispatch.dfy`): routing by address, plus in-order delivery of a stream of messages (`ApplyAll`).
- `HandlerLaws` (`handler_laws.dfy`): laws about single messages: idempotence, last write wins, commutation.
- `TraceProperties` (`trace_properties.dfy`): what a whole stream of messages can do to a channel's playing clip, to an untargeted channel, and to the current scene.

Facts about the code that shape the model:

- The handlers store volume, clip index and scene index exactly as received, with no type check and no range check. A volume can therefore be any value, not only one in [0, 1]. The stored values are `Value`s, and "no clip" is Python's `None` (`Nil`).
- The channel count is fixed at 9. The initial scene is the integer -1.
- For a channel number outside 1..9, `get_channel_state` returns `None`.
- A malformed index can make a handler raise: a string or `None` as the track index raises `TypeError`, and a non-integral float index in [0, 9) raises `KeyError` at the lookup; outside that range the check ignores it. The server catches the exception. Every such raise happens before any store, so the mirror is unchanged, and the model records only that. Because of the dictionary lookup, the float index `3.0` and the bool `True` select channels 3 and 1.

## Model

| member | source | states |
|---|---|---|
| OscValues.ChannelOf | ableton_osc_controller/src/controller/ableton_state_monitor.py:113-114 | a track index selects channel k exactly when it is in range and equals k as a dictionary key; any other value (out of range, non-integral, non-numeric) selects no channel |
| OscValues.FalsyValues | ableton_osc_controller/src/controller/ableton_state_monitor.py:125 | `bool(flag)` is false exactly for None, the empty string and numeric zero |
| MixerState.Init | ableton_osc_controller/src/controller/ableton_state_monitor.py:17-27 | the monitor starts with exactly channels 0..8, each with volume 0.0, unmuted and no playing clip, and current scene -1 |
| MixerState.GetChannelState | ableton_osc_controller/src/controller/ableton_state_monitor.py:159-165 | channel number k gives channel k-1 when 1 <= k <= 9 and None for every other k; it only reads |
| MixerState.GetAllChannelsState | ableton_osc_controller/src/controller/ableton_state_monitor.py:167-169 | the full table has nine entries and agrees with the 1-based single-channel accessor |
| MixerState.GetCurrentScene | ableton_osc_controller/src/controller/ableton_state_monitor.py:171-173 | reports the scene value last recorded in the mirror |
| MixerState.InitialReadBack | ableton_osc_controller/src/controller/ableton_state_monitor.py:17-27 | through the accessors, a new mirror reports the default record for channels 1..9, None for other numbers, and scene -1 |
| Handlers.Target | ableton_osc_controller/src/controller/ableton_state_monitor.py:109-113 | a handler writes only when its argument list reaches the required arity, and then to exactly the channel its first argument selects |
| Handlers.OnTrackVolume | ableton_osc_controller/src/controller/ableton_state_monitor.py:107-115 | with fewer than 2 arguments or an unselectable index the mirror is unchanged; otherwise only the selected channel's volume changes, to the second argument, unchecked |
| Handlers.OnTrackMute | ableton_osc_controller/src/controller/ableton_state_monitor.py:122-129 | with fewer than 2 arguments or an unselectable index the mirror is unchanged; otherwise only the selected channel's mute changes, to the truth value of the flag |
| Handlers.OnClipPlayingStatus | ableton_osc_controller/src/controller/ableton_state_monitor.py:132-143 | with fewer than 3 arguments or an unselectable index the mirror is unchanged; "playing" sets the channel's clip; "stopped" clears it only when it equals the given clip, and a stop for any other clip is a no-op; volume, mute, other channels and scene never change |
| Handlers.OnSceneTriggered | ableton_osc_controller/src/controller/ableton_state_monitor.py:146-150 | with an argument the current scene becomes the first argument, with no range check; with none it is a no-op; no channel is touched |
| Handlers.OnError | ableton_osc_controller/src/controller/ableton_state_monitor.py:153-155 | an error notification only reports its arguments and never changes the mirror |
| Dispatch.Apply | ableton_osc_controller/src/controller/ableton_state_monitor.py:49-64 | an error report or an unmapped address leaves the mirror unchanged; only scene messages move the scene and they touch no channel; any other message changes at most the one channel it targets |
| Dispatch.ApplyAll | ableton_osc_controller/src/controller/ableton_state_monitor.py:113-150 | any stream of notifications keeps the table at exactly nine channels |
| HandlerLaws.VolumeIdempotent | ableton_osc_controller/src/controller/ableton_state_monitor.py:115 | applying the same volume message twice gives the state that applying it once gives |
| HandlerLaws.MuteIdempotent | ableton_osc_controller/src/controller/ableton_state_monitor.py:129 | applying the same mute message twice gives the state that applying it once gives |
| HandlerLaws.ApplyIdempotent | ableton_osc_controller/src/controller/ableton_state_monitor.py:107-155 | every message, including a clip stop and a scene change, is idempotent: duplicate delivery equals a single delivery |
| HandlerLaws.VolumeLastWriteWins | ableton_osc_controller/src/controller/ableton_state_monitor.py:113-115 | of two volume messages for the same channel, the later one determines the state |
| HandlerLaws.MuteLastWriteWins | ableton_osc_controller/src/controller/ableton_state_monitor.py:124-129 | of two mute messages for the same channel, the later one determines the state |
| HandlerLaws.VolumeMuteCommute | ableton_osc_controller/src/controller/ableton_state_monitor.py:107-129 | a volume write and a mute write, even to the same channel, give the same state in either order |
| HandlerLaws.DistinctChannelsCommute | ableton_osc_controller/src/controller/ableton_state_monitor.py:107-143 | two channel messages that target different channels give the same state in either order |
| TraceProperties.ClipStep | ableton_osc_controller/src/controller/ableton_state_monitor.py:134-143 | one message's effect on a channel's playing clip: no event keeps it, a start sets it, a stop clears it only when it matches |
| TraceProperties.PlayingClipIsLastUnstoppedStart | ableton_osc_controller/src/controller/ableton_state_monitor.py:139-143 | from a channel with no clip, the channel plays clip c after a stream exactly when some message started c and no later message started another clip or stopped c |
| TraceProperties.UntargetedChannelUnchanged | ableton_osc_controller/src/controller/ableton_state_monitor.py:113-143 | a channel that no message in a stream targets keeps its whole state |
| TraceProperties.SceneUntouched | ableton_osc_controller/src/controller/ableton_state_monitor.py:146-150 | a stream with no scene message carrying arguments leaves the current scene as it was |
| TraceProperties.SceneIsLastTrigger | ableton_osc_controller/src/controller/ableton_state_monitor.py:146-150 | after a stream, the current scene is the first argument of the last scene message that had arguments |

## Left out

- The UDP client, the OSC server and its thread, `_subscribe_to_state_changes`, `refresh_state` and `start_periodic_refresh`. These are network sends and sleeping daemon threads with no effect on the mirror. In-order delivery of notifications is modelled by `ApplyAll`.
- Concurrency between handler threads. `ThreadingOSCUDPServer` runs each datagram's handler on its own thread, and only these handlers write the mirror; the refresh thread only sends queries. The model assumes delivery is serialized, one handler after another. The clip stop at lines 142-143 checks and then clears, and that is not atomic. Interleaving it with a start for another clip on the same channel can leave the channel with no clip, whereas both serial orders leave the started clip playing.
- TraceProperties.PlayingClipIsLastUnstoppedStart: holds for serialized delivery only, for the reason on the line above; the same goes for Dispatch.ApplyAll and the other stream lemmas.
- The log lines inside the handlers, `print_current_state`, and the dB conversion. These are floating-point `log10` and string formatting. Each handler prints after its store, so a print that raises does not change the state the model computes. One such raise is the `NameError` for `math`, which is imported only when the file runs as a script.
- Dispatch.Apply: routes by exact address only. OSC address patterns with wildcards, which could match several handlers, are not modelled.
- OSC argument types other than None, int, float, bool and string (blobs, MIDI, time tags). Floats are modelled as reals, without NaN or infinities.
- Whether a handler raises on a malformed index. The model records only the effect on the mirror, and it is the same as for an ignored message.
- MixerState.GetAllChannelsState: returns the channel table as a value. The source returns the live `self.channels` dictionary, so callers could change the mirror through it.
- MixerState.GetChannelState: takes an integer channel number and returns a copy. The source returns the live dictionary, so callers could mutate the mirror through it.
- The interactive command loop of the monitor, and the whole of `emotion_controller.py` (an argument parser and an input loop that send scene-fire commands over UDP).
