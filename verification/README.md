# dart_vlc player control, modelled in Dafny

dart_vlc lets Dart and Flutter programs play media through libVLC. This project models
the deterministic part of its player-control core:

- the playlist editing engine (`PlaylistImpl`). Its media list and its mirrored libVLC
  media list are edited in lockstep, and every change that happens is announced once;
- the per-player state machine (`Player::Impl` and its `State` record). It covers:
  - engine notifications;
  - the deferred seek that is replayed when playback starts;
  - index navigation (Next, Back, Jump);
  - the index clamp applied when the playlist changes;
  - resolution of the media the engine reports;
  - position clamping;
  - callback slots, where the last registration wins;
- the `Player` facade, the process-wide player registry, and the C API of `api.cc`.
  The API wires callbacks to Dart events, decodes playlists from flat
  `(type, resource)` pairs, and forwards playlist edits;
- the video buffer protocol:
  - format negotiation and the single dimensions-changed notification;
  - the grow-only, double-buffered Windows outlet;
  - the frame adapter, which reallocates on every lock;
- the event envelope `[id, type, payload]` posted to Dart. A decoder is added as its
  inverse.

libVLC is modelled as an output log. Each step returns the new player together with the
engine commands it issued (`PlayerImpl.Command`) and the callbacks it fired, in order.
Values the engine reports are parameters:

- media length;
- whether it is playing;
- the current video size.

C++ fixed-width arithmetic is written out explicitly:

- `uint32_t` products wrap modulo 2^32;
- `int32_t` casts use two's complement;
- a float-to-int cast truncates toward zero.

A null dereference that the code allows (Next or Jump before any Open) is an explicit
outcome, not a precondition.

The model follows the code as written, including behaviour that looks unintended:

- Next never wraps and can move the index to the playlist's length.
- Jump accepts an index equal to the length.
- Seek while Playing falls through. It seeks now and also stores the position for replay.
- A stored pending seek of -1 counts as no pending seek.
- A missing `break` makes the negotiated chroma "RGBA" even for BGRA output.
- The frame adapter never records its buffer size, so every lock that needs bytes
  allocates a new buffer.
- The facade's `playback_state()` always answers kNone.
- The playlist mode and several facade setters are ignored.
- Inserting before the current item does not shift the index.

Two paths re-lock the player's non-recursive `state_mutex_` on the thread that already
holds it: every PlayOrPause, and an Open of an empty playlist. That is undefined
behaviour, and in practice the call never returns. The model states both as written,
with an explicit `Blocked` outcome (`PlayerImpl.PlayOrPauseAsWritten`,
`PlayerImpl.OpenAsWritten`). The rest of the model uses the intended behaviour, which is
listed under "## Findings".

## Model

| member | source | states |
|---|---|---|
| Ints.MulU32 | dartvlc/internal/video_output.cc:65 | a product of unsigned 32-bit values stays in range, and equals the true product whenever that fits |
| Ints.ToInt32 | dartvlc/internal/player_impl.h:91-94 | the int32_t cast yields an int32 value congruent to its argument modulo 2^32, and leaves values already in range alone |
| Ints.TruncToInt | dartvlc/internal/player_impl.cc:257-263 | float-to-int conversion truncates toward zero on both signs |
| Playlist.MoveItem | dartvlc/internal/playlist_impl.cc:4-12 | rotating `from` to `to` puts the moved item at `to`. Items strictly between shift one place toward `from`, and the rest stay put |
| Playlist.MoveItemIsRemoveThenInsert | dartvlc/internal/playlist_impl.cc:72-79 | the mirror's remove-at-from then insert-at-to produces exactly the rotate applied to the media list |
| Playlist.MoveItemPermutes | dartvlc/internal/playlist_impl.cc:4-12 | MoveItem preserves length and multiset |
| Playlist.MoveItemInverse | dartvlc/internal/playlist_impl.cc:4-12 | moving `from`→`to` then `to`→`from` restores the sequence |
| Playlist.LocationsOfMoveItem | dartvlc/internal/playlist_impl.cc:72-79 | moving medias and then taking locations equals moving the locations |
| Playlist.Add | dartvlc/internal/playlist_impl.cc:20-31 | appends the media to the list and its location to the engine mirror, keeps the prefix, announces once, keeps the mirror |
| Playlist.Remove | dartvlc/internal/playlist_impl.cc:33-45 | an index at or past the length changes nothing (iff). Otherwise that item is erased from both lists, the others keep their order, and one update is announced |
| Playlist.Insert | dartvlc/internal/playlist_impl.cc:47-61 | an index past the length changes nothing (iff). Inserting at the length is Add. Otherwise the media lands at the index and later items shift right; one update |
| Playlist.Move | dartvlc/internal/playlist_impl.cc:63-82 | no change iff from == to or either index is out of range. Otherwise both lists are the rotate, with one update |
| Playlist.MoveThenMoveBack | dartvlc/internal/playlist_impl.cc:63-82 | Move then the opposite Move restores both the media list and the engine mirror |
| Playlist.MovePermutes | dartvlc/internal/playlist_impl.cc:63-82 | Move never adds or loses media |
| Playlist.TryGetItem | dartvlc/internal/player_impl.cc:289-290 | an item is found exactly for indices inside the list, and it is the media at that index |
| Playlist.IndexOfItem | dartvlc/internal/player_impl.cc:278-281 | finds the first engine-list position holding the reported MRL, and nothing iff the MRL is absent |
| Playlist.ApplyEdit | dartvlc/internal/playlist_impl.cc:20-82 | every edit keeps the mirror. It announces at most once, and announces iff it changed the playlist |
| Playlist.EditsKeepMirror | dartvlc/internal/playlist_impl.cc:20-82 | any sequence of edits keeps media list and engine mirror in lockstep and announces at most once per edit |
| VideoTypes.FormatOrdinal | dartvlc/internal/video_output.h:14 | pixel format ordinals lie in 0..2 |
| VideoTypes.FormatOfOrdinal | dartvlc/internal/video_output.h:14 | exactly the ordinals 0..2 name a pixel format |
| VideoTypes.FormatOrdinals | dartvlc/internal/video_output.h:14 | kNone = 0, kFormatRGBA = 1, kFormatBGRA = 2, and ordinal and format convert into each other in both directions |
| VideoTypes.DimsEqualityIsValueEquality | dartvlc/internal/video_output.h:16-33 | `==` holds iff all three fields agree and `!=` is its negation; default dimensions are all zero |
| VideoTypes.RequiredSize | windows/video_outlet.cc:47 | bytes_per_row × height as a 32-bit unsigned value, exact when it fits |
| VideoOutlet.LockBuffer | windows/video_outlet.cc:44-66 | afterwards a current buffer exists, big enough, stamped with the frame size, and handle and data point at it. A new buffer of exactly the required size is made iff none exists or the old one is too small; then the old current becomes last. Otherwise both buffers are reused |
| VideoOutlet.CopyPixelBuffer | windows/video_outlet.cc:28-42 | always drops the last buffer and keeps the current one. It returns the current buffer's descriptor, or nothing iff there is no current buffer |
| VideoOutlet.LockAll | windows/video_outlet.cc:44-66 | any sequence of locks keeps the outlet's buffer invariant |
| VideoOutlet.CapacityMonotone | windows/video_outlet.cc:51-57 | across any sequence of locks the current capacity never shrinks and covers every frame locked |
| VideoOutlet.RelockSameSizeReuses | windows/video_outlet.cc:51-58 | locking the same size twice reuses the buffer of the first lock |
| FrameAdapter.OnFrameArrived | dartvlc/api/video_frame_adapter.h:17-19 | installs the frame callback and touches nothing else |
| FrameAdapter.LockBuffer | dartvlc/api/video_frame_adapter.cc:5-15 | allocates iff there is no buffer or the recorded size is too small, and never updates the recorded size. The handle is the (new or kept) buffer |
| FrameAdapter.PresentBuffer | dartvlc/api/video_frame_adapter.cc:17-22 | forwards the frame with the given dimensions exactly when a callback is installed |
| FrameAdapter.LockAll | dartvlc/api/video_frame_adapter.cc:5-15 | the recorded buffer size survives every lock unchanged |
| FrameAdapter.EveryPositiveLockReallocates | dartvlc/api/video_frame_adapter.h:33 | because buffer_size_ stays 0, every lock of a nonempty frame allocates a fresh buffer |
| FrameAdapter.ZeroSizedLockKeepsBuffer | dartvlc/api/video_frame_adapter.cc:7-14 | a zero-byte frame reuses the existing buffer |
| PixelOutput.New | dartvlc/internal/video_output.cc:9-11 | a new output starts with default (zero) dimensions |
| PixelOutput.ChromaWrites | dartvlc/internal/video_output.cc:56-61 | BGRA is written iff the format is BGRA, and "RGBA" is always written last |
| PixelOutput.SetupFormat | dartvlc/internal/video_output.cc:51-77 | chroma is "RGBA"; pitch is width × 4 modulo 2^32 and lines is height; returns 1. A new size is stored with its pitch and announced once; the same size changes nothing and announces nothing |
| PixelOutput.BgraNegotiatesRgba | dartvlc/internal/video_output.cc:56-61 | a BGRA output writes "BGRA" first but still negotiates a non-BGRA chroma |
| PixelOutput.NotifiesExactlyTheChanges | dartvlc/internal/video_output.cc:68-74 | over any sequence of negotiations, the sizes announced are exactly those that differ from the previous stored size |
| PixelOutput.BytesPerRowFollowsSize | dartvlc/internal/video_output.cc:68-74 | the stored bytes_per_row changes only on a size change and then equals width × 4 |
| PixelOutput.NewIsValid | dartvlc/internal/video_output.cc:92-94 | a new output over a well-formed delegate satisfies the output invariant |
| PixelOutput.OnVideoLock | dartvlc/internal/video_output.cc:79-81 | passes the stored dimensions to the delegate's LockBuffer and returns its handle as plane and picture; keeps the invariant |
| PixelOutput.OnVideoUnlock | dartvlc/internal/video_output.cc:83-86 | unlocking changes nothing for either delegate: the outlet's UnlockBuffer override and the delegate default are both empty |
| PixelOutput.OnVideoPicture | dartvlc/internal/video_output.cc:88-90 | presents user_data with the stored dimensions: one frame for an adapter with a callback, none otherwise |
| PixelOutput.SetupFormatKeepsValid | windows/video_outlet.cc:46 | negotiation keeps bytes_per_row == 4 × width, which the outlet's lock asserts |
| PlayerState.StateOrdinal | dartvlc/internal/events.h:20-29 | playback state ordinals lie in 0..7 |
| PlayerState.StateOfOrdinal | dartvlc/internal/events.h:20-29 | exactly 0..7 name a state, and the state named has that ordinal |
| PlayerState.StateOrdinalRoundTrip | dartvlc/internal/events.h:20-29 | reading a state's ordinal back gives the state |
| PlayerState.Reset | dartvlc/internal/player_impl.h:22-30 | zero duration, position and index; kNone; no pending seek; no current item; not seekable |
| PlayerState.ResetOverwritesEverything | dartvlc/internal/player_impl.h:11-31 | Reset yields the freshly constructed State whatever it starts from, so it is idempotent |
| PlayerState.DefaultSlots | dartvlc/internal/player_impl.h:69-81 | the open, video-dimension and playback-state slots start empty, and every other slot starts as a no-op |
| PlayerState.Register | dartvlc/internal/player_impl.h:35-67 | an On* setter fills its own slot and leaves every other slot as it was |
| PlayerState.LastRegistrationWins | dartvlc/internal/player_impl.h:35-67 | registering twice on a slot equals registering only the second handler |
| PlayerState.Call | dartvlc/internal/player_impl.cc:139-141 | a slot fires at most once, exactly when a handler is installed, with the given payload |
| PlayerImpl.Construct | dartvlc/internal/player_impl.cc:43-61 | a new Impl has the reset state, default callbacks, no playlist or video, and sets the engine volume to 100 |
| PlayerImpl.Duration | dartvlc/internal/player_impl.h:91-94 | duration() is never negative and fits in int32_t. It is the engine length when that lies in [0, 2^31), and 0 for a negative length that fits in int32_t (libVLC's -1); a wider negative length is wrapped to int32_t first and then clamped at 0 |
| PlayerImpl.Volume | dartvlc/internal/player_impl.h:105 | volume() is the engine percentage divided by 100 |
| PlayerImpl.Position | dartvlc/internal/player_impl.h:96-103 | position() answers the stored state position, which the invariant keeps in [0, 1]; the engine's own position is not consulted |
| PlayerImpl.PositionReadsBackClamped | dartvlc/internal/player_impl.h:96-103 | position() returns the clamped stored value, whatever the engine reports |
| PlayerImpl.GetPlaybackState | dartvlc/internal/player_impl.cc:19-39 | each engine state maps to the player state of the same name: the result's ordinal in events.h equals the engine state's ordinal in libvlc_state_t, and kNone comes exactly from the remaining (nothing special) state |
| PlayerImpl.GetPlaybackStateIsBijective | dartvlc/internal/player_impl.cc:19-39 | distinct engine states give distinct player states, and every player state is reached |
| PlayerImpl.HandledState | dartvlc/internal/player_impl.cc:75-104 | every engine state has a handler reporting the state of the same ordinal, except buffering (body commented out) and error (no handler installed). Opening is bound twice (lines 78-79 and 95-96); the model delivers it once, which changes nothing because a repeated state is silent (`PlayerImpl.StateRedeliveryIsSilent`) |
| PlayerImpl.HandlersAgreeWithPoll | dartvlc/internal/player_impl.cc:19-39 | each installed handler reports what GetPlaybackState would for that engine state, so Buffering and Error are never reported |
| PlayerImpl.HandleVlcState | dartvlc/internal/player_impl.cc:113-143 | a Playing report with a pending seek clears it, and issues a relative seek iff the length is not -1. State and callback change only on a real transition. Entering Stopped zeroes duration and position. Nothing else changes |
| PlayerImpl.StateRedeliveryIsSilent | dartvlc/internal/player_impl.cc:128-142 | reporting the state just entered again fires nothing and changes nothing |
| PlayerImpl.HandleMediaChanged | dartvlc/internal/player_impl.cc:273-292 | with no playlist or an unknown MRL, nothing happens. Otherwise index and current item move to the MRL's first position, and the open callback fires with that item |
| PlayerImpl.MediaChangedPointsAtItem | dartvlc/internal/player_impl.cc:273-292 | on a mirrored playlist, a reported MRL always fires open, with a media whose location is that MRL |
| PlayerImpl.Clamp01 | dartvlc/internal/player_impl.cc:298 | clamps into [0, 1], identity inside |
| PlayerImpl.HandlePositionChanged | dartvlc/internal/player_impl.cc:294-303 | stores the clamped position, changes nothing else, and always fires the position callback with the stored value |
| PlayerImpl.HandleSeekableChanged | dartvlc/internal/player_impl.cc:305-307 | records seekability and nothing else |
| PlayerImpl.OnPlaylistUpdated | dartvlc/internal/player_impl.cc:149-166 | hands the engine the mirror. An empty playlist resets the state and stops; otherwise the index becomes min(index, length − 1) and nothing else changes |
| PlayerImpl.Open | dartvlc/internal/player_impl.cc:168-191 | a missing playlist is rejected unchanged. Otherwise loop mode is set, the update step runs, and open fires with item 0 iff the playlist is nonempty |
| PlayerImpl.OpenBindsPlaylist | dartvlc/internal/player_impl.cc:168-191 | after Open the player holds the playlist; the full command sequence for the empty and nonempty cases |
| PlayerImpl.Guarded | dartvlc/internal/player_impl.h:127 | a member that starts with a lock_guard on the non-recursive state mutex blocks exactly when the calling thread already holds it, having issued only what came before; otherwise it returns its body's step |
| PlayerImpl.OpenAsWritten | dartvlc/internal/player_impl.cc:149-191 | Open as written blocks exactly for an empty playlist, after issuing loop mode and the media list but before the stop; every other Open returns the step of `PlayerImpl.Open` |
| PlayerImpl.EmptyOpenBlocks | dartvlc/internal/player_impl.cc:157-159 | opening a fresh, empty playlist blocks after loop mode and an empty media list |
| PlayerImpl.EditPlaylist | dartvlc/internal/player_impl.cc:149-166 | an edit that changes the playlist runs the update hook once. An edit that changes nothing leaves the player untouched |
| PlayerImpl.EditClampsIndex | dartvlc/internal/player_impl.cc:149-166 | after any effective edit, the index lies inside a nonempty playlist or the state is reset |
| PlayerImpl.InsertKeepsIndex | dartvlc/internal/player_impl.cc:149-166 | inserting at or before the current item keeps the index, so it then names a different media |
| PlayerImpl.RemoveBeforeCurrentShiftsItem | dartvlc/internal/player_impl.cc:149-166 | removing before the current item keeps the index, so the index now names the following media |
| PlayerImpl.Play | dartvlc/internal/player_impl.cc:193-196 | issues play and changes nothing |
| PlayerImpl.Pause | dartvlc/internal/player_impl.cc:198-201 | issues pause and changes nothing |
| PlayerImpl.PlayOrPause | dartvlc/internal/player_impl.cc:203-210 | pauses iff the engine is playing, plays otherwise (the intended behaviour; see "## Findings") |
| PlayerImpl.PlayOrPauseAsWritten | dartvlc/internal/player_impl.cc:193-210 | PlayOrPause as written blocks on every call, before anything reaches the engine |
| PlayerImpl.PlayOrPauseIsTheUnlockedCall | dartvlc/internal/player_impl.cc:193-210 | without the outer lock, the inner Pause or Play call returns exactly the step of `PlayerImpl.PlayOrPause`; with it, the call blocks |
| PlayerImpl.Stop | dartvlc/internal/player_impl.cc:212-215 | issues stop and changes nothing |
| PlayerImpl.Jump | dartvlc/internal/player_impl.cc:217-222 | dereferences the playlist (null iff none). Plays i exactly for 0 ≤ i ≤ length, and never changes the stored index |
| PlayerImpl.Next | dartvlc/internal/player_impl.cc:224-229 | while index < length, increments it and plays it; otherwise does nothing. Null iff no playlist |
| PlayerImpl.Back | dartvlc/internal/player_impl.cc:231-236 | decrements and plays iff index > 0 |
| PlayerImpl.NextThenBack | dartvlc/internal/player_impl.cc:224-236 | Back undoes Next whenever Next moved |
| PlayerImpl.NextAtLastItemGoesPastEnd | dartvlc/internal/player_impl.cc:224-229 | Next on the last item moves the index to the length and asks the engine for that nonexistent item |
| PlayerImpl.Seek | dartvlc/internal/player_impl.cc:238-255 | in Error nothing happens. Every other state stores the pending seek, and Playing additionally seeks immediately |
| PlayerImpl.LatestSeekWins | dartvlc/internal/player_impl.cc:238-255 | of two seeks, only the later one is kept |
| PlayerImpl.DeferredSeekReplaysOnce | dartvlc/internal/player_impl.cc:116-126 | a seek stored before playback is replayed on the first Playing report and not on a later one |
| PlayerImpl.SeekWhilePlayingReplaysOnResume | dartvlc/internal/player_impl.cc:242-251 | a seek while Playing is also stored, and is replayed when Playing is next reported |
| PlayerImpl.SetVolumeTo | dartvlc/internal/player_impl.cc:257-263 | sends the truncated percentage and fires the volume callback with the requested value |
| PlayerImpl.VolumeReadsBack | dartvlc/internal/player_impl.cc:257-263 | for a volume with a whole percentage, volume() reads the value back |
| PlayerImpl.SetRateTo | dartvlc/internal/player_impl.cc:265-271 | sends the rate and fires the rate callback with it |
| PlayerImpl.Register | dartvlc/internal/player_impl.h:35-67 | registering fills one slot and leaves state, playlist, video and other slots alone |
| PlayerImpl.SetVideoOutput | dartvlc/internal/player_impl.cc:63-69 | installs the video output and changes nothing else |
| PlayerImpl.VideoFormat | dartvlc/internal/player_impl.cc:63-69 | a negotiation updates the stored output. The video-dimension callback fires iff the size changed, with the int32_t-cast size |
| PlayerImpl.ApplyKeepsValid | dartvlc/internal/player_impl.cc:149-236 | every input keeps the index within [0, length], the playlist mirrored, the stored position in [0, 1] and the video invariant. A null dereference arises only from Next or Jump without a playlist |
| PlayerImpl.ApplyKeepsCallbacks | dartvlc/internal/player_impl.h:35-67 | only registration changes the callback slots |
| PlayerImpl.RunKeepsValid | dartvlc/internal/player_impl.cc:113-307 | any sequence of admissible inputs keeps the player invariant, including format negotiations on an attached output with uint32 sizes |
| PlayerImpl.ApplyKeepsVideoAttached | dartvlc/internal/player_impl.cc:63-69 | no input attaches or detaches the video output; only SetVideoOutput does |
| PlayerImpl.ConstructIsValid | dartvlc/internal/player_impl.cc:43-61 | a constructed Impl satisfies the invariant |
| PlayerFacade.Forward | dartvlc/player.cc:70-97 | exactly the setters with empty bodies forward nothing. Open forwards only the playlist |
| PlayerFacade.Handle | dartvlc/player.cc:75-97 | forwarded requests behave as the Impl's; ignored ones change nothing and emit nothing |
| PlayerFacade.OpenIgnoresAutoStart | dartvlc/player.cc:70-73 | Open behaves identically whatever auto_start is |
| PlayerFacade.PlaylistModeNeverAffectsNext | dartvlc/player.cc:86-97 | setting any playlist mode leaves Next exactly as it was |
| PlayerFacade.ReportedPlaybackState | dartvlc/player.cc:52 | playback_state() reports ordinal 0 (kNone) |
| PlayerFacade.ReportedStateIgnoresImpl | dartvlc/player.cc:52 | the reported state matches the Impl's iff the Impl is still in kNone |
| PlayerFacade.CreatePlaylist | dartvlc/player.cc:99-101 | a new playlist is empty, mirrored, and has announced nothing |
| Registry.Create | dartvlc/player_registry.h:12-20 | the new player is stored under its id, which was absent, and every other entry is untouched |
| Registry.Get | dartvlc/player_registry.h:22-29 | a player is found iff its id is registered, and it is the registered one |
| Registry.Invoke | dartvlc/player_registry.h:31-36 | runs the callback once on a registered player and keeps its result; an unknown id does nothing |
| Registry.Dispose | dartvlc/player_registry.h:38-41 | removes exactly that id; an absent id is a no-op |
| Registry.CreateGetDispose | dartvlc/player_registry.h:12-41 | a created player is found, and disposing it restores the registry and makes the id unknown |
| Registry.OtherPlayersUntouched | dartvlc/player_registry.h:31-41 | Invoke and Dispose on one id never change what another id finds |
| Registry.InvokeAfterDispose | dartvlc/player_registry.h:31-41 | invoking a disposed id does nothing |
| Events.TypeOrdinal | dartvlc/api/eventmanager.h:38-47 | event type ordinals lie in 0..7 |
| Events.TypeOfOrdinal | dartvlc/api/eventmanager.h:38-47 | exactly 0..7 name an event type |
| Events.TypeOrdinalRoundTrip | dartvlc/api/eventmanager.h:38-47 | type and ordinal convert into each other both ways |
| Events.TypeOf | dartvlc/api/eventmanager.h:71-241 | every payload has a known event type (never kUnknown) |
| Events.BuildPlaylistUpdated | dartvlc/api/eventmanager.h:71-125 | carries the index and the is-playlist flag, plus the type and resource of every media in order |
| Events.BuildPlaybackStateChanged | dartvlc/api/eventmanager.h:127-146 | carries the state's ordinal (which reads back as the state) and seekability |
| Events.BuildPositionChanged | dartvlc/api/eventmanager.h:148-166 | carries position and duration |
| Events.BuildRateChanged | dartvlc/api/eventmanager.h:168-174 | carries the rate |
| Events.BuildVolumeChanged | dartvlc/api/eventmanager.h:176-182 | carries the volume |
| Events.BuildVideoDimensionsChanged | dartvlc/api/eventmanager.h:184-202 | carries width and height cast to int32_t: unchanged below 2^31, wrapped above |
| Events.BuildVideoFrameAvailable | dartvlc/api/eventmanager.h:204-241 | carries buffer, size, the in-range dimensions unchanged, and the pixel format ordinal |
| Events.StringsToC | dartvlc/api/eventmanager.h:94-116 | one C string per string |
| Events.CToStrings | dartvlc/api/eventmanager.h:94-116 | decoding gives one string per C string |
| Events.StringsRoundTrip | dartvlc/api/eventmanager.h:94-116 | string arrays decode back to the strings |
| Events.EncodePayload | dartvlc/api/eventmanager.h:71-241 | rate and volume are bare doubles; every other payload is an array of its struct's fields in declaration order, the playlist carrying its types and resources as two string arrays |
| Events.Encode | dartvlc/api/eventmanager.h:49-69 | an envelope is a three-element array of the player id, the type ordinal and the payload |
| Events.DecodePayload | dartvlc/api/eventmanager.h:71-241 | a payload decoded under a type has that type |
| Events.Decode | dartvlc/api/eventmanager.h:49-69 | only a three-element array whose head is the player id decodes |
| Events.DecodeEncode | dartvlc/api/eventmanager.h:49-241 | every envelope decodes back to the message it encodes |
| Events.EncodeInjective | dartvlc/api/eventmanager.h:49-69 | distinct messages have distinct envelopes |
| Events.Post | dartvlc/api/eventmanager.h:243-281 | posting appends one envelope that decodes to the message |
| Events.PostAll | dartvlc/api/eventmanager.h:243-281 | posting a batch appends one envelope per message |
| Events.PostAllInOrder | dartvlc/api/eventmanager.h:243-281 | earlier posts are kept and the new envelopes decode to the messages in order |
| Api.Dispatch | dartvlc/api/api.cc:69-97 | each callback kind posts what its handler builds, addressed to its player. Open posts the whole playlist as a playlist at the given index (nothing without a playlist). A state change posts the state flagged seekable, plus position and duration() iff the state is Stopped. Position posts the position with duration(); rate and volume post their value; dimensions post the int32 sizes unchanged |
| Api.DispatchAll | dartvlc/api/api.cc:69-97 | no callbacks post nothing; one callback posts what its dispatch posts; every posted event is addressed to the player, and each callback posts at most two |
| Api.DispatchAllAppend | dartvlc/api/api.cc:69-97 | the events for two runs of callbacks are the first run's events followed by the second's, so posting order follows firing order |
| Api.Deliver | dartvlc/api/api.cc:134-185 | an unknown id is a no-op. Otherwise the player steps, its commands are sent and its callbacks posted, and the host invariant is kept |
| Api.PlayerCreate | dartvlc/api/api.cc:53-115 | returns the new id and registers the constructed, fully wired player there, touching no other player. Volume 100 is sent and nothing is posted |
| Api.PlayerDispose | dartvlc/api/api.cc:117 | removes exactly that player and sends and posts nothing |
| Api.Pairs | dartvlc/api/api.cc:123-128 | decodes `size` consecutive (type, resource) pairs |
| Api.PairsFlatten | dartvlc/api/api.cc:123-128 | decoding flattened pairs gives back the pairs |
| Api.BuildPlaylist | dartvlc/api/api.cc:122-128 | the playlist holds one media per pair, in order, mirrored, after one Add per pair |
| Api.OpenDelivers | dartvlc/api/api.cc:119-131 | opening a mirrored playlist on a registered player is delivered and binds the playlist |
| Api.PlayerOpen | dartvlc/api/api.cc:119-132 | the player opens the playlist decoded from the pairs; an unknown id does nothing |
| Api.PlayerRequest | dartvlc/api/api.cc:134-185 | a forwarded request is delivered to the registered player exactly as the facade handles it: the step is recorded, or a null dereference is returned. Requests the facade ignores and unknown ids change nothing; only Next and Jump can dereference null |
| Api.ParseMode | dartvlc/api/api.cc:196-209 | "PlaylistMode.repeat" and "PlaylistMode.loop" name their modes; anything else is single |
| Api.ParseModeName | dartvlc/api/api.cc:196-209 | every mode's name parses back to the mode |
| Api.PlayerSetPlaylistMode | dartvlc/api/api.cc:196-209 | the host is left exactly as it was |
| Api.Edit | dartvlc/api/api.cc:211-270 | runs the playlist edit and the player's update hook on the addressed player and records its commands; every other player is unchanged and nothing is posted. No playlist or player means no change |
| Api.PlayerAdd | dartvlc/api/api.cc:211-226 | the playlist becomes Add of the media for (type, resource) |
| Api.PlayerRemove | dartvlc/api/api.cc:228-240 | the playlist becomes Remove at the index cast to uint32_t |
| Api.PlayerInsert | dartvlc/api/api.cc:242-256 | the playlist becomes Insert at the index cast to uint32_t |
| Api.PlayerMove | dartvlc/api/api.cc:258-270 | the playlist becomes Move between the indices cast to uint32_t |
| Api.FrameMessages | dartvlc/api/api.cc:104-109 | each presented frame posts one RGBA frame event of bytes_per_row × height bytes |
| Api.EngineFrame | dartvlc/api/api.cc:104-112 | lock, unlock and picture keep the host invariant and send no command |
| Api.CreateThenDispose | dartvlc/api/api.cc:53-117 | creating then disposing a player restores the registry |
| Api.Wire | dartvlc/api/eventmanager.h:243-281 | the callback port carries one envelope per posted message |
| Api.PostedReachTheWire | dartvlc/api/eventmanager.h:243-281 | every message the host has posted reaches the port in order and decodes back to itself |
| Api.OpenPostsPlaylist | dartvlc/api/api.cc:69-75 | opening a nonempty playlist posts a playlist event at index 0 listing every pair in order |
| Api.StopPostsPositionReset | dartvlc/api/api.cc:77-83 | entering Stopped posts the state event and then a position event of 0 with duration() |
| Api.DimensionsArriveUnchanged | dartvlc/api/api.cc:94-97 | a dimensions callback posts one event carrying its width and height |
| Api.NegativeRemoveIsIgnored | dartvlc/api/api.cc:228-240 | a negative index wraps to a huge unsigned index, so removal changes nothing |
| Api.EveryPictureIsPosted | dartvlc/api/api.cc:104-112 | with an adapter and a frame callback, every engine frame posts exactly one frame event |

## Left out

- libVLC itself: decoding, clocks, and the real media and list players. Engine reports
  (state, length, position, playing, video size) are parameters, and commands are an
  output log.
- `Attach` wiring of engine events and video callbacks (`player_impl.cc` and
  `video_output.cc:32-49`). The model takes the wiring as given and calls the handlers
  directly.
- Threads and mutexes. Every operation is atomic here. Contention between threads is not
  modelled; a re-lock on one thread is (`PlayerImpl.Guarded`).
- PlayerImpl.PlayOrPause: the code re-locks the non-recursive `state_mutex_` on the same
  thread on every call, so it never returns (`PlayerImpl.PlayOrPauseAsWritten`). The player
  machine and the API use the intended pause or play.
- PlayerImpl.Open: with an empty playlist, Stop re-locks `state_mutex_` while Open holds it,
  so `PlayerOpen` with `source_size` 0 never returns (`PlayerImpl.OpenAsWritten`). The player
  machine and the API complete the call with ListStop. The same update step reached from a
  playlist edit runs without the lock held and completes, as modelled.
- Floating point. Positions, rates and volumes are reals. The relative seek is kept as the
  pair (pending seek, length) rather than a rounded double.
- Dart FFI, native ports and finalizers are left out. A posted event is its envelope,
  without C memory management.
- Media parsing, device enumeration, broadcast, Chromecast, recording, the equalizer
  functions and their registry, and snapshots. They are outside the control core;
  `PlayerSetEqualizer` with an unknown equalizer id is one of them.
- Windows textures and the Flutter plugin registration. Only the outlet's buffer protocol
  is modelled.
- `dartvlc/internal/media.h` and `dartvlc/internal/playlist_impl.h` are not part of this
  model. Their pieces are stated as described:
  - a media's location is a field, and the API takes a `locate` function;
  - `GetIndexOfItem` is the first engine-list position with the MRL (`Playlist.IndexOfItem`);
  - `TryGetItem` is bounds-checked lookup;
  - `NotifyUpdate` is the update counter plus the player's hook.
- Command-line arguments and the VLC instance. A failed creation (`return 0` in
  `PlayerCreate`) is not modelled, because `Players::Create` never returns null.
- The log callback and stderr prints. The buffering handler's body is commented out, so it
  reports nothing (`PlayerImpl.HandledState`). That commented-out body is the only caller of
  `GetPlaybackState`. The function is modelled on its own (`PlayerImpl.GetPlaybackState`), but
  no input of the player machine uses it.
- The playlist, complete and seekable callbacks are never invoked by the core. Their slots
  exist but nothing fires them.
- Calling an empty `std::function` slot throws `bad_function_call`. The video-dimension
  callback is called without a guard. The model treats an empty slot as firing nothing.
- Api.EngineFrame: its contract states the invariant and what stays unchanged. The frame
  event it posts is stated by `Api.EveryPictureIsPosted`.

## Findings

| source | as written | input that shows it | evidently intended | confidence | as-written member | corrected member |
|---|---|---|---|---|---|---|
| dartvlc/internal/player_impl.cc:193-210 | PlayOrPause holds `state_mutex_` and calls Pause or Play, which lock it again | any call, e.g. `PlayerPlayOrPause` on a new player | pause when playing, play otherwise | high, not executed | PlayerImpl.PlayOrPauseAsWritten | PlayerImpl.PlayOrPause |
| dartvlc/internal/player_impl.cc:149-191 | Open holds `state_mutex_`; for an empty playlist the update step calls Stop, which locks it again | `PlayerOpen` with `source_size` 0 (`PlayerImpl.EmptyOpenBlocks`) | reset, stop the list player and return | high, not executed | PlayerImpl.OpenAsWritten | PlayerImpl.Open |
