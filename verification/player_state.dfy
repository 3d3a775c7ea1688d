/** The per-player record and callback slots of dartvlc/internal/player_impl.h
    (with the PlaybackState enum of dartvlc/internal/events.h). */
module PlayerState {
  import opened Wrappers
  import Playlist

  /** PlaybackState, in declaration order. */
  datatype PlaybackState = NoState | Opening | Buffering | Playing | Paused | Stopped | Ended | Error

  function StateOrdinal(s: PlaybackState): (r: int)
    ensures 0 <= r <= 7
  {
    match s
    case NoState => 0
    case Opening => 1
    case Buffering => 2
    case Playing => 3
    case Paused => 4
    case Stopped => 5
    case Ended => 6
    case Error => 7
  }

  /** Reads an ordinal back (the host side of a state event). */
  function StateOfOrdinal(n: int): (r: Option<PlaybackState>)
    ensures r.Some? <==> 0 <= n <= 7
    ensures r.Some? ==> StateOrdinal(r.value) == n
  {
    if n == 0 then Some(NoState)
    else if n == 1 then Some(Opening)
    else if n == 2 then Some(Buffering)
    else if n == 3 then Some(Playing)
    else if n == 4 then Some(Paused)
    else if n == 5 then Some(Stopped)
    else if n == 6 then Some(Ended)
    else if n == 7 then Some(Error)
    else None
  }

  lemma StateOrdinalRoundTrip(s: PlaybackState)
    ensures StateOfOrdinal(StateOrdinal(s)) == Some(s)
  {
  }

  /** State: duration, relative position, current index, playback state,
      pending seek, the engine item last reported current (by MRL), and
      whether the engine reported the media seekable. */
  datatype State = State(
    duration: int,
    position: real,
    index: nat,
    playbackState: PlaybackState,
    pendingSeek: Option<int>,
    currentItem: Option<string>,
    isSeekable: bool)

  /** State::Reset: every field back to its default, whatever it held. */
  function Reset(s: State): (r: State)
    ensures r.duration == 0 && r.position == 0.0 && r.index == 0
    ensures r.playbackState == NoState && r.pendingSeek == None
    ensures r.currentItem == None && !r.isSeekable
  {
    State(0, 0.0, 0, NoState, None, None, false)
  }

  /** The State() constructor runs Reset on a fresh record. */
  const Fresh: State := Reset(State(0, 0.0, 0, NoState, None, None, false))

  /** Reset ignores what it overwrites, is idempotent, and gives what a
      freshly constructed State holds. */
  lemma ResetOverwritesEverything(s: State, t: State)
    ensures Reset(s) == Reset(t) == Fresh
    ensures Reset(Reset(s)) == Reset(s)
  {
  }

  // ---------------------------------------------------------------------
  // Callback slots (PlayerCallbacks)

  /** One std::function slot: empty, the default no-op lambda, or a
      registered handler identified by a tag. */
  datatype Slot = Empty | NoOp | Handler(tag: nat)

  datatype CallbackKind =
    | OnOpen | OnVideoDimensions | OnPlaybackStateChanged | OnPosition
    | OnSeekable | OnComplete | OnVolume | OnRate | OnPlaylist

  datatype Callbacks = Callbacks(
    open: Slot, videoDimension: Slot, playbackStateChanged: Slot,
    position: Slot, seekable: Slot, complete: Slot,
    volume: Slot, rate: Slot, playlist: Slot)

  /** The in-class initialisers: the open, video-dimension and
      playback-state slots start empty, the other six hold no-op lambdas. */
  const DefaultCallbacks: Callbacks :=
    Callbacks(Empty, Empty, Empty, NoOp, NoOp, NoOp, NoOp, NoOp, NoOp)

  function SlotOf(c: Callbacks, k: CallbackKind): Slot {
    match k
    case OnOpen => c.open
    case OnVideoDimensions => c.videoDimension
    case OnPlaybackStateChanged => c.playbackStateChanged
    case OnPosition => c.position
    case OnSeekable => c.seekable
    case OnComplete => c.complete
    case OnVolume => c.volume
    case OnRate => c.rate
    case OnPlaylist => c.playlist
  }

  lemma DefaultSlots(k: CallbackKind)
    ensures SlotOf(DefaultCallbacks, k) == Empty <==> k in {OnOpen, OnVideoDimensions, OnPlaybackStateChanged}
    ensures SlotOf(DefaultCallbacks, k) != Empty ==> SlotOf(DefaultCallbacks, k) == NoOp
  {
  }

  /** The On* setters: each overwrites exactly its own slot. */
  function Register(c: Callbacks, k: CallbackKind, tag: nat): (r: Callbacks)
    ensures SlotOf(r, k) == Handler(tag)
    ensures forall k' :: k' != k ==> SlotOf(r, k') == SlotOf(c, k')
  {
    match k
    case OnOpen => c.(open := Handler(tag))
    case OnVideoDimensions => c.(videoDimension := Handler(tag))
    case OnPlaybackStateChanged => c.(playbackStateChanged := Handler(tag))
    case OnPosition => c.(position := Handler(tag))
    case OnSeekable => c.(seekable := Handler(tag))
    case OnComplete => c.(complete := Handler(tag))
    case OnVolume => c.(volume := Handler(tag))
    case OnRate => c.(rate := Handler(tag))
    case OnPlaylist => c.(playlist := Handler(tag))
  }

  /** The last registration wins: registering twice on one slot is the same
      as registering only the second handler. */
  lemma LastRegistrationWins(c: Callbacks, k: CallbackKind, first: nat, second: nat)
    ensures Register(Register(c, k, first), k, second) == Register(c, k, second)
  {
  }

  /** What a player reports through a callback. */
  datatype Payload =
    | OpenPayload(media: Playlist.Media, index: int)
    | StatePayload(state: PlaybackState)
    | PositionPayload(position: real)
    | VolumePayload(volume: real)
    | RatePayload(rate: real)
    | DimensionsPayload(width: int, height: int)

  /** A registered handler that ran, with what it was given. */
  datatype Fired = Fired(tag: nat, payload: Payload)

  /** Calling a slot: only a registered handler has an observable effect;
      an empty slot is skipped by the caller's check and the default lambda
      does nothing. */
  function Call(slot: Slot, payload: Payload): (r: seq<Fired>)
    ensures |r| <= 1
    ensures |r| == 1 <==> slot.Handler?
    ensures |r| == 1 ==> r[0] == Fired(slot.tag, payload)
  {
    if slot.Handler? then [Fired(slot.tag, payload)] else []
  }
}
