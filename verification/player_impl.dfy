/** The per-player state machine of dartvlc/internal/player_impl.cc.

    The engine is not modelled: what the code tells it to do is an output
    log of Command values, and what it reports (its state, the current
    media, the position, its length, whether it is playing) arrives as
    inputs. Registered callbacks that run appear in the same log, in order. */
module PlayerImpl {
  import opened Wrappers
  import opened Ints
  import opened PlayerState
  import Playlist
  import PixelOutput

  /** What the code asks of the engine (media player or media-list player). */
  datatype Command =
    | SetVolume(percent: int)
    | SetMediaList(mrls: seq<string>)
    | SetPlaybackModeLoop
    | ListPlay
    | ListPause
    | ListStop
    | PlayItemAt(index: int)
    | SetTime(time: int)
    | SetPosition(pendingSeek: int, length: int)  // setPosition(pendingSeek / length)
    | SetRate(rate: real)

  /** One entry of the output log: an engine command or a callback that ran. */
  datatype Out = Engine(cmd: Command) | Callback(fired: Fired)

  /** Player::Impl: state_, playlist_ (the PlaylistImpl it opened, whose
      update hook points back at this player), the callback slots, and the
      attached video output. */
  datatype Impl = Impl(
    state: State,
    playlist: Option<Playlist.PlaylistImpl>,
    callbacks: Callbacks,
    video: Option<PixelOutput.Output>)

  datatype Step = Step(impl: Impl, outs: seq<Out>)

  /** Next and Jump dereference playlist_ unconditionally; before any Open
      that is a null dereference, which the model reports instead of a step. */
  datatype Outcome = Done(step: Step) | NullPlaylist

  // ---------------------------------------------------------------------
  // Reading the output log

  function Commands(outs: seq<Out>): (r: seq<Command>)
    ensures |r| <= |outs|
  {
    if |outs| == 0 then []
    else (if outs[0].Engine? then [outs[0].cmd] else []) + Commands(outs[1..])
  }

  function Fires(outs: seq<Out>): (r: seq<Fired>)
    ensures |r| <= |outs|
  {
    if |outs| == 0 then []
    else (if outs[0].Callback? then [outs[0].fired] else []) + Fires(outs[1..])
  }

  lemma {:induction false} LogAppend(a: seq<Out>, b: seq<Out>)
    ensures Commands(a + b) == Commands(a) + Commands(b)
    ensures Fires(a + b) == Fires(a) + Fires(b)
    decreases |a|
  {
    if |a| > 0 {
      assert (a + b)[1..] == a[1..] + b;
      LogAppend(a[1..], b);
    } else {
      assert a + b == b;
    }
  }

  /** Runs a callback slot, recording the handler's run in the log. */
  function CallOut(slot: Slot, payload: Payload): (r: seq<Out>)
    ensures Commands(r) == []
    ensures Fires(r) == Call(slot, payload)
  {
    if slot.Handler? then [Callback(Fired(slot.tag, payload))] else []
  }

  function Issue(c: Command): (r: seq<Out>)
    ensures Commands(r) == [c] && Fires(r) == []
  {
    [Engine(c)]
  }

  // ---------------------------------------------------------------------
  // Construction and getters

  /** The constructor: fresh state, default callback slots, no playlist and
      no video output; the engine volume is set to 100. */
  function Construct(): (r: Step)
    ensures r.impl.state == Fresh && r.impl.callbacks == DefaultCallbacks
    ensures r.impl.playlist.None? && r.impl.video.None?
    ensures Commands(r.outs) == [SetVolume(100)] && Fires(r.outs) == []
  {
    Step(Impl(Fresh, None, DefaultCallbacks, None), Issue(SetVolume(100)))
  }

  /** duration(): the engine length cast to int32, never below zero. */
  function Duration(engineLength: int): (r: int)
    ensures r >= 0 && IsI32(r)
    ensures 0 <= engineLength < TWO_31 ==> r == engineLength
    ensures engineLength < 0 && IsI32(engineLength) ==> r == 0
  {
    Max(ToInt32(engineLength), 0)
  }

  /** position(): the stored relative position; the engine's own position
      is not consulted. */
  function Position(p: Impl, enginePosition: real): (r: real)
    ensures Valid(p) ==> 0.0 <= r <= 1.0
    ensures r == p.state.position
  {
    p.state.position
  }

  /** volume(): the engine's volume percentage scaled to [0, 1] units. */
  function Volume(enginePercent: int): (r: real)
    ensures r * 100.0 == enginePercent as real
  {
    enginePercent as real / 100.0
  }

  // ---------------------------------------------------------------------
  // Engine notifications

  /** The engine's media player states (libvlc_state_t). */
  datatype VlcState =
    | VlcNothingSpecial | VlcOpening | VlcBuffering | VlcPlaying | VlcPaused | VlcStopped | VlcEnded | VlcError

  /** libvlc_state_t's values, 0..7 in declaration order. */
  function VlcOrdinal(v: VlcState): (r: nat)
    ensures r <= 7
  {
    match v
    case VlcNothingSpecial => 0
    case VlcOpening => 1
    case VlcBuffering => 2
    case VlcPlaying => 3
    case VlcPaused => 4
    case VlcStopped => 5
    case VlcEnded => 6
    case VlcError => 7
  }

  /** GetPlaybackState: the player state of the same name; the remaining
      engine state (nothing special) falls to the default, kNone. The two
      enums list their states in the same order, so "the same name" is
      "the same ordinal". */
  function GetPlaybackState(v: VlcState): (r: PlaybackState)
    ensures StateOrdinal(r) == VlcOrdinal(v)
    ensures r == NoState <==> v == VlcNothingSpecial
  {
    match v
    case VlcOpening => Opening
    case VlcBuffering => Buffering
    case VlcPlaying => Playing
    case VlcPaused => Paused
    case VlcStopped => Stopped
    case VlcEnded => Ended
    case VlcError => Error
    case _ => NoState
  }

  /** Distinct engine states are reported as distinct player states, and
      every player state is reachable. */
  lemma GetPlaybackStateIsBijective(a: VlcState, b: VlcState, s: PlaybackState)
    ensures GetPlaybackState(a) == GetPlaybackState(b) ==> a == b
    ensures exists v :: GetPlaybackState(v) == s
  {
    match s
    case NoState => assert GetPlaybackState(VlcNothingSpecial) == s;
    case Opening => assert GetPlaybackState(VlcOpening) == s;
    case Buffering => assert GetPlaybackState(VlcBuffering) == s;
    case Playing => assert GetPlaybackState(VlcPlaying) == s;
    case Paused => assert GetPlaybackState(VlcPaused) == s;
    case Stopped => assert GetPlaybackState(VlcStopped) == s;
    case Ended => assert GetPlaybackState(VlcEnded) == s;
    case Error => assert GetPlaybackState(VlcError) == s;
  }

  /** The state the event handler installed for an engine state passes to
      HandleVlcState. The buffering handler's body is commented out and no
      handler is installed for errors, so those two report nothing. */
  function HandledState(v: VlcState): (r: Option<PlaybackState>)
    ensures r.None? <==> v == VlcBuffering || v == VlcError
    ensures r.Some? ==> StateOrdinal(r.value) == VlcOrdinal(v)
  {
    match v
    case VlcNothingSpecial => Some(NoState)
    case VlcOpening => Some(Opening)
    case VlcPlaying => Some(Playing)
    case VlcPaused => Some(Paused)
    case VlcStopped => Some(Stopped)
    case VlcEnded => Some(Ended)
    case _ => None
  }

  /** Every installed handler reports what polling the engine would. */
  lemma HandlersAgreeWithPoll(v: VlcState)
    ensures HandledState(v).Some? ==> HandledState(v).value == GetPlaybackState(v)
    ensures HandledState(v).Some? ==> HandledState(v).value != Buffering && HandledState(v).value != Error
  {
  }

  /** The pending seek that a Playing notification replays: -1 stands for
      "none" (value_or(-1)), so a stored -1 is never replayed. */
  predicate ReplaysSeek(st: State, s: PlaybackState) {
    s == Playing && st.pendingSeek.Some? && st.pendingSeek.value != -1
  }

  /** HandleVlcState: a Playing notification consumes the pending seek (the
      engine is told only when it knows the length); then, only if the state
      actually changes, it is stored, Stopped zeroes duration and position,
      and the state callback runs. */
  function HandleVlcState(p: Impl, s: PlaybackState, engineLength: int): (r: Step)
    ensures r.impl.state.playbackState == s
    ensures r.impl.playlist == p.playlist && r.impl.callbacks == p.callbacks && r.impl.video == p.video
    ensures r.impl.state.index == p.state.index && r.impl.state.currentItem == p.state.currentItem
    ensures r.impl.state.isSeekable == p.state.isSeekable
    ensures ReplaysSeek(p.state, s) ==> r.impl.state.pendingSeek == None
    ensures !ReplaysSeek(p.state, s) ==> r.impl.state.pendingSeek == p.state.pendingSeek
    ensures Commands(r.outs) ==
              if ReplaysSeek(p.state, s) && engineLength != -1
              then [SetPosition(p.state.pendingSeek.value, engineLength)] else []
    ensures Fires(r.outs) ==
              if p.state.playbackState != s
              then Call(p.callbacks.playbackStateChanged, StatePayload(s)) else []
    ensures p.state.playbackState != s && s == Stopped ==>
              r.impl.state.duration == 0 && r.impl.state.position == 0.0
    ensures !(p.state.playbackState != s && s == Stopped) ==>
              r.impl.state.duration == p.state.duration && r.impl.state.position == p.state.position
  {
    var pending := p.state.pendingSeek.GetOr(-1);
    var replay := s == Playing && pending != -1;
    var st1 := if replay then p.state.(pendingSeek := None) else p.state;
    var seek := if replay && engineLength != -1 then Issue(SetPosition(pending, engineLength)) else [];
    if p.state.playbackState != s then
      var st2 :=
        if s == Stopped then st1.(playbackState := s, duration := 0, position := 0.0)
        else st1.(playbackState := s);
      var cb := CallOut(p.callbacks.playbackStateChanged, StatePayload(s));
      LogAppend(seek, cb);
      Step(p.(state := st2), seek + cb)
    else
      Step(p.(state := st1), seek)
  }

  /** The same state delivered twice: the second delivery changes nothing
      and fires nothing. */
  lemma StateRedeliveryIsSilent(p: Impl, s: PlaybackState, len1: int, len2: int)
    ensures var q := HandleVlcState(p, s, len1).impl;
            HandleVlcState(q, s, len2).impl == q && HandleVlcState(q, s, len2).outs == []
  {
  }

  /** HandleMediaChanged: with a playlist and an engine item found in it,
      the index and current item follow the engine and the open callback
      runs with the playlist's item there; otherwise nothing happens. */
  function HandleMediaChanged(p: Impl, mrl: string): (r: Step)
    ensures p.playlist.None? || mrl !in p.playlist.value.engineList ==> r == Step(p, [])
    ensures p.playlist.Some? && mrl in p.playlist.value.engineList ==>
              var i := Playlist.IndexOfItem(p.playlist.value.engineList, mrl).value;
              && r.impl == p.(state := p.state.(index := i, currentItem := Some(mrl)))
              && p.playlist.value.engineList[i] == mrl
              && Commands(r.outs) == []
              && Fires(r.outs) ==
                   match Playlist.TryGetItem(p.playlist.value, i)
                   case Some(m) => Call(p.callbacks.open, OpenPayload(m, i))
                   case None => []
  {
    match p.playlist
    case None => Step(p, [])
    case Some(pl) =>
      match Playlist.IndexOfItem(pl.engineList, mrl)
      case None => Step(p, [])
      case Some(i) =>
        var p1 := p.(state := p.state.(index := i, currentItem := Some(mrl)));
        match Playlist.TryGetItem(pl, i)
        case Some(m) => Step(p1, CallOut(p.callbacks.open, OpenPayload(m, i)))
        case None => Step(p1, [])
  }

  /** With the mirror in lockstep, the index the engine reports names a
      playlist item with that location, and the open callback gets it. */
  lemma MediaChangedPointsAtItem(p: Impl, mrl: string)
    requires p.playlist.Some? && Playlist.Mirrored(p.playlist.value)
    requires mrl in p.playlist.value.engineList
    ensures var r := HandleMediaChanged(p, mrl);
            && r.impl.state.index < Playlist.Length(p.playlist.value)
            && p.playlist.value.medias[r.impl.state.index].location == mrl
            && Fires(r.outs) == Call(p.callbacks.open, OpenPayload(p.playlist.value.medias[r.impl.state.index], r.impl.state.index))
  {
  }

  function Clamp01(x: real): (r: real)
    ensures 0.0 <= r <= 1.0
    ensures 0.0 <= x <= 1.0 ==> r == x
    ensures x < 0.0 ==> r == 0.0
    ensures x > 1.0 ==> r == 1.0
  {
    if x < 0.0 then 0.0 else if x > 1.0 then 1.0 else x
  }

  /** HandlePositionChanged: store the position clamped to [0, 1] and always
      run the position callback with it, whatever the duration. */
  function HandlePositionChanged(p: Impl, position: real): (r: Step)
    ensures 0.0 <= r.impl.state.position <= 1.0
    ensures 0.0 <= position <= 1.0 ==> r.impl.state.position == position
    ensures r.impl == p.(state := p.state.(position := r.impl.state.position))
    ensures Commands(r.outs) == []
    ensures Fires(r.outs) == Call(p.callbacks.position, PositionPayload(r.impl.state.position))
  {
    var pos := Clamp01(position);
    Step(p.(state := p.state.(position := pos)), CallOut(p.callbacks.position, PositionPayload(pos)))
  }

  /** position() reads back what the last position notification stored,
      clamped, whatever the engine's own position is. */
  lemma PositionReadsBackClamped(p: Impl, x: real, enginePosition: real)
    ensures Position(HandlePositionChanged(p, x).impl, enginePosition) == Clamp01(x)
    ensures 0.0 <= x <= 1.0 ==> Position(HandlePositionChanged(p, x).impl, enginePosition) == x
  {
  }

  function HandleSeekableChanged(p: Impl, seekable: bool): (r: Step)
    ensures r.impl.state.isSeekable == seekable
    ensures r.impl == p.(state := p.state.(isSeekable := seekable)) && r.outs == []
  {
    Step(p.(state := p.state.(isSeekable := seekable)), [])
  }

  // ---------------------------------------------------------------------
  // Playlist binding

  /** OnPlaylistUpdated: hand the engine the mirrored list; an empty
      playlist resets the state and stops the engine, otherwise the index is
      pulled back to the last item if it lies beyond it. */
  function OnPlaylistUpdated(p: Impl): (r: Step)
    requires p.playlist.Some?
    ensures r.impl.playlist == p.playlist && r.impl.callbacks == p.callbacks && r.impl.video == p.video
    ensures Fires(r.outs) == []
    ensures Playlist.Length(p.playlist.value) == 0 ==>
              && r.impl.state == Reset(p.state)
              && Commands(r.outs) == [SetMediaList(p.playlist.value.engineList), ListStop]
    ensures Playlist.Length(p.playlist.value) > 0 ==>
              && r.impl.state == p.state.(index := r.impl.state.index)
              && r.impl.state.index < Playlist.Length(p.playlist.value)
              && r.impl.state.index == Min(p.state.index, Playlist.Length(p.playlist.value) - 1)
              && Commands(r.outs) == [SetMediaList(p.playlist.value.engineList)]
  {
    var pl := p.playlist.value;
    var setList := Issue(SetMediaList(pl.engineList));
    if |pl.medias| == 0 then
      LogAppend(setList, Issue(ListStop));
      Step(p.(state := Reset(p.state)), setList + Issue(ListStop))
    else
      Step(p.(state := p.state.(index := Min(p.state.index, |pl.medias| - 1))), setList)
  }

  /** Open: a playlist that is not a PlaylistImpl (None here) is ignored.
      Otherwise it replaces the old one (whose update hook is detached), the
      engine is switched to loop mode, the update step runs, and the open
      callback gets item 0 at index 0 when the playlist is not empty. */
  function Open(p: Impl, playlist: Option<Playlist.PlaylistImpl>): (r: Step)
    ensures playlist.None? ==> r == Step(p, [])
    ensures playlist.Some? ==>
              var u := OnPlaylistUpdated(p.(playlist := playlist));
              && r.impl == u.impl
              && Commands(r.outs) == [SetPlaybackModeLoop] + Commands(u.outs)
              && Fires(r.outs) ==
                   if Playlist.Length(playlist.value) > 0
                   then Call(p.callbacks.open, OpenPayload(playlist.value.medias[0], 0)) else []
  {
    match playlist
    case None => Step(p, [])
    case Some(pl) =>
      var u := OnPlaylistUpdated(p.(playlist := Some(pl)));
      var announce := if |pl.medias| > 0 then CallOut(p.callbacks.open, OpenPayload(pl.medias[0], 0)) else [];
      LogAppend(Issue(SetPlaybackModeLoop), u.outs);
      LogAppend(Issue(SetPlaybackModeLoop) + u.outs, announce);
      Step(u.impl, Issue(SetPlaybackModeLoop) + u.outs + announce)
  }

  /** What Open leaves behind: the new playlist bound, and either a reset,
      stopped engine (empty playlist) or the index pulled onto an item. */
  lemma OpenBindsPlaylist(p: Impl, pl: Playlist.PlaylistImpl)
    ensures var r := Open(p, Some(pl));
            && r.impl.playlist == Some(pl)
            && r.impl.callbacks == p.callbacks && r.impl.video == p.video
            && (Playlist.Length(pl) == 0 ==>
                  && r.impl.state == Reset(p.state)
                  && Commands(r.outs) == [SetPlaybackModeLoop, SetMediaList(pl.engineList), ListStop]
                  && Fires(r.outs) == [])
            && (Playlist.Length(pl) > 0 ==>
                  && r.impl.state.index == Min(p.state.index, Playlist.Length(pl) - 1)
                  && Commands(r.outs) == [SetPlaybackModeLoop, SetMediaList(pl.engineList)])
  {
    var u := OnPlaylistUpdated(p.(playlist := Some(pl)));
    if Playlist.Length(pl) == 0 {
      assert Commands(u.outs) == [SetMediaList(pl.engineList), ListStop];
    } else {
      assert Commands(u.outs) == [SetMediaList(pl.engineList)];
    }
  }

  /** An edit of the open playlist, followed by the update step when the
      playlist fired its notification. Without a playlist the caller's own
      check makes it a no-op. */
  function EditPlaylist(p: Impl, e: Playlist.Edit): (r: Step)
    requires p.playlist.Some? ==> Playlist.Mirrored(p.playlist.value)
    ensures p.playlist.None? ==> r == Step(p, [])
    ensures p.playlist.Some? ==>
              var pl := Playlist.ApplyEdit(p.playlist.value, e);
              && r.impl.playlist == Some(pl)
              && (pl == p.playlist.value ==> r == Step(p, []))
              && (pl != p.playlist.value ==> r == OnPlaylistUpdated(p.(playlist := Some(pl))))
  {
    match p.playlist
    case None => Step(p, [])
    case Some(pl) =>
      var pl1 := Playlist.ApplyEdit(pl, e);
      if pl1.updates != pl.updates then OnPlaylistUpdated(p.(playlist := Some(pl1)))
      else Step(p, [])
  }

  /** A successful edit leaves the index on an item whenever the playlist is
      not empty; an emptied playlist resets the state and stops the engine. */
  lemma EditClampsIndex(p: Impl, e: Playlist.Edit)
    requires p.playlist.Some? && Playlist.Mirrored(p.playlist.value)
    requires Playlist.ApplyEdit(p.playlist.value, e) != p.playlist.value
    ensures var r := EditPlaylist(p, e);
            && (Playlist.Length(r.impl.playlist.value) > 0 ==> r.impl.state.index < Playlist.Length(r.impl.playlist.value))
            && (Playlist.Length(r.impl.playlist.value) == 0 ==> r.impl.state == Reset(p.state) && ListStop in Commands(r.outs))
  {
  }

  /** Inserting does not touch the index: an item inserted at or before the
      current index shifts the current item right while the index stays, so
      the index now names a different item. */
  lemma InsertKeepsIndex(p: Impl, at: nat, m: Playlist.Media)
    requires p.playlist.Some? && Playlist.Mirrored(p.playlist.value)
    requires p.state.index < Playlist.Length(p.playlist.value) && at <= p.state.index
    ensures var r := EditPlaylist(p, Playlist.InsertItem(at, m));
            && r.impl.state.index == p.state.index
            && r.impl.playlist.value.medias[p.state.index + 1] == p.playlist.value.medias[p.state.index]
  {
    var pl := p.playlist.value;
    var pl1 := Playlist.Insert(pl, at, m);
    assert pl1.medias[p.state.index + 1] == pl1.medias[at + 1..][p.state.index - at];
  }

  /** Removing an item before the current one keeps the index number, so the
      player's index moves on to the item that followed the current one:
      with items a, b, c and index 1, removing item 0 leaves a playlist
      b, c whose item 1 is c. */
  lemma RemoveBeforeCurrentShiftsItem(p: Impl, at: nat)
    requires p.playlist.Some? && Playlist.Mirrored(p.playlist.value)
    requires at < p.state.index < Playlist.Length(p.playlist.value) - 1
    ensures var r := EditPlaylist(p, Playlist.RemoveItem(at));
            && r.impl.state.index == p.state.index
            && r.impl.playlist.value.medias[p.state.index] == p.playlist.value.medias[p.state.index + 1]
  {
    var pl := p.playlist.value;
    var pl1 := Playlist.Remove(pl, at);
    assert pl1.medias[p.state.index] == pl1.medias[at..][p.state.index - at];
  }

  // ---------------------------------------------------------------------
  // Transport commands

  function Play(p: Impl): (r: Step)
    ensures r.impl == p && Commands(r.outs) == [ListPlay] && Fires(r.outs) == []
  {
    Step(p, Issue(ListPlay))
  }

  function Pause(p: Impl): (r: Step)
    ensures r.impl == p && Commands(r.outs) == [ListPause] && Fires(r.outs) == []
  {
    Step(p, Issue(ListPause))
  }

  /** PlayOrPause: pause when the engine reports it is playing, else play. */
  function PlayOrPause(p: Impl, enginePlaying: bool): (r: Step)
    ensures r.impl == p && Fires(r.outs) == []
    ensures Commands(r.outs) == [if enginePlaying then ListPause else ListPlay]
  {
    if enginePlaying then Pause(p) else Play(p)
  }

  function Stop(p: Impl): (r: Step)
    ensures r.impl == p && Commands(r.outs) == [ListStop] && Fires(r.outs) == []
  {
    Step(p, Issue(ListStop))
  }

  // ---------------------------------------------------------------------
  // The state mutex, as the code takes it

  /** state_mutex_ as seen from the calling thread. It is a plain
      std::mutex: locking it again on the thread that already holds it is
      undefined behaviour, and in practice the call never returns. */
  datatype Lock = Free | Held

  /** A call that takes the mutex either returns its step or blocks for
      ever on a re-lock, after having issued `issued` to the engine. */
  datatype Locked = Returns(step: Step) | Blocked(issued: seq<Command>)

  /** A member whose body starts with a lock_guard on state_mutex_, entered
      with the mutex in state `l` once `before` has been issued. */
  function Guarded(l: Lock, before: seq<Command>, body: Step): (r: Locked)
    ensures r.Blocked? <==> l == Held
    ensures r.Blocked? ==> r.issued == before
    ensures r.Returns? ==> r.step == body
  {
    if l == Held then Blocked(before) else Returns(body)
  }

  /** PlayOrPause as written: its own lock_guard holds state_mutex_ while it
      calls Pause or Play, and their lock_guard locks it again. No call
      returns, and nothing reaches the engine. */
  function PlayOrPauseAsWritten(p: Impl, enginePlaying: bool): (r: Locked)
    ensures r == Blocked([])
  {
    Guarded(Held, [], if enginePlaying then Pause(p) else Play(p))
  }

  /** Without the outer lock, the same inner call returns exactly what
      PlayOrPause does: pause iff the engine is playing. */
  lemma PlayOrPauseIsTheUnlockedCall(p: Impl, enginePlaying: bool)
    ensures Guarded(Free, [], if enginePlaying then Pause(p) else Play(p)) == Returns(PlayOrPause(p, enginePlaying))
    ensures PlayOrPauseAsWritten(p, enginePlaying).Blocked?
  {
  }

  /** Open as written: the whole body runs under its lock_guard. The update
      step's own lock is commented out, but for an empty playlist it calls
      Stop, whose lock_guard locks state_mutex_ again. The loop mode and the
      media list have been issued by then; the stop never is. */
  function OpenAsWritten(p: Impl, playlist: Option<Playlist.PlaylistImpl>): (r: Locked)
    ensures r.Blocked? <==> playlist.Some? && Playlist.Length(playlist.value) == 0
    ensures r.Blocked? ==> r.issued == [SetPlaybackModeLoop, SetMediaList(playlist.value.engineList)]
    ensures r.Blocked? ==> Commands(Open(p, playlist).outs) == r.issued + [ListStop]
    ensures r.Returns? ==> r.step == Open(p, playlist)
  {
    if playlist.Some? && Playlist.Length(playlist.value) == 0 then
      Guarded(Held, [SetPlaybackModeLoop, SetMediaList(playlist.value.engineList)], Stop(p))
    else
      Returns(Open(p, playlist))
  }

  /** Opening a fresh, empty playlist never returns as written. */
  lemma EmptyOpenBlocks(p: Impl)
    ensures OpenAsWritten(p, Some(Playlist.Empty)) == Blocked([SetPlaybackModeLoop, SetMediaList([])])
  {
  }

  /** Jump: play index i when 0 <= i <= length (the bound admits length
      itself); the stored index is left alone. */
  function Jump(p: Impl, index: int): (r: Outcome)
    ensures r.NullPlaylist? <==> p.playlist.None?
    ensures r.Done? ==> r.step.impl == p && Fires(r.step.outs) == []
    ensures r.Done? ==>
              Commands(r.step.outs) ==
                if 0 <= index <= Playlist.Length(p.playlist.value) then [PlayItemAt(index)] else []
  {
    match p.playlist
    case None => NullPlaylist
    case Some(pl) =>
      if 0 <= index <= |pl.medias| then Done(Step(p, Issue(PlayItemAt(index))))
      else Done(Step(p, []))
  }

  /** Next: while index < length, advance and play the new index. There is
      no wrap-around and no use of the playlist mode, and the index can
      reach length. */
  function Next(p: Impl): (r: Outcome)
    ensures r.NullPlaylist? <==> p.playlist.None?
    ensures r.Done? ==> Fires(r.step.outs) == []
    ensures r.Done? && p.state.index < Playlist.Length(p.playlist.value) ==>
              && r.step.impl == p.(state := p.state.(index := p.state.index + 1))
              && Commands(r.step.outs) == [PlayItemAt(p.state.index + 1)]
    ensures r.Done? && p.state.index >= Playlist.Length(p.playlist.value) ==>
              r.step == Step(p, [])
  {
    match p.playlist
    case None => NullPlaylist
    case Some(pl) =>
      if p.state.index < |pl.medias| then
        var i := p.state.index + 1;
        Done(Step(p.(state := p.state.(index := i)), Issue(PlayItemAt(i))))
      else Done(Step(p, []))
  }

  /** Back: while index > 0, step back and play the new index. */
  function Back(p: Impl): (r: Step)
    ensures Fires(r.outs) == []
    ensures p.state.index > 0 ==>
              && r.impl == p.(state := p.state.(index := p.state.index - 1))
              && Commands(r.outs) == [PlayItemAt(p.state.index - 1)]
    ensures p.state.index == 0 ==> r == Step(p, [])
  {
    if p.state.index > 0 then
      var i := p.state.index - 1;
      Step(p.(state := p.state.(index := i)), Issue(PlayItemAt(i)))
    else Step(p, [])
  }

  /** Back undoes a Next that advanced. */
  lemma NextThenBack(p: Impl)
    requires p.playlist.Some? && p.state.index < Playlist.Length(p.playlist.value)
    ensures Next(p).Done? && Back(Next(p).step.impl).impl == p
  {
  }

  /** At the last item Next does not wrap: it moves one past the end and asks
      the engine for that index. */
  lemma NextAtLastItemGoesPastEnd(p: Impl)
    requires p.playlist.Some? && Playlist.Length(p.playlist.value) > 0
    requires p.state.index == Playlist.Length(p.playlist.value) - 1
    ensures Next(p).Done?
    ensures Next(p).step.impl.state.index == Playlist.Length(p.playlist.value)
    ensures Commands(Next(p).step.outs) == [PlayItemAt(Playlist.Length(p.playlist.value))]
  {
  }

  /** Seek: while Playing the engine seeks at once and, the case having no
      `break`, the position is also stored as the pending seek; in the other
      states except Error only the pending seek is stored; in Error nothing
      happens. */
  function Seek(p: Impl, position: int): (r: Step)
    ensures r.impl.playlist == p.playlist && r.impl.callbacks == p.callbacks && r.impl.video == p.video
    ensures Fires(r.outs) == []
    ensures p.state.playbackState == Error ==> r == Step(p, [])
    ensures p.state.playbackState != Error ==>
              r.impl.state == p.state.(pendingSeek := Some(position))
    ensures Commands(r.outs) == if p.state.playbackState == Playing then [SetTime(position)] else []
  {
    var s := p.state.playbackState;
    var immediate := if s == Playing then Issue(SetTime(position)) else [];
    var stores := match s
      case Playing | NoState | Opening | Buffering | Paused | Stopped | Ended => true
      case Error => false;
    Step(if stores then p.(state := p.state.(pendingSeek := Some(position))) else p, immediate)
  }

  /** Only the latest pending seek survives. */
  lemma LatestSeekWins(p: Impl, first: int, second: int)
    requires p.state.playbackState != Error
    ensures Seek(Seek(p, first).impl, second).impl.state.pendingSeek == Some(second)
  {
  }

  /** A seek issued while not Playing reaches the engine only at the next
      Playing notification, exactly once, as position pending / length. */
  lemma DeferredSeekReplaysOnce(p: Impl, position: int, length: int, later: int)
    requires p.state.playbackState != Playing && p.state.playbackState != Error
    requires position != -1 && length != -1
    ensures var a := Seek(p, position);
            var b := HandleVlcState(a.impl, Playing, length);
            var c := HandleVlcState(HandleVlcState(b.impl, Paused, later).impl, Playing, later);
            && Commands(a.outs) == []
            && Commands(b.outs) == [SetPosition(position, length)]
            && b.impl.state.pendingSeek == None
            && Commands(c.outs) == []
  {
  }

  /** The fall-through has a visible effect: a seek made while Playing is
      performed at once and then performed again, relative to the length,
      when playback resumes after a pause. */
  lemma SeekWhilePlayingReplaysOnResume(p: Impl, position: int, length: int)
    requires p.state.playbackState == Playing && position != -1 && length != -1
    ensures var a := Seek(p, position);
            var b := HandleVlcState(a.impl, Paused, length);
            var c := HandleVlcState(b.impl, Playing, length);
            Commands(a.outs) == [SetTime(position)] && Commands(c.outs) == [SetPosition(position, length)]
  {
  }

  /** SetVolume: the engine gets the volume as a truncated percentage and the
      volume callback runs with the value given. */
  function SetVolumeTo(p: Impl, volume: real): (r: Step)
    ensures r.impl == p
    ensures Commands(r.outs) == [SetVolume(TruncToInt(volume * 100.0))]
    ensures Fires(r.outs) == Call(p.callbacks.volume, VolumePayload(volume))
  {
    LogAppend(Issue(SetVolume(TruncToInt(volume * 100.0))), CallOut(p.callbacks.volume, VolumePayload(volume)));
    Step(p, Issue(SetVolume(TruncToInt(volume * 100.0))) + CallOut(p.callbacks.volume, VolumePayload(volume)))
  }

  /** volume() reads back a volume set with at most two decimals: the
      engine is given the percentage and volume() divides it by 100. */
  lemma VolumeReadsBack(p: Impl, v: real)
    requires v >= 0.0 && (v * 100.0).Floor as real == v * 100.0
    ensures Volume(Commands(SetVolumeTo(p, v).outs)[0].percent) == v
  {
  }

  function SetRateTo(p: Impl, rate: real): (r: Step)
    ensures r.impl == p
    ensures Commands(r.outs) == [SetRate(rate)]
    ensures Fires(r.outs) == Call(p.callbacks.rate, RatePayload(rate))
  {
    LogAppend(Issue(SetRate(rate)), CallOut(p.callbacks.rate, RatePayload(rate)));
    Step(p, Issue(SetRate(rate)) + CallOut(p.callbacks.rate, RatePayload(rate)))
  }

  // ---------------------------------------------------------------------
  // Callback registration and video output

  function Register(p: Impl, k: CallbackKind, tag: nat): (r: Impl)
    ensures SlotOf(r.callbacks, k) == Handler(tag)
    ensures forall k' :: k' != k ==> SlotOf(r.callbacks, k') == SlotOf(p.callbacks, k')
    ensures r.state == p.state && r.playlist == p.playlist && r.video == p.video
  {
    p.(callbacks := PlayerState.Register(p.callbacks, k, tag))
  }

  /** SetVideoOutput: keep the output; its dimensions callback forwards to
      the video-dimension slot (see VideoFormat). */
  function SetVideoOutput(p: Impl, output: PixelOutput.Output): (r: Impl)
    ensures r.video == Some(output)
    ensures r.state == p.state && r.playlist == p.playlist && r.callbacks == p.callbacks
  {
    p.(video := Some(output))
  }

  /** The engine negotiates a format with the attached output; a size change
      reaches the video-dimension slot as an (int32, int32) pair. */
  function VideoFormat(p: Impl, width: int, height: int): (r: Step)
    requires p.video.Some? && IsU32(width) && IsU32(height)
    ensures r.impl == p.(video := Some(PixelOutput.SetupFormat(p.video.value, width, height).output))
    ensures Commands(r.outs) == []
    ensures |PixelOutput.SetupFormat(p.video.value, width, height).notified| == 1 ==>
              Fires(r.outs) == Call(p.callbacks.videoDimension, DimensionsPayload(ToInt32(width), ToInt32(height)))
    ensures PixelOutput.SetupFormat(p.video.value, width, height).notified == [] ==> r.outs == []
  {
    var n := PixelOutput.SetupFormat(p.video.value, width, height);
    var cb := if |n.notified| == 1 then CallOut(p.callbacks.videoDimension, DimensionsPayload(ToInt32(width), ToInt32(height))) else [];
    Step(p.(video := Some(n.output)), cb)
  }

  // ---------------------------------------------------------------------
  // The whole machine

  /** Everything that can happen to a player: host commands and engine
      notifications, with the engine facts each one reads. */
  datatype Input =
    | OpenCmd(playlist: Option<Playlist.PlaylistImpl>)
    | PlayCmd
    | PauseCmd
    | PlayOrPauseCmd(enginePlaying: bool)
    | StopCmd
    | NextCmd
    | BackCmd
    | JumpCmd(index: int)
    | SeekCmd(time: int)
    | VolumeCmd(volume: real)
    | RateCmd(rate: real)
    | EditCmd(edit: Playlist.Edit)
    | RegisterCmd(kind: CallbackKind, tag: nat)
    | EngineState(state: PlaybackState, engineLength: int)
    | EngineMediaChanged(mrl: string)
    | EnginePosition(relative: real)
    | EngineSeekable(seekable: bool)
    | EngineFormat(width: int, height: int)

  /** What the player's invariant needs from an input: an opened playlist
      starts mirrored, and the engine negotiates formats only with an
      attached output and with uint32 sizes. */
  predicate Admissible(p: Impl, i: Input) {
    && (i.OpenCmd? && i.playlist.Some? ==> Playlist.Mirrored(i.playlist.value))
    && (i.EngineFormat? ==> p.video.Some? && IsU32(i.width) && IsU32(i.height))
  }

  /** The player's invariant: the mirror is in lockstep, the index is at
      most the playlist length (Next can push it to the length itself),
      without a playlist the index is 0, and the stored position is a
      clamped relative position. */
  predicate Valid(p: Impl) {
    && (p.playlist.None? ==> p.state.index == 0)
    && (p.playlist.Some? ==>
          Playlist.Mirrored(p.playlist.value) && p.state.index <= Playlist.Length(p.playlist.value))
    && (p.video.Some? ==> PixelOutput.Valid(p.video.value))
    && 0.0 <= p.state.position <= 1.0
  }

  function Apply(p: Impl, i: Input): (r: Outcome)
    requires Valid(p) && Admissible(p, i)
  {
    match i
    case OpenCmd(pl) => Done(Open(p, pl))
    case PlayCmd => Done(Play(p))
    case PauseCmd => Done(Pause(p))
    case PlayOrPauseCmd(b) => Done(PlayOrPause(p, b))
    case StopCmd => Done(Stop(p))
    case NextCmd => Next(p)
    case BackCmd => Done(Back(p))
    case JumpCmd(k) => Jump(p, k)
    case SeekCmd(t) => Done(Seek(p, t))
    case VolumeCmd(v) => Done(SetVolumeTo(p, v))
    case RateCmd(v) => Done(SetRateTo(p, v))
    case EditCmd(e) => Done(EditPlaylist(p, e))
    case RegisterCmd(k, t) => Done(Step(Register(p, k, t), []))
    case EngineState(s, len) => Done(HandleVlcState(p, s, len))
    case EngineMediaChanged(m) => Done(HandleMediaChanged(p, m))
    case EnginePosition(x) => Done(HandlePositionChanged(p, x))
    case EngineSeekable(b) => Done(HandleSeekableChanged(p, b))
    case EngineFormat(w, h) => Done(VideoFormat(p, w, h))
  }

  /** Every input keeps the invariant. */
  lemma ApplyKeepsValid(p: Impl, i: Input)
    requires Valid(p) && Admissible(p, i)
    ensures Apply(p, i).Done? ==> Valid(Apply(p, i).step.impl)
    ensures Apply(p, i).NullPlaylist? ==> p.playlist.None? && (i.NextCmd? || i.JumpCmd?)
  {
    match i
    case EngineMediaChanged(m) =>
      if p.playlist.Some? && m in p.playlist.value.engineList {
        MediaChangedPointsAtItem(p, m);
      }
    case EngineFormat(w, h) =>
      PixelOutput.SetupFormatKeepsValid(p.video.value, w, h);
    case _ =>
  }

  /** Only a registration changes the callback slots. */
  lemma ApplyKeepsCallbacks(p: Impl, i: Input)
    requires Valid(p) && Admissible(p, i) && !i.RegisterCmd?
    ensures Apply(p, i).Done? ==> Apply(p, i).step.impl.callbacks == p.callbacks
  {
    match i
    case OpenCmd(pl) =>
      if pl.Some? {
        assert Open(p, pl).impl == OnPlaylistUpdated(p.(playlist := pl)).impl;
      }
    case _ =>
  }

  /** No input attaches or detaches the video output. */
  lemma ApplyKeepsVideoAttached(p: Impl, i: Input)
    requires Valid(p) && Admissible(p, i)
    ensures Apply(p, i).Done? ==> (Apply(p, i).step.impl.video.Some? <==> p.video.Some?)
  {
    match i
    case OpenCmd(pl) =>
      if pl.Some? {
        assert Open(p, pl).impl == OnPlaylistUpdated(p.(playlist := pl)).impl;
      }
    case _ =>
  }

  /** Runs inputs until one dereferences a missing playlist. */
  function Run(p: Impl, ins: seq<Input>): (r: Outcome)
    requires Valid(p)
    requires forall k :: 0 <= k < |ins| ==> ins[k].OpenCmd? && ins[k].playlist.Some? ==> Playlist.Mirrored(ins[k].playlist.value)
    requires forall k :: 0 <= k < |ins| ==> ins[k].EngineFormat? ==> p.video.Some? && IsU32(ins[k].width) && IsU32(ins[k].height)
    decreases |ins|
  {
    if |ins| == 0 then Done(Step(p, []))
    else
      ApplyKeepsValid(p, ins[0]);
      ApplyKeepsVideoAttached(p, ins[0]);
      match Apply(p, ins[0])
      case NullPlaylist => NullPlaylist
      case Done(s) =>
        match Run(s.impl, ins[1..])
        case NullPlaylist => NullPlaylist
        case Done(t) => Done(Step(t.impl, s.outs + t.outs))
  }

  /** Over any run of host commands and engine notifications, the invariant
      holds at the end: the index never exceeds the playlist length. */
  lemma {:induction false} RunKeepsValid(p: Impl, ins: seq<Input>)
    requires Valid(p)
    requires forall k :: 0 <= k < |ins| ==> ins[k].OpenCmd? && ins[k].playlist.Some? ==> Playlist.Mirrored(ins[k].playlist.value)
    requires forall k :: 0 <= k < |ins| ==> ins[k].EngineFormat? ==> p.video.Some? && IsU32(ins[k].width) && IsU32(ins[k].height)
    ensures Run(p, ins).Done? ==> Valid(Run(p, ins).step.impl)
    decreases |ins|
  {
    if |ins| > 0 {
      ApplyKeepsValid(p, ins[0]);
      ApplyKeepsVideoAttached(p, ins[0]);
      match Apply(p, ins[0])
      case NullPlaylist =>
      case Done(s) =>
        RunKeepsValid(s.impl, ins[1..]);
    }
  }

  /** The freshly constructed player satisfies the invariant. */
  lemma ConstructIsValid()
    ensures Valid(Construct().impl)
  {
  }
}
