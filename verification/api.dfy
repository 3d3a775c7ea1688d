/** The exported C entry points of dartvlc/api/api.cc: players are created
    in and reached through the registry, and what their callbacks report is
    turned into events posted to the host port. Engine notifications are
    delivered to a player by id, as the engine's event thread would. */
module Api {
  import opened Wrappers
  import opened Ints
  import opened PlayerState
  import Playlist
  import PlayerImpl
  import PlayerFacade
  import Registry
  import Events
  import VideoTypes
  import FrameAdapter
  import PixelOutput

  /** The handlers PlayerCreate installs, identified by these tags. */
  const OpenTag: nat := 0
  const StateTag: nat := 1
  const PositionTag: nat := 2
  const RateTag: nat := 3
  const VolumeTag: nat := 4
  const DimensionsTag: nat := 5

  /** An engine command, with the player whose engine receives it. */
  datatype Sent = Sent(player: int, cmd: PlayerImpl.Command)

  /** The process as the host sees it: the registry, the messages posted to
      the callback port so far, and the commands sent to the engines. */
  datatype Host = Host(players: Registry.Registry<PlayerImpl.Impl>, posted: seq<Events.Message>, sent: seq<Sent>)

  /** A call either returns or dereferences a null playlist (Next and Jump
      before any Open). */
  datatype HostOutcome = Running(host: Host) | NullDereference

  /** The slots PlayerCreate fills. */
  predicate Wired(p: PlayerImpl.Impl) {
    && p.callbacks.open == Handler(OpenTag)
    && p.callbacks.playbackStateChanged == Handler(StateTag)
    && p.callbacks.position == Handler(PositionTag)
    && p.callbacks.rate == Handler(RateTag)
    && p.callbacks.volume == Handler(VolumeTag)
    && p.callbacks.videoDimension == Handler(DimensionsTag)
  }

  /** Every registered player keeps its invariant and its handlers. */
  predicate HostValid(h: Host) {
    forall id :: id in h.players.players ==>
      PlayerImpl.Valid(h.players.players[id]) && Wired(h.players.players[id])
  }

  // ---------------------------------------------------------------------
  // From callbacks to events

  /** What PlayerCreate's handler posts for one run of a callback. The
      handler runs last in every operation that fires it, so `p` is the
      player as that operation leaves it; `engineLength` is what the
      engine answers when the handler asks for the duration.
      - open: the whole playlist, flagged as a playlist, at the index given;
      - state: the state, always flagged seekable, and on Stopped also the
        position and duration;
      - position, rate, volume: the value (the position with the duration);
      - dimensions: the int32 sizes, passed on as uint32. */
  function Dispatch(id: int, p: PlayerImpl.Impl, engineLength: int, f: Fired): (r: seq<Events.Message>)
    ensures |r| <= 2
    ensures forall m :: m in r ==> m.player == id
    ensures f.payload.OpenPayload? ==>
              (|r| == 1 <==> p.playlist.Some?) && (p.playlist.None? ==> r == [])
    ensures f.payload.OpenPayload? && p.playlist.Some? ==>
              && r[0].event.PlaylistEvent? && r[0].event.isPlaylist
              && r[0].event.index == ToInt32(f.payload.index)
              && |r[0].event.types| == |p.playlist.value.medias| == |r[0].event.resources|
              && forall k :: 0 <= k < |p.playlist.value.medias| ==>
                   r[0].event.types[k] == p.playlist.value.medias[k].mediaType
                   && r[0].event.resources[k] == p.playlist.value.medias[k].resource
    ensures f.payload.StatePayload? ==>
              && |r| >= 1
              && r[0] == Events.Message(id, Events.StateEvent(StateOrdinal(f.payload.state), true))
              && (|r| == 2 <==> f.payload.state == Stopped)
              && (|r| == 2 ==> r[1] == Events.Message(id, Events.PositionEvent(p.state.position, PlayerImpl.Duration(engineLength))))
    ensures f.payload.PositionPayload? ==>
              r == [Events.Message(id, Events.PositionEvent(f.payload.position, PlayerImpl.Duration(engineLength)))]
    ensures f.payload.RatePayload? ==> r == [Events.Message(id, Events.RateEvent(f.payload.rate))]
    ensures f.payload.VolumePayload? ==> r == [Events.Message(id, Events.VolumeEvent(f.payload.volume))]
    ensures f.payload.DimensionsPayload? && IsI32(f.payload.width) && IsI32(f.payload.height) ==>
              r == [Events.Message(id, Events.DimensionsEvent(f.payload.width, f.payload.height))]
  {
    match f.payload
    case OpenPayload(_, index) =>
      if p.playlist.Some? then [Events.BuildPlaylistUpdated(id, p.playlist.value.medias, true, ToInt32(index))]
      else []
    case StatePayload(s) =>
      [Events.BuildPlaybackStateChanged(id, s, true)]
      + (if s == Stopped then [Events.BuildPositionChanged(id, p.state.position, PlayerImpl.Duration(engineLength))] else [])
    case PositionPayload(x) => [Events.BuildPositionChanged(id, x, PlayerImpl.Duration(engineLength))]
    case RatePayload(x) => [Events.BuildRateChanged(id, x)]
    case VolumePayload(x) => [Events.BuildVolumeChanged(id, x)]
    case DimensionsPayload(w, h) => [Events.BuildVideoDimensionsChanged(id, U32(w), U32(h))]
  }

  /** The events posted for a run of fired callbacks: each callback's
      dispatch, in firing order. */
  function DispatchAll(id: int, p: PlayerImpl.Impl, engineLength: int, fs: seq<Fired>): (r: seq<Events.Message>)
    ensures fs == [] ==> r == []
    ensures |fs| == 1 ==> r == Dispatch(id, p, engineLength, fs[0])
    ensures |r| <= 2 * |fs|
    ensures forall m :: m in r ==> m.player == id
    decreases |fs|
  {
    if |fs| == 0 then []
    else Dispatch(id, p, engineLength, fs[0]) + DispatchAll(id, p, engineLength, fs[1..])
  }

  /** Dispatching two runs of callbacks posts the first run's events, then
      the second's. */
  lemma {:induction false} DispatchAllAppend(id: int, p: PlayerImpl.Impl, engineLength: int, fs: seq<Fired>, gs: seq<Fired>)
    ensures DispatchAll(id, p, engineLength, fs + gs)
         == DispatchAll(id, p, engineLength, fs) + DispatchAll(id, p, engineLength, gs)
    decreases |fs|
  {
    if fs == [] {
      assert fs + gs == gs;
    } else {
      assert (fs + gs)[0] == fs[0];
      assert (fs + gs)[1..] == fs[1..] + gs;
      DispatchAllAppend(id, p, engineLength, fs[1..], gs);
      assert DispatchAll(id, p, engineLength, fs + gs)
          == Dispatch(id, p, engineLength, fs[0]) + DispatchAll(id, p, engineLength, fs[1..] + gs);
    }
  }

  function Sends(id: int, cs: seq<PlayerImpl.Command>): (r: seq<Sent>)
    ensures |r| == |cs|
    ensures forall i :: 0 <= i < |cs| ==> r[i] == Sent(id, cs[i])
  {
    seq(|cs|, i requires 0 <= i < |cs| => Sent(id, cs[i]))
  }

  /** Records a player step: the player is stored back, its commands are
      sent and its callbacks' events posted. */
  function Record(h: Host, id: int, s: PlayerImpl.Step, engineLength: int): (r: Host)
    requires id in h.players.players
    ensures r.players.players == h.players.players[id := s.impl]
    ensures r.sent == h.sent + Sends(id, PlayerImpl.Commands(s.outs))
    ensures r.posted == h.posted + DispatchAll(id, s.impl, engineLength, PlayerImpl.Fires(s.outs))
  {
    Host(Registry.Registry(h.players.players[id := s.impl]),
         h.posted + DispatchAll(id, s.impl, engineLength, PlayerImpl.Fires(s.outs)),
         h.sent + Sends(id, PlayerImpl.Commands(s.outs)))
  }

  /** Runs one player input on the player registered under `id`; an unknown
      id does nothing, which is what Invoke and the explicit checks do. */
  function Deliver(h: Host, id: int, i: PlayerImpl.Input, engineLength: int): (r: HostOutcome)
    requires HostValid(h) && !i.RegisterCmd?
    requires id in h.players.players ==> PlayerImpl.Admissible(h.players.players[id], i)
    ensures id !in h.players.players ==> r == Running(h)
    ensures r.Running? ==> HostValid(r.host)
    ensures r.Running? ==> r.host.players.players.Keys == h.players.players.Keys
    ensures r.NullDereference? ==> id in h.players.players && (i.NextCmd? || i.JumpCmd?)
    ensures id in h.players.players && PlayerImpl.Apply(h.players.players[id], i).Done? ==>
              r == Running(Record(h, id, PlayerImpl.Apply(h.players.players[id], i).step, engineLength))
  {
    match Registry.Get(h.players, id)
    case None => Running(h)
    case Some(p) =>
      PlayerImpl.ApplyKeepsValid(p, i);
      PlayerImpl.ApplyKeepsCallbacks(p, i);
      match PlayerImpl.Apply(p, i)
      case NullPlaylist => NullDereference
      case Done(s) => Running(Record(h, id, s, engineLength))
  }

  // ---------------------------------------------------------------------
  // Entry points

  /** The frame handler PlayerCreate gives the adapter, and the output it
      attaches on non-Windows builds: RGBA frames through the adapter. */
  const FrameOutput: PixelOutput.Output :=
    PixelOutput.New(PixelOutput.AdapterDelegate(FrameAdapter.OnFrameArrived(FrameAdapter.Initial)), VideoTypes.FormatRGBA)

  /** PlayerCreate: a new player in the registry under its address, with
      the six handlers installed and, except on Windows, the frame output
      attached. The requested video size reaches only setters that do
      nothing. The engine volume is set to 100 on construction. */
  function PlayerCreate(h: Host, address: int, videoWidth: int, videoHeight: int, windows: bool): (r: (Host, int))
    requires address != 0 && address !in h.players.players
    ensures r.1 == address
    ensures r.0.players.players.Keys == h.players.players.Keys + {address}
    ensures forall id :: id in h.players.players ==> r.0.players.players[id] == h.players.players[id]
    ensures var p := r.0.players.players[address];
            && PlayerImpl.Valid(p) && Wired(p)
            && p.playlist.None? && p.state == Fresh
            && (windows <==> p.video.None?)
            && (!windows ==> p.video == Some(FrameOutput))
    ensures r.0.sent == h.sent + [Sent(address, PlayerImpl.SetVolume(100))]
    ensures r.0.posted == h.posted
    ensures HostValid(h) ==> HostValid(r.0)
  {
    var c := PlayerImpl.Construct();
    var p := c.impl;
    var p := PlayerImpl.Register(p, OnOpen, OpenTag);
    var p := PlayerImpl.Register(p, OnPlaybackStateChanged, StateTag);
    var p := PlayerImpl.Register(p, OnPosition, PositionTag);
    var p := PlayerImpl.Register(p, OnRate, RateTag);
    var p := PlayerImpl.Register(p, OnVolume, VolumeTag);
    var p := PlayerImpl.Register(p, OnVideoDimensions, DimensionsTag);
    var p := if windows then p else PlayerImpl.SetVideoOutput(p, FrameOutput);
    var players := Registry.Create(h.players, address, p);
    (Host(players, h.posted, h.sent + Sends(address, PlayerImpl.Commands(c.outs))), address)
  }

  function PlayerDispose(h: Host, id: int): (r: Host)
    ensures id !in r.players.players
    ensures r.players.players.Keys == h.players.players.Keys - {id}
    ensures forall k :: k in r.players.players ==> r.players.players[k] == h.players.players[k]
    ensures r.posted == h.posted && r.sent == h.sent
    ensures HostValid(h) ==> HostValid(r)
  {
    h.(players := Registry.Dispose(h.players, id))
  }

  /** The (type, resource) pairs of PlayerOpen's flat argument array: the
      loop steps an index by 2 while it is below 2 * size. */
  function Pairs(source: seq<string>, size: int): (r: seq<(string, string)>)
    requires 2 * size <= |source|
    ensures |r| == Max(size, 0)
    ensures forall k :: 0 <= k < |r| ==> r[k] == (source[2 * k], source[2 * k + 1])
    decreases size
  {
    if size <= 0 then []
    else Pairs(source, size - 1) + [(source[2 * (size - 1)], source[2 * (size - 1) + 1])]
  }

  /** The host's side of the same array: types and resources interleaved. */
  function Flatten(ps: seq<(string, string)>): (r: seq<string>)
    ensures |r| == 2 * |ps|
    decreases |ps|
  {
    if |ps| == 0 then [] else Flatten(ps[..|ps| - 1]) + [ps[|ps| - 1].0, ps[|ps| - 1].1]
  }

  lemma {:induction false} FlattenIndex(ps: seq<(string, string)>, k: nat)
    requires k < |ps|
    ensures Flatten(ps)[2 * k] == ps[k].0 && Flatten(ps)[2 * k + 1] == ps[k].1
    decreases |ps|
  {
    if k < |ps| - 1 {
      FlattenIndex(ps[..|ps| - 1], k);
    }
  }

  /** Reading the pairs back out of a flattened array gives them all. */
  lemma PairsFlatten(ps: seq<(string, string)>)
    ensures Pairs(Flatten(ps), |ps|) == ps
  {
    var r := Pairs(Flatten(ps), |ps|);
    forall k | 0 <= k < |ps| ensures r[k] == ps[k] {
      FlattenIndex(ps, k);
    }
  }

  /** The playlist PlayerOpen builds: a fresh playlist with one Add per
      pair, in order. `locate` stands for the location Media::create
      derives from a type and a resource. */
  function BuildPlaylist(ps: seq<(string, string)>, locate: (string, string) -> string): (r: Playlist.PlaylistImpl)
    ensures Playlist.Mirrored(r)
    ensures Playlist.Length(r) == |ps| && r.updates == |ps|
    ensures forall k :: 0 <= k < |ps| ==>
              r.medias[k] == Playlist.Media(ps[k].0, ps[k].1, locate(ps[k].0, ps[k].1))
    decreases |ps|
  {
    if |ps| == 0 then Playlist.Empty
    else
      var last := ps[|ps| - 1];
      Playlist.Add(BuildPlaylist(ps[..|ps| - 1], locate), Playlist.Media(last.0, last.1, locate(last.0, last.1)))
  }

  /** Delivering an Open runs Impl::Open on the registered player. */
  lemma OpenDelivers(h: Host, id: int, pl: Playlist.PlaylistImpl, engineLength: int)
    requires HostValid(h) && id in h.players.players && Playlist.Mirrored(pl)
    ensures Deliver(h, id, PlayerImpl.OpenCmd(Some(pl)), engineLength) ==
              Running(Record(h, id, PlayerImpl.Open(h.players.players[id], Some(pl)), engineLength))
    ensures PlayerImpl.Open(h.players.players[id], Some(pl)).impl.playlist == Some(pl)
  {
    PlayerImpl.OpenBindsPlaylist(h.players.players[id], pl);
  }

  /** PlayerOpen: build the playlist, then open it; auto_start is dropped on
      the way. */
  function PlayerOpen(h: Host, id: int, autoStart: bool, source: seq<string>, size: int,
                      locate: (string, string) -> string, engineLength: int): (r: HostOutcome)
    requires HostValid(h) && 2 * size <= |source|
    ensures id !in h.players.players ==> r == Running(h)
    ensures r.Running? && HostValid(r.host)
    ensures id in h.players.players ==>
              r == Running(Record(h, id, PlayerImpl.Open(h.players.players[id],
                                    Some(BuildPlaylist(Pairs(source, size), locate))), engineLength))
    ensures id in h.players.players ==>
              r.host.players.players[id].playlist == Some(BuildPlaylist(Pairs(source, size), locate))
  {
    var pl := BuildPlaylist(Pairs(source, size), locate);
    if id in h.players.players then
      OpenDelivers(h, id, pl, engineLength);
      Deliver(h, id, PlayerImpl.OpenCmd(Some(pl)), engineLength)
    else Running(h)
  }

  /** The entry points that Invoke a facade call on the player: play,
      pause, play-or-pause, stop, next, back, jump, seek, volume, rate,
      user agent and audio device. PlayerSetEqualizer, PlayerSetPlaylistMode
      and PlayerTakeSnapshot look the player up and call it directly, to the
      same effect. Ignored setters leave the host unchanged. */
  function PlayerRequest(h: Host, id: int, q: PlayerFacade.Request, engineLength: int): (r: HostOutcome)
    requires HostValid(h) && !q.Open?
    ensures id !in h.players.players ==> r == Running(h)
    ensures PlayerFacade.Ignored(q) ==> r == Running(h)
    ensures r.Running? ==> HostValid(r.host)
    ensures r.NullDereference? ==> id in h.players.players && (q.Next? || q.Jump?)
    ensures PlayerFacade.Forward(q).Some? ==> r == Deliver(h, id, PlayerFacade.Forward(q).value, engineLength)
    ensures id in h.players.players && PlayerFacade.Handle(h.players.players[id], q).Done? ==>
              r == Running(Record(h, id, PlayerFacade.Handle(h.players.players[id], q).step, engineLength))
    ensures id in h.players.players && PlayerFacade.Handle(h.players.players[id], q).NullPlaylist? ==>
              r == NullDereference
  {
    match PlayerFacade.Forward(q)
    case None => Running(h)
    case Some(i) => Deliver(h, id, i, engineLength)
  }

  /** PlayerSetPlaylistMode's reading of the mode name: exactly
      "PlaylistMode.repeat" or "PlaylistMode.loop", anything else single. */
  function ParseMode(s: string): (r: PlayerFacade.PlaylistMode)
    ensures r == PlayerFacade.Repeat <==> s == "PlaylistMode.repeat"
    ensures r == PlayerFacade.Loop <==> s == "PlaylistMode.loop"
  {
    if s == "PlaylistMode.repeat" then PlayerFacade.Repeat
    else if s == "PlaylistMode.loop" then PlayerFacade.Loop
    else PlayerFacade.Single
  }

  function ModeName(m: PlayerFacade.PlaylistMode): string {
    match m
    case Single => "PlaylistMode.single"
    case Loop => "PlaylistMode.loop"
    case Repeat => "PlaylistMode.repeat"
  }

  lemma ParseModeName(m: PlayerFacade.PlaylistMode)
    ensures ParseMode(ModeName(m)) == m
  {
  }

  /** PlayerSetPlaylistMode: the parsed mode goes to a setter that ignores
      it, so nothing changes. */
  function PlayerSetPlaylistMode(h: Host, id: int, mode: string): (r: Host)
    requires HostValid(h)
    ensures r == h
  {
    match PlayerRequest(h, id, PlayerFacade.SetPlaylistMode(ParseMode(mode)), 0)
    case Running(h1) => h1
    case NullDereference => h
  }

  /** The playlist edits: an unknown player or a player without a playlist
      is left alone; int32 indices become uint32 on the way in. */
  function Edit(h: Host, id: int, e: Playlist.Edit, engineLength: int): (r: Host)
    requires HostValid(h)
    ensures HostValid(r)
    ensures id !in h.players.players || h.players.players[id].playlist.None? ==> r == h
    ensures r.players.players.Keys == h.players.players.Keys
    ensures id in h.players.players && h.players.players[id].playlist.Some? ==>
              r.players.players[id].playlist == Some(Playlist.ApplyEdit(h.players.players[id].playlist.value, e))
    ensures forall k :: k in h.players.players && k != id ==> r.players.players[k] == h.players.players[k]
    ensures id in h.players.players && h.players.players[id].playlist.Some? ==>
              r == Record(h, id, PlayerImpl.EditPlaylist(h.players.players[id], e), engineLength)
    ensures r.posted == h.posted
  {
    if id in h.players.players && h.players.players[id].playlist.Some? then
      var p := h.players.players[id];
      PlayerImpl.ApplyKeepsValid(p, PlayerImpl.EditCmd(e));
      PlayerImpl.ApplyKeepsCallbacks(p, PlayerImpl.EditCmd(e));
      var s := PlayerImpl.EditPlaylist(p, e);
      Record(h, id, s, engineLength)
    else h
  }

  /** PlayerAdd: append the media built from (type, resource). */
  function PlayerAdd(h: Host, id: int, mediaType: string, resource: string, locate: (string, string) -> string): (r: Host)
    requires HostValid(h)
    ensures HostValid(r) && r.players.players.Keys == h.players.players.Keys
    ensures id in h.players.players && h.players.players[id].playlist.Some? ==>
              var pl := h.players.players[id].playlist.value;
              r.players.players[id].playlist ==
                Some(Playlist.Add(pl, Playlist.Media(mediaType, resource, locate(mediaType, resource))))
  {
    Edit(h, id, Playlist.AddItem(Playlist.Media(mediaType, resource, locate(mediaType, resource))), 0)
  }

  /** PlayerRemove: remove at the index read as uint32. */
  function PlayerRemove(h: Host, id: int, index: int): (r: Host)
    requires HostValid(h) && IsI32(index)
    ensures HostValid(r) && r.players.players.Keys == h.players.players.Keys
    ensures id in h.players.players && h.players.players[id].playlist.Some? ==>
              var pl := h.players.players[id].playlist.value;
              && r.players.players[id].playlist == Some(Playlist.Remove(pl, U32(index)))
              && (0 <= index < Playlist.Length(pl) ==> r.players.players[id].playlist.value.medias[index..] == pl.medias[index + 1..])
  {
    Edit(h, id, Playlist.RemoveItem(U32(index)), 0)
  }

  /** PlayerInsert: insert the media built from (type, resource) at the
      index read as uint32. */
  function PlayerInsert(h: Host, id: int, index: int, mediaType: string, resource: string,
                        locate: (string, string) -> string): (r: Host)
    requires HostValid(h) && IsI32(index)
    ensures HostValid(r) && r.players.players.Keys == h.players.players.Keys
    ensures id in h.players.players && h.players.players[id].playlist.Some? ==>
              var pl := h.players.players[id].playlist.value;
              r.players.players[id].playlist ==
                Some(Playlist.Insert(pl, U32(index), Playlist.Media(mediaType, resource, locate(mediaType, resource))))
  {
    Edit(h, id, Playlist.InsertItem(U32(index), Playlist.Media(mediaType, resource, locate(mediaType, resource))), 0)
  }

  /** PlayerMove: move between the two indices read as uint32. */
  function PlayerMove(h: Host, id: int, initial: int, final: int): (r: Host)
    requires HostValid(h) && IsI32(initial) && IsI32(final)
    ensures HostValid(r) && r.players.players.Keys == h.players.players.Keys
    ensures id in h.players.players && h.players.players[id].playlist.Some? ==>
              var pl := h.players.players[id].playlist.value;
              r.players.players[id].playlist == Some(Playlist.Move(pl, U32(initial), U32(final)))
  {
    Edit(h, id, Playlist.MoveItems(U32(initial), U32(final)), 0)
  }

  // ---------------------------------------------------------------------
  // Video frames

  /** The frame handler: post the frame with bytes_per_row * height bytes
      (a uint32 product) as RGBA. */
  function FrameMessages(id: int, frames: seq<FrameAdapter.Frame>): (r: seq<Events.Message>)
    ensures |r| == |frames|
    ensures forall k :: 0 <= k < |frames| ==>
              r[k] == Events.BuildVideoFrameAvailable(id, frames[k].buffer,
                        VideoTypes.RequiredSize(frames[k].dimensions), frames[k].dimensions, VideoTypes.FormatRGBA)
  {
    seq(|frames|, k requires 0 <= k < |frames| =>
      Events.BuildVideoFrameAvailable(id, frames[k].buffer,
        MulU32(frames[k].dimensions.bytesPerRow, frames[k].dimensions.height),
        frames[k].dimensions, VideoTypes.FormatRGBA))
  }

  /** One decoded picture: the engine locks a buffer, unlocks it and asks
      for it to be displayed; frames that reach the handler are posted. A
      player without an attached output is never called. */
  function EngineFrame(h: Host, id: int): (r: Host)
    requires HostValid(h)
    ensures HostValid(r)
    ensures id !in h.players.players || h.players.players[id].video.None? ==> r == h
    ensures r.sent == h.sent && r.players.players.Keys == h.players.players.Keys
  {
    if id in h.players.players && h.players.players[id].video.Some? then
      var p := h.players.players[id];
      var o := p.video.value;
      var l := PixelOutput.OnVideoLock(o);
      var o2 := PixelOutput.OnVideoUnlock(l.output, l.plane);
      var frames := PixelOutput.OnVideoPicture(o2, l.handle);
      h.(players := Registry.Registry(h.players.players[id := p.(video := Some(o2))]),
         posted := h.posted + FrameMessages(id, frames))
    else h
  }

  // ---------------------------------------------------------------------
  // Properties of the whole

  /** The callback port as the host reads it: every posted message as the
      envelope it travels in, in posting order. */
  function Wire(h: Host): (r: seq<Events.CObject>)
    ensures |r| == |h.posted|
  {
    Events.PostAll([], h.posted)
  }

  /** Whatever the host has posted reaches the port in order, and each
      envelope decodes back to the message posted. */
  lemma PostedReachTheWire(h: Host)
    ensures forall i :: 0 <= i < |h.posted| ==> Events.Decode(Wire(h)[i]) == Some(h.posted[i])
  {
    Events.PostAllInOrder([], h.posted);
  }

  /** A created player is found under the returned id, can be driven by id,
      and is gone after PlayerDispose. */
  lemma CreateThenDispose(h: Host, address: int, w: int, hgt: int, windows: bool)
    requires HostValid(h) && address != 0 && address !in h.players.players
    ensures var (h1, id) := PlayerCreate(h, address, w, hgt, windows);
            && Registry.Get(h1.players, id).Some?
            && PlayerDispose(h1, id).players == h.players
  {
    var (h1, id) := PlayerCreate(h, address, w, hgt, windows);
    assert PlayerDispose(h1, id).players.players == h.players.players;
  }

  /** Opening a non-empty source posts exactly one PlaylistUpdated event:
      the types and resources of the source in order, flagged as a
      playlist, at index 0. */
  lemma OpenPostsPlaylist(h: Host, id: int, autoStart: bool, ps: seq<(string, string)>,
                          locate: (string, string) -> string, engineLength: int)
    requires HostValid(h) && id in h.players.players && |ps| > 0 && |ps| < TWO_31
    ensures var r := PlayerOpen(h, id, autoStart, Flatten(ps), |ps|, locate, engineLength);
            && |r.host.posted| == |h.posted| + 1
            && r.host.posted[..|h.posted|] == h.posted
            && var m := r.host.posted[|h.posted|];
               && m.player == id && m.event.PlaylistEvent?
               && m.event.index == 0 && m.event.isPlaylist
               && |m.event.types| == |ps| && |m.event.resources| == |ps|
               && forall k :: 0 <= k < |ps| ==> m.event.types[k] == ps[k].0 && m.event.resources[k] == ps[k].1
  {
    PairsFlatten(ps);
    var p := h.players.players[id];
    var pl := BuildPlaylist(ps, locate);
    assert Pairs(Flatten(ps), |ps|) == ps;
    var s := PlayerImpl.Open(p, Some(pl));
    PlayerImpl.OpenBindsPlaylist(p, pl);
    assert PlayerImpl.Fires(s.outs) == [Fired(OpenTag, OpenPayload(pl.medias[0], 0))];
    assert PlayerFacade.Forward(PlayerFacade.Open(Some(pl), autoStart)) == Some(PlayerImpl.OpenCmd(Some(pl)));
  }

  /** When the engine stops, the host receives the Stopped state (flagged
      seekable) followed by a position of 0 with the engine's duration. */
  lemma StopPostsPositionReset(h: Host, id: int, engineLength: int)
    requires HostValid(h) && id in h.players.players
    requires h.players.players[id].state.playbackState != Stopped
    ensures var r := Deliver(h, id, PlayerImpl.EngineState(Stopped, engineLength), engineLength);
            && r.Running?
            && r.host.posted == h.posted + [
                 Events.Message(id, Events.StateEvent(StateOrdinal(Stopped), true)),
                 Events.Message(id, Events.PositionEvent(0.0, PlayerImpl.Duration(engineLength)))]
  {
    var p := h.players.players[id];
    var s := PlayerImpl.HandleVlcState(p, Stopped, engineLength);
    assert PlayerImpl.Fires(s.outs) == [Fired(StateTag, StatePayload(Stopped))];
  }

  /** Video sizes cross the int32 -> uint32 -> int32 conversions unchanged. */
  lemma DimensionsArriveUnchanged(id: int, p: PlayerImpl.Impl, engineLength: int, tag: nat, w: int, hgt: int)
    requires IsI32(w) && IsI32(hgt)
    ensures Dispatch(id, p, engineLength, Fired(tag, DimensionsPayload(w, hgt))) ==
              [Events.Message(id, Events.DimensionsEvent(w, hgt))]
  {
    var m := Events.BuildVideoDimensionsChanged(id, U32(w), U32(hgt));
    assert m.event.width == w by {
      if w < 0 {
        assert U32(w) == w + TWO_32;
      }
    }
    assert m.event.height == hgt by {
      if hgt < 0 {
        assert U32(hgt) == hgt + TWO_32;
      }
    }
  }

  /** A negative index reaches the playlist as a huge uint32, so removing
      at it is ignored. */
  lemma NegativeRemoveIsIgnored(h: Host, id: int, index: int)
    requires HostValid(h) && -TWO_31 <= index < 0
    requires id in h.players.players && h.players.players[id].playlist.Some?
    requires Playlist.Length(h.players.players[id].playlist.value) <= TWO_31
    ensures PlayerRemove(h, id, index) == h
  {
    assert U32(index) == index + TWO_32;
  }

  /** On the frame-posting build every picture is posted once, with the
      buffer just locked and the byte size bytes_per_row * height. */
  lemma EveryPictureIsPosted(h: Host, id: int)
    requires HostValid(h) && id in h.players.players
    requires h.players.players[id].video.Some?
    requires h.players.players[id].video.value.delegate.AdapterDelegate?
    requires h.players.players[id].video.value.delegate.adapter.hasFrameCallback
    ensures var r := EngineFrame(h, id);
            var o := h.players.players[id].video.value;
            var l := PixelOutput.OnVideoLock(o);
            && |r.posted| == |h.posted| + 1
            && r.posted[..|h.posted|] == h.posted
            && r.posted[|h.posted|] ==
                 Events.BuildVideoFrameAvailable(id, l.handle, VideoTypes.RequiredSize(o.current), o.current, VideoTypes.FormatRGBA)
  {
    var o := h.players.players[id].video.value;
    var l := PixelOutput.OnVideoLock(o);
    var frames := PixelOutput.OnVideoPicture(l.output, l.handle);
    assert frames[0] in frames;
  }
}
