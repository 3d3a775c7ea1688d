/** The public Player of dartvlc/player.cc: a thin facade that forwards most
    calls to its Impl, answers playback_state() with a constant, and leaves
    several setters with empty bodies. */
module PlayerFacade {
  import opened Wrappers
  import opened PlayerState
  import Playlist
  import PlayerImpl

  /** PlaylistMode from dartvlc/mediasource/playlist.h. */
  datatype PlaylistMode = Single | Loop | Repeat

  /** The calls the host can make on a Player (getters aside). */
  datatype Request =
    | Open(playlist: Option<Playlist.PlaylistImpl>, autoStart: bool)
    | Play
    | Pause
    | PlayOrPause(enginePlaying: bool)
    | Stop
    | Next
    | Back
    | Jump(index: int)
    | Seek(time: int)
    | SetVolume(volume: real)
    | SetRate(rate: real)
    | SetAudioDevice(deviceId: string, deviceName: string)
    | SetPlaylistMode(mode: PlaylistMode)
    | SetEqualizer(equalizerId: int)
    | SetUserAgent(userAgent: string)
    | TakeSnapshot(filePath: string, width: int, height: int)
    | SetVideoWidth(width: int)
    | SetVideoHeight(height: int)

  /** The setters whose bodies are empty. */
  predicate Ignored(q: Request) {
    q.SetAudioDevice? || q.SetPlaylistMode? || q.SetEqualizer? || q.SetUserAgent?
    || q.TakeSnapshot? || q.SetVideoWidth? || q.SetVideoHeight?
  }

  /** The Impl call a request is forwarded to; Open drops auto_start. */
  function Forward(q: Request): (r: Option<PlayerImpl.Input>)
    ensures r.None? <==> Ignored(q)
    ensures q.Open? ==> r == Some(PlayerImpl.OpenCmd(q.playlist))
  {
    match q
    case Open(pl, _) => Some(PlayerImpl.OpenCmd(pl))
    case Play => Some(PlayerImpl.PlayCmd)
    case Pause => Some(PlayerImpl.PauseCmd)
    case PlayOrPause(b) => Some(PlayerImpl.PlayOrPauseCmd(b))
    case Stop => Some(PlayerImpl.StopCmd)
    case Next => Some(PlayerImpl.NextCmd)
    case Back => Some(PlayerImpl.BackCmd)
    case Jump(i) => Some(PlayerImpl.JumpCmd(i))
    case Seek(t) => Some(PlayerImpl.SeekCmd(t))
    case SetVolume(v) => Some(PlayerImpl.VolumeCmd(v))
    case SetRate(v) => Some(PlayerImpl.RateCmd(v))
    case _ => None
  }

  /** What the host's request needs for the player's invariant: an opened
      playlist starts with its engine mirror in lockstep. */
  predicate Admissible(q: Request) {
    q.Open? && q.playlist.Some? ==> Playlist.Mirrored(q.playlist.value)
  }

  /** Handles one request: forwarded ones run on the Impl, ignored ones leave
      the player exactly as it was and do nothing. */
  function Handle(p: PlayerImpl.Impl, q: Request): (r: PlayerImpl.Outcome)
    requires PlayerImpl.Valid(p) && Admissible(q)
    ensures Ignored(q) ==> r == PlayerImpl.Done(PlayerImpl.Step(p, []))
    ensures !Ignored(q) ==> r == PlayerImpl.Apply(p, Forward(q).value)
    ensures r.Done? ==> PlayerImpl.Valid(r.step.impl)
  {
    match Forward(q)
    case None => PlayerImpl.Done(PlayerImpl.Step(p, []))
    case Some(i) =>
      PlayerImpl.ApplyKeepsValid(p, i);
      PlayerImpl.Apply(p, i)
  }

  /** Open behaves the same whatever auto_start says. */
  lemma OpenIgnoresAutoStart(p: PlayerImpl.Impl, pl: Option<Playlist.PlaylistImpl>)
    requires PlayerImpl.Valid(p) && (pl.Some? ==> Playlist.Mirrored(pl.value))
    ensures Handle(p, Open(pl, true)) == Handle(p, Open(pl, false))
  {
  }

  /** The playlist mode is never stored, so Next behaves the same whatever
      mode was set before it. */
  lemma PlaylistModeNeverAffectsNext(p: PlayerImpl.Impl, m1: PlaylistMode, m2: PlaylistMode)
    requires PlayerImpl.Valid(p)
    ensures Handle(p, SetPlaylistMode(m1)) == Handle(p, SetPlaylistMode(m2))
    ensures Handle(p, SetPlaylistMode(m1)).Done?
    ensures Handle(Handle(p, SetPlaylistMode(m1)).step.impl, Next) == Handle(p, Next)
  {
  }

  /** playback_state(): always kNone, whatever the Impl has recorded. */
  function ReportedPlaybackState(p: PlayerImpl.Impl): (r: PlaybackState)
    ensures StateOrdinal(r) == 0
  {
    NoState
  }

  /** The facade's answer disagrees with the Impl as soon as the engine has
      reported any state other than kNone. */
  lemma ReportedStateIgnoresImpl(p: PlayerImpl.Impl)
    ensures ReportedPlaybackState(p) == p.state.playbackState <==> p.state.playbackState == NoState
  {
  }

  /** CreatePlaylist: a new, empty playlist. */
  function CreatePlaylist(): (r: Playlist.PlaylistImpl)
    ensures Playlist.Length(r) == 0 && Playlist.Mirrored(r) && r.updates == 0
  {
    Playlist.Empty
  }
}
