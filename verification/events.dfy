/** The host event protocol of dartvlc/api/eventmanager.h: every event is
    posted to the host port as a three-element array [player id, event type,
    payload]. The encoder is written as the envelope builders lay the
    objects out; the decoder is what the receiving side reads back. */
module Events {
  import opened Wrappers
  import opened Ints
  import opened PlayerState
  import Playlist
  import VideoTypes

  /** The Dart_CObject kinds the protocol uses. A typed-data object carries a
      buffer identity and a length. */
  datatype CObject =
    | CBool(b: bool)
    | CInt32(i: int)
    | CInt64(l: int)
    | CDouble(d: real)
    | CString(s: string)
    | CArray(items: seq<CObject>)
    | CUint8Data(buffer: nat, length: int)

  /** EventType, whose ordinals must match the receiving side. */
  datatype EventType =
    | Unknown | PlaylistUpdated | PlaybackStateChanged | PositionChanged
    | RateChanged | VolumeChanged | VideoDimensionsChanged | VideoFrameAvailable

  function TypeOrdinal(t: EventType): (r: int)
    ensures 0 <= r <= 7
  {
    match t
    case Unknown => 0
    case PlaylistUpdated => 1
    case PlaybackStateChanged => 2
    case PositionChanged => 3
    case RateChanged => 4
    case VolumeChanged => 5
    case VideoDimensionsChanged => 6
    case VideoFrameAvailable => 7
  }

  function TypeOfOrdinal(n: int): (r: Option<EventType>)
    ensures r.Some? <==> 0 <= n <= 7
  {
    if n == 0 then Some(Unknown)
    else if n == 1 then Some(PlaylistUpdated)
    else if n == 2 then Some(PlaybackStateChanged)
    else if n == 3 then Some(PositionChanged)
    else if n == 4 then Some(RateChanged)
    else if n == 5 then Some(VolumeChanged)
    else if n == 6 then Some(VideoDimensionsChanged)
    else if n == 7 then Some(VideoFrameAvailable)
    else None
  }

  lemma TypeOrdinalRoundTrip(t: EventType, n: int)
    ensures TypeOfOrdinal(TypeOrdinal(t)) == Some(t)
    ensures TypeOfOrdinal(n) == Some(t) ==> TypeOrdinal(t) == n
  {
  }

  /** An event's payload, field by field as posted (integers already cast to
      the width the wire carries). */
  datatype Event =
    | PlaylistEvent(index: int, isPlaylist: bool, types: seq<string>, resources: seq<string>)
    | StateEvent(state: int, isSeekable: bool)
    | PositionEvent(position: real, duration: int)
    | RateEvent(rate: real)
    | VolumeEvent(volume: real)
    | DimensionsEvent(width: int, height: int)
    | FrameEvent(buffer: nat, size: int, width: int, height: int, format: int, bytesPerRow: int)

  /** A posted event: the player it concerns and the payload. */
  datatype Message = Message(player: int, event: Event)

  function TypeOf(e: Event): (r: EventType)
    ensures r != Unknown
  {
    match e
    case PlaylistEvent(_, _, _, _) => PlaylistUpdated
    case StateEvent(_, _) => PlaybackStateChanged
    case PositionEvent(_, _) => PositionChanged
    case RateEvent(_) => RateChanged
    case VolumeEvent(_) => VolumeChanged
    case DimensionsEvent(_, _) => VideoDimensionsChanged
    case FrameEvent(_, _, _, _, _, _) => VideoFrameAvailable
  }

  // ---------------------------------------------------------------------
  // Builders: the envelope constructors, with their casts

  /** PlaylistUpdated: the index, the is-playlist flag, then the media types
      and the resources of the playlist's items as two parallel arrays. */
  function BuildPlaylistUpdated(id: int, medias: seq<Playlist.Media>, isPlaylist: bool, currentIndex: int): (r: Message)
    requires IsI32(currentIndex)
    ensures r.player == id && r.event.PlaylistEvent?
    ensures r.event.index == currentIndex && r.event.isPlaylist == isPlaylist
    ensures |r.event.types| == |medias| && |r.event.resources| == |medias|
    ensures forall i :: 0 <= i < |medias| ==>
              r.event.types[i] == medias[i].mediaType && r.event.resources[i] == medias[i].resource
  {
    Message(id, PlaylistEvent(currentIndex, isPlaylist,
      seq(|medias|, i requires 0 <= i < |medias| => medias[i].mediaType),
      seq(|medias|, i requires 0 <= i < |medias| => medias[i].resource)))
  }

  /** PlaybackStateChanged: the state's ordinal and the seekable flag. */
  function BuildPlaybackStateChanged(id: int, s: PlaybackState, isSeekable: bool): (r: Message)
    ensures r.player == id && r.event.StateEvent? && r.event.isSeekable == isSeekable
    ensures StateOfOrdinal(r.event.state) == Some(s)
  {
    StateOrdinalRoundTrip(s);
    Message(id, StateEvent(StateOrdinal(s), isSeekable))
  }

  function BuildPositionChanged(id: int, position: real, duration: int): (r: Message)
    requires IsI32(duration)
    ensures r.player == id && r.event == PositionEvent(position, duration)
  {
    Message(id, PositionEvent(position, duration))
  }

  function BuildRateChanged(id: int, rate: real): (r: Message)
    ensures r.player == id && r.event == RateEvent(rate)
  {
    Message(id, RateEvent(rate))
  }

  function BuildVolumeChanged(id: int, volume: real): (r: Message)
    ensures r.player == id && r.event == VolumeEvent(volume)
  {
    Message(id, VolumeEvent(volume))
  }

  /** VideoDimensionsChanged takes uint32 sizes and posts them as int32. */
  function BuildVideoDimensionsChanged(id: int, width: int, height: int): (r: Message)
    requires IsU32(width) && IsU32(height)
    ensures r.player == id && r.event.DimensionsEvent?
    ensures IsI32(r.event.width) && IsI32(r.event.height)
    ensures width < TWO_31 ==> r.event.width == width
    ensures height < TWO_31 ==> r.event.height == height
    ensures width >= TWO_31 ==> r.event.width == width - TWO_32
    ensures height >= TWO_31 ==> r.event.height == height - TWO_32
  {
    Message(id, DimensionsEvent(ToInt32(width), ToInt32(height)))
  }

  /** VideoFrameAvailable: the frame as uint8 typed data of the given size,
      then width, height, format ordinal and bytes per row, each as int32. */
  function BuildVideoFrameAvailable(id: int, frame: nat, size: nat, d: VideoTypes.VideoDimensions, format: VideoTypes.PixelFormat): (r: Message)
    ensures r.player == id && r.event.FrameEvent?
    ensures r.event.buffer == frame && r.event.size == size
    ensures IsI32(r.event.width) && IsI32(r.event.height) && IsI32(r.event.bytesPerRow)
    ensures VideoTypes.DimsInRange(d) && d.width < TWO_31 && d.height < TWO_31 && d.bytesPerRow < TWO_31 ==>
              r.event.width == d.width && r.event.height == d.height && r.event.bytesPerRow == d.bytesPerRow
    ensures VideoTypes.FormatOfOrdinal(r.event.format) == Some(format)
  {
    VideoTypes.FormatOrdinals(format, 0);
    Message(id, FrameEvent(frame, size, ToInt32(d.width), ToInt32(d.height),
      VideoTypes.FormatOrdinal(format), ToInt32(d.bytesPerRow)))
  }

  // ---------------------------------------------------------------------
  // Wire layout

  function StringsToC(ss: seq<string>): (r: seq<CObject>)
    ensures |r| == |ss|
    ensures forall i :: 0 <= i < |ss| ==> r[i] == CString(ss[i])
    decreases |ss|
  {
    if |ss| == 0 then [] else [CString(ss[0])] + StringsToC(ss[1..])
  }

  function CToStrings(cs: seq<CObject>): (r: Option<seq<string>>)
    ensures r.Some? ==> |r.value| == |cs|
    decreases |cs|
  {
    if |cs| == 0 then Some([])
    else if !cs[0].CString? then None
    else match CToStrings(cs[1..])
      case None => None
      case Some(rest) => Some([cs[0].s] + rest)
  }

  lemma {:induction false} StringsRoundTrip(ss: seq<string>)
    ensures CToStrings(StringsToC(ss)) == Some(ss)
    decreases |ss|
  {
    if |ss| > 0 {
      StringsRoundTrip(ss[1..]);
      assert StringsToC(ss)[1..] == StringsToC(ss[1..]);
      assert [ss[0]] + ss[1..] == ss;
    }
  }

  /** The payload object each event struct builds: a bare double for rate
      and volume, otherwise an array of its fields in declaration order,
      with the playlist's types and resources as two string arrays. */
  function EncodePayload(e: Event): (r: CObject)
    ensures e.RateEvent? ==> r == CDouble(e.rate)
    ensures e.VolumeEvent? ==> r == CDouble(e.volume)
    ensures e.PlaylistEvent? ==>
              && r.CArray? && |r.items| == 4
              && r.items[0] == CInt32(e.index) && r.items[1] == CBool(e.isPlaylist)
              && r.items[2].CArray? && |r.items[2].items| == |e.types|
              && r.items[3].CArray? && |r.items[3].items| == |e.resources|
              && (forall k :: 0 <= k < |e.types| ==> r.items[2].items[k] == CString(e.types[k]))
              && (forall k :: 0 <= k < |e.resources| ==> r.items[3].items[k] == CString(e.resources[k]))
    ensures e.StateEvent? ==> r == CArray([CInt32(e.state), CBool(e.isSeekable)])
    ensures e.PositionEvent? ==> r == CArray([CDouble(e.position), CInt32(e.duration)])
    ensures e.DimensionsEvent? ==> r == CArray([CInt32(e.width), CInt32(e.height)])
    ensures e.FrameEvent? ==>
              r == CArray([CUint8Data(e.buffer, e.size), CInt32(e.width), CInt32(e.height),
                           CInt32(e.format), CInt32(e.bytesPerRow)])
  {
    match e
    case PlaylistEvent(i, pl, ts, rs) =>
      CArray([CInt32(i), CBool(pl), CArray(StringsToC(ts)), CArray(StringsToC(rs))])
    case StateEvent(s, k) => CArray([CInt32(s), CBool(k)])
    case PositionEvent(p, d) => CArray([CDouble(p), CInt32(d)])
    case RateEvent(x) => CDouble(x)
    case VolumeEvent(x) => CDouble(x)
    case DimensionsEvent(w, h) => CArray([CInt32(w), CInt32(h)])
    case FrameEvent(b, n, w, h, f, bpr) =>
      CArray([CUint8Data(b, n), CInt32(w), CInt32(h), CInt32(f), CInt32(bpr)])
  }

  /** The envelope: [int64 id, int32 type, payload]. */
  function Encode(m: Message): (r: CObject)
    ensures r.CArray? && |r.items| == 3
    ensures r.items[0] == CInt64(m.player)
    ensures r.items[1] == CInt32(TypeOrdinal(TypeOf(m.event)))
  {
    CArray([CInt64(m.player), CInt32(TypeOrdinal(TypeOf(m.event))), EncodePayload(m.event)])
  }

  /** What the receiving side reads out of a payload of the given type. */
  function DecodePayload(t: EventType, c: CObject): (r: Option<Event>)
    ensures r.Some? ==> TypeOf(r.value) == t
  {
    match t
    case Unknown => None
    case PlaylistUpdated =>
      if c.CArray? && |c.items| == 4 && c.items[0].CInt32? && c.items[1].CBool?
         && c.items[2].CArray? && c.items[3].CArray? then
        match (CToStrings(c.items[2].items), CToStrings(c.items[3].items))
        case (Some(ts), Some(rs)) => Some(PlaylistEvent(c.items[0].i, c.items[1].b, ts, rs))
        case _ => None
      else None
    case PlaybackStateChanged =>
      if c.CArray? && |c.items| == 2 && c.items[0].CInt32? && c.items[1].CBool? then
        Some(StateEvent(c.items[0].i, c.items[1].b))
      else None
    case PositionChanged =>
      if c.CArray? && |c.items| == 2 && c.items[0].CDouble? && c.items[1].CInt32? then
        Some(PositionEvent(c.items[0].d, c.items[1].i))
      else None
    case RateChanged => if c.CDouble? then Some(RateEvent(c.d)) else None
    case VolumeChanged => if c.CDouble? then Some(VolumeEvent(c.d)) else None
    case VideoDimensionsChanged =>
      if c.CArray? && |c.items| == 2 && c.items[0].CInt32? && c.items[1].CInt32? then
        Some(DimensionsEvent(c.items[0].i, c.items[1].i))
      else None
    case VideoFrameAvailable =>
      if c.CArray? && |c.items| == 5 && c.items[0].CUint8Data? && c.items[1].CInt32?
         && c.items[2].CInt32? && c.items[3].CInt32? && c.items[4].CInt32? then
        Some(FrameEvent(c.items[0].buffer, c.items[0].length, c.items[1].i, c.items[2].i,
                        c.items[3].i, c.items[4].i))
      else None
  }

  /** The receiving side: an envelope of the expected shape with a known,
      non-zero type. */
  function Decode(c: CObject): (r: Option<Message>)
    ensures r.Some? ==> c.CArray? && |c.items| == 3 && c.items[0] == CInt64(r.value.player)
  {
    if c.CArray? && |c.items| == 3 && c.items[0].CInt64? && c.items[1].CInt32? then
      match TypeOfOrdinal(c.items[1].i)
      case None => None
      case Some(t) =>
        match DecodePayload(t, c.items[2])
        case None => None
        case Some(e) => Some(Message(c.items[0].l, e))
    else None
  }

  /** Every posted message is read back as exactly what was posted. */
  lemma DecodeEncode(m: Message)
    ensures Decode(Encode(m)) == Some(m)
  {
    TypeOrdinalRoundTrip(TypeOf(m.event), 0);
    match m.event
    case PlaylistEvent(i, pl, ts, rs) =>
      StringsRoundTrip(ts);
      StringsRoundTrip(rs);
    case _ =>
  }

  /** Hence distinct messages are posted as distinct objects. */
  lemma EncodeInjective(m1: Message, m2: Message)
    requires Encode(m1) == Encode(m2)
    ensures m1 == m2
  {
    DecodeEncode(m1);
    DecodeEncode(m2);
  }

  /** Posting appends one envelope to the port's queue. */
  function Post(port: seq<CObject>, m: Message): (r: seq<CObject>)
    ensures |r| == |port| + 1 && r[..|port|] == port
    ensures Decode(r[|port|]) == Some(m)
  {
    DecodeEncode(m);
    port + [Encode(m)]
  }

  function PostAll(port: seq<CObject>, ms: seq<Message>): (r: seq<CObject>)
    ensures |r| == |port| + |ms|
    decreases |ms|
  {
    if |ms| == 0 then port else PostAll(Post(port, ms[0]), ms[1..])
  }

  /** The port receives the messages in order, each readable as posted. */
  lemma {:induction false} PostAllInOrder(port: seq<CObject>, ms: seq<Message>)
    ensures PostAll(port, ms)[..|port|] == port
    ensures forall i :: 0 <= i < |ms| ==> Decode(PostAll(port, ms)[|port| + i]) == Some(ms[i])
    decreases |ms|
  {
    if |ms| > 0 {
      var p1 := Post(port, ms[0]);
      PostAllInOrder(p1, ms[1..]);
      assert PostAll(port, ms)[..|port|] == p1[..|p1|][..|port|];
      forall i | 0 <= i < |ms|
        ensures Decode(PostAll(port, ms)[|port| + i]) == Some(ms[i])
      {
        if i == 0 {
          assert PostAll(port, ms)[|port|] == PostAll(p1, ms[1..])[..|p1|][|port|];
        } else {
          assert ms[i] == ms[1..][i - 1];
          assert |port| + i == |p1| + (i - 1);
        }
      }
    }
  }
}
