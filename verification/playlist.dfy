/** The playlist engine of dartvlc/internal/playlist_impl.cc: an ordered list
    of media items kept in lockstep with the engine's own media list (the
    "mirror", which holds the items' locations), plus a count of the update
    notifications fired to the owning player. */
module Playlist {
  import opened Wrappers

  /** One playable resource: its kind tag ("MediaType.file", ...), the resource
      string the host supplied, and the location the engine opens. */
  datatype Media = Media(mediaType: string, resource: string, location: string)

  /** A PlaylistImpl: `medias` is media_list_, `engineList` is the MRLs of
      vlc_media_list_, `updates` counts NotifyUpdate calls. */
  datatype PlaylistImpl = PlaylistImpl(medias: seq<Media>, engineList: seq<string>, updates: nat)

  /** A freshly constructed playlist: both lists empty, nothing notified. */
  const Empty: PlaylistImpl := PlaylistImpl([], [], 0)

  function Locations(ms: seq<Media>): (r: seq<string>)
    ensures |r| == |ms|
    ensures forall i :: 0 <= i < |ms| ==> r[i] == ms[i].location
  {
    seq(|ms|, i requires 0 <= i < |ms| => ms[i].location)
  }

  /** The engine mirror holds the same locations, in the same order, as the media list. */
  predicate Mirrored(p: PlaylistImpl) {
    p.engineList == Locations(p.medias)
  }

  function Length(p: PlaylistImpl): nat {
    |p.medias|
  }

  // ---------------------------------------------------------------------
  // Sequence surgery

  /** vector::erase at `i`. */
  function RemoveAt<T>(s: seq<T>, i: nat): (r: seq<T>)
    requires i < |s|
    ensures |r| == |s| - 1
    ensures forall k :: 0 <= k < i ==> r[k] == s[k]
    ensures forall k :: i <= k < |r| ==> r[k] == s[k + 1]
  {
    s[..i] + s[i + 1..]
  }

  /** vector::insert before position `i`. */
  function InsertAt<T>(s: seq<T>, i: nat, x: T): (r: seq<T>)
    requires i <= |s|
    ensures |r| == |s| + 1
    ensures r[i] == x
    ensures forall k :: 0 <= k < i ==> r[k] == s[k]
    ensures forall k :: i < k < |r| ==> r[k] == s[k - 1]
  {
    s[..i] + [x] + s[i..]
  }

  /** MoveItem: the single-step std::rotate of the range between the two
      indices, which carries the element at `from` to `to`. */
  function MoveItem<T>(v: seq<T>, from: nat, to: nat): (r: seq<T>)
    requires from < |v| && to < |v|
    ensures |r| == |v|
    ensures r[to] == v[from]
    ensures forall k :: 0 <= k < |v| && k < from && k < to ==> r[k] == v[k]
    ensures forall k :: from < k < |v| && to < k ==> r[k] == v[k]
    ensures forall k :: from < k <= to ==> r[k - 1] == v[k]
    ensures forall k :: to <= k < from ==> r[k + 1] == v[k]
  {
    if from > to then
      v[..to] + [v[from]] + v[to..from] + v[from + 1..]
    else
      v[..from] + v[from + 1..to + 1] + [v[from]] + v[to + 1..]
  }

  /** Removing at `from` and inserting the same element at `to` (what the
      code does to the engine mirror) is the rotate MoveItem performs. */
  lemma MoveItemIsRemoveThenInsert<T>(v: seq<T>, from: nat, to: nat)
    requires from < |v| && to < |v|
    ensures MoveItem(v, from, to) == InsertAt(RemoveAt(v, from), to, v[from])
  {
    var a := MoveItem(v, from, to);
    var b := InsertAt(RemoveAt(v, from), to, v[from]);
    forall k | 0 <= k < |v|
      ensures a[k] == b[k]
    {
      if k < from && k < to {
      } else if k == to {
      } else if from <= k < to {
        assert a[k] == v[k + 1];
      } else if to < k <= from {
        assert a[k] == v[k - 1];
      } else {
      }
    }
  }

  lemma {:induction false} RemoveAtMultiset<T>(s: seq<T>, i: nat)
    requires i < |s|
    ensures multiset(RemoveAt(s, i)) + multiset{s[i]} == multiset(s)
  {
    assert s == s[..i] + [s[i]] + s[i + 1..];
  }

  lemma {:induction false} InsertAtMultiset<T>(s: seq<T>, i: nat, x: T)
    requires i <= |s|
    ensures multiset(InsertAt(s, i, x)) == multiset(s) + multiset{x}
  {
    assert s == s[..i] + s[i..];
  }

  /** MoveItem is a permutation: nothing is lost, duplicated or invented. */
  lemma MoveItemPermutes<T>(v: seq<T>, from: nat, to: nat)
    requires from < |v| && to < |v|
    ensures |MoveItem(v, from, to)| == |v|
    ensures multiset(MoveItem(v, from, to)) == multiset(v)
  {
    MoveItemIsRemoveThenInsert(v, from, to);
    RemoveAtMultiset(v, from);
    InsertAtMultiset(RemoveAt(v, from), to, v[from]);
  }

  /** Moving back restores the original order. */
  lemma MoveItemInverse<T>(v: seq<T>, from: nat, to: nat)
    requires from < |v| && to < |v|
    ensures MoveItem(MoveItem(v, from, to), to, from) == v
  {
    var a := MoveItem(v, from, to);
    var b := MoveItem(a, to, from);
    forall k | 0 <= k < |v|
      ensures b[k] == v[k]
    {
      if k == from {
      } else if from < k <= to {
        assert b[k] == a[k - 1];
      } else if to <= k < from {
        assert b[k] == a[k + 1];
      } else {
      }
    }
  }

  /** Taking locations commutes with the rotate. */
  lemma LocationsOfMoveItem(ms: seq<Media>, from: nat, to: nat)
    requires from < |ms| && to < |ms|
    ensures Locations(MoveItem(ms, from, to)) == MoveItem(Locations(ms), from, to)
  {
    var a := Locations(MoveItem(ms, from, to));
    var b := MoveItem(Locations(ms), from, to);
    forall k | 0 <= k < |ms|
      ensures a[k] == b[k]
    {
      if k < from && k < to {
      } else if k == to {
      } else if from <= k < to {
        assert b[k] == Locations(ms)[k + 1];
      } else if to < k <= from {
        assert b[k] == Locations(ms)[k - 1];
      } else {
      }
    }
  }

  // ---------------------------------------------------------------------
  // PlaylistImpl operations

  /** Add: append to both lists, then notify once. */
  function Add(p: PlaylistImpl, m: Media): (r: PlaylistImpl)
    ensures Length(r) == Length(p) + 1
    ensures r.medias[Length(p)] == m && r.medias[..Length(p)] == p.medias
    ensures |r.engineList| == |p.engineList| + 1
    ensures r.engineList[|p.engineList|] == m.location && r.engineList[..|p.engineList|] == p.engineList
    ensures r.updates == p.updates + 1
    ensures Mirrored(p) ==> Mirrored(r)
  {
    PlaylistImpl(p.medias + [m], p.engineList + [m.location], p.updates + 1)
  }

  /** Remove: an index at or past the end changes nothing and notifies
      nothing; otherwise the item is erased from both lists and the player
      is notified once. */
  function Remove(p: PlaylistImpl, index: nat): (r: PlaylistImpl)
    requires Mirrored(p)
    ensures index >= Length(p) <==> r == p
    ensures index < Length(p) ==>
              && Length(r) == Length(p) - 1
              && r.medias[..index] == p.medias[..index]
              && r.medias[index..] == p.medias[index + 1..]
              && r.updates == p.updates + 1
    ensures Mirrored(r)
  {
    if index >= |p.medias| then p
    else
      var r := PlaylistImpl(RemoveAt(p.medias, index), RemoveAt(p.engineList, index), p.updates + 1);
      assert r.engineList == Locations(r.medias);
      r
  }

  /** Insert: an index past the end is ignored; index == length appends;
      otherwise the item lands at `index` and later items shift right. */
  function Insert(p: PlaylistImpl, index: nat, m: Media): (r: PlaylistImpl)
    requires Mirrored(p)
    ensures index > Length(p) <==> r == p
    ensures index <= Length(p) ==>
              && Length(r) == Length(p) + 1
              && r.medias[index] == m
              && r.medias[..index] == p.medias[..index]
              && r.medias[index + 1..] == p.medias[index..]
              && r.updates == p.updates + 1
    ensures index == Length(p) ==> r == Add(p, m)
    ensures Mirrored(r)
  {
    if index > |p.medias| then p
    else
      var r := PlaylistImpl(InsertAt(p.medias, index, m), InsertAt(p.engineList, index, m.location), p.updates + 1);
      assert r.engineList == Locations(r.medias);
      r
  }

  /** Move: equal indices return before anything happens; so does an index
      at or past the end. Otherwise the media list is rotated, the engine
      mirror gets remove-at-from then insert-at-to, and the player is
      notified once. */
  function Move(p: PlaylistImpl, from: nat, to: nat): (r: PlaylistImpl)
    requires Mirrored(p)
    ensures (from == to || from >= Length(p) || to >= Length(p)) <==> r == p
    ensures from != to && from < Length(p) && to < Length(p) ==>
              && r.medias == MoveItem(p.medias, from, to)
              && r.updates == p.updates + 1
    ensures Mirrored(r)
  {
    if from == to then p
    else if from >= |p.medias| || to >= |p.medias| then p
    else
      var mrl := p.engineList[from];
      var engine := InsertAt(RemoveAt(p.engineList, from), to, mrl);
      var r := PlaylistImpl(MoveItem(p.medias, from, to), engine, p.updates + 1);
      MoveItemIsRemoveThenInsert(p.engineList, from, to);
      LocationsOfMoveItem(p.medias, from, to);
      r
  }

  /** Move(from, to) followed by Move(to, from) restores the original order. */
  lemma MoveThenMoveBack(p: PlaylistImpl, from: nat, to: nat)
    requires Mirrored(p)
    ensures Move(Move(p, from, to), to, from).medias == p.medias
    ensures Move(Move(p, from, to), to, from).engineList == p.engineList
  {
    if from != to && from < Length(p) && to < Length(p) {
      MoveItemInverse(p.medias, from, to);
    }
  }

  /** A move preserves the multiset of items. */
  lemma MovePermutes(p: PlaylistImpl, from: nat, to: nat)
    requires Mirrored(p)
    ensures multiset(Move(p, from, to).medias) == multiset(p.medias)
  {
    if from != to && from < Length(p) && to < Length(p) {
      MoveItemPermutes(p.medias, from, to);
    }
  }

  /** TryGetItem: the item at `index` when it is in range. */
  function TryGetItem(p: PlaylistImpl, index: int): (r: Option<Media>)
    ensures r.Some? <==> 0 <= index < Length(p)
    ensures r.Some? ==> r.value == p.medias[index]
  {
    if 0 <= index < |p.medias| then Some(p.medias[index]) else None
  }

  /** GetIndexOfItem: the position of the first engine item with the given MRL. */
  function IndexOfItem(mrls: seq<string>, mrl: string): (r: Option<nat>)
    ensures r.None? <==> mrl !in mrls
    ensures r.Some? ==> r.value < |mrls| && mrls[r.value] == mrl
    ensures r.Some? ==> forall k :: 0 <= k < r.value ==> mrls[k] != mrl
  {
    if |mrls| == 0 then None
    else if mrls[0] == mrl then Some(0)
    else match IndexOfItem(mrls[1..], mrl)
      case None => None
      case Some(i) => Some(i + 1)
  }

  /** The edits the host can request. */
  datatype Edit = AddItem(media: Media) | RemoveItem(index: nat) | InsertItem(index: nat, media: Media) | MoveItems(from: nat, to: nat)

  function ApplyEdit(p: PlaylistImpl, e: Edit): (r: PlaylistImpl)
    requires Mirrored(p)
    ensures Mirrored(r)
    ensures r.updates == p.updates || r.updates == p.updates + 1
    ensures r.updates == p.updates <==> r == p
  {
    match e
    case AddItem(m) => Add(p, m)
    case RemoveItem(i) => Remove(p, i)
    case InsertItem(i, m) => Insert(p, i, m)
    case MoveItems(f, t) => Move(p, f, t)
  }

  /** Every edit sequence keeps the engine mirror in lockstep and fires at
      most one notification per edit. */
  lemma {:induction false} EditsKeepMirror(p: PlaylistImpl, es: seq<Edit>)
    requires Mirrored(p)
    ensures Mirrored(ApplyEdits(p, es))
    ensures p.updates <= ApplyEdits(p, es).updates <= p.updates + |es|
    decreases |es|
  {
    if |es| > 0 {
      EditsKeepMirror(ApplyEdit(p, es[0]), es[1..]);
    }
  }

  function ApplyEdits(p: PlaylistImpl, es: seq<Edit>): PlaylistImpl
    requires Mirrored(p)
    decreases |es|
  {
    if |es| == 0 then p
    else
      var q := ApplyEdit(p, es[0]);
      ApplyEdits(q, es[1..])
  }
}
