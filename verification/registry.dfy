/** The process-wide player registry of dartvlc/player_registry.h: a map
    from player id (the player's address) to the player it owns. The mutex
    that serialises access is not modelled; each operation is atomic here. */
module Registry {
  import opened Wrappers

  datatype Registry<P> = Registry(players: map<int, P>)

  /** Create: store the new player under its id. The id is the address of a
      freshly allocated object, so it is never 0 and never names a player
      still registered. */
  function Create<P>(reg: Registry<P>, id: int, player: P): (r: Registry<P>)
    requires id != 0 && id !in reg.players
    ensures id in r.players && r.players[id] == player
    ensures r.players.Keys == reg.players.Keys + {id}
    ensures forall k :: k in reg.players ==> r.players[k] == reg.players[k]
  {
    Registry(reg.players[id := player])
  }

  /** Get: the player registered under the id, if any. */
  function Get<P>(reg: Registry<P>, id: int): (r: Option<P>)
    ensures r.Some? <==> id in reg.players
    ensures r.Some? ==> r.value == reg.players[id]
  {
    if id in reg.players then Some(reg.players[id]) else None
  }

  /** Invoke: run `f` on the registered player, if any, keeping the player it
      returns in its place and passing its outputs on. An unknown id does
      nothing. */
  function Invoke<P, O>(reg: Registry<P>, id: int, f: P -> (P, seq<O>)): (r: (Registry<P>, seq<O>))
    ensures id !in reg.players ==> r == (reg, [])
    ensures id in reg.players ==>
              && r.0.players == reg.players[id := f(reg.players[id]).0]
              && r.1 == f(reg.players[id]).1
  {
    match Get(reg, id)
    case None => (reg, [])
    case Some(p) =>
      var (p1, outs) := f(p);
      (Registry(reg.players[id := p1]), outs)
  }

  /** Dispose: erase the id; an unknown id is left alone. */
  function Dispose<P>(reg: Registry<P>, id: int): (r: Registry<P>)
    ensures id !in r.players
    ensures r.players.Keys == reg.players.Keys - {id}
    ensures forall k :: k in r.players ==> r.players[k] == reg.players[k]
  {
    Registry(reg.players - {id})
  }

  /** A created player can be found under its id until it is disposed, and
      disposing it makes the id unknown again. */
  lemma CreateGetDispose<P>(reg: Registry<P>, id: int, player: P)
    requires id != 0 && id !in reg.players
    ensures Get(Create(reg, id, player), id) == Some(player)
    ensures Get(Dispose(Create(reg, id, player), id), id) == None
    ensures Dispose(Create(reg, id, player), id) == reg
  {
    assert Dispose(Create(reg, id, player), id).players == reg.players;
  }

  /** Operations on one id never disturb the players registered under
      other ids. */
  lemma OtherPlayersUntouched<P, O>(reg: Registry<P>, id: int, other: int, f: P -> (P, seq<O>))
    requires other != id
    ensures Get(Dispose(reg, id), other) == Get(reg, other)
    ensures Get(Invoke(reg, id, f).0, other) == Get(reg, other)
  {
  }

  /** Invoking on an id that is not registered, or no longer registered, is
      a no-op with no outputs. */
  lemma InvokeAfterDispose<P, O>(reg: Registry<P>, id: int, f: P -> (P, seq<O>))
    ensures Invoke(Dispose(reg, id), id, f) == (Dispose(reg, id), [])
  {
  }
}
