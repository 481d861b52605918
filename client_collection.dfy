/**
 * ClientCollection: the controller server's registry of players. Four dictionaries link a
 * player's name, id, controller input, websocket id and connection id; ids are handed out
 * in increasing order starting at 0. `Input` stands for the ControllerInput objects.
 */
module ClientCollections {

  class ClientCollection<Input(==)> {
    var nextPlayerId: int
    var playerIdsToInputs: map<int, Input>
    var namesToPlayerIds: map<string, int>
    var connectionIdsToPlayerIds: map<int, int>
    var playerIdsToWebsocketIds: map<int, string>

    /** Every registered id is below the next free id. */
    ghost predicate Valid()
      reads this
    {
      nextPlayerId >= 0 &&
      (forall id :: id in playerIdsToInputs ==> 0 <= id < nextPlayerId) &&
      (forall n :: n in namesToPlayerIds ==> 0 <= namesToPlayerIds[n] < nextPlayerId)
    }

    constructor ()
      ensures Valid()
      ensures nextPlayerId == 0
      ensures playerIdsToInputs == map[] && namesToPlayerIds == map[]
      ensures connectionIdsToPlayerIds == map[] && playerIdsToWebsocketIds == map[]
    {
      nextPlayerId := 0;
      playerIdsToInputs := map[];
      namesToPlayerIds := map[];
      connectionIdsToPlayerIds := map[];
      playerIdsToWebsocketIds := map[];
    }

    /**
     * Registers a player under the next id; `initializer` builds its input from the id.
     * A name registered before is re-pointed to the new id.
     */
    method NewClient(name: string, connectionId: int, websocketId: string, initializer: int -> Input)
      returns (input: Input)
      requires Valid()
      modifies this
      ensures Valid()
      ensures nextPlayerId == old(nextPlayerId) + 1
      ensures input == initializer(old(nextPlayerId))
      ensures playerIdsToWebsocketIds == old(playerIdsToWebsocketIds)[old(nextPlayerId) := websocketId]
      ensures namesToPlayerIds == old(namesToPlayerIds)[name := old(nextPlayerId)]
      ensures connectionIdsToPlayerIds == old(connectionIdsToPlayerIds)[connectionId := old(nextPlayerId)]
      ensures playerIdsToInputs == old(playerIdsToInputs)[old(nextPlayerId) := input]
      ensures old(nextPlayerId) !in old(playerIdsToInputs)
    {
      var playerId := nextPlayerId;
      nextPlayerId := nextPlayerId + 1;
      input := initializer(playerId);
      playerIdsToWebsocketIds := playerIdsToWebsocketIds[playerId := websocketId];
      namesToPlayerIds := namesToPlayerIds[name := playerId];
      connectionIdsToPlayerIds := connectionIdsToPlayerIds[connectionId := playerId];
      playerIdsToInputs := playerIdsToInputs[playerId := input];
    }

    /** TryGetPlayerId: (found, id). */
    function TryGetPlayerId(name: string): (r: (bool, int))
      reads this
      ensures r.0 <==> name in namesToPlayerIds
      ensures r.0 ==> r.1 == namesToPlayerIds[name]
    {
      if name in namesToPlayerIds then (true, namesToPlayerIds[name]) else (false, 0)
    }

    /** TryGetInput: the input of a player id, if registered. */
    function TryGetInput(playerId: int): (r: Option<Input>)
      reads this
      ensures r.Some? <==> playerId in playerIdsToInputs
      ensures r.Some? ==> r.value == playerIdsToInputs[playerId]
    {
      if playerId in playerIdsToInputs then Some(playerIdsToInputs[playerId]) else None
    }

    function TryGetWebsocketId(playerId: int): (r: Option<string>)
      reads this
      ensures r.Some? <==> playerId in playerIdsToWebsocketIds
      ensures r.Some? ==> r.value == playerIdsToWebsocketIds[playerId]
    {
      if playerId in playerIdsToWebsocketIds then Some(playerIdsToWebsocketIds[playerId]) else None
    }

    /**
     * The input behind a connection: found only when the connection maps to an id and that
     * id to an input (the source returns false with null otherwise).
     */
    function TryGetInputByConnectionId(connectionId: int): (r: Option<Input>)
      reads this
      ensures r.Some? <==>
        connectionId in connectionIdsToPlayerIds && connectionIdsToPlayerIds[connectionId] in playerIdsToInputs
      ensures r.Some? ==> r.value == playerIdsToInputs[connectionIdsToPlayerIds[connectionId]]
    {
      if connectionId in connectionIdsToPlayerIds then TryGetInput(connectionIdsToPlayerIds[connectionId])
      else None
    }

    /**
     * All inputs, one list entry per registered player id: `ids` lists the ids the entries
     * were read under, each registered id exactly once.
     */
    method GetInputs() returns (inputs: seq<Input>, ghost ids: seq<int>)
      ensures |inputs| == |playerIdsToInputs| == |ids|
      ensures forall i :: 0 <= i < |ids| ==> ids[i] in playerIdsToInputs && inputs[i] == playerIdsToInputs[ids[i]]
      ensures forall i, j :: 0 <= i < j < |ids| ==> ids[i] != ids[j]
      ensures forall id :: id in playerIdsToInputs ==> id in ids
      ensures forall v :: v in inputs <==> v in playerIdsToInputs.Values
    {
      inputs, ids := [], [];
      var remaining := playerIdsToInputs.Keys;
      while |remaining| > 0
        invariant remaining <= playerIdsToInputs.Keys
        invariant |inputs| == |ids| && |inputs| + |remaining| == |playerIdsToInputs|
        invariant forall i :: 0 <= i < |ids| ==> ids[i] in playerIdsToInputs && ids[i] !in remaining
        invariant forall i :: 0 <= i < |ids| ==> inputs[i] == playerIdsToInputs[ids[i]]
        invariant forall i, j :: 0 <= i < j < |ids| ==> ids[i] != ids[j]
        invariant forall id :: id in playerIdsToInputs && id !in remaining ==> id in ids
        decreases |remaining|
      {
        var id := PickKey(remaining);
        inputs, ids := inputs + [playerIdsToInputs[id]], ids + [id];
        remaining := remaining - {id};
      }
      forall v | v in playerIdsToInputs.Values
        ensures v in inputs
      {
        ValueHasKey(playerIdsToInputs, v);
        var id :| id in playerIdsToInputs && playerIdsToInputs[id] == v;
        var i :| 0 <= i < |ids| && ids[i] == id;
        assert inputs[i] == v;
      }
    }

    /** Number of registered players: the number of distinct names. */
    function ClientCount(): (n: nat)
      reads this
      ensures n == |namesToPlayerIds.Keys|
    {
      |namesToPlayerIds|
    }

    /** Forgets the websocket of a player and a connection; names and inputs stay. */
    method DeleteConnectionInfo(playerId: int, connectionId: int)
      requires Valid()
      modifies this
      ensures Valid()
      ensures playerIdsToWebsocketIds == old(playerIdsToWebsocketIds) - {playerId}
      ensures connectionIdsToPlayerIds == old(connectionIdsToPlayerIds) - {connectionId}
      ensures playerIdsToInputs == old(playerIdsToInputs) && namesToPlayerIds == old(namesToPlayerIds)
      ensures nextPlayerId == old(nextPlayerId)
    {
      playerIdsToWebsocketIds := playerIdsToWebsocketIds - {playerId};
      connectionIdsToPlayerIds := connectionIdsToPlayerIds - {connectionId};
    }

    /** Re-registers the websocket and connection of a reconnecting player. */
    method SetNewConnectionInfo(playerId: int, connectionId: int, websocketId: string)
      requires Valid()
      modifies this
      ensures Valid()
      ensures playerIdsToWebsocketIds == old(playerIdsToWebsocketIds)[playerId := websocketId]
      ensures connectionIdsToPlayerIds == old(connectionIdsToPlayerIds)[connectionId := playerId]
      ensures playerIdsToInputs == old(playerIdsToInputs) && namesToPlayerIds == old(namesToPlayerIds)
      ensures nextPlayerId == old(nextPlayerId)
    {
      playerIdsToWebsocketIds := playerIdsToWebsocketIds[playerId := websocketId];
      connectionIdsToPlayerIds := connectionIdsToPlayerIds[connectionId := playerId];
    }
  }

  datatype Option<T> = None | Some(value: T)

  lemma ValueHasKey<V>(m: map<int, V>, v: V)
    requires v in m.Values
    ensures exists id :: id in m && m[id] == v
  {
    if forall id :: id in m ==> m[id] != v {
      assert false;
    }
  }

  lemma NonEmptyHasElement(s: set<int>)
    requires |s| > 0
    ensures exists x :: x in s
  {
    if forall x :: x !in s {
      assert false;
    }
  }

  /** Some element of a non-empty set (the enumeration order of a Dictionary is not modelled). */
  method PickKey(s: set<int>) returns (k: int)
    requires |s| > 0
    ensures k in s
  {
    NonEmptyHasElement(s);
    k :| k in s;
  }

  /**
   * A client: after registering, every lookup succeeds with the new values, and
   * registering the same name again does not raise the client count.
   */
  method RegisterTwice<Input(==)>(name: string, conn: int, ws: string, initializer: int -> Input)
    returns (input: Input, idLookup: (bool, int), inputLookup: Option<Input>, websocketLookup: Option<string>,
             connectionLookup: Option<Input>, countAfterFirst: nat, countAfterSecond: nat, secondId: int)
    ensures input == initializer(0)
    ensures idLookup == (true, 0)
    ensures inputLookup == Some(input) && connectionLookup == Some(input)
    ensures websocketLookup == Some(ws)
    ensures countAfterFirst == 1 && countAfterSecond == countAfterFirst
    ensures secondId == 1
  {
    var clients := new ClientCollection<Input>();
    input := clients.NewClient(name, conn, ws, initializer);
    idLookup := clients.TryGetPlayerId(name);
    inputLookup := clients.TryGetInput(0);
    websocketLookup := clients.TryGetWebsocketId(0);
    connectionLookup := clients.TryGetInputByConnectionId(conn);
    countAfterFirst := clients.ClientCount();
    var _ := clients.NewClient(name, conn, ws, initializer);
    countAfterSecond := clients.ClientCount();
    secondId := clients.TryGetPlayerId(name).1;
  }
}
