/**
 * SharedControllerState: the state every remote controller shares, namely the game state
 * and the set of enabled menu actions. Changes are sent to the connected controllers;
 * controllers that (re)connect are sent the current values. The controllers the server
 * knows of (ControllerServer.GetInputs) are a parameter of each operation, and every
 * message sent is recorded, in order, in the `sent` log.
 */
module SharedControllerStates {

  datatype GameState = Lobby | Started | Menu

  datatype MenuAction = StartGame | QuitGame | PauseGame | ResumeGame | Next | Back | Yes | No | ShowMap

  /** A controller known to the server: its player id and whether its connection is up. */
  datatype ControllerInput = ControllerInput(id: nat, connected: bool)

  /** What is sent to a controller: SetGameState or SetEnabledMenuActions. */
  datatype Payload = GameStateUpdate(state: GameState) | MenuActionsUpdate(actions: set<MenuAction>)

  datatype Message = Message(to: nat, payload: Payload)

  /** The ids of the connected inputs, in the order of `inputs`. */
  function ConnectedIds(inputs: seq<ControllerInput>): (ids: seq<nat>)
    ensures |ids| <= |inputs|
  {
    if inputs == [] then []
    else
      var last := inputs[|inputs| - 1];
      ConnectedIds(inputs[..|inputs| - 1]) + (if last.connected then [last.id] else [])
  }

  /** The messages a ForEach over `inputs` sends: `payload` to every connected input, in order. */
  function Broadcast(inputs: seq<ControllerInput>, payload: Payload): (r: seq<Message>)
    ensures |r| == |ConnectedIds(inputs)| <= |inputs|
    ensures forall k :: 0 <= k < |r| ==> r[k] == Message(ConnectedIds(inputs)[k], payload)
    ensures forall m :: m in r ==> m.payload == payload
    ensures forall m :: m in r ==> exists i :: 0 <= i < |inputs| && inputs[i].connected && inputs[i].id == m.to
    ensures forall i :: 0 <= i < |inputs| && inputs[i].connected ==> Message(inputs[i].id, payload) in r
  {
    if inputs == [] then []
    else
      var last := inputs[|inputs| - 1];
      var init := Broadcast(inputs[..|inputs| - 1], payload);
      init + (if last.connected then [Message(last.id, payload)] else [])
  }

  /** Disconnected controllers are sent nothing. */
  lemma {:induction false} BroadcastSkipsDisconnected(inputs: seq<ControllerInput>, payload: Payload)
    requires forall i :: 0 <= i < |inputs| ==> !inputs[i].connected
    ensures Broadcast(inputs, payload) == []
  {
    if inputs != [] {
      BroadcastSkipsDisconnected(inputs[..|inputs| - 1], payload);
    }
  }

  /** One (action, enabled) pair of EnableMenuActions: HashSet.Add or HashSet.Remove. */
  function ApplyPair(enabled: set<MenuAction>, pair: (MenuAction, bool)): set<MenuAction>
  {
    if pair.1 then enabled + {pair.0} else enabled - {pair.0}
  }

  /** The pairs of EnableMenuActions applied in order. */
  function ApplyPairs(enabled: set<MenuAction>, pairs: seq<(MenuAction, bool)>): (r: set<MenuAction>)
    ensures forall a :: (forall k :: 0 <= k < |pairs| ==> pairs[k].0 != a) ==> (a in r <==> a in enabled)
  {
    if pairs == [] then enabled
    else ApplyPair(ApplyPairs(enabled, pairs[..|pairs| - 1]), pairs[|pairs| - 1])
  }

  /** For an action named by some pair, the last such pair decides whether it is enabled. */
  lemma {:induction false} LastPairWins(enabled: set<MenuAction>, pairs: seq<(MenuAction, bool)>, k: nat)
    requires k < |pairs|
    requires forall k' :: k < k' < |pairs| ==> pairs[k'].0 != pairs[k].0
    ensures pairs[k].0 in ApplyPairs(enabled, pairs) <==> pairs[k].1
  {
    if k < |pairs| - 1 {
      LastPairWins(enabled, pairs[..|pairs| - 1], k);
    }
  }

  class SharedControllerState {
    var gameState: GameState
    var enabledMenuActions: set<MenuAction>
    /** Every message sent to a controller, in order. */
    var sent: seq<Message>
    /** OnReconnect registrations, one element per `+=` on a controller's reconnect event. */
    var reconnectHandlers: multiset<nat>
    /** MenuActionTriggeredHandler registrations, one element per `+=` on a controller's event. */
    var menuActionHandlers: multiset<nat>
    /** The actions OnMenuActionTriggered was invoked with, in order. */
    var forwardedActions: seq<MenuAction>

    /** The field initialisers: the lobby, with PauseGame and ShowMap enabled. */
    constructor ()
      ensures gameState == Lobby && enabledMenuActions == {PauseGame, ShowMap}
      ensures sent == [] && reconnectHandlers == multiset{} && menuActionHandlers == multiset{} && forwardedActions == []
    {
      gameState := Lobby;
      enabledMenuActions := {PauseGame, ShowMap};
      sent := [];
      reconnectHandlers := multiset{};
      menuActionHandlers := multiset{};
      forwardedActions := [];
    }

    /** Sends `payload` to every connected input, in order. */
    method SendToConnected(inputs: seq<ControllerInput>, payload: Payload)
      modifies this`sent
      ensures sent == old(sent) + Broadcast(inputs, payload)
    {
      var i := 0;
      while i < |inputs|
        invariant 0 <= i <= |inputs|
        invariant sent == old(sent) + Broadcast(inputs[..i], payload)
      {
        if inputs[i].connected {
          sent := sent + [Message(inputs[i].id, payload)];
        }
        assert inputs[..i + 1][..i] == inputs[..i];
        i := i + 1;
      }
      assert inputs[..i] == inputs;
    }

    /** SetGameState: only a change of state is stored and sent, to the connected controllers. */
    method SetGameState(newState: GameState, inputs: seq<ControllerInput>)
      modifies this`gameState, this`sent
      ensures gameState == newState
      ensures sent == if newState != old(gameState) then old(sent) + Broadcast(inputs, GameStateUpdate(newState)) else old(sent)
    {
      if newState != gameState {
        gameState := newState;
        SendToConnected(inputs, GameStateUpdate(gameState));
      }
    }

    /**
     * EnableMenuActions: applies the pairs in order (add when enabled, remove otherwise) and
     * sends the resulting set to the connected controllers.
     */
    method EnableMenuActions(pairs: seq<(MenuAction, bool)>, inputs: seq<ControllerInput>)
      modifies this`enabledMenuActions, this`sent
      ensures enabledMenuActions == ApplyPairs(old(enabledMenuActions), pairs)
      ensures sent == old(sent) + Broadcast(inputs, MenuActionsUpdate(enabledMenuActions))
    {
      var i := 0;
      while i < |pairs|
        invariant 0 <= i <= |pairs|
        invariant enabledMenuActions == ApplyPairs(old(enabledMenuActions), pairs[..i])
        invariant sent == old(sent)
      {
        var (action, enabled) := pairs[i];
        if enabled {
          enabledMenuActions := enabledMenuActions + {action};
        } else {
          enabledMenuActions := enabledMenuActions - {action};
        }
        assert pairs[..i + 1][..i] == pairs[..i];
        i := i + 1;
      }
      assert pairs[..i] == pairs;
      SendToConnected(inputs, MenuActionsUpdate(enabledMenuActions));
    }

    /**
     * OnReconnect: the controller is sent the game state and the enabled actions, and the
     * forwarding handler is registered on its menu-action event once more.
     */
    method OnReconnect(input: ControllerInput)
      modifies this`sent, this`menuActionHandlers
      ensures sent == old(sent) + [Message(input.id, GameStateUpdate(gameState)),
                                   Message(input.id, MenuActionsUpdate(enabledMenuActions))]
      ensures menuActionHandlers == old(menuActionHandlers) + multiset{input.id}
    {
      sent := sent + [Message(input.id, GameStateUpdate(gameState))];
      sent := sent + [Message(input.id, MenuActionsUpdate(enabledMenuActions))];
      menuActionHandlers := menuActionHandlers + multiset{input.id};
    }

    /** OnNewController: subscribe to the controller's reconnects and handle it as a reconnect. */
    method OnNewController(input: ControllerInput)
      modifies this`sent, this`menuActionHandlers, this`reconnectHandlers
      ensures reconnectHandlers == old(reconnectHandlers) + multiset{input.id}
      ensures sent == old(sent) + [Message(input.id, GameStateUpdate(gameState)),
                                   Message(input.id, MenuActionsUpdate(enabledMenuActions))]
      ensures menuActionHandlers == old(menuActionHandlers) + multiset{input.id}
    {
      reconnectHandlers := reconnectHandlers + multiset{input.id};
      OnReconnect(input);
    }

    /** MenuActionTriggeredHandler: forwards the action to the subscribers of OnMenuActionTriggered. */
    method MenuActionTriggeredHandler(action: MenuAction)
      modifies this`forwardedActions
      ensures forwardedActions == old(forwardedActions) + [action]
    {
      forwardedActions := forwardedActions + [action];
    }
  }

  /** A state change reaches every connected controller; setting the same state again sends nothing. */
  method SetGameStateTwice(s: SharedControllerState, newState: GameState, inputs: seq<ControllerInput>)
    modifies s
    ensures s.gameState == newState
    ensures forall i :: 0 <= i < |inputs| && inputs[i].connected && newState != old(s.gameState) ==>
      Message(inputs[i].id, GameStateUpdate(newState)) in s.sent
    ensures newState == old(s.gameState) ==> s.sent == old(s.sent)
  {
    s.SetGameState(newState, inputs);
    ghost var afterFirst := s.sent;
    s.SetGameState(newState, inputs);
    assert s.sent == afterFirst;
  }
}
