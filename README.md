# SynergyQuest and its two-colour Sokoban prototype, modelled in Dafny

SynergyQuest is a cooperative dungeon game. Several players share one screen and steer their characters from phone controllers. Its repository also holds a small two-colour Sokoban prototype, used to try out procedural level generation. Each of the two players owns a worker of one colour, and a worker may only push or pull boxes of its own colour.

This project models:

- **The Sokoban prototype** (`sokoban-pcg-test/`):
  - The board and its moves (`sokoban.py`):
    - the terrain grid, coloured workers and boxes, and the colour-to-worker table;
    - the legality tests `can_move`, `can_push` and `can_pull`;
    - the effects `move`, `push` and `pull`;
    - the overlay `render` and the goal test `is_completed`;
    - the glyph parser and `game.is_legal_move` / `game.move`.
  - The fragment-tiling level generator (`generator.py`):
    - the border checks between 3x3 fragments and the fit test of `generate_walls`;
    - the retried tiling and the floor threshold;
    - the placement of boxes, docks and workers;
    - the block logic of the fragment loader.
  - The breadth-first state-space explorer (`state_space.py`): the move table, `is_legal_move`, `make_move`, the traversal and `add_move`.
- **Game-logic units of SynergyQuest** (`SynergyQuest/Assets/Scripts/`):
  - player colours and their cycle;
  - directions;
  - the collection helpers and `Optional`;
  - a reference-counted shared resource and an object pool;
  - the controller client registry;
  - switches and switchables;
  - health;
  - the cross-scene dungeon data store;
  - the dungeon minimap builder;
  - waypoint following;
  - info-screen paging;
  - the shared controller state.

Each source file is one module, and each Dafny file has the name of its source file:

| Dafny file | Module | Source file |
|---|---|---|
| `sokoban_board.dfy` | `SokobanBoards` | `sokoban.py` (the board as a value) |
| `sokoban_moves.dfy` | `SokobanMoves` | `sokoban.py` (well-formed boards) |
| `sokoban_map.dfy` | `SokobanMaps` | `sokoban.py` (the `Map` class) |
| `sokoban_game.dfy` | `SokobanGames` | `sokoban.py` (the `game` class) |
| `sokoban_generator.dfy` | `SokobanGenerators` | `generator.py` |
| `sokoban_state_space.dfy` | `SokobanStateSpaces` | `state_space.py` |

The other files each model one C# unit under `SynergyQuest/Assets/Scripts/`.

How the code's form carries over:

- **Mutable objects become classes.** Objects whose fields the source updates in place are Dafny classes with the same fields, among them:
  - `Map`, `game`, `Generator`, `StateSpace`;
  - `Switch`, `Health`, `DungeonDataKeeper`, `ClientCollection`, `FollowPath`, and the minimap `Map`, named `DungeonMap` here.
  Their methods have `modifies` frames and are proved against specification functions over a value snapshot: `Board` for the Sokoban map, the row and column lists for the minimap.
- **Copies become values.** Python `deepcopy` becomes a value snapshot: `make_move` is a function on `Board`.
- **Objects in lists become indices.** A Python entity, or a minimap room, held in a list is its index into that list.
- **Pure helpers stay pure.** Pure C# helpers (`CollectionsExtensions`, `Optional`, `Direction`, `PlayerColor`) are functions with lemmas.
- **Some long methods are split.** Some source methods appear as several Dafny methods, each named after the part of the method it performs:
  - `DungeonMap.Insert` becomes `SlotAbove` / `SlotBelow` / `SlotLeft` / `SlotRight`;
  - `ParseDungeon` becomes `FollowDoor`, and the door loop of `ParseDungeonRec` becomes `ConnectDoor` / `ConnectNew` / `PlaceAndConnect` / `ConnectExisting`, and its switch `InsertToward` / `InsertVertically` / `InsertHorizontally`;
  - `traverse_from_state` becomes `Expand` / `ExpandStep` / `ExpandHead` / `Enter` / `Visit` / `TryMove`;
  - `game.move` becomes `StepOrPush`.
- **Python exceptions become values.** They appear as a `Failure` value (`IndexError`, `KeyError`). C# exceptions appear the same way (`IndexOutOfRange`, `KeyNotFound`).

## Model

| member | source | states |
|---|---|---|
| PlayerColors.Index | SynergyQuest/Assets/Scripts/Player/PlayerColor.cs:30-38 | the declared numeric value of a colour is at most 4, and it is 4 exactly for Any |
| PlayerColors.IsCompatibleWith | SynergyQuest/Assets/Scripts/Player/PlayerColor.cs:48-51 | Any is compatible with every colour on either side, and two colours other than Any are compatible exactly when they are equal |
| PlayerColors.NextColor | SynergyQuest/Assets/Scripts/Player/PlayerColor.cs:62-89 | Any is followed by Any and only by it; any other colour goes to the colour with the next index when that index is below the player count and at most Yellow, and otherwise to Red |
| PlayerColors.CompatibilityIsReflexiveAndSymmetric | SynergyQuest/Assets/Scripts/Player/PlayerColor.cs:48-51 | every colour is compatible with itself, and compatibility does not depend on argument order |
| PlayerColors.AnyIsCompatibleWithEverything | SynergyQuest/Assets/Scripts/Player/PlayerColor.cs:50 | Any is compatible with every colour on either side |
| PlayerColors.ConcreteColorsCompatibleIffEqual | SynergyQuest/Assets/Scripts/Player/PlayerColor.cs:50 | two colours other than Any are compatible if and only if they are equal |
| PlayerColors.NextColorFixedPoints | SynergyQuest/Assets/Scripts/Player/PlayerColor.cs:67-68 | for every player count, Any is followed by Any and Yellow by Red |
| PlayerColors.FullCycle | SynergyQuest/Assets/Scripts/Player/PlayerColor.cs:62-89 | with four or more players the cycle is Red, Blue, Green, Yellow, Red (the index advances by one modulo 4) |
| PlayerColors.CycleStaysAmongFirstColors | SynergyQuest/Assets/Scripts/Player/PlayerColor.cs:69-88 | with n >= 1 players, a colour among the first n goes to the next colour if that one is among the first n, and otherwise falls back to Red |
| PlayerColors.IterateFromRed | SynergyQuest/Assets/Scripts/Player/PlayerColor.cs:53-89 | starting from Red, k steps of the cycle with n players (1..4) reach the colour with index k mod n, so the lobby hands out exactly the first n colours in turn |
| PlayerColors.NextColorOfConcreteIsConcrete | SynergyQuest/Assets/Scripts/Player/PlayerColor.cs:69-88 | the successor of a colour other than Any is never Any |
| Directions.InverseIsInvolutionWithoutFixedPoint | SynergyQuest/Assets/Scripts/Direction.cs:42-56 | inverting twice gives back the direction, and no direction is its own inverse |
| Directions.ToVector | SynergyQuest/Assets/Scripts/Direction.cs:21-35 | every direction is mapped to one of the four unit axis vectors |
| Directions.Inverse | SynergyQuest/Assets/Scripts/Direction.cs:42-56 | the inverse differs from the direction and its vector is the direction's vector negated |
| Directions.ToDirection | SynergyQuest/Assets/Scripts/Direction.cs:66-94 | succeeds exactly on the four unit axis vectors, and then yields the direction whose vector it is; on failure the out-parameter is Left |
| Directions.InverseNegatesVector | SynergyQuest/Assets/Scripts/Direction.cs:21-56 | the vector of the inverse direction is the negated vector of the direction |
| Directions.ToVectorIsBijection | SynergyQuest/Assets/Scripts/Direction.cs:21-32 | every direction maps to a unit axis vector, distinct directions to distinct vectors, and each of the four unit axis vectors is hit |
| Directions.ToDirectionInvertsToVector | SynergyQuest/Assets/Scripts/Direction.cs:66-94 | converting a direction's vector back succeeds and yields that direction |
| Directions.ToDirectionRejectsOtherVectors | SynergyQuest/Assets/Scripts/Direction.cs:87-91 | a vector is rejected (false, with Left in the out-parameter) if and only if it is not a unit axis vector |
| Optionals.FromNullable | SynergyQuest/Assets/Scripts/Utils/Optional.cs:72-84 | the result holds a value if and only if the reference is not null, and then holds that reference |
| Optionals.SomeAndNone | SynergyQuest/Assets/Scripts/Utils/Optional.cs:57-104 | Some(v) is Some and not None; None is None and not Some; IsNone is the negation of IsSome |
| Optionals.EliminatorsAgree | SynergyQuest/Assets/Scripts/Utils/Optional.cs:136-206 | Match gives some(v) or none() by case, Fulfills is p(v) for Some(v) and false for None, and ValueOr gives the wrapped value or the alternative |
| Optionals.MapLaws | SynergyQuest/Assets/Scripts/Utils/Optional.cs:170-182 | Map sends None to None and Some(v) to Some(f(v)): it keeps the identity, composes, and preserves whether a value is present |
| Optionals.ElseLaws | SynergyQuest/Assets/Scripts/Utils/Optional.cs:158-161 | Else returns this instance when it holds a value and `other` otherwise: it is associative, None is its unit, and the result holds a value iff either side does |
| Optionals.Optional.IsSome | SynergyQuest/Assets/Scripts/Utils/Optional.cs:91-94 | whether a value is wrapped; its relation to Some, None and IsNone is stated by Optionals.SomeAndNone |
| Optionals.Optional.IsNone | SynergyQuest/Assets/Scripts/Utils/Optional.cs:101-104 | the negation of IsSome, as Optionals.SomeAndNone states |
| Optionals.Optional.Match | SynergyQuest/Assets/Scripts/Utils/Optional.cs:136-150 | some(v) for a wrapped v and none() otherwise |
| Optionals.Optional.Else | SynergyQuest/Assets/Scripts/Utils/Optional.cs:158-161 | this instance when it holds a value and `other` otherwise, so the result holds a value iff either side does |
| Optionals.Optional.Map | SynergyQuest/Assets/Scripts/Utils/Optional.cs:170-181 | holds a value exactly when this instance does, and then the mapped value |
| Optionals.Optional.ValueOr | SynergyQuest/Assets/Scripts/Utils/Optional.cs:189-192 | the wrapped value, or the alternative when there is none |
| Optionals.Optional.Fulfills | SynergyQuest/Assets/Scripts/Utils/Optional.cs:199-206 | true exactly when a value is wrapped and the predicate holds of it |
| CollectionsExtensions.ListBuffer.constructor | SynergyQuest/Assets/Scripts/Utils/CollectionsExtensions.cs:32 | a list holding the given elements |
| CollectionsExtensions.ListBuffer.Resize | SynergyQuest/Assets/Scripts/Utils/CollectionsExtensions.cs:32-43 | a non-negative size becomes the new count, the first min(old, new) elements are kept and new slots hold the default; a negative size that shrinks is an ArgumentOutOfRange error that leaves the list unchanged |
| CollectionsExtensions.ListBuffer.EnsureMinSize | SynergyQuest/Assets/Scripts/Utils/CollectionsExtensions.cs:45-51 | the count becomes max(old, minSize), the old elements are kept and any new slot holds the default; the list never shrinks |
| CollectionsExtensions.Reverse | SynergyQuest/Assets/Scripts/Utils/CollectionsExtensions.cs:106-110 | the reversal has the same length and element k is element len-1-k of the input |
| CollectionsExtensions.InitDropsLast | SynergyQuest/Assets/Scripts/Utils/CollectionsExtensions.cs:106-110 | reverse, skip one, reverse yields all elements but the last, and the empty sequence for an empty input |
| CollectionsExtensions.Skip | SynergyQuest/Assets/Scripts/Utils/CollectionsExtensions.cs:109 | Linq Skip: element k of the result is element n + k of the input, and the result is empty when the input has at most n elements |
| CollectionsExtensions.Init | SynergyQuest/Assets/Scripts/Utils/CollectionsExtensions.cs:106-110 | the result is one element shorter than a non-empty input and empty for an empty one; CollectionsExtensions.InitDropsLast gives its elements |
| CollectionsExtensions.GetOrDefault | SynergyQuest/Assets/Scripts/Utils/CollectionsExtensions.cs:115-126 | the stored value for a present key and the default for an absent one; the dictionary is a value and is not changed |
| CollectionsExtensions.Dictionary.constructor | SynergyQuest/Assets/Scripts/Utils/CollectionsExtensions.cs:132 | a dictionary holding the given entries |
| CollectionsExtensions.Dictionary.GetOrAdd | SynergyQuest/Assets/Scripts/Utils/CollectionsExtensions.cs:132-144 | a present key returns its value and leaves the dictionary unchanged; an absent key is inserted with the value, which is returned |
| CollectionsExtensions.Plus | SynergyQuest/Assets/Scripts/Utils/CollectionsExtensions.cs:199-207 | a new array one longer with the old elements in order and the new element last |
| CollectionsExtensions.Prepend | SynergyQuest/Assets/Scripts/Utils/CollectionsExtensions.cs:215-223 | a new array one longer with the new element first and the old elements after it in order |
| CollectionsExtensions.RemoveAt | SynergyQuest/Assets/Scripts/Utils/CollectionsExtensions.cs:253-265 | an empty array throws OverflowException whatever the index; otherwise a negative index throws ArgumentOutOfRangeException and an index at or past the end throws ArgumentException; for 0 <= index < len, a new array one shorter holding the elements before index and then those after it |
| CollectionsExtensions.IndexOf | SynergyQuest/Assets/Scripts/Utils/CollectionsExtensions.cs:233-236 | the first index holding the value, or -1 exactly when the value is absent |
| CollectionsExtensions.RemoveFirstRemovesOnlyFirstOccurrence | SynergyQuest/Assets/Scripts/Utils/CollectionsExtensions.cs:233-245 | an absent value returns the array unchanged; otherwise exactly the first occurrence is removed, so the multiset loses one copy of the value |
| CollectionsExtensions.RemoveFirst | SynergyQuest/Assets/Scripts/Utils/CollectionsExtensions.cs:233-245 | an array without the value is returned unchanged; otherwise the result is one element shorter |
| SharedResources.SharedState.constructor | SynergyQuest/Assets/Scripts/Utils/SharedResource.cs:36-45 | the shared state holds the resource and the given count, with no destructor run and no error logged yet |
| SharedResources.SharedResource.constructor | SynergyQuest/Assets/Scripts/Utils/SharedResource.cs:62-69 | a fresh handle owns a new shared state for the instance whose count is 1 |
| SharedResources.SharedResource.FromLive | SynergyQuest/Assets/Scripts/Utils/SharedResource.cs:71-80 | copying a live handle shares its state and raises the count by exactly 1 |
| SharedResources.SharedResource.Copy | SynergyQuest/Assets/Scripts/Utils/SharedResource.cs:71-90 | copying a handle whose count is 0 is the ApplicationException case and changes nothing; otherwise a new handle shares the same state (so GetResource returns the same resource) and the count grows by 1 |
| SharedResources.SharedResource.GetResource | SynergyQuest/Assets/Scripts/Utils/SharedResource.cs:82-85 | the shared reference; SharedResources.SharedResource.Copy states that a copy shares the state and so returns the same reference |
| SharedResources.SharedResource.Dispose | SynergyQuest/Assets/Scripts/Utils/SharedResource.cs:92-106 | the count drops by exactly 1; the destructor runs on the resource exactly when the count reaches 0, and an error is logged instead when it drops below 0 |
| SharedResources.CopyThenDisposeBoth | SynergyQuest/Assets/Scripts/Utils/SharedResource.cs:62-106 | creating a handle, copying it and disposing both runs the destructor exactly once, on the instance |
| ObjectPools.GameObject.constructor | SynergyQuest/Assets/Scripts/Utils/ObjectPool.cs:66-74 | an instantiated object has the given active flag |
| ObjectPools.ObjectPool.constructor | SynergyQuest/Assets/Scripts/Utils/ObjectPool.cs:41-45 | a new pool has no unused instances |
| ObjectPools.ObjectPool.GetInstance | SynergyQuest/Assets/Scripts/Utils/ObjectPool.cs:57-82 | a non-empty pool hands out its most recently returned instance and shrinks by one; an empty pool instantiates a fresh object with the prefab's flag and stays empty; with `activate` the instance is active |
| ObjectPools.ObjectPool.ReturnInstance | SynergyQuest/Assets/Scripts/Utils/ObjectPool.cs:87-95 | the instance is pushed on top of the stack (the pool grows by one), and with `deactivate` it is inactive |
| ObjectPools.ReturnThenGet | SynergyQuest/Assets/Scripts/Utils/ObjectPool.cs:57-95 | returning an instance and then getting one hands out that same, deactivated instance and restores the pool |
| ClientCollections.ClientCollection.constructor | SynergyQuest/Assets/Scripts/ControllerInput/ClientCollection.cs:40-45 | the next free id is 0 and all four dictionaries are empty |
| ClientCollections.ClientCollection.NewClient | SynergyQuest/Assets/Scripts/ControllerInput/ClientCollection.cs:57-68 | the player gets the next free id (ids are handed out 0, 1, 2, ... and the id was unused), the input is the initializer's result for that id, and the name, connection, websocket and input entries are set to the new values; every id stays below the next free one |
| ClientCollections.ClientCollection.TryGetPlayerId | SynergyQuest/Assets/Scripts/ControllerInput/ClientCollection.cs:75-78 | succeeds exactly for a registered name and then yields its id |
| ClientCollections.ClientCollection.TryGetInput | SynergyQuest/Assets/Scripts/ControllerInput/ClientCollection.cs:87-90 | succeeds exactly for an id with an input and then yields it |
| ClientCollections.ClientCollection.TryGetWebsocketId | SynergyQuest/Assets/Scripts/ControllerInput/ClientCollection.cs:99-102 | succeeds exactly for an id with a websocket and then yields it |
| ClientCollections.ClientCollection.TryGetInputByConnectionId | SynergyQuest/Assets/Scripts/ControllerInput/ClientCollection.cs:107-120 | succeeds if and only if the connection maps to an id and that id to an input, and then yields that input |
| ClientCollections.ClientCollection.GetInputs | SynergyQuest/Assets/Scripts/ControllerInput/ClientCollection.cs:125-128 | the list is the dictionary's values enumerated by its keys: entry i is the input of the i-th id, every registered id is enumerated exactly once, so each input appears as often as ids map to it |
| ClientCollections.ClientCollection.ClientCount | SynergyQuest/Assets/Scripts/ControllerInput/ClientCollection.cs:133-136 | the number of distinct registered names |
| ClientCollections.ClientCollection.DeleteConnectionInfo | SynergyQuest/Assets/Scripts/ControllerInput/ClientCollection.cs:146-150 | only the websocket entry of the id and the connection entry are removed; names, inputs and hence the client count are unchanged |
| ClientCollections.ClientCollection.SetNewConnectionInfo | SynergyQuest/Assets/Scripts/ControllerInput/ClientCollection.cs:156-160 | the websocket and connection lookups of the id are restored and no other dictionary changes |
| ClientCollections.RegisterTwice | SynergyQuest/Assets/Scripts/ControllerInput/ClientCollection.cs:57-136 | after a first registration the name lookup yields id 0, the input, websocket and connection lookups succeed with the new values and the count is 1; registering the same name again gives it id 1 without raising the client count |
| Switches.Switch.constructor | SynergyQuest/Assets/Scripts/Switch.cs:45-50 | instantiation plus Awake: the persistence flag is kept only when there is a Guid component, so a persistent switch always has a guid (see also lines 81-85) |
| Switches.Switch.SetValue | SynergyQuest/Assets/Scripts/Switch.cs:58-77 | the getter afterwards returns the assigned value; OnValueChanged fires exactly once with the new value iff it changed; the value is saved under the guid only on a change of a persistent switch, and no other store of the keeper changes |
| Switches.Switch.GetValue | SynergyQuest/Assets/Scripts/Switch.cs:58-60 | the Value getter; Switches.Switch.SetValue and Switches.Switch.Start state what it returns after each change |
| Switches.Switch.Start | SynergyQuest/Assets/Scripts/Switch.cs:87-93 | a persistent switch takes the saved value, with its current value as the default, through the setter, so OnValueChanged is raised once exactly when the value changes; any other switch is untouched; nothing the keeper stores is written |
| Switches.Switch.OnValidate | SynergyQuest/Assets/Scripts/Switch.cs:95-102 | persistence without a Guid component is switched off and one error is logged; otherwise nothing changes |
| Switches.SetSameValueIsSilent | SynergyQuest/Assets/Scripts/Switch.cs:66-68 | assigning the current value fires no event and persists nothing |
| Switchables.Distinct | SynergyQuest/Assets/Scripts/Switchable.cs:99-104 | the result holds exactly the elements of the input, with no element twice, and is no longer than the input |
| Switchables.DistinctKeepsDuplicateFree | SynergyQuest/Assets/Scripts/Switchable.cs:103 | a duplicate-free list passes through Distinct unchanged |
| Switchables.DistinctKeepsFirstOccurrenceOrder | SynergyQuest/Assets/Scripts/Switchable.cs:99-104 | the result keeps the order of first occurrences: an element earlier in the result occurs in the input before every occurrence of a later one |
| Switchables.DistinctIsIdempotent | SynergyQuest/Assets/Scripts/Switchable.cs:103 | applying Distinct twice is the same as applying it once |
| Switchables.Switchable.constructor | SynergyQuest/Assets/Scripts/Switchable.cs:44-109 | instantiation plus Awake: the switches are the discovered ones followed by the configured ones without duplicates, the cache has one off slot per switch, and the activation starts true without having been latched |
| Switchables.Switchable.AcquireSwitches | SynergyQuest/Assets/Scripts/Switchable.cs:96-109 | the switch list becomes the discovered switches followed by the old ones without duplicates, and a fresh all-off cache of the same length is allocated |
| Switchables.Switchable.ComputeActivation | SynergyQuest/Assets/Scripts/Switchable.cs:161-178 | unless latched, the activation becomes the conjunction of the cached values (true with no switches) and the latch records a true activation; once latched under noDeactivation it stays true; the event fires with the new activation iff it changed and callbacks are not suppressed |
| Switchables.Switchable.OnEnable | SynergyQuest/Assets/Scripts/Switchable.cs:119-140 | every non-null switch's cached value is reset to off and gets a handler, null slots keep their value, and the activation is recomputed without any event |
| Switchables.Switchable.OnDisable | SynergyQuest/Assets/Scripts/Switchable.cs:142-153 | all handlers are unregistered and nothing else changes |
| Switchables.Switchable.OnSwitchValueChanged | SynergyQuest/Assets/Scripts/Switchable.cs:183-189 | only the given slot of the cache changes, then the activation is recomputed with callbacks on |
| Switchables.Switchable.AddSwitches | SynergyQuest/Assets/Scripts/Switchable.cs:111-117 | the switches become the discovered ones followed by the old and the added ones without duplicates, with a fresh cache and a handler on every non-null switch; unless latched, the silent recomputation sets the activation to the conjunction of the all-off cache, so it is on exactly when there are no switches; a latched activation stays on; no event fires in either case |
| HealthPoints.AssignSameIsNoOp | SynergyQuest/Assets/Scripts/DamageSystem/Health.cs:84-85 | assigning the current value stores nothing and raises no event |
| HealthPoints.AssignClamps | SynergyQuest/Assets/Scripts/DamageSystem/Health.cs:85-91 | after a change the stored value is the assigned value clamped to the maximum, so it never exceeds the maximum |
| HealthPoints.AboveMaxReportsTwice | SynergyQuest/Assets/Scripts/DamageSystem/Health.cs:85-97 | a change to a value above the maximum reports twice, first the maximum and then the unclamped value, each followed by OnDeath when it is at most 0 |
| HealthPoints.WithinMaxReportsOnce | SynergyQuest/Assets/Scripts/DamageSystem/Health.cs:85-97 | a change within the maximum stores the value and reports it once; OnDeath is raised iff the value is at most 0 |
| HealthPoints.Health.constructor | SynergyQuest/Assets/Scripts/DamageSystem/Health.cs:60 | after Awake the health equals the maximum and no event has been raised (see also lines 122-126) |
| HealthPoints.Health.SetValue | SynergyQuest/Assets/Scripts/DamageSystem/Health.cs:79-100 | the setter's new health and events are those of Assign (clamped, reported as above), the maximum is untouched, and assigning the current value changes nothing |
| HealthPoints.Health.Value | SynergyQuest/Assets/Scripts/DamageSystem/Health.cs:79-81 | the stored health, which never exceeds the maximum on a valid component |
| HealthPoints.Health.IsDead | SynergyQuest/Assets/Scripts/DamageSystem/Health.cs:102 | dead when the health is at most 0; HealthPoints.Health.Reset and HealthPoints.Health.OnAttack state when it holds |
| HealthPoints.Health.SetMaxValue | SynergyQuest/Assets/Scripts/DamageSystem/Health.cs:61-72 | the maximum is set; health above it is lowered to it with one change event (and OnDeath if it is at most 0); otherwise health and events are unchanged |
| HealthPoints.Health.OnAttack | SynergyQuest/Assets/Scripts/DamageSystem/Health.cs:138-152 | instagib with positive damage from a player assigns 0; otherwise the damage is subtracted (negative damage heals, clamped to the maximum); health stays within the maximum |
| HealthPoints.Health.Reset | SynergyQuest/Assets/Scripts/DamageSystem/Health.cs:102 | health becomes the maximum, so the object is dead afterwards iff the maximum is at most 0 (see also lines 154-157) |
| DungeonData.DungeonDataKeeper.constructor | SynergyQuest/Assets/Scripts/Dungeon/DungeonDataKeeper.cs:38-59 | all five stores start empty |
| DungeonData.DungeonDataKeeper.HasSwitchBeenActivated | SynergyQuest/Assets/Scripts/Dungeon/DungeonDataKeeper.cs:68-80 | the saved value of a switch, or the caller's default when none was saved |
| DungeonData.DungeonDataKeeper.SaveSwitchActivation | SynergyQuest/Assets/Scripts/Dungeon/DungeonDataKeeper.cs:85-88 | only the switch store changes, and the lookup afterwards returns the saved value whatever the default |
| DungeonData.DungeonDataKeeper.HasChestBeenOpened | SynergyQuest/Assets/Scripts/Dungeon/DungeonDataKeeper.cs:98-110 | the saved value of a chest, or the caller's default when none was saved |
| DungeonData.DungeonDataKeeper.SaveChestActivation | SynergyQuest/Assets/Scripts/Dungeon/DungeonDataKeeper.cs:115-118 | only the chest store changes, and the lookup afterwards returns the saved value whatever the default |
| DungeonData.DungeonDataKeeper.GetSavedPosition | SynergyQuest/Assets/Scripts/Dungeon/DungeonDataKeeper.cs:126-130 | true with the stored position iff one was stored, otherwise false with the zero vector |
| DungeonData.DungeonDataKeeper.SavePosition | SynergyQuest/Assets/Scripts/Dungeon/DungeonDataKeeper.cs:135-138 | overwrites any earlier entry, only the position store changes, and the lookup then returns true with the new position |
| DungeonData.DungeonDataKeeper.RemovePosition | SynergyQuest/Assets/Scripts/Dungeon/DungeonDataKeeper.cs:145-148 | returns true iff a position was stored; afterwards the lookup fails and the other stores are unchanged |
| DungeonData.DungeonDataKeeper.MarkKeyAsCollected | SynergyQuest/Assets/Scripts/Dungeon/DungeonDataKeeper.cs:153-165 | the key joins the collected set, nothing else changes, and HasKeyBeenCollected holds afterwards |
| DungeonData.DungeonDataKeeper.MarkAsDestroyed | SynergyQuest/Assets/Scripts/Dungeon/DungeonDataKeeper.cs:171-183 | the object joins the destroyed set, nothing else changes, and HasObjectBeenDestroyed holds afterwards |
| DungeonData.DungeonDataKeeper.HasKeyBeenCollected | SynergyQuest/Assets/Scripts/Dungeon/DungeonDataKeeper.cs:162-165 | membership in the collected keys; DungeonData.DungeonDataKeeper.MarkKeyAsCollected makes it true for the key |
| DungeonData.DungeonDataKeeper.HasObjectBeenDestroyed | SynergyQuest/Assets/Scripts/Dungeon/DungeonDataKeeper.cs:180-183 | membership in the destroyed objects; DungeonData.DungeonDataKeeper.MarkAsDestroyed makes it true for the object |
| DungeonData.MarkTwice | SynergyQuest/Assets/Scripts/Dungeon/DungeonDataKeeper.cs:153-174 | marking a key or an object twice leaves the same sets as marking it once |
| DungeonData.SaveThenRemove | SynergyQuest/Assets/Scripts/Dungeon/DungeonDataKeeper.cs:135-148 | saving a position and then removing it reports a removal and leaves no entry for the object |
| FollowPaths.Advance | SynergyQuest/Assets/Scripts/Movement/FollowPath.cs:81-117 | the direction stays +1 or -1; with at least two waypoints an index inside the array stays inside it; with one waypoint, reaching it yields index -1 |
| FollowPaths.WalkSplit | SynergyQuest/Assets/Scripts/Movement/FollowPath.cs:64-122 | a + b reached targets are a reached targets followed by b more |
| FollowPaths.WalkForward | SynergyQuest/Assets/Scripts/Movement/FollowPath.cs:81 | travelling forward, each reached target advances the index by one until the last waypoint |
| FollowPaths.WalkBackward | SynergyQuest/Assets/Scripts/Movement/FollowPath.cs:81 | travelling backward, each reached target lowers the index by one down to the first waypoint |
| FollowPaths.PingPongIsPeriodic | SynergyQuest/Assets/Scripts/Movement/FollowPath.cs:81-117 | with at least two waypoints the path is a ping-pong: overshooting the end turns back to len-2 and undershooting 0 turns forward to 1, so 2(len-1) reached targets return to the same index and direction |
| FollowPaths.FollowPath.constructor | SynergyQuest/Assets/Scripts/Movement/FollowPath.cs:37-52 | the field initialisers: direction +1, index -1 and the zero target |
| FollowPaths.FollowPath.Awake | SynergyQuest/Assets/Scripts/Movement/FollowPath.cs:54-62 | with waypoints the index becomes 0 and the target the first waypoint; with none nothing changes |
| FollowPaths.FollowPath.Update | SynergyQuest/Assets/Scripts/Movement/FollowPath.cs:64-122 | without a target or before reaching it nothing changes; on reaching it the index and direction advance as Advance says; it throws (IndexOutOfRange) exactly when the only waypoint is reached; with two or more waypoints a target is always kept |
| FollowPaths.FollowPath.UpdateIntended | SynergyQuest/Assets/Scripts/Movement/FollowPath.cs:94-98 | the same state change, except that with one waypoint reaching it stops the movement (index -1) and the state stays valid (see also lines 112-116) |
| FollowPaths.SingleWaypointThrows | SynergyQuest/Assets/Scripts/Movement/FollowPath.cs:95-98 | with exactly one waypoint, Awake and then reaching it makes Update read the array at -1 (see also line 119) |
| FollowPaths.SingleWaypointStops | SynergyQuest/Assets/Scripts/Movement/FollowPath.cs:94-98 | with the intended update, reaching the only waypoint leaves index -1 |
| InfoScreenUis.DrawOffersNextOrResume | SynergyQuest/Assets/Scripts/Ui/Menus/InfoScreenUi.cs:115-124 | after a page is drawn exactly one of Next and ResumeGame is enabled (Next iff there is a next page), Back is enabled iff the page is not the first, and every other action keeps its state |
| InfoScreenUis.CloseWithdrawsNavigation | SynergyQuest/Assets/Scripts/Ui/Menus/InfoScreenUi.cs:160-164 | closing disables ResumeGame, Next and Back and keeps every other action's state |
| InfoScreenUis.InfoScreenUi.constructor | SynergyQuest/Assets/Scripts/Ui/Menus/InfoScreenUi.cs:64-76 | Init with a content of pageCount pages; the page counter starts at 0 |
| InfoScreenUis.InfoScreenUi.DrawContent | SynergyQuest/Assets/Scripts/Ui/Menus/InfoScreenUi.cs:112-147 | the controllers are offered Next or ResumeGame and Back as above and get the new set broadcast; the back button is shown iff there is a previous page; the next button reads "Next" or "Resume"; the page is shown, and showing a page outside the content throws |
| InfoScreenUis.InfoScreenUi.OnNextButton | SynergyQuest/Assets/Scripts/Ui/Menus/InfoScreenUi.cs:82-94 | with a next page the page is incremented and drawn (Back then enabled); otherwise the launcher is asked to close once and the page and the controllers are unchanged; the page stays in [0, pageCount) |
| InfoScreenUis.InfoScreenUi.OnPrevButton | SynergyQuest/Assets/Scripts/Ui/Menus/InfoScreenUi.cs:99-106 | with a previous page the page is decremented and drawn (Next then enabled); otherwise nothing changes |
| InfoScreenUis.InfoScreenUi.OnLaunch | SynergyQuest/Assets/Scripts/Ui/Menus/InfoScreenUi.cs:150-154 | draws the current page; this throws exactly for a content without pages |
| InfoScreenUis.InfoScreenUi.OnClose | SynergyQuest/Assets/Scripts/Ui/Menus/InfoScreenUi.cs:156-165 | ResumeGame, Next and Back are disabled and broadcast; other actions keep their state |
| InfoScreenUis.InfoScreenUi.OnMenuActionTriggered | SynergyQuest/Assets/Scripts/Ui/Menus/InfoScreenUi.cs:180-192 | ResumeGame and Next act as the next button, Back as the back button, and any other action changes nothing |
| SharedControllerStates.Broadcast | SynergyQuest/Assets/Scripts/ControllerInput/SharedControllerState.cs:74-82 | exactly one message per connected input, in the order of the inputs, each carrying the payload; disconnected inputs receive nothing, and every connected input receives the payload (see also lines 117-125) |
| SharedControllerStates.BroadcastSkipsDisconnected | SynergyQuest/Assets/Scripts/ControllerInput/SharedControllerState.cs:78-81 | when no input is connected nothing is sent (see also lines 121-124) |
| SharedControllerStates.ApplyPairs | SynergyQuest/Assets/Scripts/ControllerInput/SharedControllerState.cs:103-114 | an action that no pair names keeps its enabled state |
| SharedControllerStates.LastPairWins | SynergyQuest/Assets/Scripts/ControllerInput/SharedControllerState.cs:103-114 | for an action named by some pair, the last pair naming it decides whether it ends up enabled |
| SharedControllerStates.SharedControllerState.constructor | SynergyQuest/Assets/Scripts/ControllerInput/SharedControllerState.cs:19-25 | the initial state is Lobby with PauseGame and ShowMap enabled, and nothing has been sent |
| SharedControllerStates.SharedControllerState.SendToConnected | SynergyQuest/Assets/Scripts/ControllerInput/SharedControllerState.cs:74-82 | the loop over the inputs appends exactly the broadcast of the payload to the connected ones |
| SharedControllerStates.SharedControllerState.SetGameState | SynergyQuest/Assets/Scripts/ControllerInput/SharedControllerState.cs:66-84 | the state is the new one; it is sent to every connected controller iff it differs from the old one, and otherwise nothing is sent |
| SharedControllerStates.SharedControllerState.EnableMenuActions | SynergyQuest/Assets/Scripts/ControllerInput/SharedControllerState.cs:101-126 | the pairs are applied in order (so the last pair for an action wins) and the resulting set is sent to the connected controllers |
| SharedControllerStates.SharedControllerState.OnReconnect | SynergyQuest/Assets/Scripts/ControllerInput/SharedControllerState.cs:149-156 | the controller is sent the current game state and then the full enabled set, and the forwarding handler is registered on it |
| SharedControllerStates.SharedControllerState.OnNewController | SynergyQuest/Assets/Scripts/ControllerInput/SharedControllerState.cs:137-144 | a new controller gets one more reconnect handler registration (a repeated call registers it again, as `+=` does) and is treated as a reconnect: it receives the game state and the enabled set |
| SharedControllerStates.SharedControllerState.MenuActionTriggeredHandler | SynergyQuest/Assets/Scripts/ControllerInput/SharedControllerState.cs:158-161 | the action is forwarded once to the subscribers |
| SharedControllerStates.SetGameStateTwice | SynergyQuest/Assets/Scripts/ControllerInput/SharedControllerState.cs:66-84 | a changed state reaches every connected controller, and setting the same state again sends nothing |
| DungeonMaps.InsertedRow | SynergyQuest/Assets/Scripts/Dungeon/Map.cs:219-227 | the grid gains one all-empty row of the given width at index y, and every other row keeps its order |
| DungeonMaps.InsertedColumn | SynergyQuest/Assets/Scripts/Dungeon/Map.cs:241-244 | every row gains one empty cell at index x, and the other cells keep their order |
| DungeonMaps.ConnectionsFaceEachOther | SynergyQuest/Assets/Scripts/Dungeon/Map.cs:318-330 | two rooms connected to each other in one row have facing connections (right on the left room, left on the right room), and a room connected only to the right has no left connection unless passed horizontally |
| DungeonMaps.HasLeftConnection | SynergyQuest/Assets/Scripts/Dungeon/Map.cs:318-323 | a horizontal passage, or a room connected to a room further left in its row; DungeonMaps.ConnectionsFaceEachOther and DungeonMaps.PassagesAreOpenAlongTheirAxis state its properties |
| DungeonMaps.HasRightConnection | SynergyQuest/Assets/Scripts/Dungeon/Map.cs:325-330 | a horizontal passage, or a room connected to a room further right in its row |
| DungeonMaps.HasTopConnection | SynergyQuest/Assets/Scripts/Dungeon/Map.cs:332-337 | a vertical passage, or a room connected to a room with a smaller y in its column |
| DungeonMaps.HasBottomConnection | SynergyQuest/Assets/Scripts/Dungeon/Map.cs:339-344 | a vertical passage, or a room connected to a room with a larger y in its column |
| DungeonMaps.PassagesAreOpenAlongTheirAxis | SynergyQuest/Assets/Scripts/Dungeon/Map.cs:308-344 | a passage without connections has left and right connections iff it is passed horizontally, and top and bottom ones iff it is passed vertically |
| DungeonMaps.OverlayTrans | SynergyQuest/Assets/Scripts/Dungeon/Map.cs:263-294 | two rounds of drawing passages over the grid amount to one round |
| DungeonMaps.Put | SynergyQuest/Assets/Scripts/Dungeon/Map.cs:112 | exactly the given cell is set to the object and every other cell is unchanged |
| DungeonMaps.OverlayPut | SynergyQuest/Assets/Scripts/Dungeon/Map.cs:112 | storing a room in the same cell before and after the passages are drawn keeps the overlay relation (see also lines 263-294) |
| DungeonMaps.DoorsStayConnected | SynergyQuest/Assets/Scripts/Dungeon/Map.cs:70-106 | the doors handled so far stay connected across a later step that keeps the rooms' identity |
| DungeonMaps.KeepsIdentityTrans | SynergyQuest/Assets/Scripts/Dungeon/Map.cs:67-107 | keeping the rooms' names, kinds and connection prefixes is transitive |
| DungeonMaps.ConnectionKept | SynergyQuest/Assets/Scripts/Dungeon/Map.cs:93 | a connection keeps its position in the list across every later step (see also line 103) |
| DungeonMaps.ConnectedToPersists | SynergyQuest/Assets/Scripts/Dungeon/Map.cs:93 | a connection once added survives every later step, since connection lists only grow (see also line 103) |
| DungeonMaps.ReversedKeepsInvariants | SynergyQuest/Assets/Scripts/Dungeon/Map.cs:60 | reversing the row order keeps the grid rectangular, every cell referring to an existing object, and no object in two cells |
| DungeonMaps.InsertedRowKeepsInvariants | SynergyQuest/Assets/Scripts/Dungeon/Map.cs:219-227 | inserting an empty row keeps the grid rectangular with the same width and keeps the object references unique and valid |
| DungeonMaps.InsertedColumnKeepsInvariants | SynergyQuest/Assets/Scripts/Dungeon/Map.cs:241-244 | inserting an empty column keeps the grid rectangular, one wider, and keeps the object references unique and valid |
| DungeonMaps.DungeonMap.constructor | SynergyQuest/Assets/Scripts/Dungeon/Map.cs:38-41 | a new map has an empty grid and no rooms |
| DungeonMaps.DungeonMap.Insert | SynergyQuest/Assets/Scripts/Dungeon/Map.cs:109-114 | a new room with the given name and coordinates is created, stored exactly at RoomMap[y][x] and returned; no other cell changes |
| DungeonMaps.DungeonMap.InsertAbove | SynergyQuest/Assets/Scripts/Dungeon/Map.cs:140-148 | when the row above is missing or occupied a row is inserted at y+1; the new room lands at (x, y+1), every other cell is as before or a drawn passage, and the existing room keeps its coordinates; this is the `Landed` placement for its direction |
| DungeonMaps.DungeonMap.SlotAbove | SynergyQuest/Assets/Scripts/Dungeon/Map.cs:142-146 | the expansion step of InsertAbove: the grid grows by a row exactly when the cell above is missing or occupied |
| DungeonMaps.DungeonMap.InsertBelow | SynergyQuest/Assets/Scripts/Dungeon/Map.cs:156-170 | at y == 0 or against an occupied cell a row is inserted at y and the old coordinates are reused, shifting the existing room up by one; otherwise the room goes to (x, y-1) |
| DungeonMaps.DungeonMap.SlotBelow | SynergyQuest/Assets/Scripts/Dungeon/Map.cs:158-168 | the expansion step of InsertBelow and the coordinates it chooses |
| DungeonMaps.DungeonMap.InsertLeft | SynergyQuest/Assets/Scripts/Dungeon/Map.cs:178-192 | at x == 0 or against an occupied cell a column is inserted at x and the old coordinates are reused, shifting the existing room right by one; otherwise the room goes to (x-1, y) |
| DungeonMaps.DungeonMap.SlotLeft | SynergyQuest/Assets/Scripts/Dungeon/Map.cs:180-190 | the expansion step of InsertLeft and the coordinates it chooses |
| DungeonMaps.DungeonMap.InsertRight | SynergyQuest/Assets/Scripts/Dungeon/Map.cs:200-208 | when the cell to the right is missing or occupied a column is inserted at x+1; the new room lands at (x+1, y) and the existing room keeps its coordinates; this is the `Landed` placement for its direction |
| DungeonMaps.DungeonMap.SlotRight | SynergyQuest/Assets/Scripts/Dungeon/Map.cs:202-206 | the expansion step of InsertRight |
| DungeonMaps.DungeonMap.FindRoomNamed | SynergyQuest/Assets/Scripts/Dungeon/Map.cs:99-103 | finds an object with the name iff some cell holds a room of that name |
| DungeonMaps.DungeonMap.AddConnection | SynergyQuest/Assets/Scripts/Dungeon/Map.cs:93 | the target is appended to the room's connection list and nothing else changes (see also line 103) |
| DungeonMaps.DungeonMap.InsertToward | SynergyQuest/Assets/Scripts/Dungeon/Map.cs:77-91 | the switch over the direction: the new room is the last object, named as given, stored on the map at its coordinates; those are the cell above for "up" and to the right for "right", and for "down" and "left" the cell below or to the left, or the old coordinates when the grid had to grow there (`Toward`); the new room sits one step in the door's direction from the room that stood at the given coordinates, wherever the expansion moved that room (`Landed`); existing objects keep everything but their coordinates |
| DungeonMaps.DungeonMap.ConnectDoor | SynergyQuest/Assets/Scripts/Dungeon/Map.cs:72-104 | one door: a target not yet on the map is inserted, connected and recursed into; a target already on the map is looked up and connected; on success the room is connected to the target |
| DungeonMaps.DungeonMap.InsertVertically | SynergyQuest/Assets/Scripts/Dungeon/Map.cs:79-84 | the "up" and "down" cases of the switch, with the placement InsertToward states |
| DungeonMaps.DungeonMap.InsertHorizontally | SynergyQuest/Assets/Scripts/Dungeon/Map.cs:85-90 | the "left" and "right" cases of the switch, with the placement InsertToward states |
| DungeonMaps.DungeonMap.ConnectNew | SynergyQuest/Assets/Scripts/Dungeon/Map.cs:74-94 | a target not yet on the map is inserted by the direction switch, with the placement InsertToward states holding in the map right after the insertion (`Landed` on the returned snapshot); the inserted room keeps its name and stays a room through the recursive parse, it is the room's first new connection, and on success the room stays connected to the target |
| DungeonMaps.DungeonMap.PlaceAndConnect | SynergyQuest/Assets/Scripts/Dungeon/Map.cs:77-93 | the direction switch followed by `connections.Add`: the room's connection list grows by exactly the inserted room, which lands as InsertToward states |
| DungeonMaps.DungeonMap.ConnectExisting | SynergyQuest/Assets/Scripts/Dungeon/Map.cs:96-103 | a target already on the map is found and connected to the room, and no room changes its name or loses a connection |
| DungeonMaps.DungeonMap.ParseDungeonRec | SynergyQuest/Assets/Scripts/Dungeon/Map.cs:67-107 | a room missing from the layout is a KeyNotFound error that changes nothing; otherwise, on success, the room is connected to the target of every door up, down, left and right; no room object is discarded or renamed, although a room cell can later be overwritten by a passage |
| DungeonMaps.DungeonMap.FollowDoor | SynergyQuest/Assets/Scripts/Dungeon/Map.cs:70-105 | one iteration of the loop over the directions: an absent door does nothing, and on success all doors up to this direction are connected |
| DungeonMaps.DungeonMap.ParseDungeon | SynergyQuest/Assets/Scripts/Dungeon/Map.cs:48-65 | the initial room is object 0; a missing initial room is KeyNotFound; on success every stored room has its (column, row) as coordinates after the rows are reversed, the row and column counts are recorded, and the initial room is connected to all its doors |
| DungeonMaps.DungeonMap.RecordDimensions | SynergyQuest/Assets/Scripts/Dungeon/Map.cs:63-64 | RowCount is the number of rows and ColumnCount the width of the widest row |
| DungeonMaps.DungeonMap.Arrange | SynergyQuest/Assets/Scripts/Dungeon/Map.cs:60-64 | after the recursion, every stored object has the coordinates of its cell, the dimensions are recorded, and the first room keeps its name and every door connection |
| DungeonMaps.DungeonMap.Relocate | SynergyQuest/Assets/Scripts/Dungeon/Map.cs:60-61 | reversing the rows and reassigning coordinates keeps the grid invariants and every object's identity, and leaves each stored object at its cell |
| DungeonMaps.DungeonMap.StartWith | SynergyQuest/Assets/Scripts/Dungeon/Map.cs:50-56 | the grid is a single cell holding the initial room at (0, 0) |
| DungeonMaps.DungeonMap.ReverseRows | SynergyQuest/Assets/Scripts/Dungeon/Map.cs:60 | the rows are reversed in place and the grid invariants are kept |
| DungeonMaps.DungeonMap.WidestRow | SynergyQuest/Assets/Scripts/Dungeon/Map.cs:64 | the maximum row length: no row is longer and some row has it |
| DungeonMaps.DungeonMap.Contains | SynergyQuest/Assets/Scripts/Dungeon/Map.cs:119-132 | true iff some cell holds a room of that name |
| DungeonMaps.DungeonMap.ReassignCoordinates | SynergyQuest/Assets/Scripts/Dungeon/Map.cs:252-261 | afterwards every object stored at RoomMap[i][j] has coordinates (j, i); only coordinates change, and objects not on the map keep theirs |
| DungeonMaps.DungeonMap.ReassignRow | SynergyQuest/Assets/Scripts/Dungeon/Map.cs:256-259 | the inner loop: every object in row i gets coordinates (j, i), and objects not in the row are untouched |
| DungeonMaps.DungeonMap.PlacePassage | SynergyQuest/Assets/Scripts/Dungeon/Map.cs:278 | a new passage object is created and stored in the cell, overwriting it (see also line 287) |
| DungeonMaps.DungeonMap.FillRow | SynergyQuest/Assets/Scripts/Dungeon/Map.cs:276-279 | every cell x0 <= x < x1 of row y holds a new horizontal passage; every other cell and every existing object is unchanged |
| DungeonMaps.DungeonMap.FillColumn | SynergyQuest/Assets/Scripts/Dungeon/Map.cs:285-288 | every cell y0 <= y < y1 of column x holds a new vertical passage; every other cell and every existing object is unchanged |
| DungeonMaps.DungeonMap.StretchRow | SynergyQuest/Assets/Scripts/Dungeon/Map.cs:273-280 | when the target lies more than one column to the right, the cells strictly between them in the room's row hold horizontal passages; nothing else changes |
| DungeonMaps.DungeonMap.StretchColumn | SynergyQuest/Assets/Scripts/Dungeon/Map.cs:282-289 | when the target lies more than one row above, the cells strictly between them in the room's column hold vertical passages; nothing else changes |
| DungeonMaps.FillsCombine | SynergyQuest/Assets/Scripts/Dungeon/Map.cs:273-289 | filling the row and then the column leaves both spans filled: the column pass never rewrites a cell of the row span |
| DungeonMaps.DungeonMap.StretchConnection | SynergyQuest/Assets/Scripts/Dungeon/Map.cs:271-290 | one connection is drawn: the row span gets horizontal passages, the column span vertical ones, every other cell is unchanged |
| DungeonMaps.StretchOverwritesRoomBetween | SynergyQuest/Assets/Scripts/Dungeon/Map.cs:276-279 | in a row holding rooms A, B, C with A connected to C, stretching the connection leaves no cell holding B, so a later Contains(B) is false |
| DungeonMaps.PassageKept | SynergyQuest/Assets/Scripts/Dungeon/Map.cs:278 | a passage already placed stays a passage when its cell is not rewritten and no object is removed |
| DungeonMaps.StretchedStep | SynergyQuest/Assets/Scripts/Dungeon/Map.cs:271-290 | drawing connection k on top of connections 0..k-1 gives the effect of drawing connections 0..k; a cell on no span stays as it was |
| DungeonMaps.DungeonMap.StretchFrom | SynergyQuest/Assets/Scripts/Dungeon/Map.cs:269-291 | for every connection to the right or above, the cells between the room and it hold passages of that direction (later connections overwrite earlier ones); every cell on no span and every existing object is unchanged |
| DungeonMaps.DungeonMap.StretchNext | SynergyQuest/Assets/Scripts/Dungeon/Map.cs:271-290 | one pass of the loop over the connections: drawing connection k on the first k gives the effect of the first k + 1, keeping the grid invariants |
| DungeonMaps.DungeonMap.ExpandVertically | SynergyQuest/Assets/Scripts/Dungeon/Map.cs:215-230 | an empty map is an ArgumentException and an index outside [0, rows] an ArgumentOutOfRange, both changing nothing; otherwise one all-empty row of the map's width is inserted at y, coordinates are reassigned to (column, row), and passages may be drawn over it |
| DungeonMaps.DungeonMap.ExpandHorizontally | SynergyQuest/Assets/Scripts/Dungeon/Map.cs:237-247 | an empty map is an ArgumentException and an index outside [0, width] an ArgumentOutOfRange, both changing nothing; otherwise one empty cell is inserted at x in every row, coordinates are reassigned, and passages may be drawn over it |
| DungeonMaps.DungeonMap.StrechConnections | SynergyQuest/Assets/Scripts/Dungeon/Map.cs:263-294 | the grid keeps its shape and existing objects; each cell is unchanged or holds a newly created passage |
| SokobanBoards.Glyph | sokoban-pcg-test/sokoban.py:37-43 | every entity glyph is impassable; worker glyphs are exactly '@', 'a', '+', '-'; the dock variants '+', '-', '*' are drawn exactly over a '.' cell (see also lines 91-97) |
| SokobanBoards.Paint | sokoban-pcg-test/sokoban.py:37-43 | drawing one entity keeps the grid's shape (see also lines 91-97) |
| SokobanBoards.RenderFrom | sokoban-pcg-test/sokoban.py:131-135 | rendering works on a copy of the same shape; its only failure is IndexError |
| SokobanBoards.Render | sokoban-pcg-test/sokoban.py:131-135 | a rendering has the terrain's shape and the only failure is IndexError; SokobanBoards.RenderSucceedsIff says when it succeeds |
| SokobanBoards.RenderSucceedsIff | sokoban-pcg-test/sokoban.py:131-135 | rendering fails exactly when some entity lies outside its row of the terrain |
| SokobanBoards.RenderedCell | sokoban-pcg-test/sokoban.py:131-135 | a rendered cell shows the terrain when no entity stands on it, and an impassable glyph when one does or the terrain is impassable |
| SokobanBoards.CanMove | sokoban-pcg-test/sokoban.py:24-29 | true only for a target inside [0, width) x [0, height); a target outside is false without rendering; the only failure is IndexError |
| SokobanBoards.CanMoveIffFree | sokoban-pcg-test/sokoban.py:24-29 | where the board renders, can_move holds iff the target is inside the bounds, its terrain is not impassable and no entity stands on it (see also line 10) |
| SokobanBoards.GetBox | sokoban-pcg-test/sokoban.py:149-156 | the first box standing on the cell, and none exactly when no box stands there |
| SokobanBoards.CanPush | sokoban-pcg-test/sokoban.py:45-52 | (False, None) without a box ahead; otherwise the box ahead is reported, and the answer is true iff it has the worker's colour and can itself move one step further |
| SokobanBoards.CanPull | sokoban-pcg-test/sokoban.py:54-62 | the box behind the worker is reported only when it has the worker's colour (so both no box and a box of the other colour give (False, None)); the answer is true iff such a box exists and the worker can move |
| SokobanBoards.MoveEntity | sokoban-pcg-test/sokoban.py:64-69 | a successful move shifts exactly that entity by (dx, dy) inside the bounds; a refused move changes nothing; only positions ever change |
| SokobanBoards.Push | sokoban-pcg-test/sokoban.py:71-76 | a refused push changes nothing, and any push changes only entity positions |
| SokobanBoards.Pull | sokoban-pcg-test/sokoban.py:78-83 | a refused pull changes nothing, and any pull changes only entity positions |
| SokobanBoards.RelocatedKeepsWorkers | sokoban-pcg-test/sokoban.py:64-83 | moves that change only positions keep every colour's worker entry naming a worker of that colour, and two such moves compose |
| SokobanBoards.GameMove | sokoban-pcg-test/sokoban.py:291-297 | a colour without a worker raises KeyError, and only then; a move never writes the terrain, the cursor, the worker table, the number of entities or their kinds and colours |
| SokobanBoards.GameIsLegalMove | sokoban-pcg-test/sokoban.py:284-289 | KeyError exactly for a colour without a worker; true iff the worker can step, or cannot step and can push; pulling is not considered |
| SokobanBoards.IsCompletedFrom | sokoban-pcg-test/sokoban.py:137-144 | the goal test's only failure is IndexError |
| SokobanBoards.IsCompleted | sokoban-pcg-test/sokoban.py:137-144 | the only failure is IndexError; SokobanBoards.IsCompletedIff says when the level is completed |
| SokobanBoards.IsCompletedIff | sokoban-pcg-test/sokoban.py:137-144 | where every box lies on the terrain, the board is completed iff every box stands on a '.' cell |
| SokobanBoards.NoBoxesIsCompleted | sokoban-pcg-test/sokoban.py:137-144 | with no boxes the goal test holds vacuously |
| SokobanMoves.TidyRenders | sokoban-pcg-test/sokoban.py:131-135 | a well-formed board (rectangular terrain of ' ', '#', '.', entities on distinct non-wall cells, valid worker table) always renders |
| SokobanMoves.TidyCanMove | sokoban-pcg-test/sokoban.py:24-29 | on a well-formed board can_move never raises and holds iff the target is a free cell: inside, not a wall, unoccupied |
| SokobanMoves.ShiftKeepsTidy | sokoban-pcg-test/sokoban.py:66-67 | moving an entity onto a free cell keeps the board well formed |
| SokobanMoves.TidyMoveEntity | sokoban-pcg-test/sokoban.py:64-69 | on a well-formed board move steps the entity iff the target is free, never raises, and keeps the board well formed |
| SokobanMoves.TidyCanPush | sokoban-pcg-test/sokoban.py:45-52 | on a well-formed board can_push never raises and holds iff the box ahead has the worker's colour and the cell beyond it is free |
| SokobanMoves.VacatedCellIsFree | sokoban-pcg-test/sokoban.py:74-76 | the cell a box leaves becomes free, so the worker behind it can follow |
| SokobanMoves.PushStepsBoth | sokoban-pcg-test/sokoban.py:71-76 | after the box ahead moves, the worker's own move succeeds and the board stays well formed |
| SokobanMoves.TidyPush | sokoban-pcg-test/sokoban.py:71-76 | on a well-formed board a successful push moves the box and then the worker by (dx, dy), a refused push changes nothing, nothing raises, and the board stays well formed |
| SokobanMoves.TidyCanPull | sokoban-pcg-test/sokoban.py:54-62 | on a well-formed board can_pull never raises; with a box of the worker's colour behind, it holds iff the cell ahead is free; otherwise it is (False, None) |
| SokobanMoves.TargetStaysFree | sokoban-pcg-test/sokoban.py:80-83 | moving the box behind the worker toward it does not block the worker's own step ahead |
| SokobanMoves.TidyPull | sokoban-pcg-test/sokoban.py:78-83 | on a well-formed board a successful pull moves the box and then the worker by the same (dx, dy), so the box lands on the worker's former cell; a refused pull changes nothing; nothing raises |
| SokobanMoves.PulledBoardIsTidy | sokoban-pcg-test/sokoban.py:78-83 | the board after a pull is well formed |
| SokobanMoves.TidyGameMove | sokoban-pcg-test/sokoban.py:291-297 | on a well-formed board game.move never raises, keeps the board well formed, only pulls when asked to pull, steps when the target is free, and otherwise pushes |
| SokobanMaps.AppendToLastRow | sokoban-pcg-test/sokoban.py:108 | appending a terrain glyph keeps every earlier row and extends the last row by exactly that glyph |
| SokobanMaps.Map.constructor | sokoban-pcg-test/sokoban.py:100-105 | a new map has no rows, its cursor at column 0 of row -1, no entities and an empty worker table |
| SokobanMaps.Map.AddFloor | sokoban-pcg-test/sokoban.py:107-109 | appends floor to the last row and advances the cursor by one, keeping the map consistent |
| SokobanMaps.Map.AddWall | sokoban-pcg-test/sokoban.py:111-113 | appends a wall to the last row and advances the cursor by one |
| SokobanMaps.Map.AddDock | sokoban-pcg-test/sokoban.py:115-117 | appends a dock to the last row and advances the cursor by one |
| SokobanMaps.Map.NextRow | sokoban-pcg-test/sokoban.py:119-122 | opens an empty row, resets the column to 0 and moves to the next row |
| SokobanMaps.Map.AddWorker | sokoban-pcg-test/sokoban.py:124-126 | appends a worker at the cursor and makes it the colour's worker in the table, replacing an earlier one |
| SokobanMaps.Map.AddBox | sokoban-pcg-test/sokoban.py:128-129 | appends a box at the cursor and leaves the worker table alone |
| SokobanMaps.Map.Render | sokoban-pcg-test/sokoban.py:131-135 | the loop over a copy of the terrain computes the board's rendering, failing as the source does on an entity outside the terrain |
| SokobanMaps.Map.IsCompleted | sokoban-pcg-test/sokoban.py:137-145 | the early-exit loop answers whether every box stands on a dock |
| SokobanMaps.Map.GetWorker | sokoban-pcg-test/sokoban.py:146-147 | succeeds iff the colour has a worker, returning that worker, and otherwise raises KeyError |
| SokobanMaps.Map.GetBox | sokoban-pcg-test/sokoban.py:149-156 | the loop returns the first box at (x, y), or nothing when no box stands there |
| SokobanMaps.Map.CanMove | sokoban-pcg-test/sokoban.py:24-29 | computes Entity.can_move on the current map |
| SokobanMaps.Map.CanPush | sokoban-pcg-test/sokoban.py:45-52 | computes Worker.can_push for the given entity on the current map |
| SokobanMaps.Map.CanPull | sokoban-pcg-test/sokoban.py:54-62 | computes Worker.can_pull for the given entity on the current map |
| SokobanMaps.Map.Move | sokoban-pcg-test/sokoban.py:64-69 | steps the entity exactly as the move specification says, leaving the entities unchanged when it raises; terrain and worker table are untouched |
| SokobanMaps.Map.Push | sokoban-pcg-test/sokoban.py:71-76 | performs the push as the push specification says; only entity positions change |
| SokobanMaps.Map.Pull | sokoban-pcg-test/sokoban.py:78-83 | performs the pull as the pull specification says; only entity positions change |
| SokobanGames.IsValidValue | sokoban-pcg-test/sokoban.py:168-184 | a glyph is valid iff parse_char acts on it |
| SokobanGames.Decode | sokoban-pcg-test/sokoban.py:187-223 | only one-character glyphs are understood; each gives floor, wall or dock terrain, and one that places an entity never gives a wall |
| SokobanGames.EntitiesStandOffWalls | sokoban-pcg-test/sokoban.py:187-223 | every glyph that places a worker or a box puts it on floor or on a dock |
| SokobanGames.GeneratorGlyphsAreSkipped | sokoban-pcg-test/sokoban.py:168-184 | the generator's glyphs (BB, RB, BB_d, RB_d, d, BW, RW) are neither valid nor parsed |
| SokobanGames.ParseCell | sokoban-pcg-test/sokoban.py:187-223 | parsing a glyph keeps the cursor at the end of the last row and keeps the worker table pointing at workers of their colour |
| SokobanGames.ParseRow | sokoban-pcg-test/sokoban.py:230-231 | parsing a row's glyphs keeps the same two facts |
| SokobanGames.ParseLevel | sokoban-pcg-test/sokoban.py:226-231 | the generated-level path of the constructor makes one row per level row with a valid worker table |
| SokobanGames.ParseCellKeepsParsing | sokoban-pcg-test/sokoban.py:187-223 | a known glyph fills exactly one more cell of the row and keeps the board under construction well formed |
| SokobanGames.ParseRowKeepsParsing | sokoban-pcg-test/sokoban.py:230-231 | a row of known glyphs that fits the width fills that many cells and keeps the board well formed |
| SokobanGames.ParseLevelKeepsParsing | sokoban-pcg-test/sokoban.py:226-231 | a level whose rows all have w known glyphs yields complete rows of width w |
| SokobanGames.RectangularLevelIsTidy | sokoban-pcg-test/sokoban.py:225-231 | such a level yields a well-formed board, on which every move is safe |
| SokobanGames.FloorBoxColoursSwapped | sokoban-pcg-test/sokoban.py:212-217 | as written, 'S' parses as a blue box that renders as the bar glyph and the bar glyph as a red box that renders as 'S' (see also lines 91-97) |
| SokobanGames.IntendedGlyphsRoundTrip | sokoban-pcg-test/sokoban.py:168-223 | with the colours swapped back, every glyph the renderer produces parses into a cell that renders as the same glyph (see also lines 37-43, lines 91-97) |
| SokobanGames.Game.FromLevel | sokoban-pcg-test/sokoban.py:225-231 | the constructor's loops build exactly the parsed level on a fresh, consistent map |
| SokobanGames.Game.ParseRowChars | sokoban-pcg-test/sokoban.py:229-230 | parse_char on every glyph of a row, left to right, performs exactly the parse of that row |
| SokobanGames.Game.ParseChar | sokoban-pcg-test/sokoban.py:187-223 | the branch chain performs exactly the parse of one glyph, keeping the map consistent |
| SokobanGames.Game.ParseWorkerChar | sokoban-pcg-test/sokoban.py:193-223 | '@' and '+' add the blue worker, 'a' and '-' the red one, on floor for '@' and 'a' and on a dock otherwise: exactly the parse of that glyph |
| SokobanGames.Game.ParseBoxChar | sokoban-pcg-test/sokoban.py:202-219 | the six box glyphs perform exactly the parse of that glyph |
| SokobanGames.Game.ParseBoxOnDockChar | sokoban-pcg-test/sokoban.py:202-210 | '*' and ':' add a blue box and '"' a red one, each on a dock |
| SokobanGames.Game.ParseBoxOnFloorChar | sokoban-pcg-test/sokoban.py:211-219 | '$' and 'S' add a blue box and the bar glyph a red one, each on floor |
| SokobanGames.Game.IsLegalMove | sokoban-pcg-test/sokoban.py:284-289 | computes the legality specification: the colour's worker can step, else whether it can push |
| SokobanGames.Game.Move | sokoban-pcg-test/sokoban.py:291-297 | performs the move specification: pull when asked, else step, else push; raises as the source does |
| SokobanGames.Game.StepOrPush | sokoban-pcg-test/sokoban.py:295-297 | the non-pull branch of game.move: a step, and a push when the step did not happen |
| SokobanGenerators.Count | sokoban-pcg-test/generator.py:25 | list.count never exceeds the list's length |
| SokobanGenerators.CountExtremes | sokoban-pcg-test/generator.py:25 | the count equals the length iff every entry is the value, and is zero iff none is |
| SokobanGenerators.HasConstraint | sokoban-pcg-test/generator.py:18-25 | a border has a constraint iff some entry is not '?' |
| SokobanGenerators.ScanFromIff | sokoban-pcg-test/generator.py:29-51 | the check loop from a position passes iff every constrained position of the range equals the neighbour's cell, and raises only at a constrained position the neighbour lacks |
| SokobanGenerators.CheckSideIff | sokoban-pcg-test/generator.py:29-51 | check_above/below/left/right pass iff every constrained border position in their range (1 to len-2 vertically, all horizontally) equals the facing cell of the neighbour; '?' never rejects |
| SokobanGenerators.CheckSide | sokoban-pcg-test/generator.py:29-51 | a check of one side either answers or fails with IndexError; SokobanGenerators.CheckSideIff says when it passes |
| SokobanGenerators.UnconstrainedPasses | sokoban-pcg-test/generator.py:18-51 | a border of '?' only passes against any neighbour |
| SokobanGenerators.Check | sokoban-pcg-test/generator.py:29-51 | the early-exit loop computes the side check, raising IndexError where the source indexes past the neighbour |
| SokobanGenerators.FitIff | sokoban-pcg-test/generator.py:147-174 | a candidate fits iff on each outer edge it has no outward constraint and against each neighbour both checks pass (for the fragment above, its check_right, as written) |
| SokobanGenerators.Violates | sokoban-pcg-test/generator.py:147-174 | the constraint tests either answer or fail with IndexError; SokobanGenerators.FitIff says when a candidate fits |
| SokobanGenerators.IsSpace | sokoban-pcg-test/generator.py:197-200 | the characters `strip()` removes from a fragment line: the six ASCII whitespace characters that Python 2's str.strip removes from a byte string (tab, line feed, vertical tab, form feed, carriage return, space) |
| SokobanGenerators.Violation | sokoban-pcg-test/generator.py:147-174 | the sequence of tests in generate_walls computes the fit specification, in the source's evaluation order |
| SokobanGenerators.ReverseVerticalCheckIgnoresBelow | sokoban-pcg-test/generator.py:167-170 | as written, a fragment whose below border demands a wall is accepted above an open fragment |
| SokobanGenerators.IntendedFitHonoursBelow | sokoban-pcg-test/generator.py:163-174 | with check_below as the reverse vertical test, a fitting fragment satisfies every constrained cell of the upper fragment's below border (see also lines 35-39) |
| SokobanGenerators.TileRow | sokoban-pcg-test/generator.py:181 | a level row holds three cells per fragment of its fragment row |
| SokobanGenerators.Tile | sokoban-pcg-test/generator.py:181 | the tiled level has three rows per fragment row |
| SokobanGenerators.TileRowCell | sokoban-pcg-test/generator.py:181 | cell 3i + c of level row k is cell c of content row k of the i-th fragment |
| SokobanGenerators.TileCell | sokoban-pcg-test/generator.py:181 | cell (3j + k, 3i + c) of the level is cell (k, c) of the fragment placed at (j, i), and each row has 3x cells |
| SokobanGenerators.TileCellsAreChars | sokoban-pcg-test/generator.py:181 | every cell of a tiled level is a one-character string (see also line 206) |
| SokobanGenerators.CountSet | sokoban-pcg-test/generator.py:79 | overwriting one entry changes a count by what was removed and what was written |
| SokobanGenerators.CountAfterWrite | sokoban-pcg-test/generator.py:79 | writing a glyph over one cell of a level changes each count by what was removed and what was written (see also lines 107-122) |
| SokobanGenerators.NoLongGlyphs | sokoban-pcg-test/generator.py:79 | a level of one-character cells holds none of the multi-character glyphs (see also line 181) |
| SokobanGenerators.GeneratedKeepsFloor | sokoban-pcg-test/generator.py:92-122 | thanks to the 2n + 2 floor bound, a generated level keeps at least one floor cell per box already on a dock, and at most n boxes need a dock |
| SokobanGenerators.Pick | sokoban-pcg-test/generator.py:66-67 | int(random() * n) is a valid index when n > 0, and 0 when n == 0 (see also line 138) |
| SokobanGenerators.PickBounds | sokoban-pcg-test/generator.py:138 | the floor of a draw times n lies in [0, n) for n > 0 |
| SokobanGenerators.TrimStart | sokoban-pcg-test/generator.py:198 | removes exactly the leading whitespace: a suffix that starts with a non-space, all dropped characters being spaces |
| SokobanGenerators.SpacesFrom | sokoban-pcg-test/generator.py:198 | the run of whitespace from a position ends at the end of the string or at a non-space |
| SokobanGenerators.SpacesBefore | sokoban-pcg-test/generator.py:198 | the run of whitespace that ends at a position starts at the string's start or after a non-space |
| SokobanGenerators.TrimEnd | sokoban-pcg-test/generator.py:198 | removes exactly the trailing whitespace: a prefix that ends with a non-space, all dropped characters being spaces |
| SokobanGenerators.Chars | sokoban-pcg-test/generator.py:198 | [c for c in s] lists every character as a string of its own, in order (see also line 206) |
| SokobanGenerators.LoadLine | sokoban-pcg-test/generator.py:190-207 | one line moves the loader to a consistent next state (block line 0 to 5), raising IndexError on a content line shorter than five characters |
| SokobanGenerators.LoadLineKeeps | sokoban-pcg-test/generator.py:191-207 | after one more line, there is one fragment per started block, all but the current one complete |
| SokobanGenerators.AddRowKeeps | sokoban-pcg-test/generator.py:204-207 | a content line adds one row of three one-character cells and one left and one right cell to the current fragment |
| SokobanGenerators.LoadFromKeeps | sokoban-pcg-test/generator.py:190-207 | the same holds after any number of lines |
| SokobanGenerators.LoadedFragments | sokoban-pcg-test/generator.py:184-207 | a fragment file that loads yields one fragment per block of six lines, all complete but perhaps the last, and the last too when the file ends after a below border or a separator |
| SokobanGenerators.BlockCount | sokoban-pcg-test/generator.py:190-207 | after n lines the loader is at line n mod 6 of block n / 6 rounded up |
| SokobanGenerators.LoadedAfterBlocks | sokoban-pcg-test/generator.py:190-207 | the loader's state after n lines holds n / 6 fragments rounded up, all complete once the block's below border was read |
| SokobanGenerators.Generator.constructor | sokoban-pcg-test/generator.py:55-56 | a new generator has no fragments and the given sequence of random values |
| SokobanGenerators.Generator.LoadFragments | sokoban-pcg-test/generator.py:184-207 | the loader's loop computes the line-by-line specification and, for a file of whole blocks, leaves only complete fragments |
| SokobanGenerators.Generator.Random | sokoban-pcg-test/generator.py:7 | random() returns the next value and consumes it |
| SokobanGenerators.Generator.FindFloor | sokoban-pcg-test/generator.py:60-71 | a returned position is a floor cell of the map; IndexError only for an empty map or an empty row |
| SokobanGenerators.Generator.PickFitting | sokoban-pcg-test/generator.py:137-177 | the retry loop returns a complete library fragment that violates no constraint at its position |
| SokobanGenerators.Generator.GenerateRow | sokoban-pcg-test/generator.py:136-180 | a row of x library fragments, each fitting its left and upper neighbours |
| SokobanGenerators.Generator.GenerateWalls | sokoban-pcg-test/generator.py:126-182 | the result is the tiling of y rows of x fitting library fragments |
| SokobanGenerators.Generator.WallsWithFloor | sokoban-pcg-test/generator.py:90-93 | the retried walls are a valid tiling with at least 2n + 2 floor cells |
| SokobanGenerators.Generator.PlaceBoxes | sokoban-pcg-test/generator.py:95-110 | n boxes written on distinct former floor cells, nDocks of them off a dock, nothing else changed |
| SokobanGenerators.Generator.PlaceDocks | sokoban-pcg-test/generator.py:112-114 | one dock per box not on one, each on a former floor cell |
| SokobanGenerators.Generator.PlaceWorkers | sokoban-pcg-test/generator.py:116-122 | the blue worker and then the red one are written on floor cells, each moving one count from the floor to its glyph |
| SokobanGenerators.TalliedIsGenerated | sokoban-pcg-test/generator.py:81-124 | a level whose tally holds n boxes, a dock per loose box and one worker of each colour over walls with enough floor is a generated level |
| SokobanGenerators.Generator.Generate | sokoban-pcg-test/generator.py:81-124 | the level is a valid tiling overwritten on floor cells only with n boxes, a dock per loose box and one worker of each colour; with no fragments to place the source loops forever |
| SokobanGenerators.ExtendRowPlaced | sokoban-pcg-test/generator.py:176-180 | appending a fitting library fragment extends a placed row |
| SokobanGenerators.AppendRowPlaced | sokoban-pcg-test/generator.py:135-180 | appending a complete placed row keeps all earlier rows placed |
| SokobanGenerators.Place | sokoban-pcg-test/generator.py:107-122 | writing a glyph over a floor cell changes that cell only and keeps the level an overlay of the walls |
| SokobanGenerators.StartTally | sokoban-pcg-test/generator.py:90-95 | walls of one-character cells start every count at zero |
| SokobanGenerators.PlaceKeepsTally | sokoban-pcg-test/generator.py:107-122 | writing a placed glyph over a floor cell moves one count from the floor to that glyph |
| SokobanStateSpaces.PossibleMoves | sokoban-pcg-test/state_space.py:14-26 | the move table has 16 entries, each in one of the four directions |
| SokobanStateSpaces.PossibleMovesEnumerate | sokoban-pcg-test/state_space.py:14-26 | every colour, direction and pull flag appears in the table, and no entry appears twice |
| SokobanStateSpaces.DirectionIndex | sokoban-pcg-test/state_space.py:14 | the position of a direction in possible_directions, so the list holds it there |
| SokobanStateSpaces.TablePosition | sokoban-pcg-test/state_space.py:16-26 | every entry of the move table is found again at its own position from its colour, direction and pull flag |
| SokobanStateSpaces.InTableIsPossible | sokoban-pcg-test/state_space.py:14-26 | a move is in the table iff its direction is one of the four |
| SokobanStateSpaces.LabelsIdentifyMoves | sokoban-pcg-test/state_space.py:7-12 | distinct table moves get distinct edge labels (see also lines 118-119) |
| SokobanStateSpaces.LabelInjective | sokoban-pcg-test/state_space.py:118-119 | two different moves in the four directions never share an edge label |
| SokobanStateSpaces.IsLegalMove | sokoban-pcg-test/state_space.py:29-36 | a colour without a worker raises KeyError; a pull is legal iff can_pull says so |
| SokobanStateSpaces.IsLegalMoveMatchesGame | sokoban-pcg-test/state_space.py:29-36 | without pulling, the explorer's legality test equals game.is_legal_move (see also sokoban-pcg-test/sokoban.py:284-289) |
| SokobanStateSpaces.MakeMove | sokoban-pcg-test/state_space.py:40-52 | a successor differs from the board only in entity positions; a colour without a worker raises KeyError |
| SokobanStateSpaces.MakeMoveIsGameMove | sokoban-pcg-test/state_space.py:40-52 | deciding the step on the original and applying it to the copy gives exactly game.move's board (see also sokoban-pcg-test/sokoban.py:291-297) |
| SokobanStateSpaces.TidyMakeMove | sokoban-pcg-test/state_space.py:29-52 | on a well-formed board with the colour's worker, neither the legality test nor the move raises, and the successor is well formed |
| SokobanStateSpaces.Transition | sokoban-pcg-test/state_space.py:97-98 | a table move has no successor iff it is illegal; a successor is make_move's board and keeps the worker table |
| SokobanStateSpaces.TidyTransition | sokoban-pcg-test/state_space.py:97-98 | on a well-formed board every move of a present worker is answered without raising, and a successor is well formed |
| SokobanStateSpaces.Play | sokoban-pcg-test/state_space.py:96-98 | playing no move leaves the board |
| SokobanStateSpaces.PlayAppend | sokoban-pcg-test/state_space.py:96-98 | playing one more move continues from the board reached |
| SokobanStateSpaces.ReachesStep | sokoban-pcg-test/state_space.py:94-103 | what a reachable board leads to is reachable |
| SokobanStateSpaces.DiscoveredReaches | sokoban-pcg-test/state_space.py:94-103 | following parents back shows every discovered node reachable from the first |
| SokobanStateSpaces.FindNode | sokoban-pcg-test/state_space.py:101 | the membership test finds a node that counts as the same board, and fails iff there is none |
| SokobanStateSpaces.Range | sokoban-pcg-test/state_space.py:103 | the queue suffix of new nodes lists their indices in order |
| SokobanStateSpaces.RangeJoin | sokoban-pcg-test/state_space.py:103 | consecutive runs of appended nodes join |
| SokobanStateSpaces.RangeTail | sokoban-pcg-test/state_space.py:95 | popping the head of the queue leaves the rest of the range |
| SokobanStateSpaces.RepresentedGrows | sokoban-pcg-test/state_space.py:101-102 | a board in the graph stays in it as nodes are added |
| SokobanStateSpaces.ExpandedGrows | sokoban-pcg-test/state_space.py:96-111 | moves already followed from a node stay followed as nodes are added |
| SokobanStateSpaces.ClosedGrows | sokoban-pcg-test/state_space.py:94-111 | nodes whose successors are all in the graph stay so as nodes are added |
| SokobanStateSpaces.EdgeGrows | sokoban-pcg-test/state_space.py:111 | an edge that records a move stays valid as nodes are added |
| SokobanStateSpaces.LabelledGrows | sokoban-pcg-test/state_space.py:111 | every edge still records a table move as nodes are added |
| SokobanStateSpaces.ClosedHoldsReachable | sokoban-pcg-test/state_space.py:91-111 | in a closed graph, with an equality that only identifies equal boards, every board reachable from a node is a node |
| SokobanStateSpaces.UnsolvedHasNoOtherGoal | sokoban-pcg-test/state_space.py:91-111 | a closed exploration that noticed no goal among the successors proves that no reachable board but the initial one is completed |
| SokobanStateSpaces.Record | sokoban-pcg-test/state_space.py:121-123 | recording an edge never creates a pair of opposite edges |
| SokobanStateSpaces.Insert | sokoban-pcg-test/state_space.py:101-102 | the nodes only grow, and afterwards some node holds the successor or one counting as the same |
| SokobanStateSpaces.AppendKeepsShape | sokoban-pcg-test/state_space.py:101-102 | a new node found by a table move keeps every node found from an earlier one, with correct goal flags |
| SokobanStateSpaces.InsertKeepsGoalNoted | sokoban-pcg-test/state_space.py:102-107 | adding nodes keeps what was noticed about goals when new goal nodes were noticed |
| SokobanStateSpaces.RecordKeepsLabelled | sokoban-pcg-test/state_space.py:111-123 | recording a table move's edge toward the node holding its successor keeps every edge labelled by a real move |
| SokobanStateSpaces.StateSpace.constructor | sokoban-pcg-test/state_space.py:59-67 | the graph starts with the initial node, flagged initial and with the goal test of its board, no edges and solvable unset |
| SokobanStateSpaces.StateSpace.AddMove | sokoban-pcg-test/state_space.py:114-123 | adds the labelled edge current -> target unless the reverse edge exists |
| SokobanStateSpaces.StateSpace.AddNode | sokoban-pcg-test/state_space.py:101-103 | appends a node that is not initial, flagged by the goal test, found from the current node |
| SokobanStateSpaces.StateSpace.NoteGoal | sokoban-pcg-test/state_space.py:105-107 | a completed successor makes the space solvable and becomes the goal |
| SokobanStateSpaces.StateSpace.Enter | sokoban-pcg-test/state_space.py:100-109 | a successor not yet in the graph becomes a node and joins the queue; a completed one sets solvable and goal and empties the queue |
| SokobanStateSpaces.StateSpace.Visit | sokoban-pcg-test/state_space.py:100-111 | a successor enters the graph, then the edge to the node holding it is recorded |
| SokobanStateSpaces.StateSpace.TryMove | sokoban-pcg-test/state_space.py:97-111 | an illegal move changes nothing, a legal one visits its successor, a raising query is returned as the error; on success the move is followed |
| SokobanStateSpaces.StateSpace.ExpandStep | sokoban-pcg-test/state_space.py:96-111 | after move k, the first k + 1 table moves of the node are followed, and the queue holds the new nodes unless a goal emptied it |
| SokobanStateSpaces.StateSpace.Expand | sokoban-pcg-test/state_space.py:96-111 | the inner loop follows all 16 table moves from the dequeued node, appending the new nodes to the queue |
| SokobanStateSpaces.StateSpace.ExpandHead | sokoban-pcg-test/state_space.py:94-111 | one round dequeues the head and expands it; before a goal the queue stays exactly the unexpanded nodes |
| SokobanStateSpaces.StateSpace.Traverse | sokoban-pcg-test/state_space.py:91-111 | a breadth-first run that empties the queue without a goal leaves every node expanded, so the graph is closed |
| SokobanStateSpaces.StateSpace.NodesAreReachable | sokoban-pcg-test/state_space.py:91-111 | every node's board is reachable from the initial board |
| SokobanStateSpaces.StateSpace.ShortestPath | sokoban-pcg-test/state_space.py:70-72 | fails with AssertionError exactly when the level is unsolvable; otherwise, as written, the length query targets end, which is never set, so it asks for every node |
| SokobanStateSpaces.StateSpace.ShortestPathIntended | sokoban-pcg-test/state_space.py:70-72 | fails with AssertionError exactly when the level is unsolvable; otherwise, with the goal as target, the query is from the initial board to a completed board reachable from it (see also lines 105-107) |
| SokobanStateSpaces.Explore | sokoban-pcg-test/state_space.py:59-68 | only a finished exploration yields the graph; a level without a red worker raises KeyError; a finished one without a goal proves no other reachable board completed |

## Left out

- Display, input and file I/O are not modelled: pygame drawing and key handling in `sokoban.py`, `print_matrix`, `print_game`, and the networkx drawing in `draw_graph` with its separate process.
- `game.load_file` is not modelled (it reads a level file and exits the process on errors). A level reaches the model only through the generated-level path of the constructor, as rows of glyphs.
- The generator's fragment file is given as its list of lines, so `open` is not modelled.
- `print(result)` in `generate` is not modelled.
- `random()` is not modelled as a random source. It is the generator's finite sequence `draws` of reals in [0, 1). When the sequence runs out, the result is `OutOfDraws`, standing for a retry loop of the source that never ends.
- `game.get_matrix`, `game.get_content` and `game.is_completed` only call `Map.render` / `Map.is_completed`, which `SokobanMaps.Map.Render` and `SokobanMaps.Map.IsCompleted` model.
- `Map.width` and `Map.height` are the cursor fields read by `SokobanBoards.Width` / `Height`. They have no contract of their own. `game.load_size` only scales them to pixels for the window.
- `Map.add_floor` and the other `add_*` methods require a row to exist. The source would raise an IndexError when called before the first `next_row`, and the parser never does that.
- SokobanBoards.IsCompletedIff: assumes every box lies on the terrain. Outside it, the source raises IndexError, and `IsCompletedFrom` says that this is the only failure.
- Node identity is a parameter. `Map` defines no equality, so whether a successor is "already in the graph" is the parameter `same` of `StateSpace`; object identity corresponds to a `same` that is always false. Termination is bounded by `fuel`: each dequeued state costs one unit, and a run that exhausts it ends in `FuelSpent`.
- SokobanStateSpaces.StateSpace.Traverse: only its `Finished` outcome carries the closed-graph guarantee. Runs cut short by fuel promise only the invariants.
- The move rule is a parameter. `StateSpace` takes it as `next` (`Transition` in `Explore`), so the graph facts hold for any rule.
- `shortest_path_length` of networkx is not computed. `SokobanStateSpaces.StateSpace.ShortestPath` returns the query it would be asked: source and target.
- The method `StateSpace.solvable` is not modelled, because the instance field set in `__init__` shadows it. Only the field is modelled.
- `is_completed` is evaluated twice on each successor in `traverse_from_state`, and the model evaluates it once. Both calls read the same board.
- A worker table entry that names no worker never comes out of the parser. `Transition` treats it like a missing worker (KeyError).
- SokobanGenerators.Generator.GenerateWalls: requires complete fragments (three rows of three cells). An irregular fragment file would make the tiling raise, and that raise is not modelled. `LoadedFragments` states when a file yields only complete fragments.
- SokobanGenerators.Generator.FindFloor: says only that `IndexError` means an empty map or an empty row. It does not say that the error is raised at the first such draw.
- DungeonMaps.DungeonMap.StrechConnections: is specified only by the shape of the grid and the passages it may add. The contract does not say which cells get a passage.
- DungeonMaps.DungeonMap.ConnectNew: states the placement of the new room only in the map right after the insertion. The recursive parse that follows may grow the grid and stretch connections, which moves coordinates and can overwrite cells, so the final map is not tied to the door's direction.
- DungeonMaps.DungeonMap.ParseDungeonRec: recurses through the door graph with a fuel bound. A room graph deeper than the fuel ends in `OutOfFuel`. The source recurses without bound, and its termination is not established. It stops only at rooms that `Contains` finds in the grid, and a stretched connection can overwrite a room that lies between its ends (`DungeonMaps.StretchOverwritesRoomBetween`). A door to that room then inserts it a second time and recursion continues from the copy, with no bound visible in the code. The fuel bound stands in for this.
- The dungeon layout (`DungeonLayout.Instance`) is the parameter `layout` of `ParseDungeon`: room name, then door direction, then target room.
- Vector3 positions of FollowPath waypoints are only stored and compared. Movement toward a target is up to the engine, and each `Update` receives "target reached" as an argument.
- `SharedControllerState.OnEnable` / `OnDisable` are not modelled: they only register and unregister Unity callbacks. `RegisterLocalDebugInput` / `UnregisterLocalDebugInput` are not modelled either: they only serve local debug inputs.
- The controllers known to the server are a parameter of the SharedControllerState operations.
- In InfoScreenUi, the prefab instantiation and text fields of `Init` are not modelled, and neither are the button objects beyond their active flags. Only the page count of `Init` is modelled. `InfoScreenLauncher.Close` is a counter of close requests.
- ClientCollections.ClientCollection.GetInputs: returns the inputs of all players in some order. The enumeration order of a C# Dictionary is not modelled.
- SharedResource's finalizer is not modelled, because it runs at garbage collection.
- ObjectPool's parent transform and the prefab's other components are not modelled.
- C# default arguments are mandatory parameters: `numPlayers = 4` of `NextColor` (PlayerColor.cs:62), `activate = true` of `GetInstance` and `deactivate = true` of `ReturnInstance` (ObjectPool.cs:57, 87), and `defaultValue = false` of `HasSwitchBeenActivated` and `HasChestBeenOpened` (DungeonDataKeeper.cs:69, 99). A call that omits one corresponds to a call passing that value.
- Unity lifecycle calls (`Awake`, `Start`, `OnEnable`, `OnDisable`) are methods the caller invokes in order. They are not engine callbacks here.
- A Health component with a custom health saver is not modelled. Only the default saver, which keeps the value in the component, is modelled.
- Integer widths do not matter in the modelled code: C# `int` values stay small there, and Python integers are unbounded.
- Switchables.Switchable.OnEnable: the registered change handlers are a set of switch indices, so an `OnEnable` run twice without an `OnDisable` between them is not modelled as registering a second handler (a C# `+=` would); the engine always pairs the two calls.

## Findings

| source | as written | input that shows it | evidently intended | confidence | as-written member | corrected member |
|---|---|---|---|---|---|---|
| SynergyQuest/Assets/Scripts/Movement/FollowPath.cs:94-119 | with a single waypoint, reaching it sets the index to -1 and then reads `waypoints[-1]` | one waypoint; Awake, then an Update that reaches it | stop moving without reading a waypoint | not executed | FollowPaths.SingleWaypointThrows | FollowPaths.FollowPath.UpdateIntended |
| sokoban-pcg-test/sokoban.py:212-217 | 'S' is parsed as a blue box and the bar glyph as a red box, while `Box.render` (sokoban.py:96) draws blue as the bar glyph and red as 'S' | the one-glyph level `S` renders as the bar glyph | 'S' is a red box and the bar glyph a blue one, so rendering and parsing round-trip | not executed | SokobanGames.FloorBoxColoursSwapped | SokobanGames.IntendedGlyphsRoundTrip |
| sokoban-pcg-test/generator.py:167-170 | the reverse vertical test calls `check_right` of the fragment above | a fragment whose below border asks for a wall, above a fragment of floor | `check_below` of the fragment above | not executed | SokobanGenerators.ReverseVerticalCheckIgnoresBelow | SokobanGenerators.IntendedFitHonoursBelow |
| sokoban-pcg-test/state_space.py:70-72 | `shortest_path` targets `self.end`, which is never assigned (the traversal writes `self.goal`) | any solvable level | the length from the initial board to the goal found | not executed | SokobanStateSpaces.StateSpace.ShortestPath | SokobanStateSpaces.StateSpace.ShortestPathIntended |
