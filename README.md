# Mask puzzle game core, modelled in Dafny

This project models the gameplay core of a small isometric Unity puzzle game.

- The player hops from cell to cell on a grid. Each hop snaps to the grid and follows an eased, arcing path.
- The player wears a stack of masks. The outermost mask decides which doors open.
- Eating every animal of a level moves the game on to the next level.
- Pressure plates switch scene objects on and off.
- Movable blocks slide one cell when pushed.
- Dropped masks lie in the world as items that can be picked up again.

Each MonoBehaviour whose fields change becomes a Dafny `class`:

- Its fields become `var` fields, and its inspector settings become `const` fields.
- Each method states the complete new state in terms of the old one.
- Where the behaviour is a computation, it is specified by a pure function. Lemmas then prove what the game relies on. Examples: the mask stack never holds a duplicate; a move always ends exactly on a grid point; layers of mask visuals follow the stack order.

Pure lookups become functions with contracts. Examples: the mask data table, door matching, and the layer test of a pressure plate.

Values and engine calls are modelled as follows:

- **Positions:** `Vec3` over exact reals.
- **Engine objects** (game objects, prefabs, colliders): abstract numeric identities. A possibly-null reference is an `Option`, or a `bool` saying whether it is set.
- **Answers from the engine** are parameters of the method that needs them:
  - physics ray, box and overlap casts;
  - the input action's value;
  - the sine used for jump arcs;
  - the mask system's answer to an equip request.
- **Events** (`UnityEvent`, C# events) are per-object invocation counters, or returned flags.

Where the two versions of the mask enumeration disagree, the code is followed. `PlayerMask.cs` declares `Default, Mask1..Mask4`. `MaskDataSO.cs` refers to `MaskType.Wolf` as "the mask without a visual". `MaskType` here contains both `Default` and `Wolf`, as distinct values.

`Animal.CanPlayerMoveHere` always answers yes, because the mask test in the source is commented out.

## Model

| member | source | states |
|---|---|---|
| Masks.TypeName | Assets/_Codes/MaskDataSO.cs:54 | every mask type has a non-empty printable name (the fallback display name) |
| Common.AppendFreshKeepsNoDuplicates | Assets/_Codes/player/PlayerMask.cs:47-49 | appending a mask that is not yet in the list keeps it duplicate-free |
| Geometry.Clamp01 | Assets/_Codes/player/PlayerMovement.cs:221 | the result lies in [0,1], equals the input inside [0,1], and is 1 exactly when the input is at least 1 |
| Geometry.MoveProgress | Assets/_Codes/player/PlayerMovement.cs:221 | the progress of a timed move lies in [0,1]; with a positive duration it is timer/duration while the timer is within the duration; with a zero duration the division is infinite and clamps to 1 once any time has passed; with a negative duration it stays 0 (the same clamp as Assets/_Codes/player/MovableBlock.cs line 133) |
| Geometry.MoveCompletesAtDuration | Assets/_Codes/player/PlayerMovement.cs:220-238 | a move with a positive duration completes exactly when its timer reaches the duration; a zero duration completes on the first frame that takes any time; a negative duration never completes |
| Geometry.EaseInOutCubic | Assets/_Codes/player/PlayerMovement.cs:241-244 | the ease curve starts at 0, passes 1/2 at the midpoint, ends at 1, and keeps [0,1] inside [0,1] (the same curve as Assets/_Codes/player/MovableBlock.cs lines 166-169) |
| Geometry.Min | Assets/_Codes/MaskVisualController.cs:178 | the result is one of the two inputs and is at most both |
| Geometry.Round | Assets/_Codes/player/PlayerMovement.cs:212-214 | `Mathf.Round` returns an integer within 1/2 of its input, and the even integer at a tie |
| Geometry.AlignToGrid | Assets/_Codes/player/PlayerMovement.cs:212-214 | `Mathf.Round(v / g) * g` is a multiple of the grid step within half a step of v, for a step of either sign |
| Geometry.AlignToGridIsNearestLatticePoint | Assets/_Codes/player/PlayerMovement.cs:210-215 | `Round(v/g)*g` is a multiple of g and lies at most half of g's magnitude from v, for every non-zero g |
| Geometry.AlignToGridFixesLatticePoints | Assets/_Codes/player/MovableBlock.cs:109-114 | aligning a point that is already k grid steps from the origin leaves it unchanged |
| Geometry.AlignedTarget | Assets/_Codes/player/MovableBlock.cs:106-114 | a grid step keeps the start height |
| Geometry.AlignedTargetOnGrid | Assets/_Codes/player/PlayerMovement.cs:207-215 | every aligned target lies on the grid in x and z, within half a cell of start + direction on each axis |
| PlayerMaskModel.DedupeElements | Assets/_Codes/player/PlayerMask.cs:44-51 | the initialisation loop keeps exactly the masks of the initial list |
| PlayerMaskModel.DedupeNoDuplicates | Assets/_Codes/player/PlayerMask.cs:44-51 | the initialisation loop never adds a mask twice |
| PlayerMaskModel.DedupeKeepsFirstOccurrenceOrder | Assets/_Codes/player/PlayerMask.cs:44-51 | the built stack lists the masks in the order of their first occurrence in the initial list |
| PlayerMaskModel.InitialStackIsValid | Assets/_Codes/player/PlayerMask.cs:40-58 | initialisation yields a non-empty duplicate-free stack; an empty initial list gives exactly `[Default]`, otherwise the deduplicated list |
| PlayerMaskModel.PushedKeepsInvariant | Assets/_Codes/player/PlayerMask.cs:65-80 | adding keeps the stack non-empty and duplicate-free; a new mask becomes the last element and the count grows by one; an equipped mask changes nothing |
| PlayerMaskModel.PoppedKeepsInvariant | Assets/_Codes/player/PlayerMask.cs:85-105 | removing keeps the invariant, drops only the last element, and never removes the last remaining mask |
| PlayerMaskModel.AddThenRemoveRestores | Assets/_Codes/player/PlayerMask.cs:65-100 | adding an absent mask and then removing the outer mask restores the stack |
| PlayerMaskModel.PlayerMask.constructor | Assets/_Codes/player/PlayerMask.cs:20-33 | before `Awake` the stack is empty, the top mask is Default and the count is 0 |
| PlayerMaskModel.PlayerMask.Awake | Assets/_Codes/player/PlayerMask.cs:35-38 | after `Awake` the object invariant holds, the stack is the initial stack, and one update event fired |
| PlayerMaskModel.PlayerMask.InitializeMaskStack | Assets/_Codes/player/PlayerMask.cs:40-61 | the loop builds the deduplicated initial list, with a fallback of `[Default]`; the top mask and the count mirror the stack; one update event fires |
| PlayerMaskModel.PlayerMask.AddMask | Assets/_Codes/player/PlayerMask.cs:65-80 | returns true iff the mask was absent; the stack becomes `Pushed(old, m)`; the event fires exactly on success |
| PlayerMaskModel.PlayerMask.RemoveOuterMask | Assets/_Codes/player/PlayerMask.cs:85-100 | returns true iff more than one mask was equipped; the stack becomes `Popped(old)`; the event fires exactly on success |
| PlayerMaskModel.PlayerMask.CanRemoveMask | Assets/_Codes/player/PlayerMask.cs:102-105 | true exactly when removing the outer mask would change the stack, and then removal takes off one mask |
| PlayerMaskModel.PlayerMask.UpdateDebugInfo | Assets/_Codes/player/PlayerMask.cs:186-198 | the top mask is the last element (Default for an empty stack), and the count is the length |
| PlayerMaskModel.PlayerMask.GetCurrentMask | Assets/_Codes/player/PlayerMask.cs:166-169 | on a valid component, the current mask is the outermost one |
| PlayerMaskModel.PlayerMask.HasMask | Assets/_Codes/player/PlayerMask.cs:171-174 | true iff some stack position holds the mask |
| PlayerMaskModel.PlayerMask.GetMaskCount | Assets/_Codes/player/PlayerMask.cs:176-179 | the count is the stack length, and at least 1 on a valid component |
| PlayerMaskModel.PlayerMask.GetMaskStack | Assets/_Codes/player/PlayerMask.cs:181-184 | returns a copy equal to the stack |
| PlayerMaskModel.PlayerMask.DebugRemoveSelectedMask | Assets/_Codes/player/PlayerMask.cs:215-229 | removes the outer mask only if it is the selected mask and another mask remains, and the update event fires exactly then; otherwise stack and events are unchanged |
| PlayerMaskModel.PlayerMask.DebugAddSelectedMask | Assets/_Codes/player/PlayerMask.cs:208-211 | behaves as `AddMask` of the selected mask: the stack becomes `Pushed`, and the update event fires iff the mask was absent |
| MaskData.FirstDefinition | Assets/_Codes/MaskDataSO.cs:17-23 | the loop's hit is the first definition of the type; no hit means no definition has that type |
| MaskData.FirstDefinitionUnique | Assets/_Codes/MaskDataSO.cs:17-23 | a type has at most one first definition |
| MaskData.GetPrefab | Assets/_Codes/MaskDataSO.cs:11-26 | null for Wolf; otherwise the first matching definition's prefab; null when no definition matches |
| MaskData.GetMaskItem | Assets/_Codes/MaskDataSO.cs:28-43 | null for Wolf; otherwise the first matching definition's item; null when no definition matches |
| MaskData.GetName | Assets/_Codes/MaskDataSO.cs:45-55 | the first matching definition's display name, otherwise the enum name; Wolf gets no special case |
| MaskData.ShouldHaveVisual | Assets/_Codes/MaskDataSO.cs:63-66 | true iff the type is not Wolf and its first definition has a prefab |
| MaskData.MatchesIn | Assets/_Codes/MaskDataSO.cs:72-80 | the loop finds a match iff some row is keyed by `current` and lists the candidate |
| MaskData.MaskMatch | Assets/_Codes/MaskDataSO.cs:70-81 | true iff some table row keyed by `current` lists the candidate |
| MaskData.MatchesInConcat | Assets/_Codes/MaskDataSO.cs:72-80 | rows with the same key are OR-combined: splitting the table splits the answer into a disjunction |
| MaskData.NoRowNoMatch | Assets/_Codes/MaskDataSO.cs:70-81 | with no row keyed by `current`, nothing matches |
| MaskDoor.MatchMask | Assets/_Codes/player/MaskDoor.cs:35-38 | the door's own mask is the table key and the mover's mask is the candidate |
| MaskDoor.CanPlayerMoveHere | Assets/_Codes/player/MaskDoor.cs:23-33 | allows iff the masks match; the unlock event fires exactly when it allows |
| MaskDoor.AnswerDependsOnlyOnMask | Assets/_Codes/player/MaskDoor.cs:23-33 | two requests with the same mask get the same answer, whatever their direction or positions |
| MaskDoor.WolfDoorScenario | Assets/_Codes/player/MaskDoor.cs:23-38 | a Wolf-keyed door whose only row lists Mask1 admits Mask1 (and fires the unlock event) and refuses Mask2 (and fires nothing) |
| ImmovableBlock.CanPlayerMoveHere | Assets/_Codes/player/ImmovableBlock.cs:5-9 | always refuses |
| AnimalModel.Animal.constructor | Assets/_Codes/Animal.cs:11-13 | an animal starts alive, with no events fired and no counter attached |
| AnimalModel.Animal.Start | Assets/_Codes/Animal.cs:15-19 | takes the counter and registers exactly one animal with it; nothing else changes |
| AnimalModel.Animal.CanPlayerMoveHere | Assets/_Codes/Animal.cs:20-26 | always allows |
| AnimalModel.Animal.OnTriggerEnter | Assets/_Codes/Animal.cs:27-47 | see below this table |
| SheepCounterModel.FireTrace | Assets/_Codes/SheepCounter.cs:20-27 | lists, call by call, whether `OnAllAnimalsEaten` fires over k eats (one entry per call) |
| SheepCounterModel.FireTraceFromZero | Assets/_Codes/SheepCounter.cs:20-32 | starting from zero eaten with n animals registered, the i-th eat fires iff i+1 ≥ n (first on the n-th eat, then on every later one) |
| SheepCounterModel.SheepCounter.constructor | Assets/_Codes/SheepCounter.cs:10-13 | both counts start at zero |
| SheepCounterModel.SheepCounter.EatAnimal | Assets/_Codes/SheepCounter.cs:20-27 | the eaten count grows by one; the event fires iff eaten ≥ total |
| SheepCounterModel.SheepCounter.RegisterAnimal | Assets/_Codes/SheepCounter.cs:29-32 | the total grows by one; nothing else changes |
| LevelManagerModel.CsRem | Assets/_Codes/LevelManager.cs:27 | C#'s truncating `%`: the remainder has the dividend's sign, is smaller than the divisor in magnitude, and differs from the dividend by a multiple of the divisor, which together fix it for every operand pair |
| LevelManagerModel.LevelManager.constructor | Assets/_Codes/LevelManager.cs:12-13 | no scenes yet, index 0, nothing scheduled |
| LevelManagerModel.LevelManager.Awake | Assets/_Codes/LevelManager.cs:15-22 | fixes six scenes and starts at the active build index |
| LevelManagerModel.LevelManager.OnAllAnimalsEaten | Assets/_Codes/LevelManager.cs:24-30 | the index becomes (old+1) mod total with C# semantics, stays within range for a non-negative index, and that index is scheduled for loading |
| LevelManagerModel.LevelManager.GotfuckedUp | Assets/_Codes/LevelManager.cs:42-45 | schedules the active scene again; the index is unchanged |
| LevelManagerModel.SceneIndexWraps | Assets/_Codes/LevelManager.cs:20-30 | for any number of scenes, an in-range index advances to its successor, except that the last scene wraps to scene 0 |
| SimpleActivateDeactivateModel.SetAllAt | Assets/_Codes/SimpleActivateDeactivate.cs:15-19 | a set-active loop sets every listed object; null entries and unlisted objects are untouched |
| SimpleActivateDeactivateModel.ActivationEffect | Assets/_Codes/SimpleActivateDeactivate.cs:12-27 | after activation, deactivate-list objects are off (they win when listed twice), other activate-list objects are on, and the rest are untouched |
| SimpleActivateDeactivateModel.DeactivationEffect | Assets/_Codes/SimpleActivateDeactivate.cs:29-45 | the reverse: activate-list objects are off, deactivate-list objects are on (they win), and the rest are untouched |
| SimpleActivateDeactivateModel.SetEach | Assets/_Codes/SimpleActivateDeactivate.cs:15-19 | the loop leaves the scene equal to `SetAll` of the list |
| SimpleActivateDeactivateModel.SimpleActivateDeactivate.constructor | Assets/_Codes/SimpleActivateDeactivate.cs:5-10 | holds the two lists and the exit setting |
| SimpleActivateDeactivateModel.SimpleActivateDeactivate.OnTriggerActivated | Assets/_Codes/SimpleActivateDeactivate.cs:12-27 | the scene becomes `AfterActivation` of the old scene |
| SimpleActivateDeactivateModel.SimpleActivateDeactivate.OnTriggerDeactivated | Assets/_Codes/SimpleActivateDeactivate.cs:29-45 | without deactivate-on-exit the scene is unchanged; otherwise it becomes `AfterDeactivation` |
| TriggerModel.IsLayerInMask | Assets/_Codes/Trigger.cs:114-117 | true iff the layer's bit (shift count mod 32) is set in the mask |
| TriggerModel.EverythingAcceptsAllLayers | Assets/_Codes/Trigger.cs:18 | the default mask `~0` accepts every layer |
| TriggerModel.RemoveFirstSpec | Assets/_Codes/Trigger.cs:75 | on a duplicate-free list, `Remove` keeps exactly the other colliders, stays duplicate-free, and shrinks by one iff the collider was there |
| TriggerModel.Trigger.constructor | Assets/_Codes/Trigger.cs:16-25 | a plate starts released with no colliders |
| TriggerModel.Trigger.OnTriggerEnter | Assets/_Codes/Trigger.cs:50-69 | see below this table |
| TriggerModel.Trigger.OnTriggerExit | Assets/_Codes/Trigger.cs:71-93 | see below this table |
| TriggerModel.Trigger.ActivateTrigger | Assets/_Codes/Trigger.cs:94-103 | presses the plate and marks a one-time trigger as used; the event fires iff the plate was not pressed |
| TriggerModel.Trigger.DeactivateTrigger | Assets/_Codes/Trigger.cs:104-112 | releases the plate; the event fires iff it was pressed |
| TriggerModel.Trigger.ResetTrigger | Assets/_Codes/Trigger.cs:119-128 | re-arms a one-time trigger (released, unused, no colliders); a repeating one is unchanged; no event fires |
| TriggerModel.Trigger.ActivateFromExternal | Assets/_Codes/Trigger.cs:131-135 | presses unless the trigger is a spent one-time trigger; the event fires iff the plate was released and not spent |
| TriggerModel.Trigger.DeactivateFromExternal | Assets/_Codes/Trigger.cs:138-142 | releases a repeating trigger (the event fires iff it was pressed); a one-time trigger ignores the call |
| MovableBlockModel.MovableBlock.constructor | Assets/_Codes/player/MovableBlock.cs:6-45 | a block starts idle at its position, with its visual at rest; any duration and any non-zero grid size are accepted |
| MovableBlockModel.MovableBlock.CheckCollisionAtPosition | Assets/_Codes/player/MovableBlock.cs:82-97 | without a collider the next cell is never occupied; with one it is occupied iff the raycast hits |
| MovableBlockModel.MovableBlock.CanBlockMoveTo | Assets/_Codes/player/MovableBlock.cs:65-80 | a block without a collider may always move; with one it may move iff the raycast finds nothing |
| MovableBlockModel.MovableBlock.CanPlayerMoveHere | Assets/_Codes/player/MovableBlock.cs:47-97 | see below this table |
| MovableBlockModel.MovableBlock.StartBlockMovement | Assets/_Codes/player/MovableBlock.cs:102-120 | an idle block starts a fresh move from its position; a moving block is left alone; the target is always on the grid |
| MovableBlockModel.MovableBlock.Update | Assets/_Codes/player/MovableBlock.cs:122-128 | an idle block is unchanged; a moving one keeps its start and its planned target and takes exactly one step of `UpdateBlockMovement`, so it stops on the target `StartBlockMovement` chose |
| MovableBlockModel.MovableBlock.UpdateBlockMovement | Assets/_Codes/player/MovableBlock.cs:130-159 | before full progress the block follows the eased path with its visual lifted by the arc; at full progress it stops exactly on the target with the visual at rest |
| MovableBlockModel.PushAlongZScenario | Assets/_Codes/player/MovableBlock.cs:106-114 | the origin pushed one cell along +z with grid size 1 targets (0, 0, 1) exactly |
| PlayerMovementModel.ChooseHeading | Assets/_Codes/player/PlayerMovement.cs:136-159 | the dominant axis picks the direction, a tie goes to the vertical axis, and there is no direction iff the input is zero |
| PlayerMovementModel.PastDeadzoneHasHeading | Assets/_Codes/player/PlayerMovement.cs:109-159 | input past the 0.1 dead zone always names a direction |
| PlayerMovementModel.CanMoveToPosition | Assets/_Codes/player/PlayerMovement.cs:171-200 | an obstacle hit blocks the move whatever the ground; otherwise the move is allowed iff ground is found under the target |
| PlayerMovementModel.DiagonalGoesForward | Assets/_Codes/player/PlayerMovement.cs:136-159 | an exact diagonal counts as vertical: up-right moves forward and down-left moves back |
| PlayerMovementModel.ScaleNonZero | Assets/_Codes/player/PlayerMovement.cs:162-165 | a non-zero direction scaled by the grid size is zero exactly when the grid size is zero |
| PlayerMovementModel.PlayerMovement.constructor | Assets/_Codes/player/PlayerMovement.cs:7-33 | the player starts idle, with no input pending; any grid size and duration are accepted |
| PlayerMovementModel.PlayerMovement.DirectionVector | Assets/_Codes/player/PlayerMovement.cs:136-162 | the step is zero iff no direction was chosen or the grid size is zero |
| PlayerMovementModel.PlayerMovement.Update | Assets/_Codes/player/PlayerMovement.cs:101-127 | see below this table |
| PlayerMovementModel.PlayerMovement.ProcessMovementInput | Assets/_Codes/player/PlayerMovement.cs:129-169 | a move starts iff the input names a direction, the grid size is non-zero, and the target is free with ground under it; otherwise the movement state is unchanged |
| PlayerMovementModel.PlayerMovement.StartMovement | Assets/_Codes/player/PlayerMovement.cs:202-216 | starts a fresh move from the current position to a grid-aligned target at the same height |
| PlayerMovementModel.PlayerMovement.UpdateMovement | Assets/_Codes/player/PlayerMovement.cs:218-239 | before full progress the player is on the eased path, lifted by the arc; at full progress it stops exactly on the target |
| PlayerMovementModel.PlayerMovement.Move | Assets/_Codes/player/PlayerMovement.cs:247-254 | while idle, queues the given input; while moving, it is ignored |
| MaskVisualControllerModel.Retained | Assets/_Codes/MaskVisualController.cs:123-142 | the visuals that survive the removal pass are exactly those of non-Default masks still on the stack, with the same objects |
| MaskVisualControllerModel.CountGets | Assets/_Codes/MaskVisualController.cs:158-197 | the number of layers handed out never exceeds the stack length |
| MaskVisualControllerModel.CountGetsMonotone | Assets/_Codes/MaskVisualController.cs:158-197 | a longer prefix never hands out fewer layers; a visual-bearing mask between the two prefixes hands out one more |
| MaskVisualControllerModel.MaskVisualController.constructor | Assets/_Codes/MaskVisualController.cs:16-54 | the controller starts with no visuals, an empty cache and an empty drawn stack |
| MaskVisualControllerModel.MaskVisualController.Placement | Assets/_Codes/MaskVisualController.cs:172-180 | layer i sits at `positionOffset*i`; its scale is uniform and never exceeds maxScale; it is 1+i·increment while that is within bounds, and exactly maxScale beyond |
| MaskVisualControllerModel.MaskVisualController.PlacementIs | Assets/_Codes/MaskVisualController.cs:172-193 | the layout data computed step by step in the loop is the layer's placement |
| MaskVisualControllerModel.MaskVisualController.CacheOfStep | Assets/_Codes/MaskVisualController.cs:159-197 | one loop iteration either hands the mask the next layer or skips it |
| MaskVisualControllerModel.MaskVisualController.CacheOfKeys | Assets/_Codes/MaskVisualController.cs:157-197 | the cache holds exactly those stack masks that get a visual; Default never does |
| MaskVisualControllerModel.MaskVisualController.CacheOfPlacement | Assets/_Codes/MaskVisualController.cs:157-197 | every cached entry is its own layer's placement, on a layer already handed out |
| MaskVisualControllerModel.MaskVisualController.CacheOfOrder | Assets/_Codes/MaskVisualController.cs:158-197 | on a repeat-free stack, the mask at position i gets layer "number of visual-bearing masks below it": layers 0, 1, 2, … follow the stack, and a mask without a prefab takes no layer |
| MaskVisualControllerModel.MaskVisualController.LayersFollowStackOrder | Assets/_Codes/MaskVisualController.cs:158-197 | a mask higher on the stack gets a strictly higher layer |
| MaskVisualControllerModel.MaskVisualController.Start | Assets/_Codes/MaskVisualController.cs:74-89 | adopts the sibling `PlayerMask` when none is set, then updates as `UpdateVisuals` does |
| MaskVisualControllerModel.MaskVisualController.UpdateVisuals | Assets/_Codes/MaskVisualController.cs:104-200 | see below this table |
| MaskVisualControllerModel.MaskVisualController.RemoveStaleVisuals | Assets/_Codes/MaskVisualController.cs:123-142 | the visuals become exactly `Retained(old, stack)`; the cache only loses entries |
| MaskVisualControllerModel.MaskVisualController.LayoutVisuals | Assets/_Codes/MaskVisualController.cs:154-197 | see below this table |
| MaskVisualControllerModel.MaskVisualController.ActiveStep | Assets/_Codes/MaskVisualController.cs:167-169 | one call to `GetOrCreateMaskVisual` keeps the visual map's invariant, and the mask receives a visual iff `GetsVisual` says so |
| MaskVisualControllerModel.MaskVisualController.GetMaskVisualData | Assets/_Codes/MaskVisualController.cs:202-217 | an uncached mask gets zero offset, unit scale and layer 0; a cached one gets its layer's placement; the type always matches the request |
| MaskVisualControllerModel.MaskVisualController.GetOrCreateMaskVisual | Assets/_Codes/MaskVisualController.cs:270-300 | none for Default; the existing visual if there is one; otherwise a fresh visual iff the mask has a prefab, recorded as that type's only visual |
| MaskVisualControllerModel.MaskVisualController.ClearAllVisuals | Assets/_Codes/MaskVisualController.cs:302-315 | visuals, cache and drawn stack all become empty |
| MaskItemModel.MaskItem.constructor | Assets/_Codes/MaskItem.cs:9-52 | an item starts uninitialised, idle, with no equip requested |
| MaskItemModel.MaskItem.Initialize | Assets/_Codes/MaskItem.cs:54-92 | copies type, layer, position and scale from the visual data; applies them to the visual child (root scale 1) when there is one; sets initialised; fills in the player-mask and collider references only if they are missing |
| MaskItemModel.MaskItem.StartDropAnimation | Assets/_Codes/MaskItem.cs:99-110 | with a visual child the drop tween starts and the item is animating; otherwise nothing changes |
| MaskItemModel.MaskItem.OnDropTweenComplete | Assets/_Codes/MaskItem.cs:106-109 | the drop completes and the item stops animating |
| MaskItemModel.MaskItem.CheckForPlayerOverlap | Assets/_Codes/MaskItem.cs:119-152 | with a collider, equipping is allowed iff the player is not overlapping; without one, nothing changes |
| MaskItemModel.MaskItem.ReequipMask | Assets/_Codes/MaskItem.cs:154-184 | see below this table |
| MaskItemModel.MaskItem.EquipAnimation | Assets/_Codes/MaskItem.cs:186-227 | sets animating; with a visual child the equip tween is pending; without one the equip is requested once, and success destroys the item while failure ends the animation |
| MaskItemModel.MaskItem.OnEquipTweenComplete | Assets/_Codes/MaskItem.cs:195-208 | the equip is requested once; success destroys the item, failure clears animating |
| MaskItemModel.MaskItem.OnTriggerEnter | Assets/_Codes/MaskItem.cs:229-240 | ignored when not re-equippable, while animating, or for a non-player collider; otherwise behaves as `ReequipMask` |
| MaskItemModel.MaskItem.OnTriggerExit | Assets/_Codes/MaskItem.cs:242-255 | ignored when not re-equippable, while animating, or for a non-player collider; otherwise the overlap is checked again |
| MaskItemModel.MaskItem.CheckAfterExit | Assets/_Codes/MaskItem.cs:257-271 | re-runs the overlap check |
| MaskItemModel.MaskItem.ForceEnableEquip | Assets/_Codes/MaskItem.cs:280-285 | equipping becomes allowed |
| MaskItemModel.MaskItem.ForceDisableEquip | Assets/_Codes/MaskItem.cs:287-292 | equipping becomes forbidden |

Contracts too long for the table:

- `AnimalModel.Animal.OnTriggerEnter`:
  - When a live animal is touched by the player, it dies and `OnEaten` fires once.
  - With a counter attached, the eaten count then grows by one and self-destruction is scheduled. The counter's all-eaten event fires exactly when the new eaten count reaches the registered total. A null counter stops the handler after the event.
  - A dead animal, or a collider other than the player, changes nothing.
  - Whatever happens, the animal is eaten at most once.
- `TriggerModel.Trigger.OnTriggerEnter`:
  - An entry is accepted only if its layer is in the mask, the trigger is not a spent one-time trigger, and the collider is not already tracked.
  - An accepted collider is appended, so no collider is tracked twice.
  - The plate is pressed, and the event fires, only for the first collider on a released plate.
- `TriggerModel.Trigger.OnTriggerExit`:
  - The collider is removed from the list.
  - The plate is released, and the event fires, only when all of these hold: the collider was tracked, the list is now empty, the trigger is repeating, the upward ray finds nothing, and the plate was pressed.
- `MovableBlockModel.MovableBlock.CanPlayerMoveHere`:
  - It allows iff the next cell is free; without a collider it always allows.
  - When it allows and the block is idle, a fresh grid move starts.
  - Otherwise the movement state is unchanged. The block itself does not move during the call.
- `PlayerMovementModel.PlayerMovement.Update`:
  - While moving, the method takes exactly one animation step, and input is not read.
  - While idle, it reads the input if the input action exists. Pending input, or fresh input past the dead zone, is processed once.
  - A move starts and takes its first step in the same frame iff the input names a direction, the grid size is non-zero, and the physics checks pass.
  - While moving, the start and the planned target do not change.
  - Rejected input is dropped, not queued: no input is pending after any frame.
- `MaskVisualControllerModel.MaskVisualController.UpdateVisuals`:
  - With a missing reference, nothing changes.
  - An empty stack, or `[Default]` alone, clears the visuals and the cache, and the drawn stack becomes the stack.
  - Otherwise the visuals are exactly the stack's masks that get one: a surviving visual, or one created from a prefab. Survivors keep their object, new objects are fresh, the cache is the stack's layout `CacheOf`, and the drawn stack is the stack.
- `MaskVisualControllerModel.MaskVisualController.LayoutVisuals`:
  - The cache becomes `CacheOf(stack)`.
  - The visuals become the survivors plus every stack mask that gets one. Ids stay distinct, and new ids are fresh.
- `MaskItemModel.MaskItem.ReequipMask`:
  - It starts, and returns true, iff all four hold: the item is re-equippable, the player mask is set, equipping is allowed, and the item is not animating.
  - A false return changes nothing.
  - After a start the item can start again only if there was no visual child and that immediate equip failed.

## Left out

- Physics is not modelled. Box casts, raycasts and overlap boxes, including `Trigger.checkColliders` and the collider-bounds geometry of `CanMoveToPosition` and `CheckCollisionAtPosition`, are replaced by boolean parameters that give their answer.
- The jump arc `Mathf.Sin(easedT * π)` is a real parameter. Reals have no exact sine.
- `float` is modelled as exact reals and `int` as unbounded integers. Rounding error and 32-bit overflow of the counters and scene index are not captured.
- The isometric axes are constructor constants required to be non-zero. `.normalized` of an already-normalised vector is the identity. Unit length cannot be stated over exact reals, because it involves √2/2.
- Coroutines and DOTween tweens are replaced by explicit steps:
  - The `WaitForSeconds` delays, `dieDelay` and `LoadSceneWithDelay` are recorded as "scheduled" flags.
  - `MaskItem.Start` is split into its first step and the tween callback.
  - `CheckAfterExit` runs its re-check at once instead of one frame later.
- `Instantiate`, `Destroy` and `SceneManager.LoadScene` are not modelled. New engine objects get fresh numeric ids.
- Visual objects destroyed from outside are not tracked. The `kvp.Value != null` and `maskVisual != null` tests on live dictionary entries are therefore always true.
- The visual's sibling index (`SetSiblingIndex`) is not modelled separately. It equals the cached `orderIndex`.
- The count of non-default masks in `UpdateVisuals` is computed by a loop whose result is never used. It is not modelled.
- `UnityEvent` listener wiring is not modelled, and neither is the `OnEnable`/`OnDisable` subscription to `OnMaskAdded`/`OnMaskRemoved`:
  - `OnMaskAdded`/`OnMaskRemoved` do not exist on the `PlayerMask` shown, so each side of the wiring is modelled alone.
  - The same goes for SheepCounter → LevelManager and for Trigger → effect.
  - Also not modelled: `LevelManager.OnDestroy`.
- `PlayerMask.EquipMaskFromItem` does not exist on the `PlayerMask` shown. Its answer is a boolean parameter.
- `MaskDoor.Start` is not modelled. It spawns the gate's item through `MaskDataSO.getGateMaskItem`, which does not exist on the `MaskDataSO` shown, and calls `Instantiate`.
- `MaskVisualController.DropMaskItem` and `TestDropCurrentMask` are not modelled. They only spawn objects.
- Also not modelled:
  - editor and debug code: `OnValidate`, gizmos, logging, `PrintCurrentMask`, `PrintCurrentStack`, `StackDisplay`, `PrintActiveVisuals`, `PrintVisualDataCache`, `PrintItemInfo`, `ResetVisualTransform`, `ManualCheckOverlap`;
  - the one-line getters of `MaskItem` and `Trigger`;
  - the `Trigger` button's smoothing in `Update` and `Start`;
  - the input-system setup (`Awake`, `InitializeInputActions`, `OnEnable`, `OnDisable`), and `PlayerMovement.Start`, which only logs;
  - `SheepCounter.Awake`.
- The global `SheepCounter.instance` is replaced by a counter passed to `Animal.Start`.
- `MovableBlock.Awake` may set `visualTransform` to the block's own transform. The model keeps the block's position and the visual's local position apart, so it does not capture that aliasing.
- A missing `playerCollider` throws in `CanMoveToPosition`. This group of paths, which end in a null-reference exception, is not modelled.
- Also not modelled: `Guard.cs`, `AnimalBehavior.cs`, `Hazard.cs`, `UI.cs`, `TriggerEffect.cs` and the outline shader. They are outside the gameplay core.
- `LevelManagerModel.LevelManager.OnAllAnimalsEaten`: requires `totalScenes > 0`. With 0 scenes C# throws a division by zero, and that can only happen before `Awake` sets six scenes.
- `TriggerModel.Trigger.DeactivateTrigger`: requires a repeating trigger. The source calls it only when `isOneTimeTrigger` is false.
- `PlayerMovementModel.PlayerMovement.UpdateMovement` and `MovableBlockModel.MovableBlock.UpdateBlockMovement`: each requires a move in progress. The source calls them only under `if (isMoving)`.
- `MovableBlockModel.MovableBlock.constructor`: requires a non-zero grid size. With a zero grid size C# aligns the target as `Mathf.Round(x / 0) * 0`, which is NaN. The target is then not a real point, and NaN is not modelled. Any duration is accepted.
- `Geometry.MoveProgress`: a zero duration together with a zero timer gives `0 / 0` in C#, which is NaN. That happens when a frame takes no time at all, and it leaves the mover at a NaN position for that frame. The model takes progress 0 there, which leaves the mover at its start.
- Unity's `Vector3 !=` is approximate (a tolerance of 1e-5). The model compares exactly, so a grid step shorter than the tolerance still counts as a move here.
- `MaskItemModel.MaskItem`: no invariant links the drop tween and the equip tween. In the source, a drop tween that completes while an equip tween is pending clears `isAnimating` too.
