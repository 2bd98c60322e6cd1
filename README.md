# Pedestrians, holes and information: a Dafny model

This project models the simulation core of a small Phaser game.

Pedestrians walk along a road at the bottom of the scene. Every so often a
walker reserves a free hole in the wall above the road. It walks up to the
hole, orders there for a fixed time, walks back down to the road and walks
on; it will not pick the same hole again until a revisit cooldown runs out.

Above the wall, a player steers with the keyboard or follows the mouse.
It collects the information particles it passes, which then orbit it in a
force field.

Under the game sits a small engine layer:
- every node draws an id from a per-class counter;
- a signal registry invokes a listener only when an emitted value changes;
- each game object has a debug label;
- buttons have a long-press timer.

The model also covers an earlier prototype (`index.js`). There a chef picks up
items at supply stations and drops them at a COMBINE station. Every third item
completes a recipe worth 100 points, and a short list of orders is kept.

The model takes the source's own form:
- Objects whose fields the source updates in place are classes: `Hole`,
  `Person`, `Player`, `Information`, `GameScene`, `IdCounter`,
  `SignalRegistry`, `DebugLabel`, `Button` and `Kitchen`.
- Their methods state their whole new state.
- Each per-frame step is also a pure function, for example `Walk`,
  `Approach`, `OrderTick`, `Leave`, `CooldownTick`, `MouseStep`, `KeyStep`,
  `InfoStep`, `HoldStep` and `Interact`. The methods are proved to perform
  exactly those steps.
- The lemmas about those functions carry what the game promises: timers that
  expire on time, bounds kept after every step, speed caps, iff-gated force
  terms, "nothing else changes", and reservations and attachments that stay
  consistent across the scene.

Modules:
- `Geometry`: clamp, sign, the square root supplied by the host, `Dist`, and
  sums of frame times.
- `Constants`: the tuning constants. Their values live in a file that is not
  part of this model.
- `Node`: the engine layer (`src/engine/Node.ts`).
- `Pedestrians`: `Person` and `Hole`.
- `PlayerMotion`: the player's kinematics.
- `InfoForces`: the particle force field.
- `Collecting`: `Player` and `Information`.
- `Scenes`: `GameScene`.
- `Buttons`: `Button`.
- `Cooking`: `index.js`.

## Model

| member | source | states |
|---|---|---|
| Node.IdCounter.constructor | src/engine/Node.ts:12 | a fresh class counter starts at 0 |
| Node.IdCounter.Next | src/engine/Node.ts:17-18 | the new id is the previous counter plus one and becomes the counter, so ids of one class are distinct and strictly increasing |
| Node.Emitted | src/engine/Node.ts:35-42 | after an emit every listener keeps its callback; a listener that fires stores the arguments, the others keep their stored value |
| Node.EmitRepeatIsSilent | src/engine/Node.ts:35-42 | repeating an emit with the same arguments invokes no callback and changes no stored value |
| Node.FiredMembers | src/engine/Node.ts:37-41 | a listener whose stored value is falsy always fires, whatever the arguments; an emit invokes at most one callback per listener |
| Node.SignalRegistry.constructor | src/engine/Node.ts:19 | the signal map starts empty |
| Node.SignalRegistry.AddSignal | src/engine/Node.ts:22-30 | the list for the name is created if missing, and one listener holding the default is appended; every other name and earlier listener is untouched |
| Node.SignalRegistry.EmitSignal | src/engine/Node.ts:32-45 | an unregistered name changes nothing and fires nothing; otherwise the list becomes `Emitted` of the old list and exactly the `Fired` callbacks are invoked, in order |
| Node.EmittedSnoc | src/engine/Node.ts:35-43 | emitting over a list extended by one listener is emitting over the list and then over that listener, which is what the in-place loop relies on |
| Node.EmitStep | src/engine/Node.ts:35-43 | one pass of the emit loop: the next listener is still as registered, and it is updated and reported exactly when it fires |
| Node.FiredSnoc | src/engine/Node.ts:35-43 | the same split for the callbacks invoked |
| Node.DebugLabel.constructor | src/engine/Node.ts:67-80 | a new object is not in debug mode and its label reads `id: <id>` |
| Node.DebugLabel.Log | src/engine/Node.ts:97-113 | the label is replaced by the message only while debug mode is on; debug mode is unchanged |
| Node.DebugLabel.SetDebugVisible | src/engine/Node.ts:115-118 | debug mode becomes the value given and the label is kept |
| Buttons.HoldStep | src/engine/components/Button.ts:77-84 | a held update fires a long-click exactly when timer plus delta reaches the limit; the timer is then 0, otherwise timer plus delta |
| Buttons.HoldRunStaysBelow | src/engine/components/Button.ts:76-85 | with non-negative frame times the timer stays in `[0, limit)`; no long-click fires exactly when the total held time stays below the limit, and the timer is then that total |
| Buttons.HoldRunSplits | src/engine/components/Button.ts:76-85 | two stretches of holding are one stretch: the timer carries over and the long-clicks add up |
| Buttons.Button.constructor | src/engine/components/Button.ts:14-51 | a new button is released, inactive, with no time held; the long-click period is the one given, or 100 when none is given |
| Buttons.Button.SetActive | src/engine/components/Button.ts:22-25 | `isActive` stores exactly the value given |
| Buttons.Button.SetText | src/engine/components/Button.ts:30-33 | `text` stores exactly the value given |
| Buttons.Button.PointerDown | src/engine/components/Button.ts:53-59 | a button with a callback invokes `onClick` if it has one and becomes held; a button with no callback ignores the press |
| Buttons.Button.Release | src/engine/components/Button.ts:61-70 | `pointerup`/`pointerout` release the button only when it has a long-click callback, and never reset the press timer |
| Buttons.Button.Update | src/engine/components/Button.ts:76-85 | released, nothing changes and nothing fires; held, the timer takes one `HoldStep` and `onLongClick` runs exactly when it fires and exists; the timer stays in `[0, limit)` |
| Pedestrians.Hole.constructor | src/game/gameObjects/Hole.ts:10-13 | a new hole has no customer and is available |
| Pedestrians.Hole.GetId | src/game/gameObjects/Hole.ts:28-30 | returns the node id, which is fixed at construction |
| Pedestrians.Hole.StartServing | src/game/gameObjects/Hole.ts:35-38 | the person becomes the customer unconditionally and the hole is no longer available |
| Pedestrians.Hole.StopServing | src/game/gameObjects/Hole.ts:40-43 | the customer is cleared unconditionally and the hole is available |
| Pedestrians.Hole.IsAvailable | src/game/gameObjects/Hole.ts:31-33 | a hole is free exactly when it has no customer; this is the test `tryToOrder` and the scene's `find` apply |
| Pedestrians.Person.constructor | src/game/gameObjects/Person.ts:22-33 | a new person walks at the drawn velocity in 50..150, in the drawn direction, at the drawn `y`, with no target, no remembered hole and no timers running |
| Pedestrians.Person.TryToOrder | src/game/gameObjects/Person.ts:178-188 | when walking, the hole free and not the last visited: target and last visited become the hole, the cooldown is full, the mode is approaching and the hole serves this person, with nothing else changed; otherwise neither object changes |
| Pedestrians.Person.Update | src/game/gameObjects/Person.ts:41-64 | the step of the current mode (`Walk`, `Approach`, `OrderTick`, `Leave`), the hole being released when ordering ends, then one `CooldownTick`; the mode stays or advances one step along walking → approaching → ordering → leaving → walking, and never leaves walking by itself (with the corrected `Toggle` and `Leave`, see Findings) |
| Pedestrians.Person.UpdateWalking | src/game/gameObjects/Person.ts:80-169 | the walking step is exactly `Walk`, and the target, the remembered hole and its timer are untouched (with the corrected `Toggle`, see Findings) |
| Pedestrians.Person.MoveHorizontally | src/game/gameObjects/Person.ts:159-168 | the move along the pavement is exactly `HorizontalStep`: past a pad edge the walker is put on the edge and turned back in; target, remembered hole and timer are untouched. "Turned back in" is the corrected `Toggle`: in the source the heading is a coin flip (see Findings) |
| Pedestrians.Person.ToggleDirection | src/game/gameObjects/Person.ts:171-176 | nothing changes unless the direction differs; then the person takes the direction asked for and a fresh `y` (corrected, see Findings) |
| Pedestrians.Person.UpdateApproaching | src/game/gameObjects/Person.ts:190-216 | with no target nothing changes; otherwise the step is exactly `Approach` toward the target's order point |
| Pedestrians.Person.UpdateOrdering | src/game/gameObjects/Person.ts:218-232 | the timer runs down by `delta`; when it reaches 0 or below the person leaves, its hole is freed and the target cleared; otherwise the hole is untouched |
| Pedestrians.Person.UpdateLeaving | src/game/gameObjects/Person.ts:234-249 | the step is exactly `Leave` toward the road centre, and the target is cleared on arrival (the corrected `Leave`, see Findings) |
| Pedestrians.Person.GetVelocity | src/game/gameObjects/Person.ts:252-254 | returns the person's constant walking speed |
| Pedestrians.RepulsionNeedsCrowding | src/game/gameObjects/Person.ts:111-125 | with no other pedestrian inside its personal space the vertical repulsion is zero |
| Pedestrians.Drift | src/game/gameObjects/Person.ts:128-138 | the drift is the natural one (`velocity * VERTICAL_MOVEMENT_FACTOR * dt`) in size, tripled while overtaking; with a positive natural drift it points down exactly when the person overtakes from the upper half of the road (centre included) or, not overtaking, moves right |
| Pedestrians.VerticalStep | src/game/gameObjects/Person.ts:141-152 | only `y` and the vertical velocity change; on a proper road the new `y` lies on it; a rejected step zeroes the velocity; with the velocity zeroed, `y` is either kept or strictly inside the road |
| Pedestrians.HorizontalStep | src/game/gameObjects/Person.ts:159-168 | past the left padded edge the walker is put on it heading right, past the right edge on it heading left, otherwise it just moves; `x` ends inside the padded width. The headings are those of the corrected `Toggle`: in the source the redraw of `toggleDirection` flips a coin for the heading (see Findings) |
| Pedestrians.Movement | src/game/gameObjects/Person.ts:81-82 | the horizontal step is a tenth of `velocity * dt` when someone is ahead and no overtake is flagged, else all of it |
| Pedestrians.Walk | src/game/gameObjects/Person.ts:80-169 | a walking step never changes the mode (with the corrected `Toggle`, see Findings) |
| Pedestrians.WalkKeepsBounds | src/game/gameObjects/Person.ts:141-168 | after a walking step the walker is still walking, inside the padded scene width, and on the road unless it turned at an edge (with the corrected `Toggle`, see Findings) |
| Pedestrians.ScanAhead | src/game/gameObjects/Person.ts:93-108 | the loop counts exactly the pedestrians ahead and flags an overtake iff one of them is slower |
| Pedestrians.TotalRepulsion | src/game/gameObjects/Person.ts:111-125 | the loop sums exactly `Repulsion`, which is zero when nobody is inside a personal space |
| Pedestrians.Approach | src/game/gameObjects/Person.ts:196-215 | within 2 of the order point below the hole the person snaps onto it and starts ordering with a full timer; farther away it keeps approaching with mode, timer and direction unchanged |
| Pedestrians.ApproachOffset | src/game/gameObjects/Person.ts:198-214 | from 2 or more away, the step scales the offset to the order point by `1 - speed / d`: the person moves along the line to it |
| Pedestrians.ApproachDistance | src/game/gameObjects/Person.ts:198-214 | with `Math.sqrt` a square root, from distance `d` of 2 or more the person ends `abs(d - speed)` from the order point: closer whenever the step is under `2 d`, exactly `speed` closer when the step is at most `d` |
| Pedestrians.ApproachCanOscillate | src/game/gameObjects/Person.ts:202-214 | as written, 2.5 left of the order point with a step of 5 the person lands 2.5 right of it, and the next step brings it back: it never gets within 2 and never starts ordering |
| Pedestrians.OrderTick | src/game/gameObjects/Person.ts:218-221 | the timer drops by `delta` and the mode becomes leaving exactly when it reaches 0 or below; nothing else changes |
| Pedestrians.OrderingEndsOnTime | src/game/gameObjects/Person.ts:218-225 | over non-negative frames, ordering ends iff their total reaches the order time, and until then the timer holds what is left |
| Pedestrians.CooldownTick | src/game/gameObjects/Person.ts:58-64 | while a hole is remembered and its timer is positive the timer runs down; at 0 or below the hole is forgotten and the timer reset to the full cooldown; otherwise nothing changes |
| Pedestrians.CooldownExpires | src/game/gameObjects/Person.ts:58-64 | a remembered hole stays remembered iff less than its timer has elapsed; the timer then holds what is left, and once forgotten it rests at the full cooldown |
| Pedestrians.CooldownForgotten | src/game/gameObjects/Person.ts:58 | a forgotten hole stays forgotten and the timer stays put |
| Pedestrians.Toggle | src/game/gameObjects/Person.ts:171-176 | corrected `toggleDirection`: a no-op when the direction is unchanged, otherwise the new direction and a fresh `y`; the result always heads the way asked |
| Pedestrians.ToggleAsWritten | src/game/gameObjects/Person.ts:171-176 | `toggleDirection` as written: on a change the direction ends as the coin flip of `initializeProperties`, whatever was asked |
| Pedestrians.ToggleAsWrittenCanKeepHeadingOut | src/game/gameObjects/Person.ts:29-33 | a walker turned back at the left edge keeps heading left when the coin flip says so; the corrected toggle heads right |
| Pedestrians.LeaveAsWritten | src/game/gameObjects/Person.ts:239-248 | within 2 of the road centre the person snaps onto it and walks; otherwise it moves `speed` down |
| Pedestrians.LeaveAsWrittenNeverReturns | src/game/gameObjects/Person.ts:242-248 | once 2 or more below the road centre a leaving person never arrives and only moves further down |
| Pedestrians.LeaveAsWrittenOvershoots | src/game/gameObjects/Person.ts:242-248 | from 2.5 above the centre a step of 4.5 lands 2 below it, and the person leaves forever |
| Pedestrians.Leave | src/game/gameObjects/Person.ts:234-249 | corrected leaving: it snaps and walks when within 2 or within this frame's step, otherwise it closes the gap by exactly `speed`; only `y` and the mode change |
| Pedestrians.LeaveArrives | src/game/gameObjects/Person.ts:239-245 | once the steps add up to the distance to the road centre the person is on it and walking |
| PlayerMotion.MovementBounds | src/game/gameObjects/Player.ts:39-46 | one radius in from the left, right and top, one radius above road and wall at the bottom; the rectangle is non-empty iff the scene is wide and tall enough |
| PlayerMotion.CollectionRadius | src/game/gameObjects/Player.ts:107-110 | the pulsing collection radius lies in `[40, 48]` |
| PlayerMotion.TargetAxis | src/game/gameObjects/Player.ts:132-138 | D overrides A and S overrides W; no key gives target 0 |
| PlayerMotion.AxisVelocity | src/game/gameObjects/Player.ts:141-157 | with input the velocity accelerates toward the target and its magnitude is clamped to 300, keeping its sign (unchanged when within the cap); without input it decays by 0.92 and never grows |
| PlayerMotion.AxisBounce | src/game/gameObjects/Player.ts:160-185 | below the low bound the player is put on it with 70% of the speed back inward, above the high bound likewise outward, otherwise it moves; the position ends in bounds and the speed never grows |
| PlayerMotion.Follow | src/game/gameObjects/Player.ts:122-128 | the follow step ends in bounds; inside the bounds it closes a tenth of the gap, leaving 90% of it and lies between start and target |
| Collecting.MouseStep | src/game/gameObjects/Player.ts:114-129 | the velocity is kept; within 1 of the target nothing moves; beyond it the position ends in bounds and closes a tenth of the gap, leaving 90% of it on each axis |
| Collecting.KeyStep | src/game/gameObjects/Player.ts:130-186 | the keyboard step ends in bounds, no axis speed grows past `max(old, 300)`, and an axis with no key never speeds up |
| Collecting.Player.constructor | src/game/gameObjects/Player.ts:33-46 | the player starts at half the width, above road and wall, at rest, holding nothing, with the movement bounds and no mouse target |
| Collecting.Player.PointerMove | src/game/gameObjects/Player.ts:78-84 | the pointer becomes the mouse target and nothing else changes |
| Collecting.Player.GetSpeed | src/game/gameObjects/Player.ts:95-100 | the speed is non-negative and its square is the squared velocity |
| Collecting.Player.Update | src/game/gameObjects/Player.ts:106-214 | the position and velocity are `MouseStep` when a target is set, else `KeyStep`; `attachedInfo` grows by exactly the free particles within the collection radius, in list order; those are attached to this player without moving, and every other particle is unchanged |
| Collecting.Player.Move | src/game/gameObjects/Player.ts:113-186 | the movement half of `update` is exactly `MouseStep` or `KeyStep` |
| Collecting.Player.Collect | src/game/gameObjects/Player.ts:201-213 | the pickup loop appends exactly `Picked` and attaches exactly the particles it reaches |
| Collecting.Player.CollectOne | src/game/gameObjects/Player.ts:202-211 | a free particle within reach is attached to this player, keeps its position and velocity, and is appended to the list; any other particle is unchanged and the list too |
| Collecting.PickedAreFreeAndNear | src/game/gameObjects/Player.ts:202-207 | every collected particle was free and within reach |
| Collecting.PickedStep | src/game/gameObjects/Player.ts:201-213 | the pickup over one more particle collects it exactly when it is free and within reach |
| Collecting.NearFreeArePicked | src/game/gameObjects/Player.ts:202-211 | every free particle within reach is collected |
| Collecting.PickedDistinct | src/game/gameObjects/Player.ts:201-213 | from a list without repeats nothing is collected twice |
| Collecting.Views | src/game/gameObjects/Player.ts:201-204 | one view per particle: whether it is free, and where |
| InfoForces.Inset | src/game/gameObjects/Information.ts:37-41 | the bounds shrink by 6 on every side; the inset lies inside the given bounds |
| Collecting.Information.constructor | src/game/gameObjects/Information.ts:31-46 | a new particle is free and at rest, its bounds are the inset ones, and its position is the given one clamped into them |
| Collecting.Information.AttachTo | src/game/gameObjects/Information.ts:48-51 | the player is recorded and the particle attached; only those two fields may change, so position and velocity are kept |
| Collecting.Information.Update | src/game/gameObjects/Information.ts:53-143 | without a player nothing changes; with one, position and velocity take one `InfoStep` under `Pull`, and player and attachment are kept |
| InfoForces.AttractionMultiplier | src/game/gameObjects/Information.ts:71 | `min(1, d / 60)`: in `[0, 1]`, full from the orbit range on |
| InfoForces.Repulsion | src/game/gameObjects/Information.ts:76-80 | the push from the player is positive exactly inside distance 30, and at most 2000 |
| InfoForces.OrbitMultiplier | src/game/gameObjects/Information.ts:83-89 | the orbit term is positive exactly inside distance 60, and at most 1 |
| InfoForces.PlayerForce | src/game/gameObjects/Information.ts:64-89 | from the orbit range on, the player's force is the pure attraction of 800 toward it |
| InfoForces.PeerRepulsion | src/game/gameObjects/Information.ts:99-101 | a peer pushes exactly when `0 < d < 15`, at most with 1000 |
| InfoForces.PeerForce | src/game/gameObjects/Information.ts:93 | a particle never pushes itself |
| InfoForces.PeerForcesNeedNeighbours | src/game/gameObjects/Information.ts:92-109 | peers that do not push add nothing to the force |
| Collecting.SumPeerForces | src/game/gameObjects/Information.ts:92-109 | the `forEach` sums exactly the peer forces, zero when no peer pushes |
| Collecting.Pull | src/game/gameObjects/Information.ts:61-109 | far from the player, with no peer pushing, the force is the pure attraction toward the player |
| Collecting.TotalForce | src/game/gameObjects/Information.ts:61-109 | the force computed with the loop is exactly `Pull` |
| InfoForces.Integrate | src/game/gameObjects/Information.ts:112-121 | with no force, friction only slows the particle, on each axis |
| InfoForces.CapSpeed | src/game/gameObjects/Information.ts:124-129 | the capped speed never exceeds 300; a velocity within the cap is returned untouched; a faster one is scaled onto the cap exactly, parallel to the old velocity and with the same signs |
| Collecting.InfoStep | src/game/gameObjects/Information.ts:111-137 | after a step the speed is at most 300 and the position lies in the particle's bounds |
| Geometry.Clamp | src/game/gameObjects/Information.ts:136-137 | `max(lo, min(hi, v))`: never below `lo`, inside `[lo, hi]` when that is non-empty, and the identity on values already inside |
| Scenes.HolesSpread | src/game/scenes/GameScene.ts:47-52 | the holes lie strictly inside the scene, left to right, a quarter width apart |
| Scenes.CustomersSpread | src/game/scenes/GameScene.ts:139-141 | the planned pedestrians start strictly inside the scene, spread left to right; later spawns land at or beyond the right edge |
| Scenes.RoadExtent | src/game/scenes/GameScene.ts:35-36 | the walkers' strip is a proper strip iff the road is at least two diameters high, and it lies inside the road |
| Scenes.WithoutMembers | src/game/scenes/GameScene.ts:166-168 | `getOtherPeople` keeps exactly the other pedestrians |
| Scenes.WithoutAbsent | src/game/scenes/GameScene.ts:166-168 | with `me` absent nothing is removed |
| Scenes.WithoutOnce | src/game/scenes/GameScene.ts:166-168 | with `me` present once, exactly that entry is removed and the others keep their order |
| Scenes.Neighbours | src/game/scenes/GameScene.ts:166-168 | one view per pedestrian, in order |
| Scenes.GameScene.GetOtherPeople | src/game/scenes/GameScene.ts:166-168 | every pedestrian but `me`, and only those |
| Scenes.GameScene.GetRoadSize | src/game/scenes/GameScene.ts:174-176 | the stored road band, top then bottom; `CreateStreet` ensures it is `RoadExtent` of the scene height |
| Scenes.Peers | src/game/scenes/GameScene.ts:170-172 | one view per particle, in order |
| Scenes.FindNearbyHole | src/game/scenes/GameScene.ts:154-157 | the index of the first hole, in list order, within `HOLE_WIDTH` of the pedestrian and free (`FirstNearby`); none exactly when no hole qualifies (`NoneNearby`) |
| Scenes.FirstNearbyUnique | src/game/scenes/GameScene.ts:154-157 | the hole `find` returns is unique, and when there is one `find` does not come back empty |
| Scenes.FirstNearbyExists | src/game/scenes/GameScene.ts:154-157 | when some hole among the first `n` is in reach and free, `find` returns one of them |
| Scenes.OfferFindsNone | src/game/scenes/GameScene.ts:151-163 | a walker past the gate with no hole in reach and free stays exactly as it was |
| Scenes.OfferDeclined | src/game/gameObjects/Person.ts:178-188 | a walker whose first hole in reach and free is the one it visited last stays exactly as it was |
| Scenes.OfferTaken | src/game/gameObjects/Person.ts:178-188 | a walker whose first hole in reach and free is another one holds that hole and approaches it, with the revisit cooldown restarted and nothing else changed |
| Scenes.OfferedAtDetermined | src/game/scenes/GameScene.ts:149-164 | one turn of `update` has a single outcome: the pedestrian's new state and the new holders follow from its state, its draw and the holders it found |
| Scenes.OfferedOnlyTakes | src/game/scenes/GameScene.ts:149-164 | one turn only takes a hole that was free, gives it to the pedestrian whose turn it is, and that pedestrian now targets it; no hole is freed or handed over |
| Scenes.GameScene.constructor | src/game/scenes/GameScene.ts:13-26 | a new scene has no objects, debug mode off, a zero road and an empty signal map |
| Scenes.GameScene.CreateUI | src/game/scenes/GameScene.ts:33-73 | the road extent, the three holes at their spacing and free, the planned walkers at their spacing, the `debugMode` listener, the player and five free particles; all scene invariants hold |
| Scenes.GameScene.CreateStreet | src/game/scenes/GameScene.ts:35-65 | the road, the holes and the walkers, with reservations consistent; every walker starts on the road band narrowed by `PERSON_RADIUS`, give or take the rounding of `PMath.Between` |
| Scenes.GameScene.CreateActors | src/game/scenes/GameScene.ts:67-73 | the `debugMode` listener is registered once with its default, the player exists, and the given number of free particles are spawned, with attachment consistent |
| Scenes.GameScene.CreateHoles | src/game/scenes/GameScene.ts:47-52 | hole `i` stands at the `i`-th spacing on the wall, free and new |
| Scenes.GameScene.SpawnCustomers | src/game/scenes/GameScene.ts:63-65 | walker `k` stands at the `k`-th spacing, walks, and starts on the narrowed road band |
| Scenes.GameScene.SpawnInformations | src/game/scenes/GameScene.ts:71-73 | as many free particles as draws |
| Scenes.GameScene.SpawnCustomer | src/game/scenes/GameScene.ts:136-147 | exactly one new walking pedestrian is appended, with the next id, at the next spawn `x`, and with `y` from its own draw (Person.ts:31-32): within 1 of the road band narrowed by `PERSON_RADIUS`, and inside it when the band's edges are whole numbers; reservations stay consistent |
| Scenes.GameScene.SpawnInformation | src/game/scenes/GameScene.ts:118-125 | exactly one new free particle is appended, with the next id, its bounds inset from the player's and its position clamped into them |
| Scenes.GameScene.UpdateDebug | src/game/scenes/GameScene.ts:127-134 | every object is shown the current debug mode |
| Scenes.GameScene.SetDebugModeAsWritten | src/game/scenes/GameScene.ts:21-24 | the setter as written: after a change the objects show the mode being left, the opposite of the current one |
| Scenes.GameScene.SetDebugMode | src/game/scenes/GameScene.ts:21-24 | corrected setter: the objects show the new mode and the listener stays in sync |
| Scenes.GameScene.Update | src/game/scenes/GameScene.ts:149-164 | reservations stay consistent; `hs[k]` are the holders pedestrian `k` finds on its turn, running from the holders before `update` to those after, and each turn is `OfferedAt` against its own: below the gate or not walking, unchanged; past it, with no free hole in reach or with the first one being the hole it visited last, unchanged; otherwise it reserves that first free hole and approaches it. A hole is either unchanged or was free and now serves the pedestrian that targets it |
| Scenes.GameScene.OfferNext | src/game/scenes/GameScene.ts:150-163 | one turn of the `forEach`: pedestrian `i` is `OfferedAt` against the holders it finds, which are appended to `hs`, and the earlier turns stay as they were |
| Scenes.GameScene.OfferHole | src/game/scenes/GameScene.ts:151-163 | one pedestrian's turn is `OfferedAt` against the holders before it: below the gate, or with no free hole in reach, or with the first free hole being its last one, nothing changes; otherwise it reserves that first free hole. Only that hole changes, and it now serves this pedestrian |
| Scenes.GameScene.OrderAt | src/game/gameObjects/Person.ts:178-188 | `tryToOrder` with the hole `find` returned is `OfferedAt` against the holders before it, and reservations stay consistent |
| Scenes.GameScene.TickPerson | src/game/gameObjects/Person.ts:41-64 | a pedestrian's engine tick keeps every reservation consistent |
| Scenes.GameScene.TickInformation | src/game/gameObjects/Information.ts:53-143 | a particle's engine tick keeps attachment consistent |
| Scenes.GameScene.TickPlayer | src/game/gameObjects/Player.ts:200-213 | the player's engine tick keeps attachment consistent: a particle is attached iff the player's list holds it, once |
| Cooking.NewStation | index.js:80-85 | a station has an item list iff it is the COMBINE station, and that list starts empty |
| Cooking.RecipeChecked | index.js:204-212 | with three or more items the score grows by 100 and the station is emptied; otherwise nothing changes |
| Cooking.DeliverAll | index.js:189-212 | placing items one by one, checking after each, leaves the station where it was and of its kind, with an item list |
| Cooking.RecipeEveryThird | index.js:189-212 | from an empty station and no points, after `n` items the score is `100 * (n / 3)` and the station holds the last `n % 3` |
| Cooking.ScoreAsWritten | index.js:208 | the score as written, never assigned before `+=` |
| Cooking.ScoreAsWrittenIsNaN | index.js:208-209 | after one completed recipe the displayed score is NaN and stays NaN |
| Cooking.Interact | index.js:188-202 | holding at COMBINE: the item is placed, the hand emptied, and 100 points scored iff that completes a recipe, the station then holding nothing, otherwise its items plus the new one; empty-handed at a supply station: its item is picked up; the two other cases change nothing; stations never move |
| Cooking.InteractIsDelivery | index.js:188-212 | placing a held item at COMBINE is `DeliverAll` of that one item: same station and score |
| Cooking.TouchUpTo | index.js:111-120 | interacting with the touched stations keeps their number and every station well-formed |
| Cooking.TouchOne | index.js:112-119 | one station of a touch keeps the layout; a touch closer than 32 interacts with it exactly as `Interact`, one 32 or more away changes nothing |
| Cooking.TouchKeepsLayout | index.js:111-120 | a touch moves no station and changes no station's kind |
| Cooking.TouchAwayIsNoop | index.js:111-120 | a touch 32 or more from every station changes nothing |
| Cooking.OrdersFillUp | index.js:214-221 | after `n` calls the list holds `min(n, 3)` orders, order `i` named `Order i+1` asking for the three items |
| Cooking.Kitchen.constructor | index.js:58-98 | the player at (200, 200) holding nothing, the five stations, score 0, and one order |
| Cooking.Kitchen.InteractWithStation | index.js:188-202 | the state becomes exactly `Interact`, and the stations stay well formed |
| Cooking.Kitchen.CheckRecipe | index.js:204-212 | the station and the score become exactly `RecipeChecked` |
| Cooking.Kitchen.UpdateOrders | index.js:214-221 | one order named after its position is appended while fewer than 3 exist; `n` calls from empty give `OrdersAfter(n)` |
| Cooking.Kitchen.ConstrainPlayer | index.js:241-253 | the player is clamped into `[0, width] x [0, height]`, and one already inside does not move |
| Cooking.Kitchen.Touch | index.js:104-121 | the loop interacts, in order, with exactly the stations within 32 of the touch; the orders and the player position are kept |
| Cooking.Kitchen.TouchStation | index.js:111-120 | one station of the touch loop: the kitchen becomes `TouchOne` of the old one; the orders, the player position and the stations' well-formedness are kept |

## Left out

- Rendering and engine plumbing are left out: sprites, colours (including the chroma-js fade while ordering), text objects, `scene.add.existing`, the `update` event registration and the keyboard and pointer listener wiring. The engine calling `update` on every object each frame is modelled as the scene's `TickPerson`, `TickInformation` and `TickPlayer`, one object at a time, in any order.
- Randomness is an input. `PMath.Between` and `Math.random` become parameters (`PersonDraw`, the `draws` of `GameScene.Update`, the spawn positions and `drawY` for a turning walker). A pedestrian's draws are required to be outcomes of `PMath.Between` on the source's bounds (`BetweenOutcome`, `PersonDraw.Valid`, `TickPerson`'s `drawY`).
- `Math.sqrt` is a parameter. `IsSquareRoot` is required only where a proof needs it.
- The sine-driven pulse phases are left out. The player's pulse factor is an input in `[0, 1]`. The particle's pulse changes only its sprite radius.
- Floating point is left out. Positions, velocities and times are exact reals.
- The game's tuning constants come from a constants file that is not part of this model. They are a `Config` value, and proofs use only the signs `Config.Valid` states.
- Division by a zero distance is handled as follows:
  - At Person.ts:123 the source divides by a zero distance. `RepulsionTerm` skips the term instead.
  - At Information.ts:64 the source divides by a zero distance. `Direction` takes the zero vector instead.
  - Person.ts:210-211 cannot divide by zero, because that branch runs only at distance 2 or more.
- Signal values are compared as structured values (`Value`), not as `JSON.stringify` text. `NaN` is not among them.
- Debug-label text is left out. The message strings built for `log` are not modelled, and each object's debug label is one `DebugLabel`. The scene records the mode its objects were last shown (`shownDebug`) instead of holding a label per object.
- The `currentCustomer` signal a hole registers is left out, because nothing ever emits it.
- `Hole.updateState` only rewrites the label, and is left out.
- `Pedestrians.Hole.StartServing` overwrites an existing customer, as Hole.ts:35-38 does: it has no guard. A reading in which it refuses an occupied hole is not what the code does. The double booking is ruled out by the callers: the scene invariant `Occupancy` is kept by `TryToOrder`, which checks `isAvailable`.
- The buttons `createUI` builds (Menu, Debug, Customers, Info) are not part of the scene state. Their callbacks are `SpawnCustomer`, `SpawnInformation` and the `debugMode` setter, which are modelled. A button reports whether it invoked `onClick` or `onLongClick` instead of calling them.
- `NodeScene`'s own id counter is left out. The scene's id is never read. The game objects' counter is the scene's `ids`.
- Pedestrians.Person.ToggleDirection runs the corrected `Toggle` of the Findings table. The code as written is `ToggleAsWritten`.
- Pedestrians.Person.UpdateLeaving runs the corrected `Leave` of the Findings table. The code as written is `LeaveAsWritten`.
- Pedestrians.Person.Update runs the corrected `Toggle` and `Leave`, through `UpdateWalking` and `UpdateLeaving`.
- Pedestrians.Person.UpdateWalking runs the corrected `Toggle`, through `Walk`.
- Pedestrians.Person.MoveHorizontally runs the corrected `Toggle`, through `HorizontalStep`.
- Pedestrians.HorizontalStep uses the corrected `Toggle`. With `ToggleAsWritten` a walker turned back at an edge can stay there (see Findings).
- Pedestrians.Walk uses the corrected `Toggle`, through `HorizontalStep`.
- Pedestrians.WalkKeepsBounds is stated of the corrected `Toggle`. The bounds it states do not depend on the direction drawn.
- Pedestrians.Approach models the step as written, overshoot included: a frame whose step is more than twice the remaining distance carries the person past the order point, and with the same step it swings back and forth without ever ordering (`ApproachCanOscillate`). No corrected step is modelled, because the source gives no stopping rule to prefer.
- `Pedestrians.Walk`: its own contract states only that the mode is kept. The bounds are stated by `WalkKeepsBounds`, and the avoidance-force values are not stated.
- `InfoForces.PlayerForce`: only the far-field value is stated. Inside the orbit range only the gating of each term is stated (`AttractionMultiplier`, `Repulsion`, `OrbitMultiplier`), not the resulting trajectory.
- `Collecting.InfoStep`: states the speed cap and the bounds, not the trajectory.
- `Scenes.GameScene.TickPerson`: states only that reservations stay consistent. The step itself is `Pedestrians.Person.Update`.
- `Scenes.GameScene.TickInformation`: states only that attachment stays consistent. The step itself is `Collecting.Information.Update`.
- `Scenes.GameScene.TickPlayer`: states only that attachment stays consistent. The step itself is `Collecting.Player.Update`.
- `Scenes.GameScene.UpdateDebug`: the per-object `setDebugVisible` calls are summarised as `shownDebug`.
- In `index.js`, the following have no game state and are left out: the joystick movement (trigonometry on plugin input), the animations, the grid, the held-item label, the player tint and the order texts.
- `checkRecipe` does not compare the items against an order. It is modelled as written: any three items complete a recipe.

## Findings

| source | as written | input that shows it | evidently intended | confidence | as-written member | corrected member |
|---|---|---|---|---|---|---|
| src/game/gameObjects/Person.ts:171-176 | `toggleDirection` stores the new direction and then calls `initializeProperties`, whose coin flip overwrites it | a walker pushed back at the left edge whose coin flip gives "left" stays parked at the padded edge, its `y` redrawn every frame, until a flip gives "right" | take the direction asked for and redraw only `y` | medium, not executed | Pedestrians.ToggleAsWrittenCanKeepHeadingOut | Pedestrians.Toggle |
| src/game/gameObjects/Person.ts:239-248 | a leaving person moves `speed` down every frame and snaps only within 2 of the road centre | 2.5 above the centre with a frame step of 4.5 (speed 150, a 30 ms frame): it lands 2 below and walks down forever | move toward the centre and arrive | medium, not executed | Pedestrians.LeaveAsWrittenOvershoots | Pedestrians.LeaveArrives |
| src/game/scenes/GameScene.ts:21-24 | the `debugMode` setter emits the signal before storing the value, so `updateDebug` pushes the old mode | the Debug button switches the mode from off to on, and every object is shown "off" | store, then emit | high, not executed | Scenes.GameScene.SetDebugModeAsWritten | Scenes.GameScene.SetDebugMode |
| index.js:208 | `this.score` is never assigned before `+= 100` | completing one recipe shows `Score: NaN` | the score starts at 0 | high, not executed | Cooking.ScoreAsWrittenIsNaN | Cooking.RecipeEveryThird |
