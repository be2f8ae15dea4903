# Pac-Man game engine core, modelled in Dafny

This project models the engine inside `game.js`, the small canvas game framework
that runs this Pac-Man clone. It covers five parts:

- the maze map (`Map`): cell lookup and update, and the conversions between cell
  coordinates and canvas pixels;
- the maze search `Map.finder`: a breadth-first search, layer by layer, that
  records back-pointers in a `steps` grid. It then either rebuilds the route to the
  target ('path' mode) or lists the target's open, unvisited neighbours ('next' mode);
- stages (`Stage`) and the items and maps they own: creation, numbering, filtering
  by type, and reset;
- the game object: creating stages, switching between them (`setStage`,
  `nextStage`), and the frame counter;
- what one run of the frame callback does to the current stage.

Files:

- `outcomes.dfy`: `Option`, and `Outcome`, which models a call that returns or throws.
- `maps.dfy`: module `Maps`, which holds the cells, `get`/`set`, the pixel
  conversions, the cycle counter and the `GridMap` class.
- `finder.dfy`: module `Finder`, the search. `steps` is an `array2` written in place.
- `stages.dfy`: module `Stages`, which holds the `Item` and `Stage` classes.
- `game.dfy`: module `Game`, which holds the `Game` class.

How the search is proved correct:

- A ghost map `B` mirrors the `steps` grid.
- A ghost map `V` gives the layer in which each cell was first reached.
- `Reached(m, s, j, t)` says that some walk of exactly `j` search steps leads from
  `s` to `t`. A search step is the move the search itself makes: it goes to a
  neighbour whose value is below 1, and wraps around the edge when that value is -1.
- From these, the proof shows that:
  - 'path' mode returns [] when the start is the target. Otherwise it returns a
    route exactly when the target can be reached, and the route is a shortest walk
    whose every node but the last is the node the search step produced;
  - 'next' mode returns the neighbours of the target that no walk of up to the
    target's distance reaches.

## Model

| member | source | states |
|---|---|---|
| Maps.Value | game.js:225-230 | The finder's `_getValue`: the code of cell (x, y) when that row and column exist, and -1 otherwise. |
| Maps.Write | game.js:180-184 | Cell (x, y) takes the value v when it exists. Every other cell and every row length stay as they were. |
| Maps.GridMap.Get | game.js:173-178 | `get` returns the stored code of an existing cell, and -1 for a missing row or column. |
| Maps.GridMap.Set | game.js:180-184 | After `set`, `get` returns v at (cx, cy) if that cell exists, and the old value everywhere else. The cells become `Write` of the old cells, so the number of rows and every row's length are kept. The map stays consistent. |
| Maps.GridMap.constructor | game.js:344-350 | A new map holds a copy of the parameter cells, with `y_length` and `x_length` equal to their dimensions and no cycles counted. |
| Maps.GridMap.Coord2Position | game.js:186-191 | The pixel returned for a cell converts back to that same cell with zero residuals, so it is the cell's centre. |
| Maps.GridMap.Position2Coord | game.js:193-201 | On each axis, the cell is the one whose pixel span holds the pixel, rounding down for negative offsets too. The residual is plus or minus the pixel's distance from that cell's centre, within half a cell. |
| Maps.CentreRoundTrip | game.js:186-201 | On one axis, converting a cell's centre back gives the same cell with a zero residual. |
| Maps.AxisSquare | game.js:193-200 | The squared residual equals the squared distance from the centre of the pixel's cell. The offset built from the squares is therefore the distance from that centre. |
| Maps.Cycles | game.js:403-405 | On a frame that completes a cycle, the counter times the cycle length equals the frame number. On any other frame the counter is unchanged. |
| Maps.CyclesTrack | game.js:403-405 | A counter that held the number of completed cycles still holds it after the next frame. |
| Maps.GridMap.Count | game.js:403-405 | The map's `times` follows `Cycles` for frame f. |
| Maps.GridMap.Reset | game.js:359-363 | After reset, the map again holds its construction-time cells and their dimensions, and `times` is 0, whatever `set` wrote since. |
| Finder.Enter | game.js:248-256 | A neighbour is entered exactly when its value is below 1. The wrap flag is set exactly when the value is -1. An entered cell is inside the grid, and a wrapped one is the neighbour's coordinates taken modulo the grid's size. |
| Finder.Candidates | game.js:232-244 | The nodes listed are exactly the entered forms of the given neighbours. |
| Finder.Unmarked | game.js:240-242 | The nodes kept are exactly those whose cell has no back-pointer. |
| Finder.CandidatesAppend | game.js:284-289 | Listing the candidates of a concatenation lists the candidates of each part, in order. |
| Finder.UnmarkedAppend | game.js:284-289 | Keeping the unmarked nodes of a concatenation keeps those of each part, in order. |
| Finder.WalkReaches | game.js:278-283 | The last cell of a walk of n nodes is reached in exactly n search steps. |
| Finder.TreeReached | game.js:257-262 | A visited cell of layer j is reached from the start in exactly j steps, by following its back-pointers. |
| Finder.Render | game.js:246-271 | One layer is expanded. `steps` keeps mirroring the back-pointers, and each new node is marked with a cell of the current layer. Every node listed, and every back-pointer, is the start node or the node a search step from its back-pointer's cell produced. If the layer meets the target, every earlier layer is fully expanded. Otherwise the cells of the next list, apart from the start when a step re-enters it, are exactly the cells of the next layer. |
| Finder.Visit | game.js:248-265 | One `next(from, to)` call has exactly the effect `NextEffect` gives. A neighbour that is not entered changes nothing. An entered target is marked with `from`, overwriting any back-pointer an earlier cell of the layer wrote, and the search is flagged found. An entered unmarked cell is marked with `from` and its node is appended to the next list. An entered marked cell changes nothing. Besides, `steps` keeps mirroring the back-pointers, the back-pointers stay a tree of layers, the next list keeps holding every cell of the next layer, a found target points back into the current layer, and every listed node and back-pointer stays one a search step produced. |
| Finder.Admit | game.js:261-263 | A new cell is marked with `from` and its node is appended once: the back-pointers gain exactly that entry and the next list exactly that node. |
| Finder.Layer | game.js:272-274 | After one layer, the search goes on exactly when the layer neither met the target nor came out empty. It then goes on from the next layer, with at least one more cell marked. Otherwise it has stopped: found at layer k, or exhausted. |
| Finder.Search | game.js:272-276 | `_render` from the start, repeated until a layer meets the target or comes out empty. The back-pointer grid stays a tree of layers whose every entry is a node a search step produced, and the stopping state is either found-at-layer-k or exhausted. |
| Finder.Trace | game.js:278-283 | The back-pointers are followed from the target to the start. The result is empty when the start is the target. Otherwise it is a walk of k + 1 nodes that ends at the target, stays inside the grid and never revisits the start. Each node is the back-pointer recorded for the next node's cell, and the first node's back-pointer is the start. |
| Finder.NextTo | game.js:232-244 | One `_next` call appends the neighbour's entered node exactly when its cell is unmarked. |
| Finder.NextSteps | game.js:284-289 | 'next' mode returns the unmarked entered neighbours of the target, in the order right, down, left, up. |
| Finder.LayersReach | game.js:266-274 | Below a layer that is fully expanded, a walk of j steps ends on a visited cell no deeper than j, and not on the target. |
| Finder.Unreachable | game.js:272-276 | A search that ran out of cells means no walk of one or more steps reaches the target. |
| Finder.FoundDistance | game.js:257-260 | A search that met the target from layer k means its distance from the start is exactly k + 1. |
| Finder.MarkedHorizon | game.js:257-274 | After a search that met the target from layer k, the cells with a back-pointer are exactly those that some walk of 1 to k + 1 steps reaches. |
| Finder.NotFoundAnswers | game.js:277-291 | When the search finds nothing, the empty result is right in both modes, because the target cannot be reached. |
| Finder.PathSteps | game.js:257-283 | On a route rebuilt from back-pointers, every node but the last is the node, `change` flag included, that the step from the cell before it produced. |
| Finder.PathFound | game.js:278-283 | The route that is rebuilt is a shortest path: a walk whose length is the target's distance, made of the nodes the search steps produced. |
| Finder.NextFound | game.js:284-289 | The 'next' result lists the entered neighbours of the target that no walk of at most the target's distance reaches. |
| Finder.Find | game.js:203-292 | A start or end on a wall, or any mode other than 'path' and 'next', gives []. In 'path' mode the result is [] when the start is the end. Otherwise it is non-empty exactly when the end can be reached, and it is then a shortest path made of the nodes the search steps produced. In 'next' mode the result is as `NextFound` states. |
| Stages.Home | game.js:320-322 | An item bound to a map starts at the pixel that converts back to its own cell with zero residuals. An unbound item starts at its own x and y. |
| Stages.Countdown | game.js:399-401 | A nonzero timeout, negative ones included, goes down by one. A zero timeout stays zero. |
| Stages.CountdownsValue | game.js:399-401 | After n ticks, a non-negative timeout t is max(t - n, 0). A negative one is t - n. |
| Stages.Item.constructor | game.js:318-322 | A new item has its merged settings and starts at its home position. |
| Stages.Item.Advance | game.js:419-431 | The item's `times` follows the frame. When the item is active, its cell is read back from its position and its timeout counts down. Position, status and orientation are unchanged. |
| Stages.Item.Reset | game.js:332-335 | The item is back in its starting state: merged settings, at its home position. |
| Stages.OfKind | game.js:339-343 | The result contains exactly the listed items of the given type, and is no longer than the list. |
| Stages.OfKindIdempotent | game.js:339-343 | Filtering twice by the same type gives the same list as filtering once. |
| Stages.OfKindAppend | game.js:339-343 | Filtering a concatenation gives the concatenation of the filtered parts. |
| Stages.Stage.ItemsByType | game.js:339-343 | `getItemsByType` returns the stage's items of that type and no others. |
| Stages.Stage.constructor | game.js:296-312 | A new stage has its merged settings and no maps or items. |
| Stages.Stage.CreateItem | game.js:318-327 | It throws a TypeError exactly when the item is bound to a map without a cell, and then the item list is unchanged. Otherwise a new item, numbered by the count so far and at its home position, is appended. |
| Stages.Stage.CreateMap | game.js:344-353 | It throws a TypeError exactly when the cells have no first row. Otherwise a new map, numbered by the count so far and holding a copy of the cells, is appended. |
| Stages.Stage.ResetItems | game.js:329-337 | The status becomes 1 and every item is back in its starting state. |
| Stages.Stage.ResetMaps | game.js:354-366 | The status becomes 1 and every map holds its construction-time cells again, with no cycles counted. |
| Stages.Stage.Reset | game.js:368-372 | index and timeout return to their parameter values and the status becomes 1. Every item and map is reset, and the map and item lists themselves are kept. |
| Stages.Stage.CountNext | game.js:402-405 | While the stage runs, only the map after map number `index` counts the frame. No map's cells change. |
| Stages.Stage.AdvanceItems | game.js:419-434 | Every item advances, and it is active exactly when the stage runs and the item is not paused. |
| Stages.Stage.Advance | game.js:397-434 | A tick of the stage: its timeout counts down, the next map counts the frame, and every item advances. Nothing else changes. |
| Game.Game.CreateStage | game.js:451-456 | A new stage, numbered by the count so far, is appended. The stages stay distinct. |
| Game.Game.SetStage | game.js:457-463 | With no current stage it throws a TypeError. Otherwise the current stage's status becomes 0 and the index moves to i. With no stage i it then throws a TypeError. Otherwise stage i is restarted and returned. The stage left behind keeps its index, timeout, maps and items. When it throws first, stage i and its maps and items are untouched. |
| Game.Game.NextStage | game.js:464-470 | From the last stage it throws and the index stays. Otherwise the index moves on first and `setStage` runs on the new index: the new stage is restarted with its map and item lists kept, and the stage left behind is untouched, status included. |
| Game.Game.Tick | game.js:393-438 | With no current stage it throws a TypeError. If the stage's update refuses, nothing changes: not the frame counter, the index, the stage, or its maps and items. Otherwise the frame counter moves on by one and the stage advances on that frame. |
| Game.Game.Init | game.js:475-478 | The index returns to 0 and the frame counter starts at 0. |

## Left out

- Canvas drawing, audio, DOM event binding (`bind`, `getPosition`), `requestAnimationFrame` and `stop` are not part of this model. They are I/O. The first-frame clearing (`stage0Cleared`) is omitted with them, including the TypeError it would throw on the first frame when `mapNext` exists but the stage's `index` names no map.
- Items' and stages' `update` and `draw` are user callbacks that cannot be seen. `update`'s verdict is the `gate` parameter of `Tick`. Item movement, which `update` performs, is not modelled.
- Stages.Item.Advance: does not model the item's own `update` (position, status, orientation, path) after the timeout step, because that callback is supplied by the game scripts.
- The polyfills, `AudioHandler`, the browser globals and electron.js are not part of this model.
- Maps.GridMap.Set: writes only cells that exist. JavaScript would also add a property to an existing row for a column outside it. Out-of-range columns are not representable in `seq<seq<int>>`.
- Pixel coordinates, sizes and residuals are exact `real`s. JavaScript computes them in double-precision floating point, whose rounding is not modelled.
- A map's `size` is a positive `real` (`Size`), and a map's or item's `frames` a positive integer (`Positive`). The source accepts any number there. With size 0 the pixel conversions divide by zero and give Infinity or NaN. With frames 0, `f % frames` is NaN and `times` becomes Infinity. Negative or fractional frames are not modelled either.
- Maps.GridMap.Position2Coord: returns the two residuals fx and fy in place of `offset`, their root-sum-square. Square roots of reals are not available. `AxisSquare` relates the residuals to the distance from the centre.
- Finder.Find: requires a rectangular, non-empty grid with both endpoints inside it, and so excludes inputs the source handles. With a start or end on a missing row the source throws a TypeError. A start outside the grid on an existing row, such as the tunnel cell one column past either edge, reads `undefined`, passes the wall test, and the search runs as usual: its neighbours wrap back into the grid, and the source returns an ordinary route or list. That input is not modelled. An end outside the grid on an existing row is never met by the search, so the source returns [] for it. That input is not modelled either. The finder's defaults are not modelled either. `type` defaults to 'path', which a caller of `Find` passes as `PathMode`. `start` and `end` default to `{}`, whose missing coordinates make the wall test read `map[undefined]` and throw a TypeError.
- Finder.Trace: states only that the target's back-pointer is a cell of layer k. `Visit` states that each `next` call that enters the target overwrites it, so `steps` keeps the last such cell expanded, but that identity is not carried into the contracts of `Render`, `Search` or `Trace`.
- `_render`'s tail recursion is modelled as a loop in `Search`. `Object.assign` merging of settings and parameters is modelled as the merged parameter records `ItemParams`, `MapParams` and `StageParams`. Fields that nothing in the core reads (colour, width, speed, audio, images, path, vector, control) are dropped.
- Maps.GridMap.Reset: takes `times` from the settings default, 0. The merged map parameters do not carry `times`, `x_length` or `y_length`, the last two of which are recomputed from the cells anyway.
- An item's `coord` parameter is the cell only: the residuals of the `CellCoord` it holds are not read by `createItem` or `resetItems`.
- The `_stage` back-links of items and maps, and the event-key strings built from them, are not modelled. `_id` is the `id` field.
- As written, a wrapped neighbour (value -1) is entered without looking at the wrapped cell's own value, so a wall across the edge of the grid is entered. `Enter` models this, and every result of the search is stated over that step relation.
- As written, `nextStage` moves the index before calling `setStage`, so the status set to 0 is the new stage's (then overwritten by the reset), and the stage left behind keeps its status. `NextStage` states this.
- As written, `Stage.reset` sets `index` back to the parameter value (0 by default), overwriting the number `createStage` gave the stage. `Stage.Reset` states this.
