# Verlet mesh: a verified model

This project models the simulation core of a small SVG "Verlet engine". The
engine is a rows x cols grid of quadrilateral cells. The cells share their
corner points, the border points are pinned, and the points are held together
by distance constraints. The points move under position-based Verlet
integration, and the mouse can pull on one focal cell.

The model has five modules:

- `Maths` (maths.dfy) models `vector` and `Constraint` of maths.js.
  - `Vector` is a class. It has the fields `x, y, px, py, vx, vy, pinned`
    and `constraints`, and in-place methods for `pin`, `add`, `sub`, `mul`,
    `scale`, `addForce`, `update`, `attach` and `resolveConstraints`.
  - `Constraint` is a class with two point references and a rest length.
  - Constraint resolution over many points is also given on values:
    - `Step` is one `resolve` on a map from points to positions;
    - `Apply` is a sequence of resolves.
  - `Vector.ResolveConstraints` is proved against `Apply`.
  - Lemmas about `Step` prove what one resolve and repeated resolves achieve.
- `Color` (color.dfy) models `hexToRGB` and `randColor` of app.js.
- `Mesh` (mesh.dfy) models the following parts of app.js:
  - `jitter`;
  - `Polygon`, with its constructor, `update` and `resolveConstraints`;
  - `matrix2d`;
  - `generatePoints`, built cell by cell.

  A ghost map `V` names each vertex object by its grid key (i, j). Vertex
  (i, j) sits on the lattice point (j * colWidth, i * rowHeight). The loop
  invariants say which vertices exist, how cells share them (`Shape`) and
  what state each vertex is in (`States`): pinned, placed and wired.
- `MeshFacts` (mesh_facts.dfy) proves what the finished mesh looks like:
  - corner sharing;
  - (rows + 1) * (cols + 1) distinct points;
  - pins exactly on the border;
  - three constraints per cell;
  - jitter bounds.
- `Loop` (loop.dfy) models one call of `theLoop`, without its `renderer()`
  call.
  - Each of the three passes changes the points in place.
  - Each pass is proved equal to a function on the values of the points:
    `Resolved`, `Pulled` and `Stepped`.
  - `Ticked` composes the three, and the properties of a tick are proved
    about `Ticked`.

Math.sqrt is never computed. A caller supplies a function `sqrt`, and the
model only assumes that it returns the non-negative square root (`IsSqrt`).
Math.random is a stream `rand: nat -> real` of draws in [0, 1). A call that
draws starts at a draw index n and states exactly which draws it reads:
`Jitter` and `JitterNew` take two per jittered coordinate, `RandColor` takes
`Draws(monochrome)`, and the mesh builders return the next index, n plus
`CornerDraws`, `CellDraws`, `RowDraws` or `GridDraws`. Coordinates are reals.

In these places the model follows the code as written:

- `attach` does not deduplicate. Its `indexOf(point)` searches a list of
  `Constraint`s for a `vector`, so it always returns -1.
- `attach` registers a constraint only in the attaching point's list, not in
  the partner's.
- With both ends free, one `resolve` reaches the rest length exactly in real
  arithmetic (`ResolveBothFree`). It is not a partial relaxation.
- `generatePoints` with zero rows or columns builds an empty matrix. It does
  not report an error.
- The update delta is the force coefficient halved, 0.35 / 2.

The code as written has two behaviours worth knowing, and both are proved:

- `add(v)` followed by `sub(v)` restores a point unless `v` is the point
  itself. In that case the point ends at the origin (`AddThenSub`).
- Monochrome `randColor` does not clamp its channels, so a light base colour
  can exceed 255 (`MonochromeOverflows`). The fill the engine actually uses
  stays within range (`PolygonFill`).

## Model

| member | source | states |
|---|---|---|
| Maths.Vector.constructor | maths.js:1-7 | A new point has px = x and py = y, with a missing coordinate taken as 0. It has zero force, is unpinned and has no constraints. |
| Maths.Vector.Pin | maths.js:9-11 | The point is pinned afterwards, whatever it was before. Nothing else changes. |
| Maths.Vector.Add | maths.js:13-17 | x and y grow by v's coordinates taken before the call. The call returns the point itself. |
| Maths.Vector.Sub | maths.js:19-23 | x and y shrink by v's coordinates taken before the call. The call returns the point itself. |
| Maths.Vector.Mul | maths.js:25-29 | x and y are multiplied componentwise by v's coordinates. The call returns the point itself. |
| Maths.Vector.Scale | maths.js:31-35 | x and y are multiplied by coef. The call returns the point itself. |
| Maths.AddThenSub | maths.js:13-23 | add(v) then sub(v) restores the position when v is another point. When v is the point itself, the position ends at (0, 0). |
| Maths.Vector.Equals | maths.js:37-39 | True exactly when the two positions are equal. |
| Maths.Vector.Dot | maths.js:56-58 | The dot product of the two positions, symmetric in its two points. |
| Maths.Vector.Dist | maths.js:45-49 | Given a true square root, the result is the Euclidean distance: non-negative, and its square is the squared separation. |
| Maths.Vector.AddForce | maths.js:95-98 | Adds (fx, fy) to the force. Nothing else changes, so calls accumulate. |
| Maths.Vector.Update | maths.js:100-115 | A pinned point keeps its position, previous position and force. A free point takes the damped Verlet step (0.99, force halved times delta), its previous position becomes the old position, and its force is reset to 0. |
| Maths.CoastDecays | maths.js:100-115 | Without force, the step after n updates is 0.99^n times the first. The point travels 99 * (1 - 0.99^n) times its first step, so a point at rest stays put. |
| Maths.Vector.Clone | maths.js:117-119 | The copy is a fresh point at the same position. It has that position as its previous one, no force, no pin and no constraints. |
| Maths.IndexOf | maths.js:86 | Array indexOf by identity: -1 exactly when the object is absent, and otherwise the first index holding it. |
| Maths.PointNeverInConstraints | maths.js:86 | Looking a point up in a list of constraints always gives -1, so attach's duplicate guard never fires. |
| Maths.Vector.Attach | maths.js:82-88 | Appends exactly one new constraint per argument, in argument order, even for a point already attached. Earlier constraints stay, and only this point's list changes. Each new constraint binds this point to its argument at their current distance. |
| Maths.Constraint.constructor | maths.js:128-132 | The constraint joins p1 to p2. Its rest length is their distance at construction and never changes afterwards (the field is constant). |
| Maths.Constraint.Resolve | maths.js:134-151 | At current distance d > 0, p1 moves by the half-correction and p2 by its opposite. A pinned end does not move. |
| Maths.Constraint.ResolveChecked | maths.js:134-151 | The resolve as the engine calls it, with the distance taken from sqrt. Its effect on every point of a set is one Step of the value-level model. |
| Maths.ResolvedStep | maths.js:134-151 | A resolve that moves only its two ends as Resolve says is exactly Step on the positions of any set of points. Step is the value-level resolve: it moves the free ends by the half-correction and skips a constraint whose ends coincide. |
| Maths.Reverse | maths.js:91-92 | The list read from last to first, which is the order of the `while (i--)` loop. |
| Maths.Vector.ResolveConstraints | maths.js:90-93 | Every constraint of the list is resolved exactly once, last to first: the positions become Apply (Step over each constraint in turn) of the reversed list. The pins and the list itself are unchanged. |
| Maths.ResolveLoopStep | maths.js:90-93 | Resolving constraint i next keeps the loop's promise that the remaining prefix, reversed, finishes the whole resolve. |
| Maths.ApplyConcat | maths.js:90-93 | Resolving a list a + b is resolving a, then b. |
| Maths.ApplyKeepsPinned | maths.js:143-150 | No sequence of resolves moves a pinned point. |
| Maths.ResolveBothFree | maths.js:134-151 | With both ends free, one resolve keeps the midpoint and scales the separation by length / d, so the ends end exactly at the rest length. |
| Maths.ResolveOnePinned | maths.js:134-151 | With exactly one end pinned, one resolve scales the separation by (d + length) / (2d), so the ends end (d + length) / 2 apart. |
| Maths.RelaxOnePinned | maths.js:134-151 | With one end pinned, n resolves in a row leave the ends length + (d0 - length) / 2^n apart: the gap to the rest length halves each time. |
| Color.ParseHex | app.js:14-16 | parseInt(s, 16) of n hex digits is below 16^n. |
| Color.HexToRGB | app.js:3-18 | hexToRGB gives null for a missing or empty input. A colour it gives comes from a well-formed input (one optional '#', then 3 or 6 hex digits), and each channel is below 256. |
| Color.HexToRGBSpec | app.js:3-18 | hexToRGB gives a colour exactly for a present input that is one optional '#' followed by 3 or 6 hex digits. Otherwise it gives null, including for the empty string. Each channel is the value of its digit pair, a 3-digit form repeats each digit, and every channel is at most 255. |
| Color.ChannelsBounded | app.js:12-17 | Every channel of a parsed colour lies in 0..255. |
| Color.ShorthandIsLonghand | app.js:6-10 | A 3-digit colour parses like the 6-digit colour with every digit doubled, with or without the '#'. |
| Color.ParseHexLower | app.js:14-16 | parseInt(s, 16) does not depend on the case of the digits. |
| Color.CaseInsensitive | app.js:7-12 | Lower-casing the input never changes the result (the `i` flag of both patterns). |
| Color.BaseColour | app.js:25 | The base colour of every polygon, "#15ac4f", parses to (21, 172, 79). |
| Color.OffsetBounds | app.js:176-178 | With a non-negative distance, the floor of the scaled draw lies in [0, high - low]. It is strictly below high - low when the variance is not empty. |
| Color.Base | app.js:167-171 | The colour randColor varies is the parsed one, or grey (127.5, 127.5, 127.5) when the hex does not parse; either way each channel lies in 0..255. |
| Color.RandColorMonochrome | app.js:161-192 | RandColor, monochrome: all three channels move from the base colour (Base) by the same offset, and an unparsable hex gives a grey. RandColor takes the distance as EffectiveDistance: 10 when missing or zero, 127.5 when the hex does not parse. The channel ranges are stated by RandColorInRange and MonochromeShift. |
| Color.RandColorDraws | app.js:161-192 | randColor reads draws n .. n + Draws(monochrome) - 1 and no other: one draw when monochrome, three otherwise. |
| Color.RandColorInRange | app.js:161-179 | For a missing or non-negative distance, drawn channel by channel, every channel lies in 0..255. For a parsable colour, each channel also lies within its variance [max(0, c - d), min(255, c + d)]. |
| Color.MonochromeShift | app.js:180-189 | For a parsable hex and a missing or non-negative distance, monochrome: all three channels move by the same offset, drawn over the red channel's variance. |
| Color.MonochromeOverflows | app.js:180-189 | Monochrome does not clamp: "#fafafa" with the default distance and a draw of 0.99 gives (264, 264, 264). |
| Color.PolygonFill | app.js:161-192 | randColor("#15ac4f", null, true) is (21, 172, 79) shifted by one whole offset in 0..19. |
| Mesh.JitterBound | app.js:157-159 | A jitter offset lies strictly within 0.175 of the dimension, on the side the sign draw picks. |
| Mesh.Jitter | app.js:157-159 | Moves the one chosen coordinate by the offset built from the next two draws. The other coordinate, px and py do not change. |
| Mesh.Polygon.constructor | app.js:20-30 | The corners are points 0..3 in order, and the fill is monochrome randColor of "#15ac4f". The center is a new point at (tl.x + (tr.x - tl.x)/2, tl.y + (bl.y - tl.y)/2), computed once. |
| Mesh.Polygon.Update | app.js:32-34 | Only the bottom-right corner takes its update step. |
| Mesh.Polygon.ResolveConstraints | app.js:36-38 | Only the bottom-right corner's constraints are resolved, last to first. The pins are unchanged. |
| Mesh.Matrix2d | app.js:66-72 | A fresh rows x cols matrix with no cell filled. |
| Mesh.LatticeIsProduct | app.js:89-106 | The lattice line i is i times the spacing. |
| Mesh.Corners | app.js:88-106 | A cell takes its top-right corner from the cell above and its top-left and bottom-left corners from the cell on its left (in the first column, top-left from the cell above). Corners it cannot take are new points on their lattice points. The bottom-right corner is always new. |
| Mesh.PinCorners | app.js:108-124 | The four pinning `if`s: each corner ends pinned exactly when it was pinned before or the cell lies on the matching border. |
| Mesh.PinCell | app.js:108-124 | Pinning a cell's corners keeps every vertex pinned exactly when it lies on the border of the grid. |
| Mesh.JitterNew | app.js:126-144 | A vertex a cell creates is jittered along y unless it is on the top or bottom row, by the offset from draws n and n + 1. It is then jittered along x unless it is on the left or right column, by the offset from the next two draws. A coordinate that is not jittered keeps its value. |
| Mesh.Wire | app.js:147-148 | bottomRight.attach(topLeft, bottomLeft, topRight) gives the new corner exactly three constraints, to those corners in that order, at their distances. |
| Mesh.Settle | app.js:126-148 | Jitters the corners the cell created, then wires the bottom-right corner. No earlier vertex moves or gains a constraint. It reads exactly CornerDraws draws: two per jittered coordinate of bottom-left (first column), top-right (top row) and bottom-right, in that order. |
| Mesh.CellPins | app.js:88-124 | A cell's corners, taken or created, with the outer ones pinned. They are four distinct points, and the new ones are at rest on their lattice points. |
| Mesh.CellCorners | app.js:88-148 | The first part of a cell's iteration. The shared corners are the vertices of V, the created ones are fresh, and all are pinned, placed and wired as the finished mesh needs. Exactly CornerDraws draws are read. |
| Mesh.ExtendKeys | app.js:88-106 | Adding a cell's new corners gives exactly the vertices the next cell in row-major order expects, and keeps the others. |
| Mesh.ExtendInjective | app.js:88-106 | The new corners are distinct objects, so the grid keys still name distinct points. |
| Mesh.ExtendCell | app.js:88-106 | The map after a cell holds its four corners under their keys and keeps every earlier vertex. |
| Mesh.CellStates | app.js:108-148 | Once a cell has pinned, jittered and wired its corners, every vertex is in the state generatePoints leaves it in. |
| Mesh.CellVertices | app.js:81-148 | A cell's corners and the vertex map extended by the new ones, with every vertex in its final state, after exactly CornerDraws draws. |
| Mesh.NewCellPolygon | app.js:150 | The cell's new Polygon has its four corners in order and the fill randColor("#15ac4f", null, true) drawn at n, a shade of the base green. |
| Mesh.StoreCell | app.js:150 | A new Polygon over the cell's corners is stored in the matrix with a fill tinted from the base green. No other cell or vertex changes. |
| Mesh.ShapeStep | app.js:150 | Storing a cell's polygon advances the built shape of the mesh to the next cell. |
| Mesh.BuildCell | app.js:80-151 | One inner-loop iteration: the shape and vertex states advance by one cell, new vertices are fresh, and exactly CellDraws draws are read: the jitters, then the one draw of the polygon's monochrome fill. |
| Mesh.NextRow | app.js:79-152 | The end of row r is the start of row r + 1. |
| Mesh.BuildRow | app.js:79-152 | One outer-loop iteration builds row r left to right and keeps the invariants, reading RowDraws draws, the sum over its cells. |
| Mesh.GeneratePoints | app.js:74-155 | Returns a fresh rows x cols matrix in which every cell holds its polygon over shared, distinct, fresh vertices. For a non-empty grid, every vertex is pinned exactly on the border, placed and wired. The draws read are GridDraws, the sum over the rows. |
| MeshFacts.Filled | app.js:74-155 | Every cell of the finished matrix holds the polygon over its four grid vertices. |
| MeshFacts.SharedCorners | app.js:88-106 | For c > 0, topLeft and bottomLeft are the left cell's topRight and bottomRight. For r > 0, topRight is the upper cell's bottomRight. For c = 0 and r > 0, topLeft is the upper cell's bottomLeft. |
| MeshFacts.NewBottomRight | app.js:106 | A cell's bottom-right corner is a corner of no earlier cell. |
| MeshFacts.GridKeysCount | app.js:74-155 | There are (rows + 1) * (cols + 1) grid keys. |
| MeshFacts.InjectiveValues | app.js:74-155 | Distinct keys naming distinct points give as many points as keys. |
| MeshFacts.PointsAreVertices | app.js:74-155 | The corners of the cells are exactly the vertices the grid keys name. |
| MeshFacts.VertexKeys | app.js:74-155 | A non-empty grid has a vertex for every key (i, j), 0 <= i <= rows and 0 <= j <= cols. An empty grid has none. |
| MeshFacts.PointCount | app.js:74-155 | The matrix holds exactly (rows + 1) * (cols + 1) distinct points, or none when there is no row or no column. |
| MeshFacts.PinnedCorners | app.js:108-124 | Every corner of every cell is pinned exactly when it lies on the outer border of the grid. |
| MeshFacts.CellConstraints | app.js:147-148 | Each cell's bottom-right corner holds exactly three constraints, to its top-left, bottom-left and top-right corners in that order. The top row and left column hold none. |
| MeshFacts.LayoutFanout | app.js:147-148 | In the wiring generatePoints leaves, every vertex of the top row and the left column holds no constraint, and every other vertex holds three. |
| MeshFacts.TotalWired | app.js:147-148 | With that fan-out, rows 0..i of vertices hold 3 * i * cols constraints in all. |
| MeshFacts.ConstraintCount | app.js:147-148 | The mesh holds 3 * rows * cols constraints in all. |
| MeshFacts.RowDrawsClosed | app.js:126-150 | Cells (r, 0..c-1) read two y draws per vertex they create in row r + 1 unless it is the bottom row, two x draws per created vertex off the side columns (row 0 too when r = 0), and one fill draw each. |
| MeshFacts.RowDrawsTotal | app.js:79-152 | A whole row of cells reads 2 * (cols + 1) y draws unless its bottom is the last vertex row, 2 * (cols - 1) x draws for its bottom vertices, twice that on the top row, and cols fill draws. |
| MeshFacts.GridDrawsClosed | app.js:79-152 | The first r rows of cells read the sum of those row counts, in closed form. |
| MeshFacts.DrawCount | app.js:74-155 | generatePoints reads 4 draws per interior vertex, 2 per border vertex that is not a grid corner, none for the corners, and 1 per cell. |
| MeshFacts.Jittered | app.js:126-144 | Every vertex's previous position is its lattice point, and it carries no force. Each coordinate is off the lattice by less than 0.175 of the spacing, except that left/right-edge points keep x and top/bottom-edge points keep y. So the four grid corners do not move. |
| Loop.WiredClosed | app.js:147-148 | Every constraint of the built mesh joins two of its own points. |
| Loop.TourCovered | app.js:220-225 | Every constraint the resolve pass visits joins points of the mesh. |
| Loop.TourLength | app.js:220-225 | A tick resolves 3 * (rows - 1) * cols constraints: three per cell of every row but the last. Only the constraint lists are required, and no tick changes those, so this holds for every tick. |
| Loop.ResolveCell | app.js:223 | One cell's resolveConstraints extends the resolves done so far by its bottom-right corner's list, reversed. |
| Loop.ResolveRow | app.js:222-224 | The cells of a row, left to right, resolve the concatenation of their lists, each reversed. The pins are unchanged. |
| Loop.ResolveRows | app.js:220-225 | The resolve pass skips the last row and resolves the rows above it, top to bottom. |
| Loop.ResolveGrid | app.js:220-225 | The resolve pass on the points' values: only the positions change, to Resolved. |
| Loop.ResolvePass | app.js:220-225 | The resolve pass of a tick changes the mesh's values to Resolved over the tour, its visiting order. The pins are unchanged. |
| Loop.PushOnce | app.js:234-237 | Over distinct corners, each corner gets the force once and no other point gets it. |
| Loop.FocalDistinct | app.js:234-237 | The four corners of any cell of the mesh are distinct points. |
| Loop.PushFour | app.js:234-237 | Four addForce calls in a row make one Push over the four corners. |
| Loop.PushCorners | app.js:234-237 | Adds the same force to each corner of the focal cell in turn. |
| Loop.MouseForce | app.js:227-238 | While the mouse is on, the focal corners get 0.35 of the mouse's offset from the focal top-left corner, in pixels. Otherwise nothing changes. |
| Loop.UpdateRow | app.js:242-244 | The cells of row r update their bottom-right corners, vertices (r + 1, 1..cols). All other vertices are unchanged. |
| Loop.UpdateRows | app.js:240-245 | Updates every row but the last. |
| Loop.UpdatePass | app.js:240-245 | The update pass changes the values to Stepped: each bottom-right corner of a non-last row takes its update with delta 0.175. |
| Loop.Tick | app.js:216-245 | One tick changes the mesh's values to Ticked, the value-level tick: Resolved (the resolve pass), then Pulled (the mouse force), then Stepped (the update pass). |
| Loop.TickedKeepsPinned | app.js:216-245 | A tick leaves every pinned point's position and previous position unchanged. |
| Loop.MoverKeys | app.js:240-245 | A vertex is updated by the update pass exactly when it is vertex (i, j) with 1 <= i < rows and 1 <= j <= cols. |
| Loop.TickedFreeVertex | app.js:216-245 | A free vertex (i, j) with 1 <= i < rows and 1 <= j <= cols ends a tick with no force. Its previous position is where the resolve pass left it. |
| Loop.TickedMovers | app.js:216-245 | A free mover ends a tick with no force and with its previous position where the resolve pass left it. A point the update pass skips keeps its previous position, and its force too while the mouse is off. |

## Left out

- `length`, `normal`, `angle`, `rotate` and `rotateBy` (maths.js:41-80) are floating-point square-root and trigonometric helpers. The tick and the builder never call them.
- Math.sqrt in `dist` and `resolve` is not computed. It is a parameter that the model only assumes returns the non-negative root.
- `toString` (maths.js:121-123) only formats text.
- `Polygon.rgb`, `appendTo` and `render`, and `createSVG` and `renderScene` (app.js:40-64, app.js:194-214), are SVG and DOM output.
- `theLoop`'s `renderer()` call is left out, and so is its unused `iterations` variable.
- `init`, the resize, mousemove and mouseout listeners, and the animation-frame recursion (app.js:264-307) are I/O and scheduling. The mouse, the view size w x h and the focal cell are parameters of `Loop.Tick`. The fixed 15 x 20 grid is not hard-wired: `Mesh.GeneratePoints` takes any size.
- `bind` (app.js:256-262) is higher-order plumbing. Every `forEach` (app.js:249-254) is an ordinary loop.
- Math.random is a stream of draws in [0, 1) passed in by the caller.
- Floating point is modelled as reals, so there is no rounding, NaN or Infinity. With zero rows or columns the source's spacing 100 / 0 is Infinity. No cell is built in that case, so the model's 0 makes no difference.
- `x || 0` in the vector constructor is modelled as an optional coordinate, where a missing one is 0. A coordinate of 0 gives 0 either way.
- A new `vector`'s `pinned` field is undefined, which is falsy. The model starts it at false.
- `update` on a pinned point returns the point and otherwise returns nothing. No caller uses the value, so `Vector.Update` returns nothing.
- `Polygon.resolveConstraints(rows, row, cols, col)` and `Polygon.update(delta, self)` ignore their extra arguments, so the model's methods do not take them.
- Maths.Constraint.ResolveChecked: when the two ends coincide (distance 0), the source divides by zero and writes NaN into the free ends. The model leaves both ends where they are.
- Maths.Vector.ResolveConstraints: inherits the zero-distance case of `ResolveChecked`; its positions are stated through `Step`, which skips a constraint whose ends coincide.
- Mesh.GeneratePoints: the vertex states (pins, placement, wiring) are stated for a grid with at least one row and one column. An empty grid has no vertices, so nothing is lost.
- Mesh.Jitter: `jitter` takes the attribute as a string. The model takes an axis, X or Y, the only two values passed.
