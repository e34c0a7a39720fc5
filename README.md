# Keyboard camera and vertex table of a small OpenGL demo

The demo is meant to draw four coloured triangles (a pyramid without its
base) and lets the arrow keys move the camera. This project models the two parts of
`main.cpp` that are not calls into GLFW or OpenGL:

- **The key callback** (`key_callback`). It takes `(key, scancode, action, mods)`
  and moves the global `cameraPos`. It runs six independent `if` blocks in
  order. Blocks 1-4 add `cameraSpeed` (0.1) times an axis vector
  (main.cpp:72-81) when `mods` is not exactly Shift, and otherwise only print (the
  Left/Right ones also recompute `Gaze`). Blocks 5-6 add `cameraSpeed * cameraFront` or
  `cameraSpeed * cameraBack` under exact Shift, and do nothing otherwise.
  `Camera.FreeCamera` is a class whose field `pos` is that global.
  Its `HandleKey` method runs the six blocks in source order and is proved
  to add exactly `Camera.Delta(key, action, mods)`. `Delta` is a table over
  key, action and modifiers, written independently of the callback. The
  lemmas state what the table implies:
  - a release never moves the camera;
  - Shift+Left and Shift+Right never move it;
  - Shift+Up and Shift+Down move it only along z;
  - the Shift test is exact equality, so Shift+Control counts as no
    modifier;
  - every event moves the camera by nothing or by one step along one
    axis;
  - a sequence of events adds up its steps, in any order.

  `FreeCamera.PollEvents` is the event pump: it hands each pending event to
  the callback, in order.
- **The vertex table and its layout.** The table holds 72 floats. Each
  vertex is six floats: position at offset 0, colour at offset 3, stride 6.
  `VertexLayout` models this layout as a pair of inverse functions:
  `Interleave` packs vertices into floats and `Deinterleave` reads them
  back. `Fetch` is what one attribute pointer reads for vertex i, and
  `VertexAt` is what the two pointers together read. `Mesh` proves the shape of the table and its triangles. It also
  models the vertex count that the draw call passes.

Key, action and modifier codes are plain integers carrying GLFW 3's values
(`Glfw`). Positions are exact `real`s, so 0.1 is exact.

The comment at main.cpp:92 promises rotation under Control. The code has
none: `cameraFront` is (0, 0, +1), the view looks along `cameraBack`, and no
key rotates the camera.

## Model

| member | source | states |
|---|---|---|
| `Camera.FreeCamera.constructor` | main.cpp:72 | The camera starts at (0, 0, 3). |
| `Camera.FreeCamera.HandleKey` | main.cpp:208-294 | Running the six blocks in order changes only `pos`. The new `pos` is the old one plus `Delta(key, action, mods)`, whatever the scancode. |
| `Camera.FreeCamera.PollEvents` | main.cpp:195 | Dispatching pending events one by one leaves `pos` at `Replay(old pos, events)`. That is the old position plus the sum of the events' displacements. |
| `Camera.SpeedTimesAxis` | main.cpp:72-81 | Each `cameraSpeed * axis` product the callback adds is a step of exactly `cameraSpeed` along that one axis, with the axis's sign. |
| `Camera.LookAtCenter` | main.cpp:172 | The centre handed to `lookAt` is the eye moved by `cameraBack`: same x and y, z one less. |
| `Camera.DeltaIsAxisStep` | main.cpp:208-294 | Every event moves the camera by nothing or by exactly one step along exactly one world axis. The step has L1 length at most `cameraSpeed`. x moves only for Left/Right. y moves only for Up/Down without exact Shift. z moves only for Up/Down with exact Shift. |
| `Camera.ReleaseLeavesPosition` | main.cpp:212-284 | A release leaves the position unchanged, for every key and every modifier value. |
| `Camera.RepeatActsAsPress` | main.cpp:212-284 | A repeat event has the same effect as a press, because the guards test only `action != GLFW_RELEASE`. |
| `Camera.ArrowKeysMove` | main.cpp:223-266 | Without exact Shift, Right adds (0.1,0,0), Left adds (-0.1,0,0), Up adds (0,0.1,0) and Down adds (0,-0.1,0). |
| `Camera.ShiftLeftRightStayPut` | main.cpp:212-239 | Shift+Right and Shift+Left never move the camera: those branches only print and recompute `Gaze`, and the move under Shift+Left is commented out. |
| `Camera.ShiftUpDownMoveAlongZ` | main.cpp:249-292 | Shift+Up moves by `cameraSpeed * cameraBack` = (0,0,-0.1) and Shift+Down by `cameraSpeed * cameraFront` = (0,0,0.1). The first block for each key only prints. |
| `Camera.ShiftTestIsExact` | main.cpp:208-294 | Any modifier value other than exactly Shift acts like no modifier. Shift+Control on Up/Down therefore moves along y, not z. |
| `Camera.OtherKeysIgnored` | main.cpp:208-294 | A key other than the four arrows leaves the position unchanged. |
| `Camera.MovesIff` | main.cpp:208-294 | An event moves the camera exactly when it is not a release and either its key is Up or Down, or its key is Left or Right without exact Shift (both directions). |
| `Camera.ShiftDollyAgainstLabels` | main.cpp:273-292 | The view looks from `cameraPos` towards `cameraPos + cameraBack` (main.cpp:172). Shift+Up, announced as "Back", moves one step towards that centre. Shift+Down, announced as "Forward", moves one step away from it. |
| `Camera.ReplayIsNetDelta` | main.cpp:72-81 | The axis vectors and speed are never written, so handling a sequence of events yields the start position plus the sum of the per-event displacements. |
| `Camera.ReplayAppend` | main.cpp:160-196 | Handling events in two batches (two frames' polls) gives the same position as handling them in one. |
| `Camera.NetDeltaPermutation` | main.cpp:208-294 | The summed displacement of a sequence of events depends only on the multiset of events, not on their order. |
| `Camera.OrderDoesNotMatter` | main.cpp:208-294 | Two orderings of the same events, started from the same position, end at the same position. |
| `Camera.ReleasesLeavePosition` | main.cpp:212-284 | A sequence made only of releases leaves the camera where it was. |
| `Camera.DisplacementBound` | main.cpp:208-294 | After n events the camera is at most n steps of `cameraSpeed` (in L1 distance) from where it started. |
| `Camera.LeftPressThenRelease` | main.cpp:240-242 | From (0,0,3), a Left press moves the camera to (-0.1,0,3), and the following release leaves it there. |
| `VertexLayout.Fetch` | main.cpp:152-156 | One attribute pointer with offset 0 or 3 reads, for vertex i, the three consecutive floats starting at 6i + offset, all inside the buffer. |
| `VertexLayout.VertexAt` | main.cpp:152-156 | Both attribute pointers together read vertex i from within the buffer: floats 6i to 6i+5. |
| `VertexLayout.VertexAtPacked` | main.cpp:152-156 | The vertex read at index i is the one whose six-float packing is exactly the i-th window of the buffer. |
| `VertexLayout.VertexAtFloats` | main.cpp:152-156 | The position of vertex i is floats 6i..6i+2 and its colour is floats 6i+3..6i+5 (stride 6, offsets 0 and 3). |
| `VertexLayout.InterleaveLength` | main.cpp:152-156 | Packing n vertices takes exactly 6n floats, and a buffer that size holds exactly n whole vertices. |
| `VertexLayout.FetchInterleaved` | main.cpp:152-156 | Reading vertex i of a packed buffer at stride 6, offsets 0 and 3, gives back the i-th vertex that was packed. |
| `VertexLayout.DeinterleaveAt` | main.cpp:152-156 | Reading a buffer vertex by vertex gives as many vertices as it holds whole, and the i-th is what the two attribute pointers read for vertex i. |
| `VertexLayout.DeinterleaveInterleave` | main.cpp:152-156 | Packing vertices and reading them back gives the same vertices. |
| `VertexLayout.InterleaveDeinterleave` | main.cpp:152-156 | A buffer whose length is a multiple of 6 is exactly the packing of the vertices read from it. |
| `Mesh.TableShape` | main.cpp:57-70 | The table has 72 floats: 12 whole vertices, a multiple of 3, so 4 triangles. |
| `Mesh.TableDecodes` | main.cpp:57-70 | Read with the layout, the table's 12 vertices are, in order, the four triangles' corners with their colours. |
| `Mesh.TableIsPacked` | main.cpp:57-70 | The table is exactly those 12 vertices written out in the interleaved layout, and reading it back gives them. |
| `Mesh.TrianglesOfTable` | main.cpp:57-70 | Each of the 4 triangles has one colour. Every colour component is 0 or 1. The colours are blue, red, green and purple, in order. The third corner of every triangle is the apex (0, 0.5, 0). |
| `Mesh.DrawCountAsWritten` | main.cpp:190 | The count as written is the number of floats: six times the vertex count for a buffer of whole vertices, and out of bounds for any buffer holding a vertex. |
| `Mesh.DrawCountAsWrittenOverruns` | main.cpp:190 | The count passed to the draw call is 72. That is the float count, six times the 12 vertices the buffer holds. It exceeds the buffer and asks for 24 triangles where there are 4. |
| `Mesh.DrawCount` | main.cpp:190 | The corrected count is the largest number of whole vertices the buffer holds, so the draw stays within the buffer. |
| `Mesh.DrawCountDrawsTable` | main.cpp:190 | With the corrected count the draw covers the table exactly: 12 vertices, 4 triangles. |

## Left out

- Camera.FreeCamera.HandleKey: positions are exact reals. The source adds single-precision floats, and 0.1f is not exactly 0.1, so its positions drift by rounding.
- Camera.OrderDoesNotMatter: the same caveat. In floating point a different order of additions can round differently; the lemma holds for exact arithmetic.
- The global `Gaze` that every moving branch, and the Shift branches of Left and Right, overwrite (normalised direction to the origin) is not modelled. It needs a square root, it divides by zero at the origin, and it is read only by the diagnostic output.
- All `std::cout` output of the callback is left out, including the Shift-flag line at the top of the callback. It has no effect on state.
- Rotation is not modelled because the source has none. The Shift branches of the first four blocks only print (the Left/Right ones also recompute `Gaze`; main.cpp:213-222, 233-239, 250-251, 262-263), and the comment promising rotation under Control is not implemented. `controlIsPressed` and `keys[1024]` are never used; Control is just another `mods` value (see `Camera.ShiftTestIsExact`).
- Window and context creation, GL function loading, buffer upload, shader compilation and linking, and uniform lookup and upload are not modelled. Clearing, swapping buffers and the render loop's termination are left out too. These are calls into GLFW and OpenGL.
- `glm::lookAt` and `glm::perspective` are floating-point library math and are left out. Only the centre passed to `lookAt`, `cameraPos + cameraBack`, is modelled (`Camera.LookAtCenter`).
- The GLSL shader sources are text handed to the driver and are not modelled.
- What OpenGL does when a draw reads past the end of the buffer is not modelled. The model states only that the count written in the source exceeds the buffer.
- Glitter/Sources/main.cpp is not part of this model. Its key callback only prints, its loop is GL calls plus a time-based rotation, and its vertex table is a 9-vertex subset of this one.

## Findings

| source | as written | input that shows it | evidently intended | confidence | as-written member | corrected member |
|---|---|---|---|---|---|---|
| main.cpp:190 | `glDrawArrays(GL_TRIANGLES, 0, sizeof(vertices)/sizeof(vertices[0]))` passes 72, the number of floats | the table itself: 72 floats at stride 6 are 12 vertices, yet 72 vertices (24 triangles) are requested | pass the vertex count, 72 / 6 = 12, so exactly the 4 triangles are drawn | high; not executed | `Mesh.DrawCountAsWrittenOverruns` | `Mesh.DrawCountDrawsTable` |
