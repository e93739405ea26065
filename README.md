# archi core in Dafny

This is a Dafny model of the CPU-side logic of *archi*, a small Rust
OpenGL renderer (ocean, skybox, terrain). The model and its proofs cover
these parts:

- **FFT lookup table and render schedule** (`archi/src/fft.rs`, and the earlier
  fixed-size engine `src/fft.rs`).
  - The twiddle/index table has one column per butterfly stage and one row
    per texel row. The model holds each texel's twiddle exponent and its two
    butterfly input indices.
  - For stage 0 those indices are bit-reversed, computed as
    `reverse_bits().rotate_left(stages)` on `u32`.
  - The render schedule is `2 * stages` butterfly passes followed by one
    inversion pass. The passes ping-pong between two textures, and the first
    failing pipeline call ends the render with an error.
- **Grid index buffers** (`archi/src/grid.rs`, `src/grid.rs`): the quad
  patches of `square_patch_grid`, and the restart-separated triangle strips of
  `strip_grid`.
- **Meshes.**
  - Skybox cube: its 24 vertices and 36 indices, and removing the translation
    from the view matrix. The loop is the same in `archi/src/skybox.rs` and
    `src/skybox.rs`.
  - The cube, quad and icosahedron of `src/mesh.rs`.
  - The slice operations these builders use in place: `reverse`,
    `rotate_left` and `rotate_right`.
- **Shader include preprocessor** (`archi/src/shader/preprocessor.rs`).
  - A `#pragma include "name"` line is replaced by the expansion of the
    registered header with that name.
  - Each header name is expanded at most once per top-level expansion.
    That holds for names only. A header whose expansion is already cached
    comes back with its own includes inlined, so their text can appear a
    second time (see Findings).
  - An expansion is cached by source name; entries already in the cache are
    never replaced.
  - A corrected cache, which never changes what an expansion yields, is
    modelled beside it (`IncludeCache.CachedPreprocessor`).
  - Parsing an include directive relies on `str::lines` and
    `split_whitespace`, which are modelled too.
- **Shader program assembly** (`archi/src/shader.rs`).
  - A header is registered under its basename.
  - `compile_stages` compiles every present stage before it reports the first
    error, in stage order.
- **Input state** (`archi/src/input.rs`).
  - Six movement flags, set and cleared by scancode.
  - The three movement axes those flags resolve to.
  - The mouse deltas, which every new batch of events resets.
- **The `Lazy` cell** (`archi/src/main.rs`): it polls a loader closure until
  the closure first yields a value, then keeps that value.

The code is either pure or stateful, and the model follows that split:

- **Pure code** is modelled as functions.
- **Step-by-step loops** are modelled as methods with loop invariants. These
  are the table builders, the index-buffer builders and the render passes.
  Each method is proved equal to a specification function, and lemmas prove
  the properties the code relies on.
- **Objects updated in place** are modelled as classes: `Preprocessor`,
  `CachedPreprocessor`, `Movement`, `Input` and `Lazy`.

Every `u32` is a natural number below 2^32. The wrap-around and overflow
points are written out where they matter.

Two details follow the code:

- A top-level source can share its name with a header it includes, directly
  or indirectly. The model then does what the code does: the nested
  expansion is cached first, and the top-level result overwrites it.
- `archi/src/shader.rs` registers headers with `glsl_include::Context`, an
  external crate. The in-repository preprocessor is modelled on its own.

## Model

| member | source | states |
|---|---|---|
| Bits.Log2Floor | archi/src/fft.rs:31-32 | the result k is the unique exponent with 2^k <= n < 2^(k+1) |
| Bits.LeadingZerosIsLog2 | archi/src/fft.rs:184 | for 1 <= w < 2^32, 31 - leading_zeros(w) is floor(log2 w) |
| Bits.ReverseThenRotate | archi/src/fft.rs:50 | for i < 2^s, reversing all 32 bits and rotating left by s reverses the low s bits of i |
| Bits.RevBitsInvolution | archi/src/fft.rs:50 | reversing s bits twice gives the index back |
| Fft.WingPair | archi/src/fft.rs:48-56 | the butterfly pair of row y at a span: the second is the first plus the span, the first lies in the top half of its group, and y is one of the two |
| Fft.TwiddleIndices | archi/src/fft.rs:20-79 | for a power-of-two size, stages is log2(size) and the pushed texels are exactly the table specification, row by row |
| Fft.TableLayout | archi/src/fft.rs:39-72 | the table has size * stages texels, and texel (x, y) sits at y * stages + x |
| Fft.TexelPairAbove0 | archi/src/fft.rs:41-56 | after stage 0 the pair of row y is (u, u + 2^x) with u in the top wing, both below the size, y one of them |
| Fft.TexelStage0 | archi/src/fft.rs:48-62 | at stage 0 rows 2j and 2j+1 both hold the bit-reversed indices of 2j and 2j+1 |
| Fft.StagesIsLog2 | archi/src/fft.rs:184 | the stage count of a width is floor(log2 width), and the width's log2 for a power of two |
| Fft.ReverseIndexIsRevBits | archi/src/fft.rs:50 | the `reverse` closure is s-bit reversal for every index below 2^s |
| Fft.TwiddleExponentExact | archi/src/fft.rs:45 | `y * size / index` divides exactly, so k is y * 2^(stages-x-1) mod size |
| Fft.BuffersParity | archi/src/fft.rs:186-232 | after an even number of swaps the ping-pong pair is [ping, output]; after an odd number it is [output, ping] |
| Fft.ButterflyAt | archi/src/fft.rs:190-233 | the butterfly of (direction, stage) is pass number direction * stages + stage and reads and writes the current pair |
| Fft.InversionAt | archi/src/fft.rs:235-262 | the last pass is the inversion from ping into the output |
| Fft.PlanChains | archi/src/fft.rs:188-238 | every pass reads the texture the previous pass wrote |
| Fft.PlanSlots | archi/src/fft.rs:186-238 | no pass reads the texture it writes, no pass writes the input, and only the first pass reads the input |
| Fft.PlanEndsInOutput | archi/src/fft.rs:235-265 | the schedule ends with the inversion into the output, and the last butterfly writes ping |
| Fft.WidthOneReadsUnwrittenPing | archi/src/fft.rs:184-238 | a width of 1 has no butterfly pass, so the inversion reads ping, which nothing wrote |
| Fft.FirstFailure | archi/src/fft.rs:230 | the index of the first failing pipeline call: all calls before it succeed, and it fails unless it is n |
| Fft.DirectionPasses | archi/src/fft.rs:191-233 | one direction's passes follow the schedule and stop at the first failing call |
| Fft.ButterflyPasses | archi/src/fft.rs:190-234 | the passes made are a prefix of the schedule; on success all 2 * stages are made and the pair is that of the schedule |
| Fft.Render | archi/src/fft.rs:168-266 | the passes made are the schedule up to and including the first failure, whose error is returned; with no failure the whole schedule runs and the output is returned |
| FftLegacy.SideIsPow2 | src/fft.rs:12-24 | N is 2^8, so log2 N is exactly 8 |
| FftLegacy.TwiddleIndices | src/fft.rs:18-66 | N * 8 texels, equal to the later engine's table for 2^8 rows |
| FftLegacy.Render | src/fft.rs:140-218 | the passes are the whole fixed schedule, and the result is the target of its last pass |
| FftLegacy.PlanChains | src/fft.rs:155-193 | every pass reads the texture the previous pass wrote |
| FftLegacy.PlanSlots | src/fft.rs:155-193 | no pass reads the texture it writes, no pass writes the input, and only the first pass reads the input |
| FftLegacy.ResultBuffer | src/fft.rs:194-216 | the inversion writes buffer 1 - bits % 2, which is buffer 1 for N = 256 |
| Grid.MaxSideIsLargest | archi/src/grid.rs:18-24 | 65535 is the largest side for which every vertex index fits in a u32 |
| Grid.SquarePatchGrid | archi/src/grid.rs:6-30 | the pushed indices are the patch specification and number 4 * s * s |
| Grid.SquarePatchLength | archi/src/grid.rs:28 | the length the final assertion checks: 4 * s indices per line |
| Grid.SquarePatchLayout | archi/src/grid.rs:18-25 | patch (x, y) occupies indices 4 * (x * s + y) to 4 * (x * s + y) + 3 |
| Grid.PatchCorners | archi/src/grid.rs:21-24 | the four corners of patch (x, y) are vertices (x, y), (x, y+1), (x+1, y+1), (x+1, y), in that order |
| Grid.SquarePatchBound | archi/src/grid.rs:18-25 | every index names a vertex of the grid: below (s + 1)^2 |
| Grid.StripGrid | src/grid.rs:5-25 | for 1 <= s <= 65535 the pushed indices are the strip specification, and their count is the reserved capacity s * (2(s+1) + 1) - 1 |
| Grid.StripLength | src/grid.rs:11-23 | the strips fill the reserved capacity exactly |
| Grid.StripLayout | src/grid.rs:14-21 | strip x pairs vertex (x, y) with vertex (x+1, y), and a restart precedes every strip but the first |
| Grid.StripVertexBound | src/grid.rs:18-20 | every vertex index of a strip is at most (s + 1)^2 - 1 |
| Grid.StripRestartCount | src/grid.rs:15-17 | below side 65535 the restart marker occurs exactly s - 1 times |
| Grid.StripLastVertex | src/grid.rs:14-21 | the last index is the last vertex, (s + 1)^2 - 1 |
| Grid.RestartCollision | src/grid.rs:8-20 | at side 65535 the last vertex index equals the restart marker |
| Grid.StripGridChecked | src/grid.rs:5-25 | builds the strips only when every vertex index is below the marker; then the markers are exactly the s - 1 separators |
| Slices.Reverse | src/mesh.rs:189 | the array afterwards is its old contents reversed |
| Slices.ReverseRange | archi/src/skybox.rs:66 | the helper behind the three reversals of `rotate_left`: reverses exactly the range lo..hi and leaves the rest unchanged |
| Slices.RotateLeft | archi/src/skybox.rs:66 | the array afterwards is its old contents rotated left by k |
| Slices.RotateRight | src/mesh.rs:179 | the array afterwards is its old contents rotated right by k |
| Slices.RotatedLeftAt | archi/src/skybox.rs:66 | entry i of a left rotation by k is entry (i + k) mod n |
| Slices.RotatedRightAt | src/mesh.rs:227 | entry i moves to (i + k) mod n under a right rotation |
| Slices.RotatedRightIsLeft | src/mesh.rs:179 | a right rotation by k is the left rotation by n - k and undoes the left rotation by k |
| Mesh.Centred | src/mesh.rs:168-180 | each coordinate is the corner's integer coordinate minus 0.5 |
| Mesh.RotatedArray | src/mesh.rs:178-179 | the corner triple rotated right in place by the plane |
| Mesh.Cube | src/mesh.rs:166-198 | 24 positions and 36 indices, equal to the face-by-face specification |
| Mesh.FaceCorners | src/mesh.rs:175-184 | the four corners of a face, in the order of the unit-square list |
| Mesh.FaceEntries | src/mesh.rs:185-195 | the six indices of a face, offset by 4 * face |
| Mesh.WindingValues | src/mesh.rs:187-191 | faces 0-2 use the reversed winding [0,3,2,2,1,0], and faces 3-5 use [0,1,2,2,3,0] |
| Mesh.CubeIndicesAt | src/mesh.rs:185-195 | index 6f + i is 4f plus the face's winding entry, so it names a vertex of face f |
| Mesh.CubePositionsAt | src/mesh.rs:172-184 | position 4f + j is the centred corner j of face f |
| Mesh.CubeCorner | src/mesh.rs:173-181 | each corner coordinate is 0 or 1; on the face's axis it is 0 for faces 0-2 and 1 for faces 3-5; the other two axes carry the unit-square point |
| Mesh.RotationCommutes | src/mesh.rs:179 | rotating both operands commutes with subtraction and the cross product |
| Mesh.QuadAreas | src/mesh.rs:187-189 | each triangle of the plain winding has signed area 1 in the unit square, and each of the reversed winding has -1 |
| Mesh.CubeFacesOutward | src/mesh.rs:172-195 | both triangles of every face have the face's outward normal, because reversing the winding flips the low faces |
| Mesh.QuadShape | src/mesh.rs:201-211 | four corners at (+-1, +-1, 0) and the two triangles of the plain winding |
| Mesh.Icosahedron | src/mesh.rs:214-238 | 12 positions, where position v is vertex (v / 3, v % 3), and the fixed 60 indices |
| Mesh.IcoVertexShape | src/mesh.rs:220-229 | vertex (i, k) is zero on axis k+2, +-scale on axis k and +-t on axis k+1, with the signs of i's two bits |
| Mesh.IcoIndicesProper | src/mesh.rs:232-236 | the 20 triangles name vertices below 12 and three distinct vertices each |
| Skybox.CornerPosition | archi/src/skybox.rs:61-69 | the array after the rotation and the reversal is the position specification |
| Skybox.CubeMesh | archi/src/skybox.rs:50-89 | the pushed vertices and indices are the specification, 24 and 36 of them as the assertions check |
| Skybox.DimensionFaces | archi/src/skybox.rs:57-85 | one dimension appends its two faces' vertices and indices |
| Skybox.FaceCorners | archi/src/skybox.rs:59-78 | the four vertices of a face, with uv (x, y) |
| Skybox.IndicesAt | archi/src/skybox.rs:58-84 | face f's six indices are 4f + [0,1,2,1,2,3], so they name its own four vertices |
| Skybox.VerticesAt | archi/src/skybox.rs:56-78 | vertex 4(2 * dimension + z) + 2x + y is corner (x, y) of face (dimension, z) |
| Skybox.PositionShape | archi/src/skybox.rs:61-69 | every coordinate is -1 or 1, and the face's own axis carries 2z - 1 |
| Skybox.FacesDistinct | archi/src/skybox.rs:56-69 | the six faces lie on six different sides of the cube |
| Skybox.ClearTranslation | archi/src/skybox.rs:120-124 | the view matrix afterwards has entries 12-14 zeroed and nothing else changed |
| Skybox.WithoutTranslation | src/skybox.rs:166-170 | entries 12-14 are zero and the rest are the view's |
| RustStr.WordsSkipWhitespace | archi/src/shader/preprocessor.rs:40 | leading whitespace does not change `split_whitespace` |
| RustStr.SingleWord | archi/src/shader/preprocessor.rs:40-42 | whitespace, one token, whitespace split into exactly that token |
| RustStr.NoWordsAllWhitespace | archi/src/shader/preprocessor.rs:40-42 | no token means the text is all whitespace |
| RustStr.OneWord | archi/src/shader/preprocessor.rs:40-42 | exactly one token means the text is whitespace, the token, whitespace |
| RustStr.LinesJoin | archi/src/shader/preprocessor.rs:76-102 | joining the lines of a text, each with '\n', gives the text back with a final '\n' added when missing |
| RustStr.LinesHaveNoNewline | archi/src/shader/preprocessor.rs:76 | no line contains '\n' |
| ShaderPreprocessor.ParseIncludeNameComplete | archi/src/shader/preprocessor.rs:39-52 | a quoted whitespace-free name between whitespace parses to that name |
| ShaderPreprocessor.ParseIncludeNameSound | archi/src/shader/preprocessor.rs:39-52 | every parsed name came from such a directive: whitespace, quote, name, quote, whitespace |
| ShaderPreprocessor.LineEnded | archi/src/shader/preprocessor.rs:94-98 | the header text, or it followed by one added '\n'; either way it ends in '\n' |
| ShaderPreprocessor.ExpandSource | archi/src/shader/preprocessor.rs:58-113 | the included set only grows, and only by registered names; the headers inlined are new, distinct names added to it |
| ShaderPreprocessor.ExpandLines | archi/src/shader/preprocessor.rs:76-103 | the same for the line loop |
| ShaderPreprocessor.ExpandInclude | archi/src/shader/preprocessor.rs:77-98 | the same for one include line |
| ShaderPreprocessor.NoIncludeUnchanged | archi/src/shader/preprocessor.rs:67-108 | a body without an include line is returned and cached unchanged |
| ShaderPreprocessor.PlainLinesJoined | archi/src/shader/preprocessor.rs:99-102 | lines without includes are copied, each followed by '\n' |
| ShaderPreprocessor.PlainPrefix | archi/src/shader/preprocessor.rs:76-102 | lines before the first include are copied as they are |
| ShaderPreprocessor.UnregisteredIsNotFound | archi/src/shader/preprocessor.rs:85-86 | the special case where the first include names an unregistered header: the expansion fails with NotFound itself (for an include at any position, IncludesRegistered shows the expansion cannot succeed) |
| ShaderPreprocessor.LinesIncludeRegistered | archi/src/shader/preprocessor.rs:76-98 | when the line loop succeeds, every include line in it parses to a registered header name |
| ShaderPreprocessor.IncludesRegistered | archi/src/shader/preprocessor.rs:63-98 | when a top-level expansion of an uncached source succeeds, every include line of its body names a registered header |
| ShaderPreprocessor.NoHitSource | archi/src/shader/preprocessor.rs:63-92 | from a cache holding only included names, an uncached source leaves a cache holding only included names and its own |
| ShaderPreprocessor.NoHitLines | archi/src/shader/preprocessor.rs:76-104 | the same for the line loop: the cache keeps holding only included names |
| ShaderPreprocessor.NoHitInclude | archi/src/shader/preprocessor.rs:81-98 | the same for one include line; a header not yet included is then not cached either and is expanded from its body |
| ShaderPreprocessor.ExpansionEndsInNewline | archi/src/shader/preprocessor.rs:73-105 | an expanded body with an include is empty or ends in '\n' |
| ShaderPreprocessor.SourceKeepsCache | archi/src/shader/preprocessor.rs:63-110 | cache entries present before an expansion are neither dropped nor changed |
| ShaderPreprocessor.SuccessIsCached | archi/src/shader/preprocessor.rs:110-112 | a successful expansion is cached under the source's name |
| ShaderPreprocessor.SecondExpandIsCached | archi/src/shader/preprocessor.rs:63-65 | a second expansion of a name returns the first result, whatever the body, and changes nothing |
| ShaderPreprocessor.HasPragma | archi/src/shader/preprocessor.rs:68-71 | true exactly when some line starts with the pragma |
| ShaderPreprocessor.Preprocessor.constructor | archi/src/shader/preprocessor.rs:31-33 | no headers, empty cache |
| ShaderPreprocessor.Preprocessor.AddHeader | archi/src/shader/preprocessor.rs:35-37 | the header map gains or replaces one entry, and the cache is unchanged |
| ShaderPreprocessor.Preprocessor.Expand | archi/src/shader/preprocessor.rs:54-56 | result and new cache are those of the expansion specification from an empty included set |
| ShaderPreprocessor.Preprocessor.ExpandRecursive | archi/src/shader/preprocessor.rs:58-113 | result, cache and included set are those of the expansion specification |
| ShaderPreprocessor.Preprocessor.ExpandBody | archi/src/shader/preprocessor.rs:74-104 | the line loop: result, cache and included set are those of the line-loop specification |
| IncludeCache.IncludeOnlySkipped | archi/src/shader/preprocessor.rs:76-83 | a body that only includes an already included name expands to empty text, cached under its name |
| IncludeCache.IncludeOnlyInlined | archi/src/shader/preprocessor.rs:76-98 | a body that only includes a new registered name expands to that header's expansion ending in '\n' |
| IncludeCache.CachedHeaderInlinedTwice | archi/src/shader/preprocessor.rs:63-94 | with headers a = include of b and b = t, expanding include-b-then-include-a gives t once with an empty cache and twice after an earlier expansion of include-a |
| IncludeCache.CachedPreprocessor.constructor | archi/src/shader/preprocessor.rs:31-33 | no headers, no kept results |
| IncludeCache.CachedPreprocessor.AddHeader | archi/src/shader/preprocessor.rs:35-37 | the header map gains or replaces one entry, and every kept result is dropped |
| IncludeCache.FreshExpansionInlinesOnce | archi/src/shader/preprocessor.rs:54-94 | an expansion from an empty cache inlines distinct headers, and every cache entry it leaves is one of them or the source, so no header text comes from an earlier expansion |
| IncludeCache.CachedPreprocessor.Expand | archi/src/shader/preprocessor.rs:54-65 | the result is always that of an expansion with an empty cache, whatever was expanded before, and that expansion inlines each header's text at most once; a success is kept |
| Shader.RFind | archi/src/shader.rs:20 | the last position of the character, or none when absent |
| Shader.Basename | archi/src/shader.rs:20-24 | the name is the longest suffix of the path without '/' |
| Shader.BasenameCases | archi/src/shader.rs:20-24 | a path without '/' is its own name, and dir/file is named file |
| Shader.Jobs | archi/src/shader.rs:72-93 | two compilations plus two more with tessellation and one more with geometry |
| Shader.FirstFailure | archi/src/shader.rs:85-95 | none exactly when every compilation succeeds |
| Shader.FirstFailureIsFirst | archi/src/shader.rs:85-95 | the reported error is that of a compilation all of whose predecessors succeeded |
| Shader.FirstFailureSplit | archi/src/shader.rs:85-95 | the first failure in order tessellation control, tessellation evaluation, vertex, geometry, fragment |
| Shader.CompileStages | archi/src/shader.rs:65-96 | every present stage is compiled; the error is the first failure, and on success each stage is its compilation |
| InputEvents.DirectionOf | archi/src/input.rs:56-64 | a recognised scancode is the one bound to its direction |
| InputEvents.ScancodeRoundTrip | archi/src/input.rs:56-64 | the scancode-to-direction mapping inverts the binding, both ways |
| InputEvents.Press | archi/src/input.rs:51-70 | the bound direction's flag becomes key-down, and every other flag is kept |
| InputEvents.UnboundKeyIgnored | archi/src/input.rs:63 | an unbound scancode changes no flag |
| InputEvents.PressLastWins | archi/src/input.rs:65-68 | of two events for the same key the later decides, and repeating an event changes nothing |
| InputEvents.PressCommutes | archi/src/input.rs:56-68 | events for different keys commute |
| InputEvents.Axis | archi/src/input.rs:72-78 | 1 when only the positive key is held, -1 when only the negative key is held, 0 otherwise |
| InputEvents.AxisAntisymmetric | archi/src/input.rs:72-78 | swapping the keys negates the axis |
| InputEvents.Opposite | archi/src/input.rs:80-90 | the opposite direction is on the same axis with the other sign |
| InputEvents.Axes | archi/src/input.rs:80-94 | an axis points towards a direction exactly when its key is held and the opposite key is not |
| InputEvents.PressSteers | archi/src/input.rs:56-94 | pressing a key without its opposite steers its axis that way, and releasing it stops that |
| InputEvents.Movement.constructor | archi/src/input.rs:39-48 | no key held |
| InputEvents.Movement.Update | archi/src/input.rs:51-70 | the flags become those after the key event |
| InputEvents.Movement.CurrentAxes | archi/src/input.rs:72-94 | each component is -1, 0 or 1; x is 1 exactly when only right is held and -1 exactly when only left is; y likewise for up and down; z for backward and forward |
| InputEvents.MouseUpdate | archi/src/input.rs:14-28 | motion sets both deltas; a line scroll stores y / 10 and a pixel scroll x / 100; other events change nothing |
| InputEvents.Step | archi/src/input.rs:112-122 | new events reset the mouse, device events leave the keys, key events leave the mouse, others change nothing |
| InputEvents.KeysFollowKeyEvents | archi/src/input.rs:112-122 | after any event sequence the flags are those of the key events alone, in order |
| InputEvents.NewEventsClearsMouse | archi/src/input.rs:114 | after a new batch starts, the mouse deltas are zero |
| InputEvents.Input.constructor | archi/src/input.rs:97-101 | no key held and zero mouse deltas |
| InputEvents.Input.Update | archi/src/input.rs:112-122 | the state becomes that after the event |
| LazyCell.Poll | archi/src/main.rs:56-64 | Done stays; Pending becomes Done with the answer exactly when there is one |
| LazyCell.Current | archi/src/main.rs:57-63 | a value exactly when Done, and it is the held value |
| LazyCell.Lazy.constructor | archi/src/main.rs:46-49 | starts Pending with no closure calls |
| LazyCell.Lazy.Value | archi/src/main.rs:51-66 | the state polls once, the closure is called only when Pending, and the result is the value now held |
| LazyCell.DoneIsFinal | archi/src/main.rs:57 | a Done cell never changes and never calls its closure again |
| LazyCell.PendingTakesFirstAnswer | archi/src/main.rs:56-64 | from Pending the cell holds the first answer after that many calls, or stays Pending having called every time |

## Left out

- Floating point.
  - The cosine and sine of a twiddle texel are not computed; a texel holds
    its exponent k, which determines both.
  - Mesh coordinates are exact reals, and skybox coordinates are integers,
    which f32 holds exactly.
  - The icosahedron's scale and golden-ratio coordinate are symbolic.
  - Mouse scroll values are exact reals.
- Fft.TwiddleIndices: only for power-of-two sizes up to 2^24. Below that
  every f32 value of the loop is exact. For other sizes f32 rounding of
  `log2` and of `y * n / index` would change the table, and that rounding
  is not modelled.
- GPU work is not modelled:
  - texture creation and upload, framebuffers and pipelines;
  - the `Tess` objects built from the index buffers;
  - `Mesh::new`, `draw`, and shader linking.
- Fft.Render: a pipeline call is an oracle saying whether it succeeds. The
  shading itself is not modelled.
- Fft.Stages: requires a width of at least 1. At width 0
  `31 - leading_zeros(0)` underflows in u32 and panics (archi/src/fft.rs:184).
- Fft.Render: requires a width of at least 1, for the same reason; the
  panic at width 0 is not modelled.
- Shader.CompileStages: compiling one stage (`compile_stage`, which goes
  through `glsl_include`, an external crate) is a function parameter. The
  context it threads through is not modelled, and neither are the error
  messages attached with `with_context`.
- Header registration through `glsl_include::Context` in `archi/src/shader.rs`
  is external. Only the name it registers under (Shader.Basename) is modelled.
- The thread and channel behind `Lazy` are not modelled. The closure's
  answer to each call is a parameter.
- The `mouse` field of `Movement` is never read or written by the code, so
  it is not modelled.
- The window and device event loops of `main.rs` are not modelled: they are
  I/O and rendering. Only the per-event steps of `Input::update` are kept.
- RustStr.LinesJoin: stated only for text without '\r'. `str::lines` also
  drops a '\r' before a '\n', and that is modelled in `Lines`.
- Slices.RotateLeft: implemented by three reversals rather than the
  standard library's algorithm. Only the resulting contents are specified.
- Grid.StripGrid: requires a side of at least 1, because side 0 underflows
  the capacity computation and panics. It also requires a side of at most
  65535, beyond which the u32 index arithmetic overflows.
- Grid.SquarePatchGrid: requires a side of at most 65535, beyond which the
  u32 index arithmetic overflows.
- The `usize` capacity reservations are not modelled as allocations. Their
  value is stated as the length the final assertions check.

## Findings

| source | as written | input that shows it | evidently intended | confidence | as-written member | corrected member |
|---|---|---|---|---|---|---|
| src/grid.rs:8-20 | the restart marker is `u32::MAX`, and the largest side the u32 arithmetic admits is 65535 | side 65535: the last vertex index, x * 65536 + 65535 + 65536 with x = 65534, is 2^32 - 1, the restart marker, so the last vertex reads as a primitive restart | vertex indices stay below the marker, so sides are limited to 65534 or rejected | low, not executed | Grid.RestartCollision | Grid.StripGridChecked |
| archi/src/shader/preprocessor.rs:63-94 | the cache is keyed by name alone and is checked at 63-65, before the `included_names` check at 81-83, so a cached header returns with its includes already inlined | headers a = `#pragma include "b"`, b = `b`; expand x = `#pragma include "a"`, then y = `#pragma include "b"` and `#pragma include "a"`: y yields "b\nb\n", where with an empty cache it yields "b\n\n" | each header's text is inlined at most once per expansion, and a result does not depend on earlier calls | medium, not executed | IncludeCache.CachedHeaderInlinedTwice | IncludeCache.CachedPreprocessor.Expand |
