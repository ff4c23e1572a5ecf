# Blackjack and tornasol, modelled in Dafny

This project models the parts of the blackjack game and its small
`tornasol` engine that are pure bookkeeping or exact arithmetic. It also
proves properties of that model.

- **Linear algebra and geometry.** Covers the `vec`/`mat` templates, the
  `move`/`scale`/`ortho` transforms, `rect`, `size2` and the arithmetic of
  `color`.
  - Numbers are exact reals.
  - A vector is a sequence whose elements 0..3 are x, y, z, w.
  - A matrix is a sequence of columns: `m[i][j]` is column i, row j, as in the
    source.
  - Operators that the source writes as loops are methods. Each is proved
    equal to a specification function, and the algebra is proved about those
    functions.
  - `move` and `scale` update a 4x4 `array2` in place.
- **Render bookkeeping.** Covers `mesh_renderer` (the quad data it uploads,
  its layout, and its `wireframe` and `pending_to_render` flags) and
  `renderer` (registered meshes, the `frame`/`calls` counters, `next_frame`).
  - Both are classes.
  - OpenGL calls are recorded as a trace of events.
- **Game logic.**
  - `hand`: value, blackjack and bust tests, adding cards, the random layout.
    The layout is a nondeterministic choice within the source's bounds.
  - The suit tables of `card`.
  - The three-state `ui_button`.
- **Chat room of the server.**
  - `message` framing, with its 4-byte header.
  - `room`: join, leave, and deliver with a 100-entry history.
  - A participant's `deliver` appends to an inbox.
- **Card-image rename scripts.**
  - A directory is a `map` from path to content.
  - `os.rename` is a map update that fails when the source is missing.
  - A failing rename stops the run, as the uncaught exception does.

Modules follow the source files:

| module | source file |
|---|---|
| `Vector` | `vector.cc` |
| `Matrix` | `matrix.cc` |
| `Transform` | `transform.cc` |
| `Rect` | `rect.cc` |
| `Size` | `size.cc` |
| `Color` | `color.cc` |
| `Mesh` | `mesh.cc` |
| `Renderer` | `renderer.cc` |
| `Hand` | `hand.cc` |
| `Cards` | `card.cc` |
| `UiButton` | `ui_button.cc` |
| `Server` | `server.cc` |
| `RenameCards` | `scripts/rename_cards.py` |
| `CardsRename` | `build/content/cards/rename.py` |

`FileSystem` holds the directory map and the Python string helpers; it is
shared by the two rename modules. `Wrappers` holds `Option` and `Result`.

## Model

| member | source | states |
|---|---|---|
| Vector.Equal | source/tornasol/vector.cc:159-166 | `u == v` holds iff every component is equal, i.e. iff the vectors are equal |
| Vector.NotEqual | source/tornasol/vector.cc:168-172 | `u != v` holds iff some component differs, the negation of `==` |
| Vector.Neg | source/tornasol/vector.cc:180-187 | the loop negates every component |
| Vector.Add | source/tornasol/vector.cc:189-196 | the loop adds componentwise |
| Vector.Sub | source/tornasol/vector.cc:198-205 | the loop subtracts componentwise |
| Vector.MulScalar | source/tornasol/vector.cc:207-215 | `v * s` scales every component by s |
| Vector.ScalarMul | source/tornasol/vector.cc:217-221 | `s * v` gives the same vector as `v * s` |
| Vector.DivScalar | source/tornasol/vector.cc:223-230 | `v / s` divides every component by a non-zero s |
| Vector.Dot | source/tornasol/vector.cc:249-256 | the accumulator loop computes the sum of componentwise products |
| Vector.Lerp | source/tornasol/vector.cc:286-293 | the loop computes `(1 - t) * u + t * v` componentwise |
| Vector.Swizzle | source/tornasol/vector.cc:88-144 | a swizzle of a vec3 gives a vec2 and of a vec4 a vec3, each result component read from the vector |
| Vector.SwizzleDropsOne | source/tornasol/vector.cc:88-144 | every swizzle reads distinct components: its result holds the vector's components with exactly one dropped, in some order |
| Vector.AddSubRoundTrip | source/tornasol/vector.cc:189-205 | `(u + v) - v == u` |
| Vector.NegationProperties | source/tornasol/vector.cc:180-205 | unary `-` is an involution, and `u - v == u + (-v)` |
| Vector.ScaleDivRoundTrip | source/tornasol/vector.cc:207-230 | `(v * s) / s == v` for non-zero s |
| Vector.DotToSymmetric | source/tornasol/vector.cc:249-256 | every partial dot sum is symmetric in its arguments |
| Vector.DotSymmetric | source/tornasol/vector.cc:249-256 | `dot(u, v) == dot(v, u)` |
| Vector.DotToPrefix | source/tornasol/vector.cc:249-256 | after n steps the accumulator holds the dot product of the first n components |
| Vector.DotToAgree | source/tornasol/vector.cc:249-256 | the partial sum depends only on the components it has read |
| Vector.DotSelfNonNegative | source/tornasol/vector.cc:232-241 | `dot(v, v)`, the sum `len` takes a root of, is never negative |
| Vector.DotOfThree | source/tornasol/vector.cc:249-256 | on vec3, dot is `x*x' + y*y' + z*z'` |
| Vector.CrossSelfZero | source/tornasol/vector.cc:258-266 | `cross(u, u)` is the zero vector |
| Vector.CrossOrthogonal | source/tornasol/vector.cc:258-266 | `cross(u, v)` is orthogonal to both u and v |
| Vector.LerpEndpoints | source/tornasol/vector.cc:286-293 | `lerp(u, v, 0) == u` and `lerp(u, v, 1) == v` |
| Vector.ExtendXyz | source/tornasol/vector.cc:118-121 | `vec4(v, w).xyz() == v`, its w is w, and w defaults to 0 |
| Vector.Extend | source/tornasol/vector.cc:118-119 | `vec4(v, w)` copies x, y, z from v and takes w; `Vector.ExtendXyz` states the round trip through `xyz()` |
| Vector.Cross | source/tornasol/vector.cc:258-266 | the y·z−z·y, z·x−x·z, x·y−y·x formula; `Vector.CrossSelfZero` and `Vector.CrossOrthogonal` state its properties |
| Matrix.FromList | source/tornasol/matrix.cc:47-54 | the initializer list is read row-major: column i, row j gets `arr[j*M + i]` |
| Matrix.RowsOfFromRowMajor | source/tornasol/matrix.cc:47-54 | row j of the constructed matrix is the j-th run of M list entries |
| Matrix.Diagonal | source/tornasol/matrix.cc:56-63 | `mat(s)` has s on the diagonal and 0 everywhere else |
| Matrix.Mul | source/tornasol/matrix.cc:150-165 | the nested loops compute `c[i][j] = sum over k of a[k][j] * b[i][k]` |
| Matrix.Apply | source/tornasol/matrix.cc:167-181 | matrix times vector gives `r[i] = sum over j of m[j][i] * v[j]` |
| Matrix.ApplyRow | source/tornasol/matrix.cc:183-197 | vector times matrix, by its specification function |
| Matrix.Transpose | source/tornasol/matrix.cc:199-209 | the transpose has `t[j][i] == m[i][j]` for every in-range i, j (loop bounds corrected, see Findings) |
| Matrix.Submat | source/tornasol/matrix.cc:211-221 | submat drops the given column and row and shifts later indices down by one |
| Matrix.SubmatColumn | source/tornasol/matrix.cc:216-219 | one column of the submatrix, taken from column i of m without the given row |
| Matrix.Det | source/tornasol/matrix.cc:231-246 | det is `m[0][0]` for 1x1, otherwise the expansion along column 0 |
| Matrix.ExpansionStep | source/tornasol/matrix.cc:242-243 | each loop step adds `m[0][i] * cofactor(m, 0, i)` to the sum |
| Matrix.Cofactor | source/tornasol/matrix.cc:223-229 | the cofactor is the signed determinant of the submatrix, + when col+row is even |
| Matrix.Adj | source/tornasol/matrix.cc:248-258 | adj is the transpose of the cofactor matrix |
| Matrix.CofactorColumn | source/tornasol/matrix.cc:253-255 | column i of the cofactor matrix holds `cofactor(m, i, j)` for each j |
| Matrix.DivScalar | source/tornasol/matrix.cc:141-148 | `m / s` divides every entry by a non-zero s |
| Matrix.Inv | source/tornasol/matrix.cc:260-265 | inv requires `det(m) != 0` and returns `adj(m) / det(m)` |
| Matrix.ProductIdentityLeft | source/tornasol/matrix.cc:150-165 | `mat(1) * b == b` |
| Matrix.ProductIdentityRight | source/tornasol/matrix.cc:150-165 | `a * mat(1) == a` |
| Matrix.IdentityLeftEntry | source/tornasol/matrix.cc:150-165 | partial product sums against the identity pick out one entry |
| Matrix.IdentityRightEntry | source/tornasol/matrix.cc:150-165 | the same on the right |
| Matrix.ApplyIdentity | source/tornasol/matrix.cc:167-181 | `mat(1) * v == v` |
| Matrix.IdentityAppliedEntry | source/tornasol/matrix.cc:167-181 | partial sums of `mat(1) * v` pick out one component |
| Matrix.TransposeInvolution | source/tornasol/matrix.cc:199-209 | transposing twice gives the matrix back |
| Matrix.TransposeBoundsSquareOnly | source/tornasol/matrix.cc:204-206 | the written loop bounds stay in range iff M == N (or the matrix is empty) |
| Matrix.TransposeOutOfRangeExample | source/tornasol/matrix.cc:204-206 | for a 2x3 matrix the written loops index out of range |
| Matrix.SubmatIdentity | source/tornasol/matrix.cc:211-221 | removing column 0 and row 0 of `mat(1)` gives `mat(1)` one size smaller |
| Matrix.IdentityExpansion | source/tornasol/matrix.cc:242-243 | the expansion of `mat(1)` reduces to its first cofactor |
| Matrix.DetIdentity | source/tornasol/matrix.cc:231-246 | `det(mat(1)) == 1` for every size |
| Matrix.CofactorTwoByTwo | source/tornasol/matrix.cc:223-229 | the 2x2 cofactors are the opposite entry with the checkerboard sign |
| Matrix.DetTwoByTwo | source/tornasol/matrix.cc:237-246 | the 2x2 det is `a00*a11 - a01*a10` |
| Matrix.AdjTwoByTwo | source/tornasol/matrix.cc:248-258 | the 2x2 adjugate swaps the diagonal and negates the rest |
| Matrix.InverseTwoByTwoEntries | source/tornasol/matrix.cc:260-265 | the 2x2 inverse is the closed-form adjugate over determinant |
| Matrix.InverseTwoLeft | source/tornasol/matrix.cc:260-265 | the closed-form 2x2 inverse is a left inverse |
| Matrix.InverseTwoRight | source/tornasol/matrix.cc:260-265 | the closed-form 2x2 inverse is a right inverse |
| Matrix.InverseTwoByTwoLeft | source/tornasol/matrix.cc:260-265 | `inv(m) * m == mat(1)` for every invertible 2x2 m |
| Matrix.InverseTwoByTwoRight | source/tornasol/matrix.cc:260-265 | `m * inv(m) == mat(1)` for every invertible 2x2 m |
| Transform.Move | source/tornasol/transform.cc:48-55 | move updates m in place, returns the same matrix, and adds v to `m[3][0..2]` |
| Transform.MovedEntries | source/tornasol/transform.cc:48-55 | move changes exactly `m[3][0]`, `m[3][1]` and `m[3][2]`, by x, y and z |
| Transform.MoveTwice | source/tornasol/transform.cc:48-55 | two moves equal one move by the summed vector |
| Transform.MovedIdentityTranslates | source/tornasol/transform.cc:48-55 | `move(mat(1), v)` maps the point p to p + v |
| Transform.Scale | source/tornasol/transform.cc:57-64 | scale updates m in place and multiplies the three diagonal entries by x, y and z |
| Transform.ScaledFrom | source/tornasol/transform.cc:57-64 | a matrix differing only in those three entries is the scaled matrix |
| Transform.ScaledEntries | source/tornasol/transform.cc:57-64 | scale changes only `m[0][0]`, `m[1][1]` and `m[2][2]`; the translation column stays |
| Transform.ScaledIdentityScales | source/tornasol/transform.cc:57-64 | `scale(mat(1), v)` maps p to its componentwise product with v |
| Transform.Ortho | source/tornasol/transform.cc:29-40 | ortho sets the three scale and three offset entries, and every other entry is the identity's |
| Transform.Ortho2D | source/tornasol/transform.cc:42-46 | the 4-argument ortho has near -1 and far 1, so `m[2][2] == -1`, `m[3][2] == 0` and `m[3][3] == 1` |
| Transform.OrthoAxis | source/tornasol/transform.cc:33-38 | on each axis, low maps to -1 and high maps to 1 |
| Transform.OrthoApplied | source/tornasol/transform.cc:29-40 | ortho maps a point with w = 1 affinely, axis by axis |
| Transform.OrthoMapsViewBox | source/tornasol/transform.cc:29-40 | ortho maps (l, b, -n) to (-1, -1, -1) and (r, t, -f) to (1, 1, 1) |
| Rect.SizeRoundTrip | source/tornasol/rect.cc:39-56 | a rect from a size has its corner at the origin and converts back to the same size; its area is w·h |
| Rect.CenterIsOffset | source/tornasol/rect.cc:46-52 | `center()` is (width/2, height/2), unchanged by translating the rect: an offset, not a point |
| Rect.CenterInside | source/tornasol/rect.cc:50-62 | `a + center()` lies inside every ordered rect |
| Rect.ContainsCorners | source/tornasol/rect.cc:58-62 | point containment is inclusive: an ordered rect contains its four corners |
| Rect.ContainsSelf | source/tornasol/rect.cc:64-68 | every rect contains itself |
| Rect.ContainsTransitive | source/tornasol/rect.cc:64-68 | rect containment is transitive |
| Rect.ContainsRectIffPoints | source/tornasol/rect.cc:58-68 | r contains an ordered s iff every point of s is a point of r |
| Rect.FromSize | source/tornasol/rect.cc:39-41 | `rect(size)` puts a at the origin and b at (w, h); `Rect.SizeRoundTrip` states the round trip |
| Rect.Width | source/tornasol/rect.cc:46 | width is b.x − a.x, measured from a |
| Rect.Height | source/tornasol/rect.cc:47 | height is b.y − a.y, measured from a |
| Rect.Area | source/tornasol/rect.cc:48 | area is width · height; `Rect.SizeRoundTrip` gives w·h for a rect built from a size |
| Rect.Center | source/tornasol/rect.cc:50-52 | (width/2, height/2), an offset from a; `Rect.CenterIsOffset` and `Rect.CenterInside` state this |
| Rect.ToSize | source/tornasol/rect.cc:54-56 | the size conversion gives (width, height); `Rect.SizeRoundTrip` states the round trip |
| Rect.ContainsPoint | source/tornasol/rect.cc:58-62 | point containment, inclusive on all four edges; `Rect.ContainsCorners` states the inclusive edges |
| Rect.ContainsRect | source/tornasol/rect.cc:64-68 | the inner corners nest inside the outer ones; `Rect.ContainsSelf`, `Rect.ContainsTransitive` and `Rect.ContainsRectIffPoints` state its properties |
| Size.EqualIffComponents | source/tornasol/size.cc:32-33 | `==` holds iff w and h are both equal |
| Size.AddSubRoundTrip | source/tornasol/size.cc:36-52 | `(a + b) - b == a` |
| Size.MulDivRoundTrip | source/tornasol/size.cc:54-70 | componentwise `/` undoes componentwise `*` |
| Size.ScalarMulCommutes | source/tornasol/size.cc:72-88 | `size * k == k * size` |
| Size.ScaleDivRoundTrip | source/tornasol/size.cc:72-97 | `(size * k) / k == size` |
| Size.ScalarDivInvolution | source/tornasol/size.cc:99-106 | `k / (k / size) == size` |
| Size.ScalarDivDiffersFromDivScalar | source/tornasol/size.cc:90-106 | `k / size` is not `size / k` |
| Size.Add | source/tornasol/size.cc:36-43 | componentwise sum of w and h; `Size.AddSubRoundTrip` is undone by `-` |
| Size.Sub | source/tornasol/size.cc:45-52 | componentwise difference; it undoes `+` (`Size.AddSubRoundTrip`) |
| Size.Mul | source/tornasol/size.cc:54-61 | componentwise product; `Size.MulDivRoundTrip` shows `/` undoes it |
| Size.Div | source/tornasol/size.cc:63-70 | componentwise quotient by a size with no zero component; it undoes `*` (`Size.MulDivRoundTrip`) |
| Size.MulScalar | source/tornasol/size.cc:72-79 | both components times k; `Size.ScalarMulCommutes` equates it with `k * size` |
| Size.ScalarMul | source/tornasol/size.cc:81-88 | k times both components, written scalar-first; equal to `size * k` (`Size.ScalarMulCommutes`) |
| Size.DivScalar | source/tornasol/size.cc:90-97 | both components over a non-zero k; it undoes `size * k` (`Size.ScaleDivRoundTrip`) |
| Size.ScalarDiv | source/tornasol/size.cc:99-106 | (k/w, k/h) for non-zero w and h; an involution for non-zero k (`Size.ScalarDivInvolution`) that differs from `size / k` |
| Color.FromHex | source/tornasol/color.cc:40-44 | every channel of a hex colour lies in [0, 1] |
| Color.FromHexBytes | source/tornasol/color.cc:40-44 | the value is read as 0xRRGGBBAA, each byte over 255 |
| Color.RgbIsOpaque | source/tornasol/color.cc:34-35 | the 3-argument constructor sets alpha to 1 |
| Color.Darken | source/tornasol/color.cc:54-62 | darken keeps alpha |
| Color.Lighten | source/tornasol/color.cc:64-72 | lighten keeps alpha |
| Color.DarkenLightenEndpoints | source/tornasol/color.cc:54-72 | percent 0 returns the input; percent 1 gives black or white with the same alpha |
| Color.DarkenLightenStayInUnit | source/tornasol/color.cc:54-72 | for percent in [0, 1], darken and lighten keep channels in [0, 1] |
| Color.Blend | source/tornasol/color.cc:74-87 | blend is (0,0,0,0) iff `under.a*(1-over.a)+over.a == 0`, and otherwise has that alpha |
| Color.BlendOpaqueOver | source/tornasol/color.cc:74-87 | an opaque over colour replaces the under colour |
| Color.BlendTransparentOver | source/tornasol/color.cc:74-87 | a transparent over colour leaves a visible under colour unchanged |
| Color.BlendAlphaInUnit | source/tornasol/color.cc:74-87 | blended alpha stays in [0, 1] |
| Color.LerpEndpoints | source/tornasol/color.cc:89-97 | `lerp(from, to, 0) == from` and `lerp(from, to, 1) == to` |
| Color.NegIsReciprocal | source/tornasol/color.cc:169-177 | unary `-` is the channelwise reciprocal: an involution, and its product with c is all ones |
| Color.ScalarDivIsColorDivScalar | source/tornasol/color.cc:154-167 | `2 / c` gives `c / 2`, not the reciprocal times 2 |
| Color.ArithmeticLaws | source/tornasol/color.cc:99-152 | `s * c == c * s` and `(c + d) - d == c` |
| Color.DivUndoesMul | source/tornasol/color.cc:119-137 | `(c * d) / d == c` for a colour d without zero channels |
| Color.DivScalarUndoesMulScalar | source/tornasol/color.cc:139-162 | `(c * s) / s == c` for non-zero s |
| Color.Rgb | source/tornasol/color.cc:34-35 | the 3-argument constructor; `Color.RgbIsOpaque` states its alpha is 1 |
| Color.Lerp | source/tornasol/color.cc:89-97 | `(1 − t)·from + t·to` on all four channels; `Color.LerpEndpoints` states the endpoints |
| Color.Add | source/tornasol/color.cc:99-107 | channelwise sum; undone by `-` (`Color.ArithmeticLaws`) |
| Color.Sub | source/tornasol/color.cc:109-117 | channelwise difference; it undoes `+` (`Color.ArithmeticLaws`) |
| Color.Mul | source/tornasol/color.cc:119-127 | channelwise product; undone by `/` (`Color.DivUndoesMul`) |
| Color.Div | source/tornasol/color.cc:129-137 | channelwise quotient by a colour with no zero channel; it undoes `*` (`Color.DivUndoesMul`) |
| Color.MulScalar | source/tornasol/color.cc:139-147 | every channel, alpha included, times s; undone by `/ s` (`Color.DivScalarUndoesMulScalar`) |
| Color.ScalarMul | source/tornasol/color.cc:149-152 | defined as `c * s`; `Color.ArithmeticLaws` states the two orders agree |
| Color.DivScalar | source/tornasol/color.cc:154-162 | every channel over a non-zero s; it undoes `c * s` |
| Color.ScalarDiv | source/tornasol/color.cc:164-167 | defined as `c / s`, not s over each channel; `Color.ScalarDivIsColorDivScalar` states it |
| Color.Neg | source/tornasol/color.cc:169-177 | the channelwise reciprocal, not the negation; `Color.NegIsReciprocal` states it is an involution whose product with c is all ones |
| Mesh.MeshRenderer.FromRect | source/tornasol/mesh.cc:63-127 | a colour quad is pending and keeps the given wireframe flag; it holds the rect's vertices, stride 3 and indices 0,1,3,1,2,3 |
| Mesh.MeshRenderer.FromImage | source/tornasol/mesh.cc:129-200 | an image quad is pending and never wireframe; stride 5 with UV at offset 3 |
| Mesh.MeshRenderer.SetTransform | source/tornasol/mesh.cc:212-216 | set_transform stores the model matrix and always marks the mesh pending |
| Mesh.MeshRenderer.SetPendingToRender | source/tornasol/mesh.cc:242-248 | after `set_pending_to_render(v)`, `is_pending_to_render()` is v |
| Mesh.ColorQuadCorners | source/tornasol/mesh.cc:102-112 | the colour quad reads r.b as a size: its vertices are the corners of a..a+b at z = 0 |
| Mesh.ColorQuadAtOrigin | source/tornasol/mesh.cc:102-112 | for a rect at the origin, the vertices are the rect's own corners, all contained in it |
| Mesh.ImageQuadCorners | source/tornasol/mesh.cc:171-182 | the image quad spans (0,0) to (width, height) |
| Mesh.ImageQuadUvs | source/tornasol/mesh.cc:176-182 | the UVs are (1,1), (1,0), (0,0), (0,1): u is x/width and v is 1 - y/height |
| Mesh.QuadIndexLayout | source/tornasol/mesh.cc:114-117 | six indices, all below 4; the two triangles share exactly the edge 1-3 and cover all four vertices |
| Mesh.ColorQuadVertices | source/tornasol/mesh.cc:102-112 | four vertices of 3 floats each; `Mesh.ColorQuadCorners` states they are the corners of a..a+b at z = 0 |
| Mesh.ImageQuadVertices | source/tornasol/mesh.cc:171-182 | four vertices of 5 floats each; `Mesh.ImageQuadCorners` and `Mesh.ImageQuadUvs` state positions and UVs |
| Mesh.MeshRenderer.IsPendingToRender | source/tornasol/mesh.cc:246-248 | reports the pending flag; `Mesh.MeshRenderer.SetPendingToRender` and `Mesh.MeshRenderer.SetTransform` state how it changes |
| Mesh.MeshRenderer.IsWireframe | source/tornasol/mesh.cc:238-240 | reports the wireframe flag, a `const` field fixed by the constructors |
| Renderer.Renderer.constructor | source/tornasol/renderer.cc:56-73 | a new renderer has frame 0, calls 0 and no meshes |
| Renderer.Renderer.GetStat | source/tornasol/renderer.cc:75-77 | `get_stat()` reports the two counters |
| Renderer.Renderer.SetClearColor | source/tornasol/renderer.cc:83-85 | only the clear colour changes |
| Renderer.Renderer.AddMesh | source/tornasol/renderer.cc:87-89 | add_mesh is a set insert, so adding a mesh twice registers it once |
| Renderer.Renderer.IsPendingToRender | source/tornasol/renderer.cc:91-98 | true iff some registered mesh is pending |
| Renderer.Renderer.NextFrame | source/tornasol/renderer.cc:100-113 | every registered mesh keeps its model matrix. With nothing pending, no counter, flag or trace event changes. Otherwise: clear, each mesh drawn once and unflagged, present; frame +1 and calls + the number of meshes |
| Renderer.Renderer.RenderRequests | source/tornasol/renderer.cc:106-109 | the loop draws every registered mesh exactly once and clears every pending flag |
| Renderer.Renderer.RenderOnce | source/tornasol/renderer.cc:107-108 | one loop step: draw the mesh, then clear its flag |
| Renderer.Renderer.Render | source/tornasol/renderer.cc:121-137 | render adds 1 to calls and always draws 6 indices; a wireframe mesh switches to line mode first |
| Renderer.Renderer.Clear | source/tornasol/renderer.cc:115-119 | clear emits one clear event and changes no counter |
| Renderer.Renderer.Present | source/tornasol/renderer.cc:139-141 | present emits one buffer swap and changes no counter |
| Hand.Hand.constructor | source/blackjack/hand.cc:30-33 | a new hand holds no cards |
| Hand.Hand.GetValue | source/blackjack/hand.cc:74-81 | the accumulator loop yields the sum of the card values |
| Hand.Hand.Arrange | source/blackjack/hand.cc:36-54 | card i lands at x in [pivot.x+50i, pivot.x+50i+10] and y in [pivot.y, pivot.y+5]; number, suit and count are unchanged |
| Hand.Hand.AddCard | source/blackjack/hand.cc:56-60 | add_card appends one card with the given number and suit, grows the size by 1, keeps earlier faces and their z, puts the new card at z = 0, and lays every card out in its slot |
| Hand.Hand.RemoveCard | source/blackjack/hand.cc:62-68 | remove_card leaves the hand unchanged |
| Hand.ValueConcat | source/blackjack/hand.cc:74-81 | the value of a concatenation is the sum of the values |
| Hand.ValueNonNegative | source/blackjack/hand.cc:74-81 | non-negative card values give a non-negative hand value |
| Hand.ValueGrows | source/blackjack/hand.cc:74-81 | then adding cards never lowers the value |
| Hand.ValueOrderFree | source/blackjack/hand.cc:74-81 | the value does not depend on the order of the cards |
| Hand.BlackjackIsNotBust | source/blackjack/hand.cc:83-89 | no hand is both blackjack and bust |
| Hand.BustStaysBust | source/blackjack/hand.cc:87-89 | with non-negative values, a bust hand stays bust as cards are added |
| Hand.Value | source/blackjack/hand.cc:74-81 | the sum of the per-card values; `Hand.ValueConcat`, `Hand.ValueGrows` and `Hand.ValueOrderFree` state its properties |
| Hand.Hand.GetSize | source/blackjack/hand.cc:70-72 | the number of cards; `Hand.Hand.AddCard` grows it by one |
| Hand.Hand.IsBlackjack | source/blackjack/hand.cc:83-85 | exactly two cards worth 21; `Hand.BlackjackIsNotBust` excludes bust |
| Hand.Hand.IsBust | source/blackjack/hand.cc:87-89 | value above 21; `Hand.BustStaysBust` shows it persists |
| Cards.SuitName | source/blackjack/card.cc:39-48 | the name is "" exactly for values outside 1..4 |
| Cards.SuitPip | source/blackjack/card.cc:50-59 | each suit has a one-symbol pip; other values give "" |
| Cards.SuitNameInjective | source/blackjack/card.cc:39-45 | distinct suits have distinct names |
| Cards.SuitPipInjective | source/blackjack/card.cc:50-56 | distinct suits have distinct pips |
| Cards.NameAndPipAgree | source/blackjack/card.cc:39-59 | the two tables cover exactly the same values |
| Cards.IsSuit | source/blackjack/card.cc:31-37 | the `card_suit` values clubs=1, diamonds=2, hearts=3, spades=4 |
| UiButton.NextState | source/blackjack/ui_button.cc:85-93 | pressed iff left button down and cursor inside (edges included); hover iff not down and inside; idle iff outside |
| UiButton.MovedHitbox | source/blackjack/ui_button.cc:80-83 | the hitbox follows the transform and keeps its width and height |
| UiButton.TextureFor | source/blackjack/ui_button.cc:102-121 | nothing when disabled; idle texture for idle; hover texture for hover and pressed |
| UiButton.UiButton.constructor | source/blackjack/ui_button.cc:51-52 | a new button is idle |
| UiButton.UiButton.SetImage | source/blackjack/ui_button.cc:58-73 | the hitbox and texture rect span the idle image's size |
| UiButton.UiButton.Update | source/blackjack/ui_button.cc:75-100 | disabled: nothing changes and nothing fires. Enabled: the new state depends only on input and hitbox; on_click fires iff pressed, on_hover iff hover, never both |
| UiButton.UiButton.GetState | source/blackjack/ui_button.cc:54-56 | reports the stored state that `Update` sets |
| UiButton.UiButton.Render | source/blackjack/ui_button.cc:102-121 | the texture drawn for the stored state, as `UiButton.TextureFor` states |
| Server.SkipSpaces | source/blackjack/server.cc:92 | atoi skips leading white space: what remains is a suffix that does not start with a space |
| Server.LeadingDigits | source/blackjack/server.cc:92 | atoi reads the longest prefix of digits |
| Server.Decimal | source/blackjack/server.cc:105 | the decimal digits of a number, nonempty and one long iff below 10 |
| Server.FormatHeader | source/blackjack/server.cc:105 | `%4d` of a length below 10000 is exactly 4 characters |
| Server.DecimalLength | source/blackjack/server.cc:105 | lengths below 10000 have at most four digits |
| Server.DecimalValue | source/blackjack/server.cc:92-105 | reading the digits back gives the number |
| Server.LeadingDigitsAll | source/blackjack/server.cc:92 | a string of digits is read whole |
| Server.SkipPadding | source/blackjack/server.cc:92-105 | the padding `%4d` writes is skipped by atoi |
| Server.FormatHeaderSkips | source/blackjack/server.cc:105 | atoi's white-space skip removes exactly the `%4d` padding |
| Server.AtoiReadsDigits | source/blackjack/server.cc:92 | atoi of padded digits is the value of the digits |
| Server.Atoi | source/blackjack/server.cc:92 | `std::atoi`: white space, an optional sign, then the leading digits; `Server.HeaderRoundTrip` reads back every `%4d` header |
| Server.HeaderRoundTrip | source/blackjack/server.cc:88-107 | atoi reads back every length `%4d` writes |
| Server.DecodedLength | source/blackjack/server.cc:92-99 | a decoded length exists iff atoi gives 0..512, and never exceeds 512 |
| Server.DecodeEncodedLength | source/blackjack/server.cc:88-107 | every valid body length survives encode then decode (the corrected pair) |
| Server.EncodedHeaderAsWritten | source/blackjack/server.cc:102-107 | as written, the header is four zero bytes |
| Server.HeaderReadAsWritten | source/blackjack/server.cc:90-91 | as written, the header buffer stays empty |
| Server.AsWrittenLosesLength | source/blackjack/server.cc:88-107 | as written, a body length of 5 encodes and decodes to 0 |
| Server.Message.constructor | source/blackjack/server.cc:57-58 | a new message has body length 0 and a 4+512-byte buffer |
| Server.Message.GetBody | source/blackjack/server.cc:68-74 | the body is the 512 bytes after the 4-byte header |
| Server.Message.GetLen | source/blackjack/server.cc:76-78 | `get_len() == 4 + body_len` |
| Server.Message.GetBodyLen | source/blackjack/server.cc:80-82 | reports body_len, which `Server.Message.DecodeHeaderFixed` keeps at most 512 |
| Server.Message.SetBodyLen | source/blackjack/server.cc:84-86 | set_body_len stores the length unchecked |
| Server.Message.DecodeHeader | source/blackjack/server.cc:88-100 | as written, decode_header always succeeds with body length 0 |
| Server.Message.SetDecodedLength | source/blackjack/server.cc:92-99 | the result is true iff the length is 0..512; a rejected length resets body_len to 0 |
| Server.Message.EncodeHeader | source/blackjack/server.cc:102-107 | as written, encode_header writes four zero bytes and leaves the body |
| Server.Message.DecodeHeaderFixed | source/blackjack/server.cc:88-100 | with the copy restored, body_len is the announced length, or 0 with false; always ≤ 512 |
| Server.Message.EncodeHeaderFixed | source/blackjack/server.cc:102-107 | with the formatting restored, the header is `%4d` of body_len and the body is untouched |
| Server.Last | source/blackjack/server.cc:140-143 | the last k elements, or all when fewer |
| Server.Participant.Deliver | source/blackjack/server.cc:113 | a participant receives the message at the end of its inbox |
| Server.Room.constructor | source/blackjack/server.cc:119-123 | a new room has no members and no history |
| Server.Room.Join | source/blackjack/server.cc:126-132 | join adds p idempotently and replays the whole history to p in order |
| Server.Room.Leave | source/blackjack/server.cc:134-136 | leave removes only p; a no-op for non-members |
| Server.Room.Deliver | source/blackjack/server.cc:138-147 | the history becomes the last 100 delivered messages, newest last; each member receives the message once |
| Server.Room.Record | source/blackjack/server.cc:140-143 | push_back, then pop_front while over 100 |
| Server.Room.Broadcast | source/blackjack/server.cc:145-146 | each member of the set receives the message exactly once |
| Server.LastOfLast | source/blackjack/server.cc:140-143 | trimming before or after an append keeps the same last 100 |
| Server.HistoryOfDeliveries | source/blackjack/server.cc:138-143 | after any sequence of deliveries, the history is the last min(n, 100) in order |
| FileSystem.Rename | scripts/rename_cards.py:11 | `os.rename` fails iff the source is missing; otherwise the content moves to the target and every other path is unchanged |
| FileSystem.ApplyConcat | scripts/rename_cards.py:6-21 | running two batches of renames is running the first, then the second on its result |
| FileSystem.ApplyFrame | scripts/rename_cards.py:6-21 | a successful run leaves every path no rename mentions as it was |
| FileSystem.Apply | scripts/rename_cards.py:6-21 | the renames in order, stopping at the first that fails; `FileSystem.ApplyConcat` and `FileSystem.ApplyFrame` state its properties |
| FileSystem.LowerChar | scripts/rename_cards.py:10 | lowercasing maps A-Z down by 32 and keeps every other character |
| FileSystem.Lower | scripts/rename_cards.py:10 | `str.lower()` lowercases character by character |
| FileSystem.LowerProperties | scripts/rename_cards.py:10-21 | lower is lowercase and idempotent, distributes over concatenation, and fixes lowercase text |
| FileSystem.LowerKeepsSuffix | scripts/rename_cards.py:7-21 | lowercasing keeps the ".png" suffix |
| RenameCards.RenameAll | scripts/rename_cards.py:6-21 | the loop performs exactly the planned renames in listing order, stopping at the first failure |
| RenameCards.TargetSplits | scripts/rename_cards.py:8-21 | the target is dir + "/" + the new name; the else branch lowercases dir as well |
| RenameCards.TargetNameIsLowercasePng | scripts/rename_cards.py:10-21 | the new name of an image is lowercase and still ends in ".png" |
| RenameCards.TargetNameIsLowercase | scripts/rename_cards.py:10-21 | the new name is lowercase |
| RenameCards.TargetNameEndsWithPng | scripts/rename_cards.py:10-21 | the new name still ends in ".png" |
| RenameCards.RankedNameEndsWithPng | scripts/rename_cards.py:10-19 | replacing a rank letter by its number keeps a ".png" suffix |
| RenameCards.TargetNameLength | scripts/rename_cards.py:10-21 | a keeps the name length, t/j/q/k add one character, others keep it |
| RenameCards.RankLetterEitherCase | scripts/rename_cards.py:18-19 | the rank tests see the lowercased name, so "K" and "k" both map to 13 |
| RenameCards.OnlyPngRenamed | scripts/rename_cards.py:6-7 | every rename moves a ".png" entry of the listing |
| RenameCards.TargetEndsWithPng | scripts/rename_cards.py:10-21 | every target path ends in ".png" |
| RenameCards.NotMovedByImage | scripts/rename_cards.py:6-21 | an image's rename never touches a non-".png" path |
| RenameCards.NotPngPath | scripts/rename_cards.py:7-8 | a path ends in ".png" iff its file name does |
| RenameCards.NonPngUntouched | scripts/rename_cards.py:6-7 | after a successful run, every non-".png" entry keeps its content |
| RenameCards.RankNumber | scripts/rename_cards.py:10-19 | the first matching prefix of the lowercased name: a→"1", t→"10", j→"11", q→"12", k→"13" |
| RenameCards.TargetName | scripts/rename_cards.py:10-21 | the new file name; lowercase and still ".png" (`RenameCards.TargetNameIsLowercasePng`) |
| RenameCards.Target | scripts/rename_cards.py:8-21 | the per-file target path; `RenameCards.TargetSplits` states that dir is kept on a rank match and lowercased otherwise |
| RenameCards.Plan | scripts/rename_cards.py:6-21 | one rename per ".png" entry in listing order; `RenameCards.OnlyPngRenamed` states it |
| CardsRename.RenameAll | build/content/cards/rename.py:10-28 | the loop performs exactly the planned renames in listing order, stopping at the first failure |
| CardsRename.RenameImage | build/content/cards/rename.py:11-28 | one image: the lowercase rename, then the rank renames |
| CardsRename.RenameAtMostOnce | build/content/cards/rename.py:20-28 | a rank test issues at most one rename |
| CardsRename.LowercaseFirst | build/content/cards/rename.py:12 | every image is first renamed to its lowercase name |
| CardsRename.AtMostOneRankRename | build/content/cards/rename.py:20-28 | the 'a' test and the j/q/k chain never both match: at most two renames per image |
| CardsRename.NoTenRuleAndCaseSensitive | build/content/cards/rename.py:20-28 | no 't' rule; the tests are case-sensitive, so an upper-case letter gets only the lowercase rename |
| CardsRename.KingDiffersFromOtherScript | build/content/cards/rename.py:27-28 | 'k' maps to "12" here, while scripts/rename_cards.py maps it to "13" |
| CardsRename.RankRenameNeedsLowercase | build/content/cards/rename.py:12-28 | with a rank rename, the steps succeed iff the listed name was already lowercase |
| CardsRename.NonPngUntouched | build/content/cards/rename.py:10-11 | after a successful run, every non-".png" entry keeps its content |
| CardsRename.PlanAvoids | build/content/cards/rename.py:10-28 | no rename of the run mentions a non-".png" name |
| CardsRename.StepsAvoid | build/content/cards/rename.py:11-28 | no rename of one image mentions a non-".png" name |
| CardsRename.AceStep | build/content/cards/rename.py:20-21 | the 'a' rename of the listed name, when it starts with lowercase 'a' |
| CardsRename.FaceStep | build/content/cards/rename.py:23-28 | the j→"10", q→"11", k→"12" chain on the listed name; `CardsRename.AtMostOneRankRename` excludes a second rank rename |
| CardsRename.Steps | build/content/cards/rename.py:11-28 | lowercase rename, then the rank renames, for ".png" names only; `CardsRename.LowercaseFirst` states the order |
| CardsRename.Plan | build/content/cards/rename.py:10-28 | every listed name's steps in listing order; `CardsRename.PlanAvoids` states no step touches a non-".png" name |

## Left out

- The library wrappers are not modelled: GLFW, OpenGL, glad and stb_image, the window, input, shader, texture and buffer files. In `mesh.cc` and `renderer.cc`, GL calls become recorded events or stored data.
- Floating point is not modelled: all numbers are exact reals and no f32 rounding is claimed.
  - For the same reason, `len`, `normalize`, `distance` and `angle` (which use `sqrt` and `acos`) are left out.
  - `rotate` is left out (it uses `sin` and `cos`).
  - The rotation jitter of `hand.arrange` is left out (it uses π).
- Unary `+` of `vec` and `mat`, and the elementwise `mat` operators `==`, `!=`, unary `-`, `+`, `-` and scalar `*`, are not modelled. They are single loops like the vector ones that are modelled.
- Division by zero is not modelled: it gives an IEEE infinity, or integer undefined behaviour. Every dividing operator requires a non-zero divisor, and `ortho` requires distinct bounds.
- `size2<i32>` integer division, which truncates, is not modelled; sizes are reals.
- Unsigned wrap-around of `usize`, `u32` and `i32` is not modelled; indices and counters are unbounded naturals.
- Matrix.Det of a 0x0 matrix, and Matrix.Adj and Matrix.Inv of a 1x1 matrix, are not modelled: these instantiations do not compile in the source (`mat<T, 0>`, the submatrix of a 1x1).
- Matrix.InverseTwoByTwoLeft and Matrix.InverseTwoByTwoRight prove that `inv` is an inverse only for 2x2 matrices. The general `adj(m) * m == det(m) * I` (Laplace along any column) is not proved.
- Renderer.Renderer.Render does not model the projection: it reads the window size and builds `ortho(0, w, h, 0)`, and the window is not part of this model.
- Renderer.Renderer.NextFrame draws the meshes in an order it leaves open: `std::set` of pointers orders them by address, which the model does not have.
- `card::get_value` is not defined in any file of the repository. Each hand carries it as an abstract per-card function.
- The `card` class body is left out: its constructor does not compile, and it calls missing `input` members.
- UiButton.UiButton.Update: the source rebuilds the hitbox from the transform position and `hitbox.w`/`hitbox.h`, which `rect` does not have. The model keeps the width and height of the previous hitbox.
- Server: the asio `session`/`server` classes and `test()` are left out (asynchronous networking, mostly commented out).
- Server.Message.constructor: the data buffer starts with arbitrary characters, as the uninitialised `char` array does.
- Server.FormatHeader covers lengths below 10000 only. `%4d` of a longer length writes more than the 4-byte header holds, and is excluded by `body_len ≤ 512` in the corrected pair.
- Hand.Hand.RemoveCard: its body is commented out, so the model states only that nothing changes.
- Hand.Hand.Arrange leaves the card's rotation out (it is set from a floating-point angle).
- Cards.SuitPip: a pip is one character (one Unicode code point) in the model; in the program it is a `std::string` holding the three-byte UTF-8 encoding, so its `size()` is 3.
- FileSystem.Rename: paths are flat map keys. Parent directories are not modelled, nor are targets that are directories. A rename into a directory that does not exist succeeds in the model, where Python raises `FileNotFoundError`. For example, the else branch of scripts/rename_cards.py:21 lowercases `dir` as well, so with dir "Cards" on a case-sensitive file system that has no `cards` directory the script stops, while RenameCards.RenameAll succeeds.
- The `print` calls of build/content/cards/rename.py are left out (console output).
- The directory listing order of `os.listdir` is an input of both rename loops.
- FileSystem.Lower lowercases ASCII letters only; Python's `str.lower()` also folds other Unicode letters.
- The remaining files are left out: `game.cc`, `player.cc`, `main.cc`, `client.cc`, `util.cc`, `types.cc`, `def.cc`, `entity.cc` and `ui_image.cc`. They hold main loops, deck setup, pixel layout, asset loading, printing and type aliases.

## Findings

| source | as written | input that shows it | evidently intended | confidence | as-written member | corrected member |
|---|---|---|---|---|---|---|
| source/tornasol/matrix.cc:204-206 | `transpose` of `mat<T, M, N>` loops i < N, j < M and reads `m[i][j]`, which swaps the bounds of the two indices | a 2x3 matrix (two columns of three rows): i = 2 reads column 2, which does not exist | loop i < M, j < N, so every `t[j][i] = m[i][j]` is in range | high for M ≠ N; not executed | Matrix.TransposeOutOfRangeExample | Matrix.TransposeInvolution |
| source/blackjack/server.cc:88-107 | `decode_header` never copies the header (the `strncat` is commented out), and `encode_header` never formats it (the `sprintf` is commented out) | a message with body length 5: encode writes four zero bytes, and decode then sets body length 0 | `encode_header` writes `%4d` of the length; `decode_header` reads it back with `atoi` | high; not executed | Server.AsWrittenLosesLength | Server.DecodeEncodedLength |
