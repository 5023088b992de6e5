# punytracer value algebra in Dafny

A model of the math and pixel substrate under the punytracer ray tracer:

- **Float** — the two-tier approximate equality on scalars: `approx_eq` (strictly within 1e-7)
  and `approx_eq_low_precision` (strictly within 1e-3).
- **Vectors** and **Points** — three-coordinate value types whose homogeneous `w` is not
  stored but fixed by the kind (0 for vectors, 1 for points), with the typed closure rules
  of the operators: Point − Point → Vector, Point ± Vector → Point, Vector + Point → Point,
  Vector ± Vector → Vector, negation, scaling on either side and division by a scalar.
  `magnitude` is specified through its square: `m` is the magnitude of `v` when `m ≥ 0` and
  `m² = x² + y² + z²`.
- **Tuples** — the shared `Tuple` capability (`new`, `zero`, `x`, `y`, `z`, `w`) and its
  cross-type tests.
- **Colors** — component-wise color arithmetic, loose-tier equality, and `to_rgb`, which
  clamps each channel into a byte (below 0 → 0, above 1 → 255, otherwise `c·255` truncated).
- **Matrices** — `Matrix<N>` as a class over an `array2<real>`: zero on creation, cell read,
  in-place cell write, and the nested-loop equality with early exit.
- **Canvases** — the canvas as a class over an `array<Color>` addressed at `width*y + x`
  and written in place, and the flattening of its pixels into the RGB byte stream.

Scalars are `f64` in the source and `real` here. Vector equality uses the tight 1e-7 tier
(src/core/vector.rs:44-48), the same as point equality. A matrix offers only `new`, indexing
and equality (src/core/matrix.rs:11-43); it has no transpose, product, determinant or inverse.

Canvas indexing follows the source's only check, that the flat offset `width*y + x` lies in
the buffer. Consequently a column `x + width` that passes that check reads pixel `x` of the next row
(`OverflowingColumnAliases`); for columns below `width` the layout is one-to-one
(`OffsetInjective`), and writing a pixel leaves every other pixel unchanged.

## Model

| member | source | states |
|---|---|---|
| `Float.Abs` | src/core/float.rs:11 | the absolute value is non-negative and is the argument or its negation |
| `Float.ApproxEq` | src/core/float.rs:10-15 | tight-tier equality holds exactly when the difference lies strictly between −1e-7 and 1e-7 |
| `Float.ApproxEqLowPrecision` | src/core/float.rs:17-22 | loose-tier equality holds exactly when the difference lies strictly between −1e-3 and 1e-3 |
| `Float.ToleranceIsExclusive` | src/core/float.rs:10-22 | a difference of exactly the tolerance compares unequal, in either order, on both tiers |
| `Float.ApproxEqReflexive` | src/core/float.rs:10-22 | every scalar is approximately equal to itself on both tiers |
| `Float.ApproxEqSymmetric` | src/core/float.rs:10-22 | both tiers are symmetric |
| `Float.TightImpliesLow` | src/core/float.rs:1-22 | tight-tier equality implies loose-tier equality |
| `Float.TiersDiffer` | src/core/float.rs:1-2 | a gap of 5e-4 is loose-equal but not tight-equal |
| `Vectors.Zero` | src/core/vector.rs:23-25 | the zero vector is the identity of vector addition on either side |
| `Vectors.W` | src/core/vector.rs:39-41 | the w of a vector is 0 |
| `Vectors.Eq` | src/core/vector.rs:44-48 | two vectors are equal exactly when each coordinate difference lies strictly between −1e-7 and 1e-7 |
| `Vectors.Add` | src/core/vector.rs:50-56 | subtracting v from u + v gives back u |
| `Vectors.Sub` | src/core/vector.rs:58-64 | u − v is the vector that, added to v, gives u |
| `Vectors.Neg` | src/core/vector.rs:66-72 | −v is zero − v and has the same squared magnitude as v |
| `Vectors.Mul` | src/core/vector.rs:74-80 | for s ≠ 0, dividing v·s by s gives back v |
| `Vectors.ScalarMul` | src/core/vector.rs:82-88 | s·v multiplies each coordinate of v by s |
| `Vectors.Div` | src/core/vector.rs:90-96 | v/s is the vector that, scaled by s, gives v |
| `Vectors.MagnitudeSquared` | src/core/vector.rs:14 | the radicand x²+y²+z² of `magnitude` is never negative |
| `Vectors.IsMagnitude` | src/core/vector.rs:13-15 | a magnitude is never negative and its radicand x²+y²+z² is never negative |
| `Vectors.WIsZero` | src/core/vector.rs:39-41 | every vector, the zero vector included, has w = 0 |
| `Vectors.EqUsesTightTier` | src/core/vector.rs:44-48 | a vector is unequal to one whose x is 5e-4 larger, though that gap is within the loose tier |
| `Vectors.EqReflexive` | src/core/vector.rs:44-48 | vector equality is reflexive |
| `Vectors.EqSymmetric` | src/core/vector.rs:44-48 | vector equality is symmetric |
| `Vectors.AddSubInverse` | src/core/vector.rs:50-64 | (u + v) − v = u and (u − v) + v = u |
| `Vectors.ZeroMinusIsNeg` | src/core/vector.rs:58-72 | zero − v = −v, and v + (−v) is the zero vector |
| `Vectors.NegInvolutive` | src/core/vector.rs:66-72 | −(−v) = v |
| `Vectors.ScalingCommutesAndInverts` | src/core/vector.rs:74-96 | s·v = v·s; for s ≠ 0, (v·s)/s = v and v/s = v·(1/s) |
| `Vectors.MagnitudeUnique` | src/core/vector.rs:13-15 | a vector has at most one non-negative root of x²+y²+z², so the magnitude is a function of the vector |
| `Vectors.MagnitudeSquaredNonNegative` | src/core/vector.rs:13-15 | the radicand x²+y²+z² is never negative, so the square root is always taken of a non-negative number |
| `Vectors.UnitRadicandMagnitude` | src/core/vector.rs:13-15 | a vector with radicand 1 has magnitude 1 and no other |
| `Vectors.AxisMagnitudeIsOne` | src/core/vector.rs:144-169 | each unit axis vector has magnitude exactly 1 |
| `Vectors.MagnitudeOfNeg` | src/core/vector.rs:171-187 | negation preserves the magnitude; (1,2,3) and (−1,−2,−3) both have the magnitude whose square is 14 |
| `Vectors.ArithmeticExamples` | src/core/vector.rs:107-142 | the unit tests: zero − (1,−2,3), −(1,−2,3), scaling by 3.5 on both sides, division by 2 |
| `Points.OriginIsOwnReflection` | src/core/point.rs:17-19 | the origin is its own reflection, and the only point that is |
| `Points.W` | src/core/point.rs:33-35 | the w of a point is 1 |
| `Points.Eq` | src/core/point.rs:38-42 | two points are equal exactly when each coordinate difference lies strictly between −1e-7 and 1e-7 |
| `Points.AddVector` | src/core/point.rs:44-50 | translating p + v back by v gives p |
| `Points.VectorAddPoint` | src/core/point.rs:52-58 | translating v + p back by v gives p |
| `Points.Sub` | src/core/point.rs:60-66 | p − q is the vector that carries q onto p |
| `Points.SubVector` | src/core/point.rs:68-74 | p − v is the point that v carries onto p |
| `Points.Neg` | src/core/point.rs:76-82 | −p added coordinate-wise to p gives the origin |
| `Points.Mul` | src/core/point.rs:84-90 | for s ≠ 0, dividing p·s by s gives back p |
| `Points.ScalarMul` | src/core/point.rs:92-98 | s·p multiplies each coordinate of p by s |
| `Points.Div` | src/core/point.rs:100-106 | p/s is the point that, scaled by s, gives p |
| `Points.WIsOne` | src/core/point.rs:33-35 | every point, the zero point included, has w = 1 |
| `Points.EqUsesTightTier` | src/core/point.rs:38-42 | a point is unequal to one whose y is 5e-4 larger, though that gap is within the loose tier |
| `Points.EqReflexive` | src/core/point.rs:38-42 | point equality is reflexive |
| `Points.EqSymmetric` | src/core/point.rs:38-42 | point equality is symmetric |
| `Points.TranslationCommutes` | src/core/point.rs:44-58 | v + p is the same point as p + v |
| `Points.TranslationRoundTrip` | src/core/point.rs:44-74 | (p + v) − v = p exactly and under the source's equality, (p − v) + v = p, and p − v = p + (−v) |
| `Points.DifferenceTranslates` | src/core/point.rs:60-66 | q + (p − q) = p, p − q = −(q − p), p − p is the zero vector, and p − origin has p's coordinates |
| `Points.NegInvolutive` | src/core/point.rs:76-82 | −(−p) = p |
| `Points.ScalingCommutesAndInverts` | src/core/point.rs:84-106 | s·p = p·s; for s ≠ 0, (p·s)/s = p and p/s = p·(1/s) |
| `Points.ArithmeticExamples` | src/core/point.rs:117-143 | the unit tests: −(1,−2,3), scaling by 3.5 on both sides, division by 2 |
| `Tuples.ZeroAndDiscriminant` | src/core/tuple.rs:1-8 | `zero()` is (0,0,0) for both kinds, and `w` is 1 for points and 0 for vectors, so it tells them apart |
| `Tuples.ClosureMatchesHomogeneousW` | src/core/point.rs:44-74 | the kind each operator returns is the one homogeneous arithmetic on w predicts (1±0 = 1, 1−1 = 0, 0±0 = 0) |
| `Tuples.AddingTwoTuples` | src/core/tuple.rs:15-23 | the test: (3,−2,5) + vector (−2,3,1) equals the point (1,1,6) |
| `Tuples.SubtractingTwoPoints` | src/core/tuple.rs:25-33 | the test: (3,2,1) − (5,6,7) equals the vector (−2,−4,−6) |
| `Tuples.SubtractingVectorFromPoint` | src/core/tuple.rs:35-43 | the test: point (3,2,1) − vector (5,6,7) equals the point (−2,−4,−6) |
| `Tuples.SubtractingTwoVectors` | src/core/tuple.rs:45-53 | the test: vector (3,2,1) − vector (5,6,7) equals the vector (−2,−4,−6) |
| `Colors.Default` | src/color.rs:3-8 | the default color converts to bytes [0,0,0] and is the unit of color addition |
| `Colors.ChannelToByte` | src/color.rs:16-20 | below 0 gives 0, above 1 gives 255, otherwise the byte n with n ≤ 255·c < n + 1 |
| `Colors.ToRgb` | src/color.rs:15-33 | three bytes, byte k being the conversion of channel k |
| `Colors.Eq` | src/color.rs:36-42 | two colors are equal exactly when each channel difference lies strictly between −1e-3 and 1e-3 |
| `Colors.Add` | src/color.rs:44-50 | subtracting d from c + d gives back c |
| `Colors.Sub` | src/color.rs:52-58 | c − d is the color that, added to d, gives c |
| `Colors.Mul` | src/color.rs:60-66 | the product is channel by channel, commutative, and white is its unit |
| `Colors.Scale` | src/color.rs:68-74 | c·s is the product of c with the grey (s,s,s) |
| `Colors.ToRgbClampsEachChannel` | src/color.rs:15-33 | byte k is 0 when channel k is below 0, 255 when above 1, and otherwise the largest n with n ≤ 255·channel |
| `Colors.ToRgbChannelsIndependent` | src/color.rs:15-33 | byte k depends on channel k only |
| `Colors.ChannelToByteMonotone` | src/color.rs:16-19 | a larger channel value never gives a smaller byte |
| `Colors.ChannelExamples` | src/color.rs:16-19 | 1.0 → 255, 0.5 → 127, 0.0 → 0, −0.5 → 0, 1.7 → 255 |
| `Colors.DefaultIsBlack` | src/color.rs:3-8 | the default color is (0,0,0) and converts to bytes [0,0,0] |
| `Colors.EqUsesLooseTier` | src/color.rs:36-42 | a color equals one whose red is 5e-4 larger and differs from one whose red is 1e-3 larger |
| `Colors.EqReflexive` | src/color.rs:36-42 | color equality is reflexive |
| `Colors.EqSymmetric` | src/color.rs:36-42 | color equality is symmetric |
| `Colors.AddSubInverse` | src/color.rs:44-58 | (c + d) − d = c and (c − d) + d = c |
| `Colors.ProductLaws` | src/color.rs:60-74 | the color product is commutative with white as unit, and scaling by s is the product with (s,s,s) |
| `Colors.ArithmeticExamples` | src/color.rs:90-127 | the unit tests for +, −, scaling by 2 and the Hadamard product (1,0.2,0.4)·(0.9,1,0.1) = (0.9,0.2,0.04) |
| `Matrices.Matrix.Cells` | src/core/matrix.rs:7-9 | the cells viewed as the source's `[[f64; N]; N]`: N rows of N values |
| `Matrices.Zeros` | src/core/matrix.rs:13 | N rows, each of N zeros |
| `Matrices.Matrix.constructor` | src/core/matrix.rs:12-14 | a new N×N matrix has every cell 0 |
| `Matrices.Matrix.At` | src/core/matrix.rs:31-37 | indexing (r,c) reads column c of row r of the `[[f64; N]; N]` view |
| `Matrices.Matrix.Set` | src/core/matrix.rs:39-43 | writing v at (r,c) replaces cell c of row r and nothing else: reading (r,c) gives v and every other cell is unchanged |
| `Matrices.Matrix.ApproxEquals` | src/core/matrix.rs:17-28 | two matrices are equal exactly when every pair of corresponding cells differs by strictly less than 1e-3 in either direction |
| `Matrices.Matrix.Equals` | src/core/matrix.rs:17-28 | answers true exactly when every pair of cells is within 1e-3; when false, it stops at the first mismatching cell in row-major order |
| `Matrices.ApproxEqualsReflexive` | src/core/matrix.rs:17-28 | every matrix equals itself |
| `Matrices.ApproxEqualsSymmetric` | src/core/matrix.rs:21 | matrix equality is symmetric, inherited from the scalar relation |
| `Matrices.CreateMatrix2` | src/core/matrix.rs:48-63 | the 2×2 test: every written cell reads back |
| `Matrices.CreateMatrix3` | src/core/matrix.rs:65-86 | the 3×3 test: written cells read back and both cells never written, (0,2) and (2,0), are 0 |
| `Matrices.CreateMatrix4` | src/core/matrix.rs:88-109 | the 4×4 test: written cells read back and all nine cells never written are 0 |
| `Canvases.Offset` | src/canvas.rs:41-43 | for a column below the width, dividing the offset by the width gives back the row, and the remainder gives back the column |
| `Canvases.RowMajorDivMod` | src/canvas.rs:41-43 | (width·y + x) / width = y and (width·y + x) mod width = x when x < width |
| `Canvases.InRowPixelInGrid` | src/canvas.rs:41-43 | an in-row pixel whose offset lies in the buffer has y < height, and its whole row lies in the buffer |
| `Canvases.OffsetInBounds` | src/canvas.rs:41-43 | a pixel with x < width and y < height has offset below width·height |
| `Canvases.MulMonotone` | src/canvas.rs:42 | multiplying by a width preserves order, as the row-major offset relies on |
| `Canvases.OffsetInjective` | src/canvas.rs:46-49 | two pixels with in-row columns and the same offset are the same pixel |
| `Canvases.ColumnOverflowWraps` | src/canvas.rs:41-43 | offset (x + width, y) equals offset (x, y + 1) for every x |
| `Canvases.ColumnOverflowAliases` | src/canvas.rs:38-43 | on a canvas, column `width` of row y passes the bounds check and reads the first pixel of row y + 1 |
| `Canvases.OverflowingColumnAliases` | src/canvas.rs:38-43 | every column x + width of row y that passes the bounds check reads the same pixel as (x, y + 1) |
| `Canvases.FlatMapRgb` | src/canvas.rs:31-33 | the byte stream has three bytes per pixel |
| `Canvases.FlatMapRgbLayout` | src/canvas.rs:31-33 | bytes 3i..3i+2 of the stream are `to_rgb` of pixel i |
| `Canvases.Canvas.constructor` | src/canvas.rs:14-20 | a new canvas has the given width and height and width·height pixels, all the default color |
| `Canvases.Canvas.At` | src/canvas.rs:38-44 | for a column below the width, the indexed pixel lies in row y < height and is entry x of that row's slice of the buffer |
| `Canvases.Canvas.Set` | src/canvas.rs:46-49 | writing (x,y) changes exactly buffer entry width·y + x; reading (x,y) gives the color written; for x < width no other pixel changes |
| `Canvases.Canvas.PixelData` | src/canvas.rs:31-33 | the pixel data has length 3·width·height and bytes 3i..3i+2 are `to_rgb` of pixel i, in buffer order |
| `Canvases.CreateAndWrite` | src/canvas.rs:55-76 | the unit tests: a 10×20 canvas is all black, and after writing red at (1,2) that pixel reads red and the others stay black |

## Left out

- PNG output: creating the file, configuring the encoder and writing the image data
  (src/canvas.rs:22-30, 34) is I/O through an external library; only the flattening of the
  pixels into bytes is modelled.
- IEEE-754 behaviour: scalars are reals, so rounding, infinities and NaN are absent. In
  particular a NaN channel, which falls through to the truncating arm of `to_rgb`, has no
  counterpart.
- Vectors.Div: requires a non-zero divisor, because dividing by zero yields IEEE infinities or
  NaN in the source (src/core/vector.rs:94) and has no real-valued result.
- Points.Div: requires a non-zero divisor for the same reason (src/core/point.rs:104).
- Vectors.IsMagnitude: the square root in `magnitude` is not computed; a magnitude is
  characterised as the non-negative root of x²+y²+z², and the exact floating-point
  comparisons with `14f64.sqrt()` in the tests become statements about that root.
- `usize` arithmetic: `width * height` and `width * y + x` are unbounded here, so their
  overflow in the source is not modelled.
- The `Tuple` trait is not a Dafny trait: each kind supplies its own `Zero` and `W`, and
  `new`, `x`, `y`, `z` are the datatype constructor and fields.
- The type aliases `Matrix2`, `Matrix3`, `Matrix4` are the size argument of the matrix
  constructor.
- Derived `Clone` and `Debug`.
