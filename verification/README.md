# Proofs about the contact solver's scripts and front end

This project states and proves properties of the parts of the repository whose logic is
self-contained: the symbolic mechanics scripts, the calibration
renderer, the reference algorithms of the untangler suite, the backend resolution of the
Python front end, the build-time chunk renamer, the event-stream reader and the add-on's
handler bookkeeping. `dafny verify dfyconfig.toml` checks all of it.

Numbers are reals; a square root is a non-negative witness whose square is given.

## How it is laid out

- **Mechanics.** `LinearAlgebra` has vectors and matrices by columns. `Invariants3`,
  `Gradients3` and `SecondOrder` give the exact expansion of the isotropic invariants, their
  gradients, and what it means for an energy to have a gradient and a Hessian. `Eigensystem3`
  and `Hessian3` lead to the main theorem: the nine eigenpairs the script writes are the
  Hessian of any isotropic energy. `Hessian2` carries it to 3x2 matrices by widening them.
  `Eigenpairs`, `Eigenpairs2`, `Assembly`, `ScriptLoops` and `Svd` cover orthonormality, the
  matrix assembly loops and the decomposition. `EigenvalueForms` and `EigenvalueForms2`
  compare the two closed forms, including the branch for nearly equal singular values, and
  `SingularEnergies` and `SingularEnergies2` carry the theorems to energies given in the
  singular values. `Orders`, `SingularPaths`, `SingularSolve` and `SingularMotion` lead to
  `SymmetricEnergies`, where nothing is known of the energy but its expansion in the singular
  values; `ScriptEnergies` and `ScriptEnergies2` have the energies of the scripts themselves.
  `ShiftedSeries` bounds the degree-10 series that replaces a square root.
- **Geometry and graphs.** `Triangles` proves the segment and triangle tests by Cramer's rule
  and a sliding argument along the common line. `Rasterizer` proves the z-buffer loop against
  a brute-force definition, and the framing; `WorldView` says what that picture shows of the mesh
  in its own space, and `Renderer` adds the shading and the two views. `GraphSearch` proves
  the layered search and the flood fill.
- **Backend resolution.** `Backends` has the rule and the environment a call finds;
  `BackendRuns` has the theorems over runs and the process state the front end keeps;
  `Resolutions` settles each kind of resolution case by case.
- **Text and lists.** `Strings`, `ChunkText`, `Renames` and `ChunkFiles` cover the chunk
  renamer; `EventStream` the incremental reader; `Handlers` the add-on's handler lists and
  registered modules. `Wrappers` has the option and result types.

## Where the code and its descriptions part

- `frontend/__init__.py:418-420` says GPU builds are asked "until one reports a usable
  device". The code (`frontend/_backends_.py:213`) asks all of them first, so a build that
  does not answer refuses a resolution an earlier usable build could serve.
  `EagerAgainstDescribed` says exactly when the two agree.
- `eigsys/eigsys_3.py:155-157` and `eigsys/eigsys_2.py:131` switch to a special branch when
  two singular values are within 0.01. For unequal values the branch is the eigenvalue only
  where a bend term vanishes, as it does for ARAP (`ArapTheorem`);
  `DifferenceFormAgrees` and `QuotientFormAgrees` give the exact condition, and
  `YeohNearValues` and `LogNearValues` read it for two energies the scripts have: the branch is
  wrong at every unequal pair within 0.01, save where a² + b² + c² = 8/3 or a b = 1.
- `build-win-native/shorten_webpack_chunks.py:51-52` sorts ids to keep replacements apart.
  Two neighbouring quoted runs that share a quote still escape it (`TwinMissed`), and an id
  with two hashes leaves a file behind (`EarlierHashLost`). Lines 42-43 promise that no part of
  a longer name is replaced; before a dot it is (`LibIndexRewritten`), and `RenamesWholeIds`
  says exactly when the promise holds.
- `blender_addon/__init__.py:281-284` promises that a failed registration is cleaned up. The
  clean-up is `unregister`, which raises at `mesh_ops.unregister` (line 639) when the mesh
  modules are not registered yet, so a failure before them, save at the very first class, keeps
  the classes registered so far (`HalfSetUp`, `StuckAfterward`), and one in the dynamics or mesh
  packages the group module's handler too (`CleanupLeftBehind`); `EnableSettles` and
  `RollbackLeaves` say exactly when. A second `register`
  meets registered classes, and its clean-up disables the add-on (`SecondRegisterDisables`).
- `addon_host_tests/_shell_untangle_.py:50-51` compares an unscaled determinant with 1e-14.
  `Intersect` says what the answer means where no edge falls between zero and that threshold;
  `SmallPairMissed` shows that any two triangles fall there once they are small enough.

## Model

| member | source | states |
|---|---|---|
| Hessian3.HessianTheorem | eigsys/eigsys_invariants_3.py:172-201 | at F = U diag(a,b,c) Vt, any energy of the invariants that has a gradient and a Hessian there changes along every direction X by t<gradient, X> + t²/2 Σ lmds[i]<U Qs[i] Vt, X>² + o(t²), with the gradient, eigenvalues and eigenvectors the script writes |
| Hessian3.FormSpectral | eigsys/eigsys_invariants_3.py:173 | the three eigenpairs the solver promises for the singular-value Hessian make up its quadratic form |
| Hessian3.HessianForm | eigsys/eigsys_invariants_3.py:104-111 | the accumulated singular-value Hessian acts as the weighted invariant Hessians plus the invariant Hessian pulled back through dI/da |
| Eigenpairs.ModesOrthonormal | eigsys/eigsys_invariants_3.py:174-184 | the nine rotated modes U Qs[i] Vt are orthonormal, so the decomposition is complete |
| Hessian2.HessianTheorem2 | eigsys/eigsys_invariants_2.py:165-188 | the 3x2 theorem: the second-order term in every direction is the sum over the six closed-form eigenpairs |
| Eigenpairs2.ModesOrthonormal2 | eigsys/eigsys_invariants_2.py:167-174 | the six rotated 3x2 modes are orthonormal |
| SecondOrder.ChainRule | eigsys/eigsys_invariants_3.py:104-111 | second-order chain rule along a path of invariants with a bounded cubic remainder |
| SecondOrder.ExpansionUnique | eigsys/eigsys_invariants_3.py:172-201 | an expansion to second order has one value, one slope and one curvature, so the gradient and the sum over the nine pairs are determined by the energy |
| Invariants3.InvariantsByMinors | eigsys/eigsys_invariants_3.py:31-36 | trace, squared-trace difference and determinant of FᵀF are the squared norms of F and of its cofactors, and det(F)² |
| Invariants3.GramDeterminant | eigsys/eigsys_invariants_3.py:35 | det(FᵀF) = det(F)² |
| Invariants3.InvariantsAlong | eigsys/eigsys_invariants_3.py:31-36 | I(F + tX) expanded exactly: value, first and second variation, and an explicit t³ remainder, for all F, X and t |
| Invariants3.InvariantsRotate | eigsys/eigsys_invariants_3.py:31-36 | the invariants do not see rotations on either side |
| Gradients3.AdjugateInverts | eigsys/eigsys_invariants_3.py:51-57 | adj(C) C = det(C) I for every 3x3 matrix |
| Gradients3.GradI3ByCofactors | eigsys/eigsys_invariants_3.py:64 | F adj(FᵀF)ᵀ = det(F) cof(F), so the third gradient needs no inverse |
| Gradients3.GradientsAreDerivatives | eigsys/eigsys_invariants_3.py:60-65 | the three gradients give exactly the linear term of the invariants in every direction |
| ScriptLoops.FillAdjugate | eigsys/eigsys_invariants_3.py:51-57 | filling signed minors entry by entry and transposing yields the adjugate |
| ScriptLoops.RebuildGradient | eigsys/eigsys_invariants_3.py:166-169 | the accumulated gradient is the weighted sum of the invariant gradients |
| ScriptLoops.AccumulateHessian | eigsys/eigsys_invariants_3.py:104-111 | the accumulation loop yields the singular-value Hessian the theorems are about |
| Eigensystem3.FirstVariationDiag | eigsys/eigsys_invariants_3.py:44-48 | dI/da read on the diagonal of a direction is the first variation at a diagonal F |
| Eigensystem3.LengthSecondDiag | eigsys/eigsys_invariants_3.py:69 | second variation of I1 at a diagonal F splits into its singular-value Hessian and one term per off-diagonal pair |
| Eigensystem3.AreaSecondDiag | eigsys/eigsys_invariants_3.py:70-73 | the same split for I2 |
| Eigensystem3.VolumeSecondDiag | eigsys/eigsys_invariants_3.py:74-77 | the same split for I3 |
| Assembly.Mat2Vec | eigsys/eigsys_invariants_3.py:134-139 | the nested loops list a matrix column by column: entry (i, j) stands at 3 j + i of nine, the three columns one after another |
| Assembly.FillColumns | eigsys/eigsys_invariants_3.py:198-200 | column m of Qmat holds entry (i, j) of the m-th rotated mode at row 3 j + i |
| Assembly.Rebuild | eigsys/eigsys_invariants_3.py:201 | entry (3 j + i, 3 l + k) of H_rebuilt is the sum over the nine modes of lmds[m] times the entries (i, j) and (k, l) of the m-th mode |
| Assembly.RebuiltEigenvectors | eigsys/eigsys_invariants_3.py:198-201 | H_rebuilt maps each rotated mode to its eigenvalue times itself |
| Assembly.RebuiltFormIsSpectral | eigsys/eigsys_invariants_3.py:198-201 | the quadratic form of H_rebuilt is the sum over modes that the main theorem speaks of |
| EigenvalueForms.SumFormAgrees | eigsys/eigsys_3.py:151-154 | (g_i + g_j)/(s_i + s_j) equals the invariant eigenvalue for all positive singular values |
| EigenvalueForms.DifferenceFormAgrees | eigsys/eigsys_3.py:155-157 | the difference entries equal the invariant eigenvalues exactly when the two values differ by more than 0.01, are equal, or a stated bend term is zero; so the special branch is right at equality and not near it in general |
| EigenvalueForms2.QuotientFormAgrees | eigsys/eigsys_2.py:129-136 | the 3x2 quotients equal the invariant eigenvalues, the difference entry exactly when the values differ by more than 0.01, are equal, or a bend term is zero |
| ScriptEnergies.YeohNearValues | eigsys/eigsys_3.py:155-157 | for the script's Yeoh energy each difference entry, read from the energy's own gradient and Hessian in (a, b, c), is the eigenvalue exactly where the quotient is taken, the two values are equal, or a² + b² + c² = 8/3 |
| ScriptEnergies.YeohNearInput | eigsys/eigsys_3.py:155 | an input where it is not: singular values 1, 1.005, 1 |
| ScriptEnergies.YeohTwice | eigsys/eigsys_3.py:48-49 | the Yeoh energy as a function of the invariants, with its gradient and Hessian there: the remainder is a cube |
| ScriptEnergies2.LogNearValues | eigsys/eigsys_2.py:129-136 | for the 3x2 script's own energy the difference entry is the eigenvalue exactly where the quotient is taken, a = b, or a b = 1 |
| ScriptEnergies2.LogNearInput | eigsys/eigsys_2.py:131 | an input where it is not: singular values 1 and 1.005 |
| ScriptEnergies2.LogTwice | eigsys/eigsys_2.py:34-35 | that energy is log I2 + √I2 + I2, with its gradient and Hessian in the invariants; the root's expansion is proved, the logarithm's is a hypothesis |
| SingularEnergies.Induced | eigsys/eigsys_3.py:59-75 | the gradient and Hessian of an energy in (a, b, c) are those its invariants induce: dI/da times the gradient, and the accumulated Hessian |
| SingularEnergies.SingularValueTheorem | eigsys/eigsys_3.py:120-177 | for an energy given in the singular values that also has a twice differentiable form e in the invariants, with gradient g_s and Hessian H_s in (a, b, c), the script's U diag(g_s) Vt and its nine eigenpairs are the gradient and Hessian of the energy of F, where each two singular values are equal or more than 0.01 apart |
| SymmetricEnergies.SymmetricTheorem | eigsys/eigsys_3.py:120-177 | for any energy_s that does not depend on the order of the singular values and has gradient g_s and Hessian H_s at distinct positive ones, and nothing else known of it: energy_F along F + tX, for singular values found in any order, expands to second order with U diag(g_s) Vt and the script's nine eigenpairs, where each difference entry is the quotient |
| SymmetricEnergies.ArapTheorem | eigsys/eigsys_3.py:37-39 | the ARAP energy, at all distinct positive singular values, near ones included: its special branch is always right |
| SingularMotion.ValuesFollow | eigsys/eigsys_3.py:27-34 | at distinct positive singular values those of F + tX stay, in some order, within a constant times t of those of F, for every X |
| SingularMotion.CharacteristicOf | eigsys/eigsys_3.py:28-30 | the squared singular values are the three roots of the cubic in the invariants |
| SingularSolve.SolvedFor | eigsys/eigsys_invariants_3.py:68-97 | at distinct positive singular values every gradient and Hessian in (a, b, c) is the one some gradient and Hessian in the invariants induce, as dI/da has an inverse there |
| SingularPaths.InducedTwice | eigsys/eigsys_invariants_3.py:99-111 | a quadratic energy of the invariants, read in the singular values, has the accumulated gradient and Hessian with a remainder of third order in all three at once |
| SingularEnergies2.Induced2 | eigsys/eigsys_2.py:42-56 | in the 3x2 case the gradient and Hessian in (a, b) are those the two invariants induce |
| SingularEnergies2.SingularValueTheorem2 | eigsys/eigsys_2.py:110-140 | the 3x2 counterpart: for an energy of (a, b) that also has a twice differentiable form e in the two invariants, U diag(g_s) Vt and the script's six eigenpairs are the gradient and Hessian of the energy of F, where a = b or they are more than 0.01 apart |
| Svd.Svd3x3 | eigsys/eigsys_3.py:27-34 | from an orthonormal eigenbasis of FᵀF with positive eigenvalues: U orthogonal, sigma the positive roots, U diag(sigma) Vt = F |
| Svd.Svd3x2 | eigsys/eigsys_2.py:19-31 | the 3x2 assembly with the extended third column: U orthogonal and U diag(sigma) Vt = F |
| Svd.ExtendOrthogonal | eigsys/eigsys_2.py:29-31 | the cross product completes two orthonormal columns to a rotation |
| ShiftedSeries.SquareIdentity | eigsys/svd_shifted.cpp:67-76 | (1 + p(x))² − (1 + x) is exactly x¹¹ times a polynomial with listed coefficients |
| ShiftedSeries.SeriesError | eigsys/svd_shifted.cpp:57-82 | for abs(x) ≤ 1/2 the error of p(x) against √(1+x) − 1 lies between abs(x)¹¹/256 and abs(x)¹¹/60, on the far side of zero from x |
| ShiftedSeries.Terms | eigsys/svd_shifted.cpp:57-76 | the ten products in the code are the coefficients times the powers of x |
| ShiftedSeries.AddTerms | eigsys/svd_shifted.cpp:77-80 | adding the terms from the last to the first gives p(x) |
| ShiftedSeries.SingularValsMinusOneApprox | eigsys/svd_shifted.cpp:47-86 | the array is overwritten in place with the two series values, the lower one first |
| ShiftedSeries.GramForm | eigsys/svd_shifted.cpp:36-49 | the matrix both routines start from measures F: its form at (x, y) is the squared length of x f0 + y f1 |
| ShiftedSeries.ShiftedEigenvalues | eigsys/svd_shifted.cpp:48-49 | eigenvalues of FᵀF − I are those of FᵀF less one, as a pair |
| ShiftedSeries.FastWithinBound | eigsys/svd_shifted.cpp:36-86 | sorted entry by sorted entry the fast routine is within r¹¹/60 of the naive one when the shifted eigenvalues stay within r ≤ 1/2 |
| Triangles.SegmentExact | addon_host_tests/_shell_untangle_.py:44-62 | the segment test answers yes exactly when the determinant is at least 1e-14 in size and the closed segment and triangle share a point, for all real inputs |
| Triangles.Intersect | addon_host_tests/_shell_untangle_.py:65-71 | the six-edge loop: a yes is always a shared point, and where every rejected edge is exactly parallel, yes is exactly a shared point together with some edge accepted |
| Triangles.SomeEdgeSound | addon_host_tests/_shell_untangle_.py:65-71 | a hit on any edge is a point of both closed triangles |
| Triangles.SharedPointFound | addon_host_tests/_shell_untangle_.py:65-71 | completeness: where every rejected edge is exactly parallel and not all six are, two triangles that share a point have an edge that hits |
| Triangles.BoundaryPoint | addon_host_tests/_shell_untangle_.py:65-71 | a shared point can be slid along the common line to an edge of one triangle that is not parallel to the other, staying in both |
| Triangles.SlopesAreDets | addon_host_tests/_shell_untangle_.py:49-50 | how fast each barycentric weight changes along the common line is the determinant of the opposite edge |
| Triangles.CoplanarMissed | addon_host_tests/_shell_untangle_.py:50-51 | equal triangles share points and the test answers no: all six edges are exactly parallel |
| Triangles.SmallMissed | addon_host_tests/_shell_untangle_.py:50-51 | two triangles that share a point, scaled so that the determinants pass below the threshold, still share one and are answered no |
| Triangles.SmallPairMissed | addon_host_tests/_shell_untangle_.py:50-51 | every two triangles that share a point have a positive scale such that at it and at every smaller one they still share a point and are answered no |
| GraphSearch.NeighbourLists | addon_host_tests/_shell_untangle_.py:262-264 | v is listed under u exactly when the two lists pair u with v |
| GraphSearch.Expand | addon_host_tests/_shell_untangle_.py:272-278 | one layer adds exactly the unknown neighbours of the frontier, at the new distance |
| GraphSearch.LayerStep | addon_host_tests/_shell_untangle_.py:271-278 | a layer turns all vertices at distance hop − 1 into all vertices at distance hop |
| GraphSearch.Search | addon_host_tests/_shell_untangle_.py:268-278 | dist holds v at d exactly when d is the shortest edge distance and at most the depth |
| GraphSearch.HopTable | addon_host_tests/_shell_untangle_.py:258-282 | (i, j) stands at d exactly when the shortest path of pairs from i to j has d steps and 1 ≤ d ≤ depth, for any depth |
| GraphSearch.HopTableSymmetric | addon_host_tests/_shell_untangle_.py:258-282 | over two-way edges the table is symmetric |
| GraphSearch.NeighbourMap | addon_host_tests/_shell_untangle_.py:207-209 | the dictionary links u to v exactly when the two lists pair them |
| GraphSearch.FloodFill | addon_host_tests/_shell_untangle_.py:212-218 | the fill ends with exactly the vertices reachable from the start inside the members |
| GraphSearch.ClusterIsConnected | addon_host_tests/_shell_untangle_.py:207-219 | over two-way edges the fill covers the members exactly when every two members are joined inside them |
| Rasterizer.TestIsExact | calibration/viz.py:109-120 | the weight test accepts a centre exactly when it is a convex combination of the corners, and the depth is the only one interpolated there |
| Rasterizer.BoxCovers | calibration/viz.py:103-106 | the clamped floor/ceil box holds every covered pixel |
| Rasterizer.DrawFace | calibration/viz.py:99-128 | in place: pixels the face hits nearer than before take its depth and colour, all others keep theirs |
| Rasterizer.PixelStep | calibration/viz.py:98-128 | one more face keeps every pixel equal to the brute-force picture |
| Rasterizer.DrawAll | calibration/viz.py:94-128 | every pixel ends with the least depth over covering faces and the colour of the first face attaining it, or white at infinity |
| Rasterizer.PixelUnique | calibration/viz.py:94-128 | the brute-force picture fixes one depth and colour per pixel |
| Rasterizer.OrderDoesNotMatter | calibration/viz.py:98-128 | permuting faces or the vertices of a face leaves all depths, and all colours without a tie |
| Rasterizer.NoCracks | calibration/viz.py:114-120 | a centre on an edge two non-degenerate faces share is inside both at one depth |
| Rasterizer.FittedBounds | calibration/viz.py:79-80 | auto-fitted bounds hold every vertex |
| Rasterizer.InsideMargin | calibration/viz.py:83-92 | for 0 ≤ margin < 1/2 everything within the bounds lands inside the margin on both axes |
| Rasterizer.UniformScale | calibration/viz.py:85-89 | pixel steps are the screen-plane steps times one scale, on both axes |
| Renderer.ShadeRange | calibration/viz.py:70-76 | every face is at least as light as the ambient light and at most as light as its colour, by the inequality of Cauchy and Schwarz |
| Renderer.ChannelRange | calibration/viz.py:125 | a colour in the byte range is never clipped, and its channel stays between the ambient share less one and the colour |
| Renderer.ColourReordered | calibration/viz.py:70-76 | a face has one colour in every order of its corners, so both sides are lit alike |
| Renderer.MeshOrderDoesNotMatter | calibration/viz.py:57-130 | a mesh listed in another order, with any winding, has the same depths, and the same colours without a tie |
| Renderer.RenderOrtho | calibration/viz.py:57-130 | unknown view and empty unbounded mesh are refused; otherwise, from above, x runs right and z up and each pixel shows the covering face of greatest height y there, from the side x runs right and y up and the greatest z shows, the first such face where several tie, white where none covers; in the colour its own light gives it, in a frame centred on the bounds given or the mesh's own that fills one side up to the margin |
| Renderer.ColourIsLambert | calibration/viz.py:70-76 | a face has its base colour times ambient + c (1 − ambient), cut to bytes, c being the absolute cosine between its normal and the light, zero for a face without a normal |
| Renderer.ShadeEnds | calibration/viz.py:46-51 | in each view's own light a face is fully lit where its normal lies along it, and has the ambient share alone where it lies across it |
| WorldView.PictureShows | calibration/viz.py:94-128 | the z-buffer picture of the placed vertices is the picture of the mesh in its own space: a pixel shows the first of the faces with the nearest point behind its centre |
| WorldView.FitFills | calibration/viz.py:83-92 | the frame is centred on the bounds, keeps them inside the margin on both axes and fills it on one, extents under 1e-9 counting as that |
| ChunkText.QuoteSubIs | build-win-native/shorten_webpack_chunks.py:55-60 | replacing a quoted id in text is replacing whole runs between quotes, left to right, a closing quote used once |
| ChunkText.DotSubIs | build-win-native/shorten_webpack_chunks.py:63-67 | replacing the bare id with its dot is renaming the end of each run before a dot |
| Renames.ReplaceInFile | build-win-native/shorten_webpack_chunks.py:50-71 | the loop over sorted renames yields the sequential rewrite, and modified is true exactly when the text changed |
| Renames.SequentialIsSimultaneous | build-win-native/shorten_webpack_chunks.py:53-67 | one id after another, longest first, equals all at once exactly when no two neighbouring quoted runs sharing a quote are the same id |
| Renames.TwinMissed | build-win-native/shorten_webpack_chunks.py:55-60 | the text "a"a" is rewritten wrongly |
| Renames.RenamesWholeIds | build-win-native/shorten_webpack_chunks.py:39-71 | against renaming whole ids and nothing else, as the description asks: the code does exactly that if and only if the text has no such neighbours and no run before a dot that is no id and ends with one |
| Renames.LongerNameRewritten | build-win-native/shorten_webpack_chunks.py:63-67 | any longer name ending with an id is rewritten in part before a dot |
| Renames.LibIndexRewritten | build-win-native/shorten_webpack_chunks.py:42-43 | the description's own example of a name to leave alone, before a dot, is rewritten |
| Renames.LongestFirst | build-win-native/shorten_webpack_chunks.py:51-53 | taking ids longest first renames the longest matching suffix |
| Renames.NothingLeft | build-win-native/shorten_webpack_chunks.py:53-67 | without such twins no old id is left, quoted or before a dot |
| Renames.Idempotent | build-win-native/shorten_webpack_chunks.py:39-71 | and a second run changes nothing |
| ChunkFiles.CollectHashes | build-win-native/shorten_webpack_chunks.py:85-97 | an id is recorded exactly when some entry gives it that is longer than 10 characters and has its .js file in place, with the hash of the last such entry |
| ChunkFiles.RenameFiles | build-win-native/shorten_webpack_chunks.py:138-149 | exactly the scripts and source maps that carry a recorded id with its hash change, and only in their id, whatever the order of the ids |
| ChunkFiles.ReferenceNamesFile | build-win-native/shorten_webpack_chunks.py:88-149 | a rewritten reference names a renamed file exactly when the recorded hash is its directory's own |
| ChunkFiles.AllReferencesNameFiles | build-win-native/shorten_webpack_chunks.py:88-149 | if an id determines its hash, every rewritten reference names a renamed file |
| ChunkFiles.EarlierHashLost | build-win-native/shorten_webpack_chunks.py:96-97 | two directories with different hashes for one id: the first is left behind |
| Backends.FindBuilds | frontend/_backends_.py:101-114 | first directory holding a backend wins, for any directories and markers |
| Backends.BuiltInOrder | frontend/_backends_.py:101-114 | a backend is listed, and in that directory, exactly when it is the first of the searched directories, spelled out from CARGO_TARGET_DIR and the root, whose marker names it |
| Backends.ParseProbe | frontend/_backends_.py:117-152 | first line of each key, and the answer or refusal it makes with the exit status |
| Backends.ProbeAnswers | frontend/_backends_.py:130-147 | an answer is usable exactly with status 0 and the first backend, stamp and device lines, unusable exactly with status 3 and a reason line or one of three loader statuses and the marker's backend; values lose only the white space around them, and nothing else is an answer |
| Backends.CandidateTargetDirs | frontend/__init__.py:236-256 | the directory CARGO_TARGET_DIR names, relative to the root unless it starts with a slash, or else the root's target; then the root's target and cpu, cuda, metal, rocm and gpu under it; each once, in that order |
| BackendRuns.NoSilentSubstitution | frontend/__init__.py:370-388 | over every run of calls in any environments: explicit choices are answered as named or refused, an answer is the first directory searched that holds its backend, a CPU answer beside GPU builds comes only after each reported unusable and with the notice printed, a refused choice changes nothing, the notice appears at most once |
| BackendRuns.ResolveHonest | frontend/__init__.py:370-388 | one resolution keeps that promise from every reachable state |
| Resolutions.AutomaticAnswer | frontend/_backends_.py:169-230 | with no choice made: nothing built is refused; no GPU build gives CPU and a lone GPU build itself, unasked; a GPU build that gives no answer refuses; otherwise CUDA, else ROCm, else Metal where its solver reported a usable device, else CPU where built, else a refusal; the one line printed, once, names each GPU build with its reason |
| Resolutions.ChosenAnswer | frontend/_backends_.py:169-210 | a choice is answered by its own build, refused as unknown or as not built, and never asks a solver |
| Resolutions.ChoiceAnswer | frontend/__init__.py:455-458 | choosing is refused as unknown or not built, changing nothing; returning to the automatic choice always succeeds |
| Resolutions.LaunchAnswer | frontend/__init__.py:483-503 | a launch gets the resolved directory exactly when its solver's stamp is this process's own, and the mismatch exactly when it is not |
| Resolutions.RequireAnswer | frontend/__init__.py:506-534 | a run is refused for its device exactly when the resolved solver reported it unusable |
| BackendRuns.ChoiceRefused | frontend/__init__.py:455-458 | a choice is refused exactly when it is unknown or has no build |
| BackendRuns.EagerRefuses | frontend/_backends_.py:213 | the automatic rule refuses exactly when some built GPU solver gives no answer |
| BackendRuns.EagerAgainstDescribed | frontend/__init__.py:418-420 | against the described rule of asking until one is usable: same answer exactly when no build after the first usable one fails to answer |
| BackendRuns.UsableYetRefused | frontend/_backends_.py:213 | for any repository root and build profile: with a usable CUDA build beside a ROCm build without its solver on the disk, the automatic resolution of a fresh process is refused, where asking until one is usable answers with CUDA |
| BackendRuns.NamedDirectoryUsed | frontend/__init__.py:49-78 | with CARGO_TARGET_DIR set and no choice, the answer is the profile's directory under the one the variable spells, with the backend its marker names; an empty marker or an unknown name is refused |
| BackendRuns.RefusedOnlyUnprobed | frontend/__init__.py:506-523 | a device refusal meets only an explicit choice, the CPU backend, or the only build |
| BackendRuns.AnsweredOnce | frontend/__init__.py:300-343 | a solver binary that answered is not asked again in any run |
| BackendRuns.Process.AskDirectory | frontend/__init__.py:300-343 | a binary that has answered is not run again and its answer is given again; a fresh answer is remembered for it; a missing solver, a timeout and anything that is no answer are refused and change nothing |
| BackendRuns.Process.AskAll | frontend/_backends_.py:213 | every GPU build is asked in turn, the first failure aborting |
| BackendRuns.Process.ResolveRun | frontend/__init__.py:370-388 | resolution as a step of the process state, notice included; an explicit choice and a named directory are kept, and the directory is the first that holds the backend |
| BackendRuns.Process.ChooseBackend | frontend/__init__.py:433-458 | set_backend as a step of the process state |
| BackendRuns.Process.LaunchDirectory | frontend/__init__.py:483-503 | the stamp check as a step of the process state |
| BackendRuns.Process.RequireUsableBackend | frontend/__init__.py:506-564 | the device check as a step of the process state |
| EventStream.BlocksJoin | addon_host_tests/_mcp_protocol_.py:761-762 | blocks and remainder put together are the text received |
| EventStream.BlocksExtended | addon_host_tests/_mcp_protocol_.py:760-762 | splitting as text arrives is splitting the whole text at leftmost blank lines |
| EventStream.Drain | addon_host_tests/_mcp_protocol_.py:761-765 | the inner loop takes exactly the complete blocks and their payloads, or fails where one does not parse |
| EventStream.LineSplit | addon_host_tests/_mcp_protocol_.py:763 | a line ends at the first of the ten line-end characters, which it loses, and the rest is split on its own |
| EventStream.ReturnSplit | addon_host_tests/_mcp_protocol_.py:763 | a carriage return and newline end one line together |
| EventStream.SentIsRead | addon_host_tests/_mcp_protocol_.py:760-765 | a text made of blocks of lines and a last unfinished block is read as the payloads of exactly its data lines, in order |
| EventStream.ReadEvents | addon_host_tests/_mcp_protocol_.py:756-769 | however the text is cut up: for the lines sent in blocks, the payloads are those of the lines beginning with data: in order, or one of them does not parse; a blank line never stays in the buffer, and reading stops at the first read whose last event is a result |
| EventStream.EarlierIsPrefix | addon_host_tests/_mcp_protocol_.py:756-767 | stopping early loses only later payloads |
| EventStream.CuttingsCompared | addon_host_tests/_mcp_protocol_.py:756-769 | one text cut up in two ways, one of them block by block, each reading ended by a result: the other reading has the same payloads and then those of the blocks its last piece completed beyond the first result |
| EventStream.ChunkingDoesNotMatter | addon_host_tests/_mcp_protocol_.py:756-769 | two block by block cuttings of one text, each ended by a result, give the same payloads |
| EventStream.CharsBlockByBlock | addon_host_tests/_mcp_protocol_.py:757 | reading one character at a time, as the code does, is block by block |
| Handlers.RemoveNamed | blender_addon/__init__.py:581-583 | removing from the live list over a snapshot leaves the unlisted handlers in order, duplicates included |
| Handlers.WithoutHolds | blender_addon/__init__.py:569-580 | each unlisted handler stays as often as it was there, each listed one goes |
| Handlers.StageSwept | blender_addon/__init__.py:563-611 | the twelve guarded walks, and those of the playback and group modules, some over the same list twice, take out exactly the names of their stage |
| Handlers.RanAppends | blender_addon/__init__.py:315-508 | onto a list without the names it writes, registration appends each of them once, in order: its own appends and those of the modules it calls |
| Handlers.SweepUndoes | blender_addon/__init__.py:276-289 | sweeping all the names written leaves what sweeping before those steps leaves, for any steps and any list |
| Handlers.UnregisterStops | blender_addon/__init__.py:637-643 | unregistration ends exactly with all seven modules registered; otherwise it takes out those of them that come, in its own order, before the first that is not there, and leaves the rest |
| Handlers.UnregisterEnds | blender_addon/__init__.py:511-644 | with every module registered, unregistration ends and leaves every list without any name the add-on or its modules write |
| Handlers.CycleLeaves | blender_addon/__init__.py:315-644 | from any lists, stale copies included, one unregister and register leaves the handlers of other names in place and one handler of each own name after them, for every list the add-on or its modules write |
| Handlers.EachOnce | blender_addon/__init__.py:315-644 | after a cycle each registered name is in its list exactly once |
| Handlers.CheckedTwice | blender_addon/__init__.py:388-447 | the appends guarded by a name check append nothing the second time, even from a reloaded module |
| Handlers.Rollback | blender_addon/__init__.py:276-289 | a registration that fails past the mesh modules is undone in every list, with no module and no class left; one that fails earlier has its rollback stop at the mesh modules, with only the guarded sweeps made and the classes registered so far, of the module it failed in too, left registered |
| Handlers.RollbackLeaves | blender_addon/__init__.py:284-288 | a rollback leaves a function of the failed registration in some list if and only if the failure comes after the group module's append and no later than the mesh modules |
| Handlers.CleanupLeftBehind | blender_addon/ui/dynamics/group_ops.py:559-566 | the input: a failure in the dynamics or mesh package after its group module leaves the cleanup handler in the depsgraph list |
| Handlers.StuckAfterward | blender_addon/__init__.py:637-643 | after a rollback that stopped early, even within the first module's classes, every later registration stops at its first class and is not rolled back either |
| Handlers.SecondRegisterDisables | blender_addon/__init__.py:276-289 | registering a registered add-on stops at the first module, and the rollback takes the whole add-on out |
| Handlers.EnableSettles | blender_addon/__init__.py:276-289 | enabling an add-on that is wholly out leaves it wholly in or wholly out if and only if it stops at its very first class or past the mesh modules; both timers of the loading are held and remembered when it ends, and none is left when it fails |
| Handlers.HalfSetUp | blender_addon/ui/state.py:1499-1503 | the input: a failure at the second class of the first module leaves the add-on neither in nor out, with that class list begun and not done |
| Handlers.RunsStaySettled | blender_addon/__init__.py:276-289 | over any run of enabling and disabling in which each failed enabling stops at its very first class or past the mesh modules the add-on is wholly in, each name listed once, or wholly out |
| Handlers.RunsLeaveNoTimer | blender_addon/__init__.py:265-273 | over any run of enabling, disabling and timers firing, every timer held was held before or is remembered, so an add-on that is out has none left to call into it |
| Handlers.EnabledLists | blender_addon/__init__.py:315-508 | enabled from out, each of the eleven lists is what it was and then these handlers of this loading, named list by list |
| Handlers.OwnedNames | blender_addon/__init__.py:563-634 | what unregistration takes out of each list, name by name |
| Handlers.GuardedNames | blender_addon/__init__.py:563-611 | what its first walks take out, where it stops at the mesh modules |
| Handlers.WrittenMeans | blender_addon/__init__.py:388-447 | an append leaves other handlers and their order alone; the three ways of appending add one, leave this loading's alone, or keep the older one |
| Handlers.Session.ClearDeferredTimers | blender_addon/__init__.py:265-273 | every remembered timer is gone and no other is touched |
| Handlers.Session.RunProgram | blender_addon/__init__.py:315-500 | the steps in order, with the list writes of the modules called, up to one that raises or meets a class still registered; a module's first class and its others are steps of their own |
| Handlers.Session.RegisterBody | blender_addon/__init__.py:315-508 | the state after those steps, and the flag raised as the last act and only after all of them |
| Handlers.Session.SweepStage | blender_addon/__init__.py:563-618 | one stage of walks leaves the lists without its names |
| Handlers.Session.Unregister | blender_addon/__init__.py:511-644 | the flag is lowered before anything is taken out, nothing is registered, every remembered timer is gone and no other, also where it stops early, and lists and modules end as the stages and modules in turn leave them, stopping at a module whose classes are not there |
| Handlers.Session.Register | blender_addon/__init__.py:276-289 | the steps made and, if one failed, what unregistration leaves of them; where nothing was registered before, clean lists after a failure past the mesh modules and a leftover exactly between the group module and them |

## Left out

- Floating-point rounding, overflow and NaN: all arithmetic is over reals.
- The numerical eigen-solvers: taken as contracts (orthonormal eigenbasis, or both roots of the characteristic polynomial). Their existence and the finite-difference helpers with h = 1e-4 are not modelled.
- Svd.Svd3x3: asks for positive eigenvalues of FᵀF, because the script divides by the norms of F times the eigenvectors; a singular F would divide by zero there.
- Hessian3.HessianTheorem: the energy enters through its second-order expansion at the invariants; of the particular energies only Yeoh, ARAP and the 3x2 script's are differentiated.
- ShiftedSeries.FastWithinBound: the naive routine is a relation with the two roots it takes as witnesses, not a program.
- Triangles.SharedPointFound: edges whose determinant is not zero and under the threshold are excluded; there the answer may be no for a shared point, as `SmallPairMissed` shows, and no bound on that is given.
- Renderer.RenderOrtho: face indices are valid vertex indices; the square root of `numpy.linalg.norm` is a parameter, as in `Svd`, exact where the shade is bounded.
- SingularEnergies.SingularValueTheorem: asks for a form of the energy in the invariants; `SymmetricTheorem` does without one at distinct singular values, and this one covers equal ones.
- SymmetricEnergies.SymmetricTheorem: the singular values along F + tX are a path that is given, non-negative and with the invariants of F + tX; that a decomposition exists for every t is not proved.
- SingularEnergies2.SingularValueTheorem2: keeps the form in the invariants as a hypothesis, which the one energy of that script has (`LogTwice`).
- ScriptEnergies2.LogTwice: the logarithm is a parameter, known by its product rule and its two derivatives at positive numbers.
- GraphSearch.FloodFill: the starting member is any member, as the iteration order of a Python set is.
- Renames.SequentialIsSimultaneous: ids and new ids free of quotes and dots, every id longer than every new one and ending with none of them; MD5 is not modelled.
- ChunkFiles.RenameFiles: file names are triples of id, hash and extension, and two files meeting under one new name become one; finding the chunk map in a script by regular expression, file reading and the directory walk are not modelled.
- Backends.ParseProbe: the probe's output comes as lines, markers come stripped, only the ASCII and Latin-1 white space of `strip` is listed; the wording of messages is not modelled.
- Backends.CandidateTargetDirs: paths are POSIX paths, an absolute one starting with a slash; a Windows drive is not modelled.
- BackendRuns.NoSilentSubstitution: one process, one thread; a launch is a function of the binary asked, which may differ from call to call. Loading the extension module, devices listings and DLL paths are not modelled.
- BackendRuns.Process.ChooseBackend: `resolve` is handed no probe there; its refusal for a missing probe needs an unmade choice and is not modelled.
- BackendRuns.Process.RequireUsableBackend: the recovery advice in the refusal text is not modelled.
- EventStream.ReadEvents: the connection, decoding and JSON are parameters: the reader gets decoded pieces and a parser that may fail, and each payload can be asked for a result. Since the code decodes one byte at a time, a non-ASCII character reaches it as replacement characters.
- Handlers.Session.RunProgram: of a module's classes the first is one step and the others together another, so a failure between the second class and the last is one stop; consecutive modules that write no list are one module. Every such stop leaves some class of the module registered and the module not done. That registering a registered class and unregistering an unregistered one raise is Blender's behaviour, which `blender_addon/core/frame_pump.py:263-268` also counts on. The frame pump, the exit hook, the translation catalogs and the servers write no list and are steps that only may raise.
- Handlers.RunsLeaveNoTimer: a timer that fires is a call of its own that takes it out of the held ones; what it runs writes no list.
- Handlers.Session.Unregister: the calls guarded by their own exception handlers, stopping the reload server and dropping the console are taken to succeed; setting the ready flag may fail.
- The solver itself, the Rust extension, the add-on modules known only by their suites, report assembly and packaging scripts: not part of this model.
