# Fabric: a verified model of a mass–spring cloth

`Fabric` simulates a rectangular piece of cloth. The cloth is an `m × n` grid of point masses, stored row-major, so vertex `(j, i)` has index `j*n + i`. Springs and dampers connect the masses:

- **structural** springs join horizontal and vertical neighbours (rest length `dx`);
- **shear** springs join diagonal neighbours (rest length `sqrt_2*dx`);
- **bend** springs join vertices two apart along a row or column (rest length `2*dx`).

The object keeps seven per-vertex buffers: previous and current positions, velocity, normal, tangent, bitangent and the force accumulator.

Once the caller's accumulated time reaches the time step `dt`, `Update` performs one step:

1. It resets the forces.
2. It adds gravity and a wind term.
3. It scatters the bend springs' forces, then the structural and shear springs' forces. Each spring adds its force at one end and subtracts it at the other.
4. It integrates positions (into the previous-position buffer) and velocities.
5. It recomputes tangent, bitangent and normal at interior vertices.
6. It copies the normals of the second-to-last column and row onto the last column and row.
7. It swaps the two position buffers.

The constructor lays the grid out centred on the origin, with a small `sin` ripple in height.

The Dafny project is split into modules:

- **`Vectors`** holds the 3-vectors. It also holds the numeric primitives, carried as uninterpreted function values in `Maths`: `sqrt`, `sin`, `Normalize` and the constant `sqrt_2`.
- **`Grid`** holds the grid indexing and the `size_t` arithmetic of the counts.
- **`Springs`** holds the spring–damper force and `Scatter`, the accumulation of a list of springs into the force buffer.
- **`Passes`** holds the exact lists of springs each source loop visits, in visiting order. It also holds the coverage lemmas that say which springs of the grid those lists reach.
- **`Simulation`** holds the pure specification of one step (`StepForce`, `Advance`, `Step`).
- **`Phases`** holds one method per source loop. Each method is written as a loop over sequences and proved equal to its specification function.
- **`StepProperties`** holds what a step does to the cloth.
- **`Cloth`** holds the `Fabric` class itself. Its fields are the seven buffers, the configuration and the accumulated time `t`. Its constructor, accessors and `Update` are proved against `Layout` and `Step`.

The model keeps the source's behaviour as written, including behaviour that looks unintended. Those places are stated as lemmas:

- The integration loop writes each new position to `prevPos[j*numRows + i]` but reads it back from `prevPos[j*n + i]`. It therefore needs `m <= n` to stay in bounds (`IntegrationWriteInBounds`). On a wide grid (fewer rows than columns) every iteration past row 0 writes its new position into another vertex's slot (`WideWriteMisplaced`), so positions are scrambled. Column 0 is overwritten too (`WideGridOverwritesFirstColumn`), and the last vertex is never advanced (`WideGridCornerStale`).
- Column 0 is never integrated, so its velocity never changes on any grid the step accepts (`FirstColumnVelocityKept`). Only on a square grid does its position stay pinned as well (`SquareGridPinsFirstColumn`).
- The bend passes never visit the horizontal bends of row `m-2` or the vertical bends of column `n-2` (`BendCoverage`, `BendRowGap`, `BendColumnGap`).
- The wind term uses its x-component on all three axes (`ExternalForce`, `WindIgnoresYZ`).
- Tangents, bitangents and normals are computed from the positions the step started from, so the surface frame lags the geometry by one step (`FrameFromPreviousPositions`).

## Model

| member | source | states |
|---|---|---|
| `Vectors.CrossOrthogonal` | dev/MyProjects/Fabric/Fabric.cpp:522 | a normal computed as the cross product of bitangent and tangent is perpendicular to both |
| `Vectors.CrossAntiCommutes` | dev/MyProjects/Fabric/Fabric.cpp:522 | swapping the factors of the cross product negates the normal, so the bitangent-first order fixes its orientation |
| `Grid.SizeSub` | dev/MyProjects/Fabric/Fabric.cpp:19 | `size_t` subtraction is exact when it does not underflow and wraps to `2^64 - (b - a)` when it does |
| `Grid.SizeMul` | dev/MyProjects/Fabric/Fabric.cpp:18 | `size_t` multiplication is below `2^64` and exact whenever the true product fits |
| `Grid.TriangleCountExact` | dev/MyProjects/Fabric/Fabric.cpp:19 | on a grid with at least one row and one column whose count fits, the triangle count is two per quad, `(m-1)*(n-1)*2` |
| `Grid.TriangleCountWraps` | dev/MyProjects/Fabric/Fabric.cpp:19 | on every grid the `size_t` count is the integer `(m-1)*(n-1)*2` reduced modulo `2^64`, so an empty grid stores a wrapped value near `2^64` |
| `Grid.IdxBound` | dev/MyProjects/Fabric/Fabric.cpp:100 | the row-major index `j*n + i` of a vertex of an `m × n` grid is below `m*n` |
| `Grid.IdxDecode` | dev/MyProjects/Fabric/Fabric.cpp:113 | a row-major index determines its row (quotient by `n`) and column (remainder) |
| `Grid.IndexCell` | dev/MyProjects/Fabric/Fabric.cpp:29-35 | every index below `m*n` is the row-major index of exactly one grid vertex |
| `Grid.LinkIndicesInRange` | dev/MyProjects/Fabric/Fabric.cpp:128-476 | both ends of every structural, shear or bend spring of the grid have indices below `m*n` |
| `Springs.RestLength` | dev/MyProjects/Fabric/Fabric.cpp:128-476 | rest length is `dx` for structural, `sqrt_2*dx` for shear and `2*dx` for bend springs |
| `Springs.SpringForce` | dev/MyProjects/Fabric/Fabric.cpp:148-161 | the edge force `k*d + damp*dv` with `k = spring*(len-rest)/len` is zero at rest, is the pure spring force along `d` without relative velocity, and is the pure damping force when the ends coincide |
| `Springs.SpringForceOddInOrientation` | dev/MyProjects/Fabric/Fabric.cpp:148-161 | reversing a spring's orientation negates its force |
| `Springs.StretchedSpringPulls` | dev/MyProjects/Fabric/Fabric.cpp:148-161 | a stretched spring with positive stiffness and no relative velocity pulls its first end towards its second (the force has a positive component along `d`) |
| `Springs.Apply` | dev/MyProjects/Fabric/Fabric.cpp:177-189 | one scatter adds `F` at the spring's first end, subtracts it at the second and leaves every other entry and the length unchanged |
| `Springs.ApplyFarEndFirst` | dev/MyProjects/Fabric/Fabric.cpp:177-183 | the two writes of a scatter commute, so subtracting at the far end first (as the source does) gives the same buffer |
| `Springs.ScatterConcat` | dev/MyProjects/Fabric/Fabric.cpp:128-476 | scattering two spring lists one after the other is scattering their concatenation |
| `Springs.ApplyConserves` | dev/MyProjects/Fabric/Fabric.cpp:177-189 | one scatter leaves the sum of all forces unchanged |
| `Springs.ScatterConserves` | dev/MyProjects/Fabric/Fabric.cpp:128-476 | scattering any list of springs leaves the sum of all forces unchanged (Newton's third law) |
| `Passes.BendMainRowCount` | dev/MyProjects/Fabric/Fabric.cpp:130-190 | row `j` of the main bend pass up to column `i` visits each vertical and horizontal bend starting at `(j, c)`, `c < i`, exactly once, and nothing else |
| `Passes.BendMainCount` | dev/MyProjects/Fabric/Fabric.cpp:128-192 | the main bend pass visits each bend starting at a vertex with row `< m-2` and column `< n-2` exactly once, and nothing else |
| `Passes.BendLastRowCount` | dev/MyProjects/Fabric/Fabric.cpp:194-235 | the last-row bend pass visits the horizontal bends of row `m-1` starting before column `i` once each, and nothing else |
| `Passes.BendLastColCount` | dev/MyProjects/Fabric/Fabric.cpp:237-273 | the last-column bend pass visits the vertical bends of column `n-1` starting before row `j` once each, and nothing else |
| `Passes.BendMainMembers` | dev/MyProjects/Fabric/Fabric.cpp:128-192 | a spring is in the main bend pass if and only if it is a right or down bend starting at row `< m-2`, column `< n-2` |
| `Passes.BendLastRowMembers` | dev/MyProjects/Fabric/Fabric.cpp:194-235 | a spring is in the last-row bend pass if and only if it is a horizontal bend of row `m-1` starting before column `i` |
| `Passes.BendLastColMembers` | dev/MyProjects/Fabric/Fabric.cpp:237-273 | a spring is in the last-column bend pass if and only if it is a vertical bend of column `n-1` starting before row `j` |
| `Passes.BendCoverage` | dev/MyProjects/Fabric/Fabric.cpp:128-273 | the three bend passes visit every bend spring of the grid exactly once except the horizontal bends of row `m-2` and the vertical bends of column `n-2`, which they never visit, and visit nothing else |
| `Passes.BendRowGap` | dev/MyProjects/Fabric/Fabric.cpp:128-235 | with at least three columns, the horizontal bend `(m-2,0)–(m-2,2)` exists and no bend pass visits it |
| `Passes.BendColumnGap` | dev/MyProjects/Fabric/Fabric.cpp:128-273 | with at least three rows, the vertical bend `(0,n-2)–(2,n-2)` exists and no bend pass visits it |
| `Passes.ShortCellLinksCount` | dev/MyProjects/Fabric/Fabric.cpp:279-393 | iteration `(j, i)` of the main short pass visits exactly the four structural and shear springs assigned to cell `(j, i)`, once each |
| `Passes.ShortMainRowCount` | dev/MyProjects/Fabric/Fabric.cpp:277-394 | row `j` of the main short pass up to column `i` visits the springs of cells `(j, c)`, `c < i`, once each, and nothing else |
| `Passes.ShortMainCount` | dev/MyProjects/Fabric/Fabric.cpp:275-395 | the main short pass visits the springs of every cell with row `< m-1`, column `< n-1` once each, and nothing else |
| `Passes.ShortLastRowCount` | dev/MyProjects/Fabric/Fabric.cpp:397-436 | the last-row short pass visits the horizontal structural springs of row `m-1` before column `i` once each, and nothing else |
| `Passes.ShortLastColCount` | dev/MyProjects/Fabric/Fabric.cpp:438-476 | the last-column short pass visits the vertical structural springs of column `n-1` before row `j` once each, and nothing else |
| `Passes.ShortMainMembers` | dev/MyProjects/Fabric/Fabric.cpp:275-395 | a spring is in the main short pass if and only if it is one of the four springs of a cell with row `< m-1`, column `< n-1` |
| `Passes.ShortLastRowMembers` | dev/MyProjects/Fabric/Fabric.cpp:397-436 | a spring is in the last-row short pass if and only if it is a horizontal structural spring of row `m-1` before column `i` |
| `Passes.ShortLastColMembers` | dev/MyProjects/Fabric/Fabric.cpp:438-476 | a spring is in the last-column short pass if and only if it is a vertical structural spring of column `n-1` before row `j` |
| `Passes.ShortCoverage` | dev/MyProjects/Fabric/Fabric.cpp:275-476 | the three short passes visit every structural and shear spring of the grid exactly once and nothing else |
| `Passes.PassIndicesInRange` | dev/MyProjects/Fabric/Fabric.cpp:128-476 | every spring the force passes visit is a spring of the grid, so every index they read or write is below `m*n` |
| `Simulation.Zeros` | dev/MyProjects/Fabric/Fabric.cpp:96-104 | `N` entries, every one the zero vector |
| `Simulation.ExternalForce` | dev/MyProjects/Fabric/Fabric.cpp:117-122 | the external force has equal x and z components (both `wind_infl*WFx`) and its y component exceeds them by `mass*gravity` |
| `Simulation.WindIgnoresYZ` | dev/MyProjects/Fabric/Fabric.cpp:117-122 | the y and z wind components never change the external force |
| `Simulation.StretchedSprings` | dev/MyProjects/Fabric/Fabric.cpp:128-476 | what a step needs for `1/diffNorm` to be defined: every spring the passes visit has non-zero length exactly when every structural and shear spring, and every bend spring outside the skipped row `m-2` and column `n-2`, has non-zero length |
| `Simulation.IntRowsCells` | dev/MyProjects/Fabric/Fabric.cpp:479-481 | the integration loop's iterations over rows `< j` visit only columns `1 .. n-1`: column 0 is skipped |
| `Simulation.IntRowsAt` | dev/MyProjects/Fabric/Fabric.cpp:479-481 | the integration loop has `j*(n-1)` iterations, the `a`-th visiting row `a/(n-1)`, column `a%(n-1)+1` |
| `Simulation.IntRowsDistinct` | dev/MyProjects/Fabric/Fabric.cpp:479-481 | no two iterations of the integration loop visit the same vertex |
| `Simulation.WriteIdxInRange` | dev/MyProjects/Fabric/Fabric.cpp:484-498 | with no more rows than columns, the write index `j*m + i` and the read index `j*n + i` of every vertex are in range |
| `Simulation.WriteIdxOverflows` | dev/MyProjects/Fabric/Fabric.cpp:484 | with more rows than columns, the last iteration writes at or past the end of the buffer |
| `Simulation.LastCellVisited` | dev/MyProjects/Fabric/Fabric.cpp:479-481 | the integration loop visits the corner vertex `(m-1, n-1)` |
| `Simulation.IntegrationWriteInBounds` | dev/MyProjects/Fabric/Fabric.cpp:479-501 | every write of the integration loop is in bounds if and only if the grid has no more rows than columns |
| `Simulation.IntegrateUntouched` | dev/MyProjects/Fabric/Fabric.cpp:479-501 | a position entry no iteration writes, and a velocity entry no iteration visits, keep their values |
| `Simulation.IntegrateAt` | dev/MyProjects/Fabric/Fabric.cpp:484-498 | on a square grid each visited vertex gets position `cur + vel*dt + force*0.5/mass*dt*dt` and velocity (new − old position)/`dt` |
| `Simulation.CopyBoundaryAt` | dev/MyProjects/Fabric/Fabric.cpp:528-537 | after the boundary copy, the normal of `(r, c)` is the old normal of its source vertex: the second-to-last column or row, with the corner taken from `(m-2, n-2)` |
| `Simulation.BoundaryColumnAgrees` | dev/MyProjects/Fabric/Fabric.cpp:528-537 | after the copy, each last-column normal equals its left neighbour's |
| `Simulation.BoundaryRowAgrees` | dev/MyProjects/Fabric/Fabric.cpp:528-537 | after the copy, each last-row normal equals the normal above it |
| `Simulation.CopyBoundaryKeepsInterior` | dev/MyProjects/Fabric/Fabric.cpp:528-537 | the copy leaves interior normals unchanged |
| `Phases.ResetForces` | dev/MyProjects/Fabric/Fabric.cpp:96-104 | the reset loop leaves `m*n` zero forces |
| `Phases.AddExternalAt` | dev/MyProjects/Fabric/Fabric.cpp:113-122 | the wind-and-gravity iteration for index `x` extends the prefix of updated entries to `x+1`, leaving the rest as they were |
| `Phases.AddExternalRow` | dev/MyProjects/Fabric/Fabric.cpp:111-124 | after row `j` every entry before `(j+1)*n` has its external force added and every later entry is unchanged |
| `Phases.AddExternalForces` | dev/MyProjects/Fabric/Fabric.cpp:109-125 | the wind loop adds `ExternalForce` of that vertex's normal and velocity to every entry |
| `Phases.BendCellScatter` | dev/MyProjects/Fabric/Fabric.cpp:177-189 | the four vector writes of a main bend iteration, in source order, equal scattering its vertical then its horizontal bend spring |
| `Phases.BendMainCell` | dev/MyProjects/Fabric/Fabric.cpp:132-189 | iteration `(j, i)` of the main bend pass extends the scatter of row `j` by column `i` |
| `Phases.BendMainRowPass` | dev/MyProjects/Fabric/Fabric.cpp:130-190 | row `j` of the main bend pass equals scattering that row's bend springs |
| `Phases.BendMainPass` | dev/MyProjects/Fabric/Fabric.cpp:128-192 | the main bend pass equals scattering `BendMain(m-2, n-2)` |
| `Phases.BendLastRowSpring` | dev/MyProjects/Fabric/Fabric.cpp:196-234 | one iteration of the last-row bend pass extends its scatter by one spring |
| `Phases.BendLastRowPass` | dev/MyProjects/Fabric/Fabric.cpp:194-235 | the last-row bend pass equals scattering the horizontal bends of row `m-1` |
| `Phases.BendLastColSpring` | dev/MyProjects/Fabric/Fabric.cpp:238-272 | one iteration of the last-column bend pass extends its scatter by one spring |
| `Phases.BendLastColPass` | dev/MyProjects/Fabric/Fabric.cpp:237-273 | the last-column bend pass equals scattering the vertical bends of column `n-1` |
| `Phases.BendForcesSplit` | dev/MyProjects/Fabric/Fabric.cpp:128-273 | the three bend passes run in turn give `BendForces` |
| `Phases.BendPhase` | dev/MyProjects/Fabric/Fabric.cpp:128-273 | the bend phase leaves the force buffer equal to `BendForces` |
| `Phases.ShortCellScatter` | dev/MyProjects/Fabric/Fabric.cpp:363-393 | the eight vector writes of a main short iteration, in source order, equal scattering its four springs |
| `Phases.ShortMainCell` | dev/MyProjects/Fabric/Fabric.cpp:279-393 | iteration `(j, i)` of the main short pass extends the scatter of row `j` by column `i` |
| `Phases.ShortMainRowPass` | dev/MyProjects/Fabric/Fabric.cpp:277-394 | row `j` of the main short pass equals scattering that row's springs |
| `Phases.ShortMainPass` | dev/MyProjects/Fabric/Fabric.cpp:275-395 | the main short pass equals scattering `ShortMain(m-1, n-1)` |
| `Phases.ShortLastRowSpring` | dev/MyProjects/Fabric/Fabric.cpp:398-435 | one iteration of the last-row short pass extends its scatter by one spring |
| `Phases.ShortLastRowPass` | dev/MyProjects/Fabric/Fabric.cpp:397-436 | the last-row short pass equals scattering the horizontal structural springs of row `m-1` |
| `Phases.ShortLastColSpring` | dev/MyProjects/Fabric/Fabric.cpp:439-475 | one iteration of the last-column short pass extends its scatter by one spring |
| `Phases.ShortLastColPass` | dev/MyProjects/Fabric/Fabric.cpp:438-476 | the last-column short pass equals scattering the vertical structural springs of column `n-1` |
| `Phases.ShortForcesSplit` | dev/MyProjects/Fabric/Fabric.cpp:275-476 | the three short passes run in turn give `ShortForces` |
| `Phases.ShortPhase` | dev/MyProjects/Fabric/Fabric.cpp:275-476 | the structural-and-shear phase leaves the force buffer equal to `ShortForces` |
| `Phases.IntegrateVertex` | dev/MyProjects/Fabric/Fabric.cpp:484-498 | iteration `(j, i)` writes the new position at `j*m + i` and reads the velocity back from `j*n + i`, extending the integrated prefix by one iteration |
| `Phases.IntegrateRow` | dev/MyProjects/Fabric/Fabric.cpp:481-500 | row `j` of the integration loop extends the integrated rows by one |
| `Phases.IntegratePass` | dev/MyProjects/Fabric/Fabric.cpp:479-501 | the integration loop equals `Integrate` over all its iterations in order |
| `Phases.FrameVertex` | dev/MyProjects/Fabric/Fabric.cpp:512-522 | iteration `(j, i)` writes the normalised tangent, bitangent and their cross product at `j*n + i`, extending the recomputed prefix by one |
| `Phases.FrameRow` | dev/MyProjects/Fabric/Fabric.cpp:510-524 | row `j` of the frame loop recomputes the row's interior vertices and keeps its last column |
| `Phases.RecomputeFrames` | dev/MyProjects/Fabric/Fabric.cpp:508-525 | the frame loop gives every interior vertex a new tangent, bitangent and normal and leaves the last row and column unchanged |
| `Phases.CopyColumnAt` | dev/MyProjects/Fabric/Fabric.cpp:530 | one iteration of the column copy sets the last normal of row `j` from its left neighbour |
| `Phases.CopyLastColumn` | dev/MyProjects/Fabric/Fabric.cpp:528-532 | the column copy sets every last-column normal from its left neighbour and changes nothing else |
| `Phases.CopyRowAt` | dev/MyProjects/Fabric/Fabric.cpp:535 | one iteration of the row copy sets the last-row normal of column `i` from the row above |
| `Phases.CopyLastRow` | dev/MyProjects/Fabric/Fabric.cpp:533-537 | the row copy sets every last-row normal from the row above and changes nothing else |
| `Phases.CopiedSourceOf` | dev/MyProjects/Fabric/Fabric.cpp:528-537 | following the row copy's source, then the column copy's source, leads to `BoundarySource` of the vertex |
| `Phases.CopiesCompose` | dev/MyProjects/Fabric/Fabric.cpp:528-537 | the column copy followed by the row copy is `CopyBoundary` |
| `Phases.CopyBoundaryNormals` | dev/MyProjects/Fabric/Fabric.cpp:528-537 | the two copy loops leave the normals equal to `CopyBoundary` |
| `Phases.ForcePhasesCompose` | dev/MyProjects/Fabric/Fabric.cpp:96-476 | reset, external forces, bend phase and short phase in turn give `StepForce` |
| `Phases.AdvanceComposes` | dev/MyProjects/Fabric/Fabric.cpp:479-540 | integration, the frame loop, the boundary copy and the swap together give `Advance` |
| `StepProperties.StepConservesForce` | dev/MyProjects/Fabric/Fabric.cpp:96-476 | the total force after the force phases is the total external force: the springs only move force between vertices |
| `StepProperties.CoordinateGain` | dev/MyProjects/Fabric/Fabric.cpp:484-498 | per coordinate, the displacement over one step divided by `dt` is the old velocity plus `force*0.5/mass*dt` |
| `StepProperties.VelocityGain` | dev/MyProjects/Fabric/Fabric.cpp:484-498 | the velocity read back after the position update is the old velocity plus `0.5*dt/mass` times the force |
| `StepProperties.IterationOf` | dev/MyProjects/Fabric/Fabric.cpp:479-481 | every vertex outside column 0 is visited by some iteration of the integration loop |
| `StepProperties.SquareGridIntegrates` | dev/MyProjects/Fabric/Fabric.cpp:479-540 | on a square grid, after a step, every vertex outside column 0 is at its integrated position and has the gained velocity |
| `StepProperties.SquareGridPinsFirstColumn` | dev/MyProjects/Fabric/Fabric.cpp:479-540 | on a square grid, a column-0 vertex takes its previous position and keeps its velocity, so it stays put when its two position buffers agree |
| `StepProperties.FirstColumnVelocityKept` | dev/MyProjects/Fabric/Fabric.cpp:479-501 | on every grid with no more rows than columns, a column-0 vertex keeps its velocity through the integration |
| `StepProperties.WideWriteMisplaced` | dev/MyProjects/Fabric/Fabric.cpp:484-494 | on a wide grid, iteration `(j, i)` with `j >= 1` writes its new position inside the buffer but below its own slot `j*n + i`, into another vertex's slot |
| `StepProperties.WideGridOverwritesFirstColumn` | dev/MyProjects/Fabric/Fabric.cpp:479-501 | on a wide grid, iteration `(1, n-m)` is part of the loop and writes the slot of column-0 vertex `(1, 0)` |
| `StepProperties.WriteMissesLastVertex` | dev/MyProjects/Fabric/Fabric.cpp:484 | with fewer rows than columns, every write index of the integration loop is below `m*n - 1` |
| `StepProperties.LastIteration` | dev/MyProjects/Fabric/Fabric.cpp:479-481 | the integration loop's last iteration is `(m-1, n-1)` |
| `StepProperties.IntegrateLastReadsStale` | dev/MyProjects/Fabric/Fabric.cpp:484-498 | if the last iteration reads an entry that no iteration writes, that position is unchanged and its velocity is derived from the stale value |
| `StepProperties.WideWritesMissLast` | dev/MyProjects/Fabric/Fabric.cpp:479-501 | on a wide grid no iteration writes the last position entry |
| `StepProperties.IntegrateMissesCorner` | dev/MyProjects/Fabric/Fabric.cpp:479-501 | on a wide grid the loop leaves the last position entry alone and derives the last velocity from it |
| `StepProperties.WideGridCornerStale` | dev/MyProjects/Fabric/Fabric.cpp:479-540 | on a wide grid, after a step, the corner is where it was two steps before and its velocity comes from that stale position |
| `StepProperties.AdvanceIntegrates` | dev/MyProjects/Fabric/Fabric.cpp:479-540 | after the swap, the current positions and the velocities are exactly the integration loop's result |
| `StepProperties.FrameFromPreviousPositions` | dev/MyProjects/Fabric/Fabric.cpp:508-540 | at interior vertices the new frame is computed from the positions that become `prevPos` after the swap, and the normal is perpendicular to tangent and bitangent |
| `StepProperties.BoundaryFrameKept` | dev/MyProjects/Fabric/Fabric.cpp:508-525 | last-row and last-column vertices keep their tangent and bitangent |
| `Cloth.LayoutAt` | dev/MyProjects/Fabric/Fabric.cpp:41-53 | entry `(row, col)` of the layout is that vertex's rest position |
| `Cloth.LayoutSpacing` | dev/MyProjects/Fabric/Fabric.cpp:39-46 | one column to the right is `+dx` in x, one row down is `-dx` in z, and the other coordinate is unchanged |
| `Cloth.LayoutCentred` | dev/MyProjects/Fabric/Fabric.cpp:39-46 | the layout is centred: mirrored columns have opposite x, mirrored rows opposite z |
| `Cloth.PlaceVertex` | dev/MyProjects/Fabric/Fabric.cpp:43-51 | iteration `(i, j)` of the grid loop writes the rest position and the up normal at `i*n + j`, extending the written prefix by one |
| `Cloth.PlaceRow` | dev/MyProjects/Fabric/Fabric.cpp:43-52 | row `i` of the grid loop writes the row's rest positions and up normals |
| `Cloth.PlaceGrid` | dev/MyProjects/Fabric/Fabric.cpp:41-53 | the grid loop leaves every position at its rest position and every normal `(0, 1, 0)` |
| `Cloth.Ups` | dev/MyProjects/Fabric/Fabric.cpp:51 | `N` entries, every one the up vector `(0, 1, 0)` |
| `Cloth.AccumulateForce` | dev/MyProjects/Fabric/Fabric.cpp:96-476 | the force phases in source order leave the force buffer equal to `StepForce` |
| `Cloth.AdvancePhases` | dev/MyProjects/Fabric/Fabric.cpp:479-537 | integration, frame loop and boundary copy produce the buffers `Advance` describes |
| `Cloth.Fabric.constructor` | dev/MyProjects/Fabric/Fabric.cpp:12-54 | stores the configuration and the `size_t` counts (the triangle count wrapped modulo `2^64`); both position buffers hold the centred rest layout; velocities, tangents, bitangents and forces are zero; every normal points up; `t` is 0 |
| `Cloth.Fabric.RowCount` | dev/MyProjects/Fabric/Fabric.cpp:57-60 | the row count `m`; times the column count it is the length of every buffer |
| `Cloth.Fabric.ColumnCount` | dev/MyProjects/Fabric/Fabric.cpp:62-65 | the column count `n`; the row count times it is the length of every buffer |
| `Cloth.Fabric.VertexCount` | dev/MyProjects/Fabric/Fabric.cpp:67-70 | the stored vertex count is the length of the position, normal, tangent and bitangent buffers |
| `Cloth.Fabric.TriangleCount` | dev/MyProjects/Fabric/Fabric.cpp:72-75 | the count the constructor stored, `(m-1)*(n-1)*2` modulo `2^64`; two triangles per quad whenever the grid is non-empty and that count fits in `size_t` |
| `Cloth.Fabric.Width` | dev/MyProjects/Fabric/Fabric.cpp:77-80 | `n*dx`: the x-extent of the rest layout from first to last column plus one spacing |
| `Cloth.Fabric.Depth` | dev/MyProjects/Fabric/Fabric.cpp:82-85 | `m*dx`: the z-extent of the rest layout from first to last row plus one spacing |
| `Cloth.Fabric.Position` | dev/MyProjects/Fabric/Fabric.h:26 | vertex `i`'s entry of the current-position buffer |
| `Cloth.Fabric.Normal` | dev/MyProjects/Fabric/Fabric.h:29 | vertex `i`'s entry of the normal buffer |
| `Cloth.Fabric.Tangent` | dev/MyProjects/Fabric/Fabric.h:31 | vertex `i`'s entry of the tangent buffer |
| `Cloth.Fabric.Bitangent` | dev/MyProjects/Fabric/Fabric.h:33 | vertex `i`'s entry of the bitangent buffer |
| `Cloth.Fabric.StepBuffers` | dev/MyProjects/Fabric/Fabric.cpp:95-540 | one step turns the seven buffers into `Step` of the old buffers and the wind, keeping every buffer one entry per vertex |
| `Cloth.Fabric.Update` | dev/MyProjects/Fabric/Fabric.cpp:87-545 | adds `ddt` to `t`. Once `t` reaches `dt` it performs one `Step` and resets `t` to 0; otherwise the buffers are unchanged |

## Left out

- Floating point: `float` arithmetic is modelled as exact real arithmetic, so rounding, overflow, NaN and infinities are not modelled.
- Numeric primitives: `sqrt`, `sin`, `MathHelper::Normalize` and `MathHelper::sqrt_2` are arbitrary values carried in `Maths`, because their definitions (`MathHelper`) are not part of this model. Nothing is assumed about them beyond what each lemma states.
- Concurrency: `concurrency::parallel_for` is modelled as a sequential loop over `j` in increasing order. Within the bend and short passes, different `j` can write the same force entry, so the source has data races that the model does not capture.
- Per-coordinate writes: Each `.x/.y/.z` triple of writes is one `Vec3` operation. Each phase is computed on sequence values and then assigned to the fields, so in-place aliasing between buffers is not modelled.
- Gravity and wind influence: `gravity` is never initialised by the source constructor, and `wind_infl` is not declared in `Fabric.h`. Both, and the numeric primitives, are extra constructor parameters stored in the configuration.
- Static `t`: The source's `static float t` is shared by every `Fabric` object; here it is a field of each object.
- Rendering: `DirectX` types, `XMFLOAT3` and any rendering or vertex-buffer copying are outside the model. `Vec3` stands for `XMFLOAT3`.
- Layout on an empty grid: `halfWidth` and `halfDepth` use `(n - 1)` and `(m - 1)` converted to real. On an empty grid the source computes these on wrapped `size_t` values; that case is not modelled, and the grid loop writes nothing there anyway.
- Cloth.Fabric.constructor: requires `m`, `n` and `m*n` below `2^64`. The source's `size_t` parameters already bound `m` and `n`; for `m*n` the source would wrap and resize to a smaller buffer, which is not modelled.
- Cloth.Fabric.constructor: states that tangents, bitangents and forces start at zero. The source only resizes these buffers (Fabric.cpp:32-35), so they are zero only because `resize` value-initialises `XMFLOAT3`, which holds while its default constructor is the defaulted one. The model assumes that. The last row and column never have their tangent frame recomputed (`StepProperties.BoundaryFrameKept`), so `Tangent(i)` and `Bitangent(i)` return this initial value there.
- Cloth.Fabric.Update: requires, only when a step is due, what the step needs to be defined:
  - at least two rows and two columns (otherwise `n - 2` and `m - 2` wrap and the loops run out of bounds);
  - no more rows than columns (otherwise the integration writes out of bounds, see `Simulation.IntegrationWriteInBounds`);
  - non-zero `mass` and `dt`;
  - no zero-length spring among those the passes visit (otherwise `1/diffNorm` divides by zero); each force pass asks only for the springs it visits itself.

  The source's behaviour in those cases is undefined and is not modelled.
- Cloth.Fabric.StepBuffers: has the same requirements as a step of `Update`.
