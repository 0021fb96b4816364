# CADET solution exporter layout and unit-operation parameter registry

This project models two pieces of the CADET chromatography simulator's core.

The **solution exporter** is a read-only view of one unit operation's state vector. A `Layout` describes:

- how many components, axial cells and radial cells there are;
- how many bound states each component has;
- where each block of the buffer starts (bulk mobile phase, particle flux, particle mobile phase, solid phase, volume);
- the loop order (`StateOrdering` sequence) of each block and the stride between its innermost blocks;
- the strided inlet and outlet ports.

Every query of the exporter is a pure function of a `Layout` and the buffer (`seq<real>`). An absent feature is `None`, where the C++ interface returns a null pointer.

The **unit operation base** keeps the parameter registry shared by all unit operation models. It maps a structured `ParameterId` to the storage cell of an active parameter (a value plus AD derivatives by direction), and keeps the set of cells whose AD directions are switched on. It is a class whose methods update these fields in place.

Modules:

- `Wrappers`: `Option`.
- `Linearization`: mixed-radix, row-major offsets and strided blocks.
- `BoundStates`: sums of bound-state counts and the flat bound-state index.
- `SolutionExporter`: the layout and its accessors.
- `UnitOperation`: the registry class.

How the loop order is read:

- The first tag of an ordering is the outermost loop.
- The innermost level is stored contiguously.
- Consecutive innermost blocks are `stride` elements apart.
- The stride is at least the innermost extent, so blocks never overlap. The flux block has no stride query, so it is dense.
- Components can have different numbers of bound states. So a `Component` tag directly followed by `BoundState` forms one flat level: component `c`, bound state `b` sits at position `(bound states of components before c) + b`, among `numBoundStates()` positions.

Mapping to the interface:

- `numComponents()`, `numAxialCells()` and `numRadialCells()` are the `Layout` fields of the same names.
- `hasParticleFlux()`, `hasParticleMobilePhase()`, `hasSolidPhase()` and `hasVolume()` are the predicates `HasParticleFlux` … `HasVolume`: the matching block is present.
- For an absent feature, the DOF counts are 0 and the stride queries return the stored value.
- A well-formed layout has a solid phase exactly when some component binds, and a volume block only when it holds at least one DOF.

## Model

| member | source | states |
|---|---|---|
| SolutionExporter.HasMultipleBoundStates | include/cadet/SolutionExporter.hpp:47-52 | true exactly when some component has more than one bound state |
| SolutionExporter.HasNonBindingComponents | include/cadet/SolutionExporter.hpp:72-77 | true exactly when some component has no bound state |
| SolutionExporter.NumBoundStates | include/cadet/SolutionExporter.hpp:104-108 | the total equals the sum of the per-component counts; each component's run of bound states lies inside the total |
| SolutionExporter.NumBoundStatesPerComponent | include/cadet/SolutionExporter.hpp:110-114 | one count per component, and they sum to numBoundStates() |
| SolutionExporter.NumBoundStatesOf | include/cadet/SolutionExporter.hpp:116-121 | entry comp of the per-component counts; never exceeds the total; equals the difference of consecutive bound-state offsets |
| SolutionExporter.SingleBoundStateEach | include/cadet/SolutionExporter.hpp:47-121 | without multiple bound states, total ≤ numComponents; without non-binding components, total ≥ numComponents; with neither, equal |
| BoundStates.AnyNonBindingIff | include/cadet/SolutionExporter.hpp:72-77 | the scan for a non-binding component succeeds exactly when such a component exists |
| BoundStates.AnyMultipleIff | include/cadet/SolutionExporter.hpp:47-52 | the scan for a multi-state component succeeds exactly when such a component exists |
| BoundStates.BoundOffsetMonotone | include/cadet/SolutionExporter.hpp:104-121 | the offset of a component's first bound state does not decrease with the component index |
| BoundStates.FlatBoundInRange | include/cadet/SolutionExporter.hpp:198-204 | a valid (component, bound state) pair has a flat index below numBoundStates() |
| BoundStates.FlatBoundInjective | include/cadet/SolutionExporter.hpp:198-204 | distinct valid (component, bound state) pairs have distinct flat indices |
| BoundStates.LocateBound | include/cadet/SolutionExporter.hpp:198-204 | every flat index below the total names a valid (component, bound state) pair, and that pair's flat index is the one given |
| BoundStates.SingleBoundStatesAtMostComponents | include/cadet/SolutionExporter.hpp:47-52 | if no component has more than one bound state, the total is at most the number of components |
| BoundStates.BindingComponentsAtLeastComponents | include/cadet/SolutionExporter.hpp:72-77 | if every component binds, the total is at least the number of components |
| Linearization.LinearInjective | include/cadet/SolutionExporter.hpp:270-279 | nested loops in a given order reach distinct in-range index tuples at distinct positions |
| Linearization.LinearBelowProduct | include/cadet/SolutionExporter.hpp:270-279 | the position of an in-range index tuple is below the product of the extents |
| Linearization.Decompose | include/cadet/SolutionExporter.hpp:270-279 | every position below the product of the extents is reached by an in-range index tuple |
| Linearization.DecomposeLinear | include/cadet/SolutionExporter.hpp:270-279 | decomposing the position of an in-range tuple gives that tuple back |
| Linearization.StridedWithinSpan | include/cadet/SolutionExporter.hpp:314-319 | a strided offset of an in-range tuple lies inside the block's span |
| Linearization.StridedInjective | include/cadet/SolutionExporter.hpp:314-319 | when the stride is at least the innermost extent, distinct tuples have distinct strided offsets |
| Linearization.DenseStrided | include/cadet/SolutionExporter.hpp:314-319 | with the stride equal to the innermost extent, strided and dense offsets agree and the span is the product of the extents |
| Linearization.NextBlock | include/cadet/SolutionExporter.hpp:314-319 | advancing the next-to-innermost index by one moves exactly one stride |
| SolutionExporter.OffsetWithinBuffer | include/cadet/SolutionExporter.hpp:157-204 | every in-range point of a present block lies in the buffer, at or after the block's start |
| SolutionExporter.SameIndices | include/cadet/SolutionExporter.hpp:314-333 | when innermost blocks do not overlap, two in-range points at the same buffer index have the same loop indices |
| SolutionExporter.SamePoint | include/cadet/SolutionExporter.hpp:270-312 | when an ordering names every dimension of its block, equal loop indices mean the same point |
| SolutionExporter.OffsetInjective | include/cadet/SolutionExporter.hpp:157-204 | two in-range points of one block at the same buffer index are the same point |
| SolutionExporter.ExtentsProduct | include/cadet/SolutionExporter.hpp:123-155 | for any well-formed loop order, the product of the extents equals the same closed form in the dimensions |
| SolutionExporter.BlockDofs | include/cadet/SolutionExporter.hpp:123-155 | the extents of a present block multiply to its DOF count |
| SolutionExporter.NumDofs | include/cadet/SolutionExporter.hpp:123-155 | a block's DOF count is its closed form when the block is present and 0 otherwise |
| SolutionExporter.NumBulkDofs | include/cadet/SolutionExporter.hpp:123-127 | numComponents · numAxialCells, whatever the bulk ordering |
| SolutionExporter.NumFluxDofs | include/cadet/SolutionExporter.hpp:145-149 | numComponents · numAxialCells when fluxes exist, otherwise 0 |
| SolutionExporter.NumParticleMobilePhaseDofs | include/cadet/SolutionExporter.hpp:129-135 | numComponents · numAxialCells · numRadialCells when particles exist, otherwise 0 |
| SolutionExporter.NumSolidPhaseDofs | include/cadet/SolutionExporter.hpp:137-143 | numAxialCells · numRadialCells · numBoundStates() when a solid phase exists, otherwise 0 |
| SolutionExporter.NumVolumeDofs | include/cadet/SolutionExporter.hpp:151-155 | positive exactly when hasVolume() holds (volume DOFs are present); then the size of the volume slice, otherwise 0 |
| SolutionExporter.DenseOffset | include/cadet/SolutionExporter.hpp:270-319 | in a dense block, an element sits at the block start plus its nested-loop position, and the block's span equals its DOF count |
| SolutionExporter.OrderingLength | include/cadet/SolutionExporter.hpp:270-312 | an ordering that lists each dimension of a block once has as many entries as the block has dimensions |
| SolutionExporter.ConcentrationOrdering | include/cadet/SolutionExporter.hpp:270-279 | never absent; under the model's layout assumption (every dimension of the block listed once) it lists component and axial cell once each and has length 2 |
| SolutionExporter.FluxOrdering | include/cadet/SolutionExporter.hpp:281-290 | absent exactly when there is no particle flux; otherwise, under the model's layout assumption, lists component and axial cell once each and has length 2 |
| SolutionExporter.MobilePhaseOrdering | include/cadet/SolutionExporter.hpp:292-301 | absent exactly when there is no particle mobile phase; otherwise, under the model's layout assumption, lists component, axial and radial cell once each and has length 3 |
| SolutionExporter.SolidPhaseOrdering | include/cadet/SolutionExporter.hpp:303-312 | absent exactly when there is no solid phase; otherwise, under the model's layout assumption, lists all four dimensions once each and has length 4 |
| SolutionExporter.BulkMobilePhaseStride | include/cadet/SolutionExporter.hpp:314-319 | at least the size of the innermost bulk level, so consecutive blocks do not overlap |
| SolutionExporter.ParticleMobilePhaseStride | include/cadet/SolutionExporter.hpp:321-326 | when particles exist, at least the size of their innermost level |
| SolutionExporter.SolidPhaseStride | include/cadet/SolutionExporter.hpp:328-333 | when a solid phase exists, at least the size of its innermost level |
| SolutionExporter.BulkBlockStep | include/cadet/SolutionExporter.hpp:314-319 | cell-major bulk: the next axial cell is one stride on; component-major bulk: the next component is one stride on |
| SolutionExporter.FeatureFlags | include/cadet/SolutionExporter.hpp:47-84 | hasParticleFlux(), hasParticleMobilePhase(), hasSolidPhase() and hasVolume() hold exactly when the matching view (and ordering) exists; a present part has its closed-form DOF count and an absent one has none; hasVolume() holds exactly when there are volume DOFs; hasSolidPhase() holds exactly when there are bound states, so multiple bound states imply a solid phase |
| SolutionExporter.ConcentrationView | include/cadet/SolutionExporter.hpp:216-222 | never absent |
| SolutionExporter.FluxView | include/cadet/SolutionExporter.hpp:224-229 | absent exactly when there is no particle flux |
| SolutionExporter.MobilePhaseView | include/cadet/SolutionExporter.hpp:231-236 | absent exactly when there is no particle mobile phase |
| SolutionExporter.SolidPhaseView | include/cadet/SolutionExporter.hpp:238-243 | absent exactly when there is no solid phase |
| SolutionExporter.VolumeView | include/cadet/SolutionExporter.hpp:245-249 | absent exactly when there are no volume DOFs |
| SolutionExporter.Concentration | include/cadet/SolutionExporter.hpp:157-168 | the element reached from concentration() through concentrationOrdering() and bulkMobilePhaseStride(); in a dense block, the nested-loop position from the view |
| SolutionExporter.ParticleFlux | include/cadet/SolutionExporter.hpp:170-179 | the element reached from flux() by nested loops in fluxOrdering() order |
| SolutionExporter.MobilePhase | include/cadet/SolutionExporter.hpp:181-191 | the element reached from mobilePhase() through mobilePhaseOrdering() and particleMobilePhaseStride(); dense form as above |
| SolutionExporter.SolidPhase | include/cadet/SolutionExporter.hpp:193-204 | the element reached from solidPhase() through solidPhaseOrdering() and solidPhaseStride(), with the component's bound state at its flat index; dense form as above |
| SolutionExporter.Volume | include/cadet/SolutionExporter.hpp:206-214 | the element dof places after volume() |
| SolutionExporter.StridedValues | include/cadet/SolutionExporter.hpp:251-267 | n values, value i being the one i strides after the start |
| SolutionExporter.ContiguousValues | include/cadet/SolutionExporter.hpp:251-267 | with stride 1 the values are the contiguous slice |
| SolutionExporter.Inlet | include/cadet/SolutionExporter.hpp:251-258 | one value per component, component i at inlet start + i · stride |
| SolutionExporter.Outlet | include/cadet/SolutionExporter.hpp:260-267 | one value per component, component i at outlet start + i · stride |
| SolutionExporter.CellMajorValid | include/cadet/SolutionExporter.hpp:123-127 | 2 components and 10 axial cells, no particles and no bound states, inlet at elements 0 and 1, cell-major bulk from element 2 with stride 2: the layout is valid for 22 elements and has 20 bulk DOFs |
| SolutionExporter.ComponentMajorValid | include/cadet/SolutionExporter.hpp:123-127 | the same system component-major with stride 10: valid for 22 elements, 20 bulk DOFs |
| SolutionExporter.CellMajorElement | include/cadet/SolutionExporter.hpp:157-168 | cell-major: concentration(c, j) is element 2 + 2j + c (so concentration(1, 5) is element 13) |
| SolutionExporter.ComponentMajorElement | include/cadet/SolutionExporter.hpp:157-168 | component-major: concentration(c, j) is element 2 + 10c + j (so concentration(1, 5) is element 17) |
| SolutionExporter.CellMajorOutlet | include/cadet/SolutionExporter.hpp:260-267 | cell-major, outlet at element 20 with stride 1: the outlet holds the concentrations of the last axial cell |
| SolutionExporter.ComponentMajorOutlet | include/cadet/SolutionExporter.hpp:260-267 | component-major, outlet at element 11 with stride 10: the outlet holds the concentrations of the last axial cell |
| UnitOperation.UnitOperationBase.constructor | src/libcadet/model/UnitOperationBase.hpp:45 | the registry starts empty with nothing sensitive, and unitOperationId() returns the given index |
| UnitOperation.UnitOperationBase.UnitOperationId | src/libcadet/model/UnitOperationBase.hpp:48 | the stored index; it is a constant field, so no method changes it |
| UnitOperation.UnitOperationBase.HasParameter | src/libcadet/model/UnitOperationBase.hpp:52 | true exactly for registered identities (structural equality) |
| UnitOperation.UnitOperationBase.GetParameterDouble | src/libcadet/model/UnitOperationBase.hpp:51 | present exactly when hasParameter holds, and then the value of the identity's cell |
| UnitOperation.UnitOperationBase.GetAllParameterValues | src/libcadet/model/UnitOperationBase.hpp:50 | keys are exactly the registered identities; each value agrees with getParameterDouble |
| UnitOperation.UnitOperationBase.NumSensParams | src/libcadet/model/UnitOperationBase.hpp:62 | the number of sensitive cells |
| UnitOperation.UnitOperationBase.NumSensParamsBound | src/libcadet/model/UnitOperationBase.hpp:73-75 | never more sensitive entries than registered identities |
| UnitOperation.UnitOperationBase.SetParameter | src/libcadet/model/UnitOperationBase.hpp:55 | found exactly when registered; then the value round-trips through getParameterDouble, the derivatives are kept and no other cell changes; not found changes nothing |
| UnitOperation.UnitOperationBase.SetParameterInt | src/libcadet/model/UnitOperationBase.hpp:54 | as setParameter with the integer converted to a real |
| UnitOperation.UnitOperationBase.SetParameterBool | src/libcadet/model/UnitOperationBase.hpp:56 | as setParameter with true as 1 and false as 0 |
| UnitOperation.UnitOperationBase.SetSensitiveParameter | src/libcadet/model/UnitOperationBase.hpp:58 | found exactly when registered; then the cell joins the sensitive set, its derivative in the direction becomes the seed, the other derivatives and the value are kept, and the count grows by one unless it was already sensitive; not found changes nothing |
| UnitOperation.UnitOperationBase.SetSensitiveParameterValue | src/libcadet/model/UnitOperationBase.hpp:59 | sets the value of a currently sensitive parameter, keeping its derivatives; otherwise nothing changes |
| UnitOperation.UnitOperationBase.ClearSensParams | src/libcadet/model/UnitOperationBase.hpp:61 | the sensitive set becomes empty; the previously sensitive cells lose all derivatives; every value and every other cell is unchanged |
| UnitOperation.UnitOperationBase.AddCell | src/libcadet/model/UnitOperationBase.hpp:73-74 | a concrete model appends a storage cell; the registry is unchanged |
| UnitOperation.UnitOperationBase.RegisterParameter | src/libcadet/model/UnitOperationBase.hpp:73-74 | a concrete model binds a new identity to one of its cells; the invariant is kept |
| UnitOperation.WithSeed | src/libcadet/model/UnitOperationBase.hpp:58 | seeding one AD direction changes only that derivative and not the value |
| UnitOperation.VelocityScenario | src/libcadet/model/UnitOperationBase.hpp:50-62 | one velocity parameter of 5.75e-4, made sensitive in direction 2 with seed 1: count 1; marking it again: count 1; an identity of another unit operation: not found; after clearing: count 0 and the value is still 5.75e-4 |

## Left out

- WellFormedOrdering, Covers, ConcentrationOrdering, FluxOrdering, MobilePhaseOrdering, SolidPhaseOrdering: the interface only returns an ordering and its length; the model assumes that each block's ordering lists every dimension of that block exactly once and that `BoundState` directly follows `Component`. Orderings that leave out a dimension of their block, repeat one, or separate `BoundState` from its `Component` are not modelled, and no query can be asked of such a layout.
- SetSensitiveParameter: a parameter is meant to hold at most one AD direction per unit operation, so that marking it again reassigns the direction. The model does not enforce this rule: marking an already sensitive cell with a new direction seeds that direction and keeps the earlier direction's seed.
- residualSensFwdCombine (src/libcadet/model/UnitOperationBase.hpp:64-66) is not modelled. It is floating-point AD arithmetic over raw pointer arrays, and its body is not part of this model. Its size check against numSensParams() is only the count that NumSensParams gives.
- The binding model pointer `_binding` is not modelled: the binding model is not part of this model, and the registry answers only for the identities registered with it.
- The definition file of UnitOperationBase is not part of this model, and the declarations carry no comments. The model assumes this behaviour for the methods:
  - setParameter's int and bool overloads convert to a real and behave like the double overload;
  - getParameterDouble reports an unknown identity as `None`.
- SetSensitiveParameterValue: an identity that is unknown or not sensitive is meant to be reported as an error. The declaration returns `void`, so the model does nothing and reports nothing.
- Pointers and their lifetimes become indices:
  - a parameter cell is an index into `cells`, so several identities may share a cell, as several map entries may point at one `active`;
  - a view is an index into the buffer.
- The AD vector has an unbounded number of directions. A direction that was never seeded has derivative 0.
- Concrete unit operation layouts and the model-construction tool src/tools/createMCLin.cpp are not modelled.
- Virtual dispatch, `CADET_NOEXCEPT` and the export macros are not modelled. Thread safety is not modelled either: the interface is single-threaded per instance.
- The 32-bit `unsigned int` return types are modelled as unbounded `nat`s; there is no model of overflow for counts beyond 2^32.
- `double` values are modelled as `real`s, so there is no rounding.
- Accessors expect in-range indices, as their C++ counterparts do, and each states this as a precondition. `ParticleFlux`, `MobilePhase`, `SolidPhase` and `Volume` also require their feature to be present: calling an indexed accessor on an absent feature (where the C++ view pointer is null) is not modelled.
- The C++ interface asks the caller to run the loops. The model states where each element lives, but has no iteration helper beyond inlet and outlet.
