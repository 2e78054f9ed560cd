# Shaping and unbinding in the query pipeline, in Dafny

This project models three parts of Entity Framework Core's query pipeline and proves properties of them.

1. **The in-memory shaped-query compiler and its driver** (`InMemoryShapedQueryCompilingExpressionVisitor`). It has four steps:
   - The nested projection-binding-removing visitor rewrites the shaper body. Every `TryReadValue` then reads `ValueBufferParameter` at a literal column index: the entity start index plus the original index.
   - While it rewrites, the visitor fills a dictionary from `MaterializationContext` variables to start indexes, in traversal order.
   - The compiler then replaces the move-next marker by `hasNext = enumerator.MoveNext()`, and `ValueBufferParameter` by `enumerator.Current`.
   - `Query` lists the stored rows as value buffers, and `_Shape` drives the compiled shaper over an enumerator of them with the `hasNext` out-flag protocol.
2. **Navigation property unbinding** (`NavigationPropertyUnbindingVisitor`). Navigation bindings and custom roots of the visitor's root parameter become property-access chains from that parameter. Each chain is converted to the node's type exactly when its own type differs. Expansion roots, expansions and includes go to the reducing pass.
3. **The unbuffered entity shaper** (`UnbufferedEntityShaper<TEntity>`). This is the identity rule: a tracking query returns the entity the state manager already tracks, and otherwise the entity is materialized from the value buffer. The model also covers `Cast`, `WithOffset` and `Type`.

Modules:

| file | module | what |
|---|---|---|
| `wrappers.dfy` | `Wrappers` | `Option`, `Result` |
| `clr_int.dfy` | `ClrInt` | 32-bit `int` and unchecked addition |
| `clr_types.dfy` | `ClrTypes` | CLR types, stored values and value buffers, shared by the other modules |
| `in_memory_expressions.dfy` | `InMemoryExpressions` | the shaper's expression nodes, their operands, and the normal form |
| `projection_binding_removal.dfy` | `ProjectionBindingRemoval` | the rewrite as a function with the dictionary threaded left to right, and the visitor class that updates its dictionary field in place |
| `shaped_query_compiler.dfy` | `InMemoryShapedQueryCompiler` | the marker replacements and the compilation order |
| `in_memory_query_driver.dfy` | `InMemoryQueryDriver` | `Query` and the `_Shape` loop |
| `navigation_unbinding.dfy` | `NavigationPropertyUnbinding` | the unbinding rewrite |
| `unbuffered_entity_shaper.dfy` | `UnbufferedEntityShaping` | `Shape`, `Cast`, `WithOffset`, `Type` |

Errors the C# code raises as exceptions (an invalid cast, a missing dictionary key, a missing projection member) are modelled as `Err` values of `CompileError`.

The C# `indexOffset + originalIndex` is unchecked 32-bit addition, and the model writes the wrap-around out (`ClrInt.UncheckedAdd`).

Two facts about the code shape several contracts:
- Binding removal checks each node before its operands, left to right. A read through a context sees only start indexes recorded earlier in that order (`ReadBeforeBindingFails`).
- `Shape` passes an empty key-value array to `TryGetEntry` (`UnbufferedEntityShaper.cs:48`), so the lookup cannot depend on the row (`LookupIgnoresValueBuffer`).

## Model

| member | source | states |
|---|---|---|
| ClrInt.UncheckedAdd | src/EFCore.InMemory/Query/PipeLine/InMemoryShapedQueryExpressionVisitor.cs:185 | the C# int sum wraps modulo 2^32, and equals the mathematical sum when that fits in 32 bits |
| ProjectionBindingRemoval.GetProjectionExpression | src/EFCore.InMemory/Query/PipeLine/InMemoryShapedQueryExpressionVisitor.cs:196 | succeeds exactly when the member is in the projection mapping, with the mapped expression; otherwise a missing-member error |
| ProjectionBindingRemoval.RemoveProjectionBindings | src/EFCore.InMemory/Query/PipeLine/InMemoryShapedQueryExpressionVisitor.cs:149-200 | the rewrite, with the dictionary threaded left to right; its properties are the lemmas below (RemoveProjectionBindingsResolves, BindingsChangeOnlyAtAssignments, RemoveUntouched and the per-node lemmas) |
| ProjectionBindingRemoval.ProjectionBindingRemovingVisitor.constructor | src/EFCore.InMemory/Query/PipeLine/InMemoryShapedQueryExpressionVisitor.cs:141-147 | a new visitor holds the query's mapping and an empty dictionary |
| ProjectionBindingRemoval.ProjectionBindingRemovingVisitor.Visit | src/EFCore.InMemory/Query/PipeLine/InMemoryShapedQueryExpressionVisitor.cs:149-200 | the visitor's result and the dictionary it leaves in its field are those of the threaded rewrite, from the dictionary it started with |
| ProjectionBindingRemoval.ProjectionBindingRemovingVisitor.VisitAll | src/EFCore.InMemory/Query/PipeLine/InMemoryShapedQueryExpressionVisitor.cs:189 | visiting operands one after the other, each from the dictionary the previous one left, agrees with the threaded rewrite of the list |
| ProjectionBindingRemoval.ContextAssignmentRecordsStartIndex | src/EFCore.InMemory/Query/PipeLine/InMemoryShapedQueryExpressionVisitor.cs:149-166 | a context assignment succeeds exactly when its visited first argument is an entity-values node; it becomes the same assignment with the same constructor, the empty value buffer and the untouched second argument; it records that node's start index for the variable, overwriting any earlier entry, and keeps every other entry |
| ProjectionBindingRemoval.ProjectionReadUsesProjectionStartIndex | src/EFCore.InMemory/Query/PipeLine/InMemoryShapedQueryExpressionVisitor.cs:174-186 | a TryReadValue on a projection binding fails if the member is missing or not an entity-values node; otherwise it reads the value buffer parameter at the member's start index plus the original index (exactly that sum when it fits in 32 bits), with the dictionary unchanged |
| ProjectionBindingRemoval.ContextReadUsesRecordedStartIndex | src/EFCore.InMemory/Query/PipeLine/InMemoryShapedQueryExpressionVisitor.cs:180-186 | a TryReadValue through a context variable fails when no start index is recorded for it, and otherwise reads at the recorded index plus the original index |
| ProjectionBindingRemoval.TryReadValueBecomesLiteralRead | src/EFCore.InMemory/Query/PipeLine/InMemoryShapedQueryExpressionVisitor.cs:182-186 | every successfully rewritten TryReadValue keeps its method and its third argument, reads the value buffer parameter at a literal index, and leaves the dictionary unchanged |
| ProjectionBindingRemoval.ProjectionBindingReplaced | src/EFCore.InMemory/Query/PipeLine/InMemoryShapedQueryExpressionVisitor.cs:194-197 | a standalone projection binding becomes the mapping's expression for its member (not visited further), or the missing-member error |
| ProjectionBindingRemoval.RemoveProjectionBindingsResolves | src/EFCore.InMemory/Query/PipeLine/InMemoryShapedQueryExpressionVisitor.cs:149-200 | when the mapping's expressions and the operands copied unvisited are in normal form, the rewritten tree has no projection binding and every TryReadValue in it is a literal read of the value buffer parameter |
| ProjectionBindingRemoval.RemoveUntouched | src/EFCore.InMemory/Query/PipeLine/InMemoryShapedQueryExpressionVisitor.cs:169-199 | a tree with no projection binding, no TryReadValue call and no context assignment comes back unchanged, with the dictionary unchanged: the base visitor rebuilds every other node from its visited operands |
| ProjectionBindingRemoval.BindingsChangeOnlyAtAssignments | src/EFCore.InMemory/Query/PipeLine/InMemoryShapedQueryExpressionVisitor.cs:160 | the dictionary's keys grow by exactly the context variables assigned in the visited tree, and every other entry keeps its value |
| ProjectionBindingRemoval.StartIndexFoldsIntoLaterRead | src/EFCore.InMemory/Query/PipeLine/InMemoryShapedQueryExpressionVisitor.cs:157-185 | a context assignment followed by a read through that context: the context gets the empty buffer and the read's index becomes the assigned start index plus the original index |
| ProjectionBindingRemoval.ReadBeforeBindingFails | src/EFCore.InMemory/Query/PipeLine/InMemoryShapedQueryExpressionVisitor.cs:180 | a read through a context assigned only later in visiting order fails with the unbound-context error |
| ProjectionBindingRemoval.LaterBindingOverwrites | src/EFCore.InMemory/Query/PipeLine/InMemoryShapedQueryExpressionVisitor.cs:160 | of two assignments to the same context variable, the later start index is the one recorded |
| InMemoryShapedQueryCompiler.CompileShaper | src/EFCore.InMemory/Query/PipeLine/InMemoryShapedQueryExpressionVisitor.cs:55-67 | a fresh binding-removing visitor runs first, then the move-next replacement, then the value-buffer replacement, or the visitor's error is returned |
| InMemoryShapedQueryCompiler.Replace | src/EFCore.InMemory/Query/PipeLine/InMemoryShapedQueryExpressionVisitor.cs:59-67 | `ReplacingExpressionVisitor.Replace`; its properties are ReplaceAbsent, ReplaceReaches, ReplaceOccurs and ReplaceKeepsResolved |
| InMemoryShapedQueryCompiler.ReplaceMarkers | src/EFCore.InMemory/Query/PipeLine/InMemoryShapedQueryExpressionVisitor.cs:59-67 | the two replacements in the compiler's order; its properties are ReplaceMarkersRemovesMarkers and ReplaceMarkersReadsCurrentRow |
| InMemoryShapedQueryCompiler.ReplaceAbsent | src/EFCore.InMemory/Query/PipeLine/InMemoryShapedQueryExpressionVisitor.cs:59-67 | a tree in which the replaced node does not occur comes back unchanged |
| InMemoryShapedQueryCompiler.ReplaceReaches | src/EFCore.InMemory/Query/PipeLine/InMemoryShapedQueryExpressionVisitor.cs:59-67 | wherever the replaced node occurs, the replacement occurs in the result |
| InMemoryShapedQueryCompiler.ReplaceOccurs | src/EFCore.InMemory/Query/PipeLine/InMemoryShapedQueryExpressionVisitor.cs:59-67 | replacing a marker by an expression that lacks it removes every occurrence, and brings in no other marker that was absent |
| InMemoryShapedQueryCompiler.ReplaceKeepsResolved | src/EFCore.InMemory/Query/PipeLine/InMemoryShapedQueryExpressionVisitor.cs:59-67 | replacing a marker keeps the normal form, with literal reads now reading the replaced buffer |
| InMemoryShapedQueryCompiler.ReplaceMarkersRemovesMarkers | src/EFCore.InMemory/Query/PipeLine/InMemoryShapedQueryExpressionVisitor.cs:59-67 | after both replacements neither the move-next marker nor the value buffer parameter is left |
| InMemoryShapedQueryCompiler.ReplaceMarkersReadsCurrentRow | src/EFCore.InMemory/Query/PipeLine/InMemoryShapedQueryExpressionVisitor.cs:59-67 | literal reads of the value buffer parameter become literal reads of `enumerator.Current` |
| InMemoryShapedQueryCompiler.CompileFailsOnlyInBindingRemoval | src/EFCore.InMemory/Query/PipeLine/InMemoryShapedQueryExpressionVisitor.cs:55-67 | compilation fails exactly when binding removal does, with the same error |
| InMemoryShapedQueryCompiler.CompiledShaperHasNoMarkers | src/EFCore.InMemory/Query/PipeLine/InMemoryShapedQueryExpressionVisitor.cs:55-67 | the compiled shaper holds neither marker |
| InMemoryShapedQueryCompiler.CompiledShaperReadsCurrentRow | src/EFCore.InMemory/Query/PipeLine/InMemoryShapedQueryExpressionVisitor.cs:55-67 | because binding removal runs before the replacements, the compiled shaper has no projection binding and every TryReadValue in it reads `enumerator.Current` at a literal index |
| InMemoryQueryDriver.Query | src/EFCore.InMemory/Query/PipeLine/InMemoryShapedQueryExpressionVisitor.cs:111-118 | one buffer per stored row of the entity type, over all its tables; where each row lands is stated by AllBuffersAt and AllBuffersFromRows |
| InMemoryQueryDriver.AllBuffersLength | src/EFCore.InMemory/Query/PipeLine/InMemoryShapedQueryExpressionVisitor.cs:111-118 | `Query` yields as many buffers as there are rows in all the entity type's tables |
| InMemoryQueryDriver.AllBuffersAt | src/EFCore.InMemory/Query/PipeLine/InMemoryShapedQueryExpressionVisitor.cs:111-118 | row k of table t is yielded at position (rows of the tables before t) + k: tables in order, rows in order |
| InMemoryQueryDriver.AllBuffersFromRows | src/EFCore.InMemory/Query/PipeLine/InMemoryShapedQueryExpressionVisitor.cs:111-118 | every yielded buffer is the buffer of some stored row |
| InMemoryQueryDriver.MoveNext | src/EFCore.InMemory/Query/PipeLine/InMemoryShapedQueryExpressionVisitor.cs:131 | the enumerator advances one row (staying put past the end) and reports true exactly when it is on a row |
| InMemoryQueryDriver.Shape | src/EFCore.InMemory/Query/PipeLine/InMemoryShapedQueryExpressionVisitor.cs:125-136 | the loop's results are those of `ShapeAll`: one MoveNext up front, then one shaper call per iteration while `hasNext` |
| InMemoryQueryDriver.DriveProtocol | src/EFCore.InMemory/Query/PipeLine/InMemoryShapedQueryExpressionVisitor.cs:131-135 | one shaper invocation per result, each on a row and on the enumerator the previous one left; the loop continues exactly while the last invocation reported `hasNext` |
| InMemoryQueryDriver.ShapeEmptySource | src/EFCore.InMemory/Query/PipeLine/InMemoryShapedQueryExpressionVisitor.cs:130-132 | an empty source yields nothing and never invokes the shaper |
| InMemoryQueryDriver.ShapeProtocol | src/EFCore.InMemory/Query/PipeLine/InMemoryShapedQueryExpressionVisitor.cs:125-136 | the shaper is invoked exactly when the source is non-empty, first on the first row, then as DriveProtocol states |
| InMemoryQueryDriver.ShapeYieldsAtMostOnePerRow | src/EFCore.InMemory/Query/PipeLine/InMemoryShapedQueryExpressionVisitor.cs:132-135 | never more results than rows |
| InMemoryQueryDriver.RowShaperAdvances | src/EFCore.InMemory/Query/PipeLine/InMemoryShapedQueryExpressionVisitor.cs:59-62 | a shaper that reads the current row and then reaches `hasNext = enumerator.MoveNext()` once keeps the out-flag protocol |
| InMemoryQueryDriver.ShapeEveryRow | src/EFCore.InMemory/Query/PipeLine/InMemoryShapedQueryExpressionVisitor.cs:125-136 | with such a shaper, `_Shape` shapes every row exactly once, in order |
| NavigationPropertyUnbinding.Unbind | src/EFCore/Query/NavigationExpansion/Visitors/NavigationPropertyUnbindingVisitor.cs:17-60 | the visit for one root parameter; every node other than an expansion root, expansion or include keeps its type; the other properties are the lemmas below |
| NavigationPropertyUnbinding.BuildPropertyAccess | src/EFCore/Query/NavigationExpansion/Visitors/NavigationPropertyUnbindingVisitor.cs:22 | the property-access chain along a path; its properties are BuildPropertyAccessRoundTrip and BuildPropertyAccessPlain |
| NavigationPropertyUnbinding.BuildPropertyAccessRoundTrip | src/EFCore/Query/NavigationExpansion/Visitors/NavigationPropertyUnbindingVisitor.cs:22 | the access chain starts at the root, follows exactly the given path, and has the type the path leads to |
| NavigationPropertyUnbinding.NavigationBindingUnbound | src/EFCore/Query/NavigationExpansion/Visitors/NavigationPropertyUnbindingVisitor.cs:19-26 | a binding of the root becomes the chain from the root parameter along `ToMapping`, converted exactly when the chain's type differs; the node's type is kept |
| NavigationPropertyUnbinding.CustomRootUnbound | src/EFCore/Query/NavigationExpansion/Visitors/NavigationPropertyUnbindingVisitor.cs:29-36 | a custom root of the root becomes the chain along its own mapping, under the same conversion rule |
| NavigationPropertyUnbinding.ExpansionsHandedToReducer | src/EFCore/Query/NavigationExpansion/Visitors/NavigationPropertyUnbindingVisitor.cs:39-58 | expansion roots (after one Unwrap), expansions and includes go whole to the reducing pass, with the same result whatever the root parameter |
| NavigationPropertyUnbinding.UnbindPreservesType | src/EFCore/Query/NavigationExpansion/Visitors/NavigationPropertyUnbindingVisitor.cs:17-60 | the rewrite keeps every node's type, given that Unwrap and the reducing pass do |
| NavigationPropertyUnbinding.UnbindIsPlain | src/EFCore/Query/NavigationExpansion/Visitors/NavigationPropertyUnbindingVisitor.cs:17-60 | afterwards no binding or custom root of the root parameter, and no expansion or include, is left, given a reducing pass that removes them |
| NavigationPropertyUnbinding.UnbindPlainIsIdentity | src/EFCore/Query/NavigationExpansion/Visitors/NavigationPropertyUnbindingVisitor.cs:60 | all other nodes, bindings of other roots included, are left unchanged |
| NavigationPropertyUnbinding.UnbindIdempotent | src/EFCore/Query/NavigationExpansion/Visitors/NavigationPropertyUnbindingVisitor.cs:17-60 | a replacement needs no second visit: visiting the result again changes nothing |
| UnbufferedEntityShaping.UnbufferedEntityShaper.Type | src/EFCore.Relational/Query/ExpressionVisitors/Internal/UnbufferedEntityShaper.cs:38 | `typeof(TEntity)`, the shaper's entity type; WithOffset keeps it |
| UnbufferedEntityShaping.UnbufferedEntityShaper.Shape | src/EFCore.Relational/Query/ExpressionVisitors/Internal/UnbufferedEntityShaper.cs:44-60 | the identity rule; its properties are TrackedEntryWins, MaterializedOtherwise, ShapeIsTrackedOrMaterialized, NoTrackingIgnoresStateManager and LookupIgnoresValueBuffer |
| UnbufferedEntityShaping.OffsetEntityShaper.AddOffset | src/EFCore.Relational/Query/ExpressionVisitors/Internal/UnbufferedEntityShaper.cs:83 | only the offset changes, by the given amount when the sum fits in 32 bits |
| UnbufferedEntityShaping.UnbufferedEntityShaper.Cast | src/EFCore.Relational/Query/ExpressionVisitors/Internal/UnbufferedEntityShaper.cs:66-71 | an offset shaper for the derived type with the same query source, tracking flag, key and materializer |
| UnbufferedEntityShaping.TrackedEntryWins | src/EFCore.Relational/Query/ExpressionVisitors/Internal/UnbufferedEntityShaper.cs:46-54 | in a tracking query, a tracked entry's entity is returned and the materializer plays no part |
| UnbufferedEntityShaping.MaterializedOtherwise | src/EFCore.Relational/Query/ExpressionVisitors/Internal/UnbufferedEntityShaper.cs:56-59 | when the query does not track, or nothing is tracked, the materializer gets exactly the given buffer and the query context's DbContext |
| UnbufferedEntityShaping.ShapeIsTrackedOrMaterialized | src/EFCore.Relational/Query/ExpressionVisitors/Internal/UnbufferedEntityShaper.cs:44-60 | the result is always either the tracked entity or the materialized one |
| UnbufferedEntityShaping.NoTrackingIgnoresStateManager | src/EFCore.Relational/Query/ExpressionVisitors/Internal/UnbufferedEntityShaper.cs:46 | a non-tracking query gives the same entity whatever the state manager |
| UnbufferedEntityShaping.LookupIgnoresValueBuffer | src/EFCore.Relational/Query/ExpressionVisitors/Internal/UnbufferedEntityShaper.cs:48 | the lookup passes no key values, so a tracked hit returns the same entity for every row |
| UnbufferedEntityShaping.UnbufferedEntityShaper.WithOffset | src/EFCore.Relational/Query/ExpressionVisitors/Internal/UnbufferedEntityShaper.cs:77-83 | an offset shaper of type `Type()` with the same query source, tracking flag, key and materializer, and offset exactly the given one |

## Left out

- Reflection and code generation in `VisitShapedQueryExpression` are not modelled: `InjectEntityMaterializer`, `CreateLambda`, `MakeGenericMethod`, `Compile` and the method lookups. The compiled shaper is a function value, and the shaper body is an input.
- The compiling visitor's `VisitExtension` is not modelled: `ApplyServerProjection` and the translation of `InMemoryTableExpression` call classes outside this model. `GetProjectionExpression` is a lookup in a given map, and the store's tables are a given function from entity type to tables.
- The lazy `yield` of `_Shape` and `Query` is not modelled. Results are collected in order into a sequence.
- Shape: requires that each shaper call moves the enumerator forward, and reports `hasNext` only on a row. A shaper that never advances makes the C# loop run forever; that case is not modelled.
- The enumerator is a value passed to and returned from each shaper call, not an object the shaper mutates in place.
- `hasNext` may be false while rows remain: the loop uses only what the shaper assigns.
- Parameters are compared by reference in C#. The model gives every parameter an `id`, and two parameters are the same exactly when their ids (and types) are equal.
- The base `ExpressionVisitor` is not part of this model. Its behaviour is represented as follows:
  - leaves come back unchanged;
  - binary, `new`, call and member-access nodes are rebuilt from their visited operands, left to right;
  - every other node kind is one generic `Node` with its operands in visiting order.
- Argument-count mismatches, which the C# code would hit as index errors, are modelled as `ArgumentCountMismatch`.
- `NavigationExpansionVisitorBase.VisitExtension` is not part of this model. Binding and custom-root nodes of another root, which fall through to it, are modelled as unchanged, with no operands.
- `NavigationExpansionRootExpression.Unwrap`, `NavigationExpansionReducingVisitor` and the type of a property are collaborators given as functions.
- `BuildPropertyAccess` is modelled as a left fold of property accesses over the path. That is an assumption: its source is not part of this model.
- UnbindPreservesType: holds only for collaborators that keep types. UnbindIsPlain and UnbindIdempotent hold only for a reducing pass that leaves no binding of the root and no expansion or include.
- The `(TEntity)` casts in `Shape` are not modelled, and neither is their failure: entities carry no run-time type.
- The exceptions `TryGetEntry` may throw, and its discarded `out` flag, are not modelled. The state manager is a pure function of key, key values and the throw flag.
- UnbufferedEntityShaping.OffsetEntityShaper.AddOffset: `Shaper.AddOffset` is not part of this model; it is assumed to add `offset` to the offset with unchecked int addition and change nothing else.
- InMemoryShapedQueryCompiler.Replace: `ReplacingExpressionVisitor` is not part of this model; `Replace` is assumed to swap every occurrence of the one node (a unique marker or parameter) and rebuild the rest. ReplaceMarkersRemovesMarkers and CompiledShaperReadsCurrentRow rest on this.
- UnbufferedEntityShaping.UnbufferedEntityShaper.WithOffset: the constructor of `UnbufferedOffsetEntityShaper` is not part of this model. A new offset shaper is assumed to start at offset 0, so `WithOffset` yields exactly the given offset and `Cast` offset 0.
- The materializer expression (the fifth constructor argument) is not modelled. `Cast` and `WithOffset` do not pass it on, and the offset shaper's other defaulted state is not modelled either.
- `ToString` (a debugging string) is not modelled.
- Where `AllowNullResult` comes from (the `EntityShaper` base class) is not part of this model. It is a field.
- `SqlTranslatingExpressionVisitorDependencies.cs` holds only a null check and a `With` clone, and is not modelled.
- Thread safety and concurrency are not modelled.
