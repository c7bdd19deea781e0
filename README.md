# jolt-jni region shape, array wrappers, ownership protocol and test harnesses

This project models the parts of jolt-jni, the Java binding of the Jolt Physics engine, that hold logic of their own rather than forwarding a call into native code:

- **The region shape.** `RegionShape` is a compound shape whose children come from a user collector, one `IndexedShape` per voxel. The model covers:
  - the 32-bit voxel index layout and its decoding into a centre-of-mass position;
  - the sub-shape ID conversions;
  - `WalkSubShapes` and the six collision visitors that drive it (bounds test, collector query, in-order visits, early out);
  - both `CastRay` overloads, `CollideSoftBodyVertices` and `sCastCompoundVsShape`;
  - the cached `RegionShapeSettings::Create`;
  - the default material fallback;
  - the dispatch tables that `sRegister` fills.
- **The native arrays behind `IndexedShapes` and `ContactList`.** A Jolt `Array` is a class over a Dafny `array`, with a size and a capacity. The Java wrappers forward to it.
- **The ownership protocol of the Java wrappers.**
  - A freeing action is registered only when the wrapper owns its object.
  - `toRef` makes a new owning counted reference.
  - `getPtr` makes a non-owning view.
  - `AaBox.close` frees once.
- **Two test programs.**
  - `PerformanceTest`: the command-line loop, the quality and thread selection, the run tag and the hash check.
  - `BroadPhaseInsertionTest`: the back-and-forth sweep that adds and removes batches of bodies, and its hit-set checks.

Modules, one per file:

| Module | File | Contents |
|---|---|---|
| `Geometry` | `geometry.dfy` | vectors and axis-aligned boxes over reals |
| `SubShapeIds` | `subshape_ids.dfy` | `SubShapeID` and `SubShapeIDCreator` over `bv32` |
| `ShapeIndex` | `shape_index.dfy` | the voxel index and the `IndexedShape` struct |
| `Traversal` | `traversal.dfy` | a loop over narrow-phase calls that stops after the first abort |
| `Region` | `region_shape.dfy` | collector, visitors, `RegionShape`, settings |
| `Dispatch` | `dispatch.dfy` | the collision dispatch tables |
| `NativeArrays` | `native_array.dfy` | Jolt's `Array` |
| `ArrayWrappers` | `array_wrappers.dfy` | `IndexedShapes` and `ContactList` |
| `Ownership` | `native_heap.dfy` | the native heap and the Java wrappers' ownership |
| `PerformanceTestArgs` | `performance_test.dfy` | the performance test's main |
| `BroadPhaseInsertion` | `broadphase_insertion.dfy` | the broad-phase insertion test |
| `Wrappers` | `wrappers.dfy` | `Option` |

## Model

| member | source | states |
|---|---|---|
| ShapeIndex.DecodeVoxel | src/main/native/custom/RegionShape.h:14-16 | each decoded coordinate is below 512 |
| ShapeIndex.DecodeIgnoresHighBits | src/main/native/custom/RegionShape.h:14-16 | two indices that agree on bits 0-26 decode to the same voxel, whatever bits 27-31 hold |
| ShapeIndex.EncodeThenDecode | src/main/java/com/github/stephengold/joltjni/IndexedShape.java:29-33 | encoding a voxel and a sub-shape index in the documented layout (x in bits 0-8, y in 9-17, z in 18-26, sub-shape in 27-31) and decoding gives back the voxel and the sub-shape index |
| ShapeIndex.DecodeThenEncode | src/main/native/custom/RegionShape.h:14-16 | every 32-bit index is the encoding of its own fields, so the layout is a bijection |
| ShapeIndex.DocumentedIndexLosesSubShape | src/main/java/com/github/stephengold/joltjni/IndexedShape.java:32 | read with Java precedence, the documented formula drops every sub-shape index 1 to 31 and equals the encoding with sub-shape 0 |
| ShapeIndex.VoxelCenter | src/main/native/custom/RegionShape.h:20-23 | the centre plus the half extent plus 0.5 is the decoded voxel's coordinates on each axis |
| ShapeIndex.VoxelCenterInjective | src/main/native/custom/RegionShape.h:14-23 | two indices give the same centre exactly when they decode to the same voxel |
| ShapeIndex.ToRealInjective | src/main/native/custom/RegionShape.h:20 | the unsigned-to-real conversion is injective |
| ShapeIndex.TranslationKeepsDifferences | src/main/native/custom/RegionShape.h:57-60 | a pure translation moves every point by the same vector, so differences between points are kept |
| ShapeIndex.IndexedShape.LoadShapeFromHalfExtent | src/main/native/custom/RegionShape.h:12-28 | the shape and index are the inputs, and the position is the voxel centre of the index |
| ShapeIndex.IndexedShape.LoadShape | src/main/native/custom/RegionShape.h:31-36 | the shape, index and position are exactly the inputs |
| ShapeIndex.IndexedShape.SetPositionCOM | src/main/native/custom/RegionShape.h:39-42 | only the position changes, and GetPositionCOM reads it back |
| ShapeIndex.IndexedShape.GetLocalTransformNoScale | src/main/native/custom/RegionShape.h:57-60 | the transform carries the local origin to the scale times the position |
| ShapeIndex.LoadFromHalfExtentIsLoadAtCenter | src/main/native/custom/RegionShape.h:12-36 | loading from a half extent is loading at the voxel centre of the index |
| ShapeIndex.LoadShapeForgetsPrevious | src/main/native/glue/r/RegionShape.cpp:26-33 | loading overwrites every field, so two structs loaded with the same arguments are equal |
| SubShapeIds.MaskBit | src/main/native/custom/RegionShape.h:205-208 | bit i of the mask is set exactly when i is below the width, so the mask is all ones at the full width of 32 |
| SubShapeIds.PushID | src/main/native/custom/RegionShape.h:178-181 | the first free bit advances by the field width |
| SubShapeIds.PopID | src/main/native/custom/RegionShape.h:168-172 | the popped value is the ID's low field and fits in the field width |
| SubShapeIds.PushKeepsLowerFields | src/main/native/custom/RegionShape.h:178-181 | a push leaves every bit below the first free bit, the fields written by the levels above, as it was |
| SubShapeIds.PopFillsWithOnes | src/main/native/custom/RegionShape.h:168-172 | the remainder's top `bits` bits are ones, so a fully popped ID is empty |
| SubShapeIds.PopShiftsRest | src/main/native/custom/RegionShape.h:168-172 | below its top, the remainder is the ID shifted down by the field width |
| SubShapeIds.PushPopReadsValue | src/main/native/custom/RegionShape.h:168-181 | pushing any value that fits, at any width, from the root and popping that width reads the value back |
| SubShapeIds.PushPopLeavesEmpty | src/main/native/custom/RegionShape.h:168-181 | that pop leaves the empty ID |
| SubShapeIds.PushPopRoundTrip | src/main/native/custom/RegionShape.h:168-181 | pushing an index at the full width of 32 and popping the same width gives the index back and leaves the empty ID |
| SubShapeIds.PopFullWidth | src/main/native/custom/RegionShape.h:168-172 | popping 32 bits takes the whole value and leaves the empty ID |
| SubShapeIds.FullWidthPushAt | src/main/native/custom/RegionShape.h:178-181 | a full-width push from a creator with all bits free makes the ID the index itself |
| Region.RegionShape.GetLocalBounds | src/main/native/custom/RegionShape.h:133 | the box runs from minus the half extent to the half extent, is symmetric about the origin and centred on it |
| Region.RegionShape.GetSubShapeIDBits | src/main/native/custom/RegionShape.h:205-208 | the width is 32 |
| Region.RegionShape.GetSubShapeIndexFromID | src/main/native/custom/RegionShape.h:168-172 | the index is the whole ID and the remainder is the empty ID |
| Region.RegionShape.GetSubShapeIDFromIndex | src/main/native/custom/RegionShape.h:178-181 | the ID is the index, all 32 bits are used, and GetSubShapeIndexFromID gives the index back |
| Region.IndexedShapeCollector.CollectAt | src/main/native/custom/RegionShape.h:75 | returns the collector's shapes for the box and records the query |
| Region.IndexedShapeCollector.CastRay | src/main/native/custom/RegionShape.h:77 | returns the collector's answer for the ray and records the query |
| Region.IndexedShapeCollector.CollectCastRay | src/main/native/custom/RegionShape.h:79 | returns the collector's shapes along the ray and records the query |
| Region.IndexedShapeCollector.GetShapeAt | src/main/native/custom/RegionShape.h:81 | returns the collector's shape for the index and records the query |
| Region.ResultCollector.Receive | src/main/native/custom/RegionShapeVisitors.h:58 | one narrow-phase call: it is logged, and the query state and the hit are the narrow phase's response |
| Region.Visitor.constructor | src/main/native/custom/RegionShapeVisitors.h:215-224 | the visitor takes the region's ID width and starts with a false return value |
| Region.Visitor.VisitShape | src/main/native/custom/RegionShapeVisitors.h:243-253 | the child is handed on under the creator with its index pushed at the region's width; the return value becomes true once a ray visit hits and is never reset |
| Region.CollideVisitorsCollectWhatTheyTest | src/main/native/custom/RegionShapeVisitors.h:40-115 | the two collide visitors ask the collector about exactly the box they test for overlap |
| Region.RayBoundsTestIgnoresMinimum | src/main/native/custom/RegionShapeVisitors.h:232-236 | the ray visitors' bounds test gives the same answer for any two boxes with the same maximum corner |
| Region.WalkVisitsPrefixUntilAbort | src/main/native/custom/RegionShape.cpp:79-98 | a failed bounds test queries and visits nothing; otherwise the visits are a prefix of the collected shapes, in order, each under its own index, and a shorter prefix ends at an abort |
| Region.RayWalkWithoutHitReturnsFalse | src/main/native/custom/RegionShapeVisitors.h:251-261 | when no narrow-phase call hits, the ray visitor's walk reports no hit; `RegionShape::CastRay` itself does not use this visitor, because its walk is commented out at src/main/native/custom/RegionShape.cpp:115-117 |
| Region.RegionShape.WalkSubShapes | src/main/native/custom/RegionShape.cpp:79-98 | the collector queries, the calls made and the final query state are those of Walk |
| Region.RegionShape.VisitChildren | src/main/native/custom/RegionShape.cpp:90-97 | the loop makes the calls of SweepUntilAbort over the shapes in order, each under its own index |
| Region.RegionShape.GetMaterial | src/main/native/custom/RegionShape.cpp:33-48 | asks the collector for the shape at the ID; a null shape gives the default material, otherwise the child's material under the empty remainder |
| Region.RegionShape.CastRay | src/main/native/custom/RegionShape.cpp:100-119 | no collector hit means false with nothing visited; otherwise the one shape is visited and the result is whether it hit |
| Region.RegionShape.CastRayCollect | src/main/native/custom/RegionShape.cpp:121-135 | every collected shape is visited in order under its own index, with no early out |
| Region.RegionShape.CollidePoint | src/main/native/custom/RegionShape.cpp:138-141 | the walk of the point visitor, whose bounds test is containment |
| Region.RegionShape.CollideSoftBodyVertices | src/main/native/custom/RegionShape.cpp:143-168 | no vertices means no query; otherwise the collector is asked once, about the vertex bounds, and the shapes it returns are the ones visited, in its order |
| Region.RegionShape.CollideCompoundVsShape | src/main/native/custom/RegionShape.cpp:170-177 | the walk of the compound-vs-shape visitor over the first shape |
| Region.RegionShape.CollideShapeVsCompound | src/main/native/custom/RegionShape.cpp:179-186 | the walk of the shape-vs-compound visitor, with the bounds expanded by the maximum separation distance |
| Region.RegionShape.CastShapeVsCompound | src/main/native/custom/RegionShape.cpp:188-195 | the walk of the cast-shape visitor |
| Region.RegionShape.CastCompoundVsShape | src/main/native/custom/RegionShape.cpp:197-230 | the shapes collected at the cast shape's bounds are visited in order under their position in the array, not their index, until early out |
| Region.VertexBounds | src/main/native/custom/RegionShape.cpp:144-154 | the box contains every vertex |
| Region.FoldVertexBounds | src/main/native/custom/RegionShape.cpp:144-154 | the componentwise min/max loop computes VertexBounds |
| Region.VertexBoundsTight | src/main/native/custom/RegionShape.cpp:144-154 | every box containing all the vertices contains their bounds, so the fold is the smallest such box |
| Region.RegionShape.constructor | src/main/native/custom/RegionShape.cpp:25-31 | the shape copies the collector and half extent from the settings, and the settings' result is the new shape |
| Region.RegionShapeSettings.constructor | src/main/native/glue/r/RegionShape.cpp:210-220 | the settings hold the collector and half extent and have no cached result |
| Region.RegionShapeSettings.Create | src/main/native/custom/RegionShape.cpp:16-23 | a shape is built only when no result is cached; a cached result is returned unchanged, so repeated calls agree |
| Traversal.Run | src/main/native/custom/RegionShape.cpp:90-97 | one response per call |
| Traversal.StopPoint | src/main/native/custom/RegionShape.cpp:90-97 | the number of calls made is at most the number of shapes, and at least one when there are shapes |
| Traversal.RegionPush | src/main/native/custom/RegionShapeVisitors.h:246 | pushing at the region's width makes the ID the index and leaves no free bit |
| Traversal.ByShapeIndexAt | src/main/native/custom/RegionShape.cpp:92-93 | call j is shape j under its own index |
| Traversal.ByPositionAt | src/main/native/custom/RegionShape.cpp:214-228 | call j is shape j under the position j |
| Traversal.RunPrefix | src/main/native/custom/RegionShape.cpp:90-97 | the responses to a prefix of the calls are the prefix of the responses |
| Traversal.StopPointIsFirstAbort | src/main/native/custom/RegionShape.cpp:90-97 | no call before the last one made aborted, and when the loop stops early the last call aborted |
| Traversal.StopPointUnique | src/main/native/custom/RegionShape.cpp:90-97 | a count that stops at the first abort and nowhere earlier is the StopPoint |
| Traversal.StopPointState | src/main/native/custom/RegionShape.cpp:90-97 | the state the loop leaves is that of its last call |
| Traversal.AnyHitAppend | src/main/native/custom/RegionShapeVisitors.h:251-252 | a run with one more response has a hit exactly when that response or an earlier one hit |
| Traversal.SweepUntilAbort | src/main/native/custom/RegionShape.cpp:90-97 | the calls made are a prefix of the calls, non-empty when there are calls; none before the last aborted; a shorter prefix ends at an abort; the final state and the hit flag are those of the run |
| Dispatch.RegisteredEntries | src/main/native/custom/RegionShape.cpp:237-244 | registration adds (User1, s) and (s, User1) for every sub-type s; (s, User1) holds the shape-vs-compound handler, (User1, s) the compound-vs-shape one unless s is User1, and every other entry is kept |
| Dispatch.RegisteredIdempotent | src/main/native/custom/RegionShape.cpp:232-245 | registering twice leaves the tables as registering once |
| Dispatch.RegionHandlersReachable | src/main/native/custom/RegionShape.cpp:237-244 | after registration a cast with the region shape second goes to shape-vs-compound, and one with only the first goes to compound-vs-shape |
| Dispatch.CollisionDispatch.RegisterRegionShape | src/main/native/custom/RegionShape.cpp:232-245 | the loop gives User1 the region factory and colour and leaves the tables as Registered over all sub-types |
| NativeArrays.NativeArray.constructor | src/main/native/glue/r/RegionShape.cpp:100-106 | a new array is empty |
| NativeArrays.NativeArray.Size | src/main/native/glue/r/RegionShape.cpp:100-106 | the size is the number of elements |
| NativeArrays.NativeArray.Capacity | src/main/native/glue/r/RegionShape.cpp:40-46 | the capacity is never below the size |
| NativeArrays.NativeArray.At | src/main/native/glue/r/RegionShape.cpp:53-58 | element i of the contents, for i in range |
| NativeArrays.NativeArray.Resize | src/main/native/glue/r/RegionShape.cpp:65-69 | the first min(old size, n) elements are kept and the rest are the fill, so the size is n; storage grows to n when needed |
| NativeArrays.NativeArray.Erase | src/main/native/glue/r/RegionShape.cpp:76-81 | the elements at positions start to stop - 1 are removed and the rest keep their order |
| NativeArrays.NativeArray.Set | src/main/native/glue/r/RegionShape.cpp:88-93 | slot i becomes the new element; every other slot, the size and the capacity are unchanged |
| NativeArrays.NativeArray.ShiftDown | src/main/native/glue/r/RegionShape.cpp:76-81 | the in-place move of the tail: the prefix is kept and the elements after stop move down to start |
| ArrayWrappers.IndexedShapes.constructor | src/main/java/com/github/stephengold/joltjni/IndexedShapes.java:35-37 | the wrapper is assigned the vector and does not own it |
| ArrayWrappers.IndexedShapes.Capacity | src/main/java/com/github/stephengold/joltjni/IndexedShapes.java:48-54 | the capacity is at least the size |
| ArrayWrappers.IndexedShapes.Size | src/main/java/com/github/stephengold/joltjni/IndexedShapes.java:119-125 | the number of shapes in the vector |
| ArrayWrappers.IndexedShapes.Erase | src/main/java/com/github/stephengold/joltjni/IndexedShapes.java:62-66 | shapes start to stop - 1 are removed and the rest keep their order |
| ArrayWrappers.IndexedShapes.Get | src/main/java/com/github/stephengold/joltjni/IndexedShapes.java:75-87 | the result is never null and is element i |
| ArrayWrappers.IndexedShapes.Resize | src/main/java/com/github/stephengold/joltjni/IndexedShapes.java:94-98 | the size becomes n, the first min(old size, n) shapes are kept, and appended shapes have a null shape |
| ArrayWrappers.IndexedShapes.Set | src/main/java/com/github/stephengold/joltjni/IndexedShapes.java:106-111 | slot i becomes the shape and no other slot or the size changes |
| ArrayWrappers.ContactList.constructor | src/main/java/com/github/stephengold/joltjni/ContactList.java:41-44 | the wrapper owns the list exactly when constructed as owner |
| ArrayWrappers.ContactList.Capacity | src/main/java/com/github/stephengold/joltjni/ContactList.java:53-57 | the capacity is at least the size |
| ArrayWrappers.ContactList.Size | src/main/java/com/github/stephengold/joltjni/ContactList.java:113-117 | the number of contacts in the list |
| ArrayWrappers.ContactList.Empty | src/main/java/com/github/stephengold/joltjni/ContactList.java:64-70 | true exactly when the list has no contacts |
| ArrayWrappers.ContactList.Get | src/main/java/com/github/stephengold/joltjni/ContactList.java:78-84 | the contact read is element i, and the new wrapper owns the address the native get returns |
| ArrayWrappers.ContactList.Resize | src/main/java/com/github/stephengold/joltjni/ContactList.java:91-94 | the size becomes n, keeping the first min(old size, n) contacts |
| ArrayWrappers.ContactList.Set | src/main/java/com/github/stephengold/joltjni/ContactList.java:102-106 | slot i becomes the contact and nothing else changes |
| Ownership.WithRefCount | src/main/java/com/github/stephengold/joltjni/IndexedShape.java:77-83 | the object is a counted target with the given count |
| Ownership.AddRef | src/main/java/com/github/stephengold/joltjni/IndexedShapeRef.java:70-77 | adding a reference changes only the target's entry |
| Ownership.Release | src/main/java/com/github/stephengold/joltjni/IndexedShapeRef.java:70-77 | releasing a reference changes only the target's entry |
| Ownership.ReleaseUndoesAddRef | src/main/java/com/github/stephengold/joltjni/IndexedShapeRef.java:70-77 | releasing a reference just added leaves every object as it was |
| Ownership.NativeHeap.OwnerIsLive | src/main/java/com/github/stephengold/joltjni/AaBox.java:230-237 | a wrapper registered as the owner of an address holds a live object there, owns it and has not yet freed it |
| Ownership.NativeHeap.ViewIsNeverOwner | src/main/java/com/github/stephengold/joltjni/PathConstraintPathRef.java:64-71 | a non-owning view is never the registered owner of any object, so it can never reach `Free` through `Close` |
| Ownership.NativeHeap.ClosedIsNeverOwner | src/main/java/com/github/stephengold/joltjni/AaBox.java:230-237 | a closed wrapper is no longer an owner, so a second `Close` cannot free its object again |
| Ownership.NativeHeap.Register | src/main/java/com/github/stephengold/joltjni/AaBox.java:37-40 | an owning wrapper, built at a live address with the freeing action for that address, becomes that address's owner |
| Ownership.NativeHeap.Allocate | src/main/java/com/github/stephengold/joltjni/AaBox.java:37-40 | a new object at a non-zero address that is neither live nor ever freed |
| Ownership.NativeHeap.Free | src/main/java/com/github/stephengold/joltjni/AaBox.java:231-237 | the object is removed, logged and its owner unregistered; freeing a reference releases its target |
| Ownership.NativeHeap.Copy | src/main/java/com/github/stephengold/joltjni/PathConstraintPathRef.java:78-85 | a new reference to the same target, with the target's count raised by one |
| Ownership.NativeHeap.ToRef | src/main/java/com/github/stephengold/joltjni/IndexedShape.java:99-106 | a new counted reference to the target, whose count goes up by one |
| Ownership.JoltObject.constructor | src/main/java/com/github/stephengold/joltjni/IndexedShapeRef.java:44-47 | a freeing action at the address exactly when owner |
| Ownership.JoltObject.View | src/main/java/com/github/stephengold/joltjni/VehicleCollisionTesterCastCylinder.java:63-65 | a view with no freeing action |
| Ownership.JoltObject.Close | src/main/java/com/github/stephengold/joltjni/AaBox.java:230-237 | only the registered owner may close; the object is freed once, the owner is unregistered and the wrapper is left with no object and no freeing action |
| Ownership.NewAaBox | src/main/java/com/github/stephengold/joltjni/AaBox.java:37-40 | an owned box holding the empty default extent; the new wrapper is registered as its owner and nothing is freed |
| Ownership.NewAaBoxFromCorners | src/main/java/com/github/stephengold/joltjni/AaBox.java:61-70 | an owned box with the given corners; the new wrapper is registered as its owner and nothing is freed |
| Ownership.BiggestAaBox | src/main/java/com/github/stephengold/joltjni/AaBox.java:79-84 | an owned copy of the biggest finite box; the new wrapper is registered as its owner and nothing is freed |
| Ownership.SetEmpty | src/main/java/com/github/stephengold/joltjni/AaBox.java:89-92 | the box becomes the empty box; nothing is freed |
| Ownership.BoxOf | src/main/java/com/github/stephengold/joltjni/AaBox.java:105-222 | the queries read the box without changing anything |
| Ownership.NewEmptyRef | src/main/java/com/github/stephengold/joltjni/PathConstraintPathRef.java:39-42 | an owned empty reference; the new wrapper is registered as its owner and nothing is freed |
| Ownership.GetPtr | src/main/java/com/github/stephengold/joltjni/PathConstraintPathRef.java:64-71 | a non-owning view of the target; the heap is unchanged |
| Ownership.CopyRef | src/main/java/com/github/stephengold/joltjni/CharacterVirtualRef.java:67-74 | a new owning reference to the same target at a different address; the source reference is unchanged; the new wrapper is registered as its owner and nothing is freed |
| Ownership.TargetToRef | src/main/java/com/github/stephengold/joltjni/VehicleCollisionTesterCastCylinder.java:98-106 | a new owning reference to the target, whose count goes up by one; the new wrapper is registered as its owner and nothing is freed |
| Ownership.GetRefCount | src/main/java/com/github/stephengold/joltjni/IndexedShape.java:77-83 | the target's count, read without a change |
| Ownership.NewCastCylinderTester | src/main/java/com/github/stephengold/joltjni/VehicleCollisionTesterCastCylinder.java:50-54 | an owned tester with the given layer and fraction; the new wrapper is registered as its owner and nothing is freed |
| Ownership.NewDefaultCastCylinderTester | src/main/java/com/github/stephengold/joltjni/VehicleCollisionTesterCastCylinder.java:39-41 | an owned tester with fraction 0.1; the new wrapper is registered as its owner and nothing is freed |
| PerformanceTestArgs.DigitChar | src/test/java/testjoltjni/app/PerformanceTest.java:82-86 | the character is a digit whose value is the input |
| PerformanceTestArgs.ParseInt | src/test/java/testjoltjni/app/PerformanceTest.java:82-86 | a parsed value lies in the 32-bit range |
| PerformanceTestArgs.NatToStringDigits | src/test/java/testjoltjni/app/PerformanceTest.java:105-109 | the decimal digits of n are non-empty digits that read back as n |
| PerformanceTestArgs.ParseIntToString | src/test/java/testjoltjni/app/PerformanceTest.java:105-109 | every 32-bit integer written in decimal parses back to itself |
| PerformanceTestArgs.ParseArguments | src/test/java/testjoltjni/app/PerformanceTest.java:65-162 | the loop computes ParseCommandLine |
| PerformanceTestArgs.ProgramNameIgnored | src/test/java/testjoltjni/app/PerformanceTest.java:65 | argv[0] never affects the result |
| PerformanceTestArgs.UnrecognisedIgnored | src/test/java/testjoltjni/app/PerformanceTest.java:65-162 | an unrecognised argument, wherever it stands, changes nothing |
| PerformanceTestArgs.ThreadsMaxTakesHardwareCount | src/test/java/testjoltjni/app/PerformanceTest.java:100-104 | -t=max sets the thread count to the hardware count |
| PerformanceTestArgs.ThreadsNumber | src/test/java/testjoltjni/app/PerformanceTest.java:105-109 | -t= with a number sets exactly that count |
| PerformanceTestArgs.QualityNames | src/test/java/testjoltjni/app/PerformanceTest.java:87-99 | Discrete sets 0, LinearCast sets 1, anything else exits with status 1 |
| PerformanceTestArgs.LaterOverrides | src/test/java/testjoltjni/app/PerformanceTest.java:65-162 | a later argument for the same option overrides an earlier one |
| PerformanceTestArgs.LaterNameOverrides | src/test/java/testjoltjni/app/PerformanceTest.java:69-99 | a later scene or quality name overrides an earlier one |
| PerformanceTestArgs.LaterNumberOverrides | src/test/java/testjoltjni/app/PerformanceTest.java:82-142 | a later numeric option overrides an earlier one |
| PerformanceTestArgs.LaterFlagOverrides | src/test/java/testjoltjni/app/PerformanceTest.java:110-133 | repeating a flag is the same as giving it once |
| PerformanceTestArgs.ApplyKeepsQuality | src/test/java/testjoltjni/app/PerformanceTest.java:87-99 | no argument that lets parsing go on leaves the quality outside -1, 0 and 1 |
| PerformanceTestArgs.ParsedQualityInRange | src/test/java/testjoltjni/app/PerformanceTest.java:53-162 | every parse that goes on leaves the quality at -1, 0 or 1 |
| PerformanceTestArgs.SelectQualities | src/test/java/testjoltjni/app/PerformanceTest.java:206-210 | no quality given runs 0 then 1; a given quality runs alone |
| PerformanceTestArgs.ThreadPermutations | src/test/java/testjoltjni/app/PerformanceTest.java:217-222 | a given count n > 0 yields [n - 1]; otherwise 0 to the hardware count, in order |
| PerformanceTestArgs.TagIdentifiesRun | src/test/java/testjoltjni/app/PerformanceTest.java:260 | different runs carry different tags |
| PerformanceTestArgs.HexDigitsRoundTrip | src/test/java/testjoltjni/app/PerformanceTest.java:382 | the hexadecimal digits written read back as the number |
| PerformanceTestArgs.Unsigned64 | src/test/java/testjoltjni/app/PerformanceTest.java:382 | the printed value is the long's value modulo 2^64 |
| PerformanceTestArgs.HashStringIdentifiesHash | src/test/java/testjoltjni/app/PerformanceTest.java:391-395 | a run checked against its own printed hash passes, and different hashes print differently |
| BroadPhaseInsertion.StepSize | src/test/java/testjoltjni/app/samples/broadphase/BroadPhaseInsertionTest.java:49 | the step is the largest s with 10 s not above the body count |
| BroadPhaseInsertion.Turned | src/test/java/testjoltjni/app/samples/broadphase/BroadPhaseInsertionTest.java:44-47 | the position is unchanged and the sweep descends exactly when it is not at 0 and it was descending or ran past the end |
| BroadPhaseInsertion.Membership | src/test/java/testjoltjni/app/samples/broadphase/BroadPhaseInsertionTest.java:80-91 | the bodies in the broad phase are exactly those below the current position |
| BroadPhaseInsertion.BatchStartInBounds | src/test/java/testjoltjni/app/samples/broadphase/BroadPhaseInsertionTest.java:51-52 | the batch start lies in [0, max]; a descending batch is always in range |
| BroadPhaseInsertion.NextConsistent | src/test/java/testjoltjni/app/samples/broadphase/BroadPhaseInsertionTest.java:163-164 | an in-range update moves the position one whole step up or down and keeps it within [0, max] |
| BroadPhaseInsertion.InRangeWhenStepDivides | src/test/java/testjoltjni/app/samples/broadphase/BroadPhaseInsertionTest.java:75-77 | when the count is a whole number of steps every batch is in range |
| BroadPhaseInsertion.RunConsistent | src/test/java/testjoltjni/app/samples/broadphase/BroadPhaseInsertionTest.java:44-52 | every reachable sweep state is a whole number of steps within [0, max] |
| BroadPhaseInsertion.RunInRangeWhenStepDivides | src/test/java/testjoltjni/app/samples/broadphase/BroadPhaseInsertionTest.java:75-77 | with a count that is a whole number of steps, no update ever fetches past the last body |
| BroadPhaseInsertion.AsWrittenRunAt25 | src/test/java/testjoltjni/app/samples/broadphase/BroadPhaseInsertionTest.java:44-52 | with 25 bodies the first twelve updates ascend two at a time |
| BroadPhaseInsertion.BatchOverrunsAt25 | src/test/java/testjoltjni/app/samples/broadphase/BroadPhaseInsertionTest.java:75-77 | with 25 bodies updates 1 to 12 are in range and update 13 fetches bodies 24 and 25, past the last |
| BroadPhaseInsertion.CorrectedRunInRange | src/test/java/testjoltjni/app/samples/broadphase/BroadPhaseInsertionTest.java:44-47 | turning when the next batch would not fit keeps every batch in range for every body count |
| BroadPhaseInsertion.MissingFromBefore | src/test/java/testjoltjni/app/samples/broadphase/BroadPhaseInsertionTest.java:126-137 | none exactly when every after-hit is a before-hit; otherwise a witness that is not |
| BroadPhaseInsertion.HitsFailure | src/test/java/testjoltjni/app/samples/broadphase/BroadPhaseInsertionTest.java:124-137 | no failure exactly when there are no more after-hits than before-hits and each after-hit is a before-hit |
| BroadPhaseInsertion.BruteForceFailure | src/test/java/testjoltjni/app/samples/broadphase/BroadPhaseInsertionTest.java:140-161 | no failure exactly when each body is an after-hit iff it is in the broad phase and the ray hits its box |
| BroadPhaseInsertion.ChecksFailure | src/test/java/testjoltjni/app/samples/broadphase/BroadPhaseInsertionTest.java:124-161 | no failure exactly when all three checks hold |
| BroadPhaseInsertion.Find | src/test/java/testjoltjni/app/samples/broadphase/BroadPhaseInsertionTest.java:128-133 | found exactly when the body is among the ids |
| BroadPhaseInsertion.CheckHits | src/test/java/testjoltjni/app/samples/broadphase/BroadPhaseInsertionTest.java:124-137 | the loops compute HitsFailure |
| BroadPhaseInsertion.CheckBruteForce | src/test/java/testjoltjni/app/samples/broadphase/BroadPhaseInsertionTest.java:140-161 | the loops compute BruteForceFailure |
| BroadPhaseInsertion.RunChecks | src/test/java/testjoltjni/app/samples/broadphase/BroadPhaseInsertionTest.java:124-161 | the checks compute ChecksFailure |
| BroadPhaseInsertion.PickBodies | src/test/java/testjoltjni/app/samples/broadphase/BroadPhaseInsertionTest.java:57-61 | every body picked to move lies below the current position |
| BroadPhaseInsertion.FetchBatch | src/test/java/testjoltjni/app/samples/broadphase/BroadPhaseInsertionTest.java:75-77 | the batch is the bodies from the start on; it fails, at the first missing index, exactly when it runs past the last body |
| BroadPhaseInsertion.InsertionSweep.constructor | src/test/java/testjoltjni/app/samples/broadphase/BroadPhaseInsertionTest.java:31-33 | the sweep starts at body 0, ascending, with no body in the broad phase |
| BroadPhaseInsertion.InsertionSweep.TurnAndStepBack | src/test/java/testjoltjni/app/samples/broadphase/BroadPhaseInsertionTest.java:44-52 | the direction is Turned, and a descending sweep steps back before the batch |
| BroadPhaseInsertion.InsertionSweep.MoveBodies | src/test/java/testjoltjni/app/samples/broadphase/BroadPhaseInsertionTest.java:57-72 | every moved body is in the broad phase, as the source asserts |
| BroadPhaseInsertion.InsertionSweep.AddOrRemove | src/test/java/testjoltjni/app/samples/broadphase/BroadPhaseInsertionTest.java:80-91 | an ascending batch adds bodies that were all absent; a descending one removes bodies that were all present |
| BroadPhaseInsertion.InsertionSweep.PrePhysicsUpdate | src/test/java/testjoltjni/app/samples/broadphase/BroadPhaseInsertionTest.java:42-165 | the update turns as Turned says; it fails with an index error exactly when the batch is out of range; otherwise the broad phase holds the bodies below the next position and the outcome is that of the three checks, a passing update moving to Next and keeping the sweep invariant |
| Geometry.CenteredBox | src/main/native/custom/RegionShape.h:133 | the centred box is symmetric about the origin and centred on it |
| Geometry.CenteredBoxContains | src/main/native/custom/RegionShapeVisitors.h:282-285 | a point is in the centred box exactly when each coordinate is within the half extent |
| Geometry.EmptyBoxContainsNothing | src/main/java/com/github/stephengold/joltjni/AaBox.java:37-40 | the default box contains no point and is not valid |
| Geometry.ExpandByGrows | src/main/native/custom/RegionShapeVisitors.h:98 | expanding by a non-negative amount keeps every point the box contained |

## Left out

- Floating point: coordinates are reals, so single-precision rounding and `Float3` compression are not modelled.
- Jolt's geometry library calls are given values. Ray/box tests (`RayAABox`), the cast-shape bounds test, `AABox::Scaled`/`Transformed` and matrix inverses enter as a given predicate or a given box.
- The narrow phase is a given function from a call and a query state to a response. It stands for the children's `CastRay`/`CollidePoint`, `CollisionDispatch`, and the collectors' `AddHit`/`ShouldEarlyOut`.
- The ray and shape transforms handed to the children are not modelled, since the narrow phase is a given function. Only the sub-shape ID each child receives is.
- `GetSurfaceNormal`, `GetSubmergedVolume`, `GetVolume`, `GetInnerRadius`, `GetMassProperties`, `GetStats`, `Draw` and the triangle iteration are placeholder stubs or assert-only; they are not modelled.
- The JNI collector bridge is not part of this model. This covers the native collector that calls back into Java (thread attachment, global references) and `CustomIndexedShapeCollector.java`. The collector is a class that returns given answers and records the queries.
- Java `assert` statements and Jolt's `JPH_ASSERT` (index in range, field fits in the sub-shape ID, moved bodies in the broad phase) are preconditions.
- The getter/setter forwarders are not modelled, because their state lives in Jolt: settings classes, filters, `RegionShape.java`, `RegionShapeSettings.java`, `ObjectStreamOut`, the read-only interfaces.
- `setEmbedded` (`IndexedShape.java`, `VehicleCollisionTesterCastCylinder.java`) is not modelled: it only marks a target as not heap-allocated.
- ArrayWrappers.ContactList.constructor and ArrayWrappers.ContactList.Get build owning wrappers at addresses given as parameters, with no `NativeHeap`, because the contact list's native glue is not part of this model. They are not registered as owners, so the free-once property is not stated for them.
- SubShapeIds.SubShapeIDCreator: the first free bit and the field widths are Jolt's `uint`; they are 6-bit values here, since every use keeps them at most 32.
- SubShapeIds.PushID: that the value lands in the field at a non-zero first free bit, and that the bits above the field are kept, are not stated; only the lower fields, the root read-back at any width and the full-width push are. The variable-shift bit-vector proofs of those facts exceed the solver budget.
- SubShapeIds.PopID: a two-level read-back (pop the parent's width, then the child's) is not stated, for the same reason; the single-level read-back and the shape of the remainder are.
- Ownership.NativeHeap.Free: Jolt deletes a counted target when its count falls to zero. The model only lowers the count.
- ArrayWrappers.IndexedShapes.Get: the Java result is a view of element i, so later writes to the array show through it. The model returns the element's value at the time of the call, so that aliasing is not captured.
- ArrayWrappers.ContactList.Get: the ContactList native glue is not part of this model. The address the native `get` returns is a parameter, and the contact it holds is taken to be element i.
- ArrayWrappers.ContactList: the contact type is a type parameter, because `CharacterVirtual::Contact` is not part of this model. Resize's fill stands for the default-constructed contact.
- ArrayWrappers.IndexedShapes.Resize: an appended element is known only to have a null shape. Its index and position are left uninitialised by the default constructor, so they are a given fill value.
- PerformanceTestArgs.ParseInt: `Integer.parseInt` also accepts non-ASCII digits. The model accepts ASCII digits only, after an optional `-` or `+`.
- `toLowerCase` is applied only to the two quality names, the only strings it meets.
- PerformanceTest's scene loading, physics loop, timing, state recording, hashing and file output are I/O and floating point, and are not modelled. The hardware thread count and the hash are parameters.
- BroadPhaseInsertion.InsertionSweep.PrePhysicsUpdate: the random draws are given values reduced modulo the current position. Their uniform distribution and the new body positions are not modelled. The broad-phase ray casts enter as given hit lists and a given ray-versus-box predicate.
- `BroadPhaseTest` and `CreateBalancedDistribution` are not part of this model. The sweep starts, as the test's fields do, at body 0 with no body in the broad phase.
- `DampingTest` and `PerformanceTestScene` are not part of this model.

Where the description of the system and the code differ, the model follows the code:

- `IndexedShapes.get` is documented to return null for a missing element. The glue returns the address of an existing element, which is never zero, so the model's `Get` always returns a value.
- The index layout in the `IndexedShape` doc comment does not match the formula written next to it (Finding 1).

## Findings

| source | as written | input that shows it | evidently intended | confidence | as-written member | corrected member |
|---|---|---|---|---|---|---|
| src/main/java/com/github/stephengold/joltjni/IndexedShape.java:32 | the documented index formula masks the sub-shape index with `0x1F << 27`; shift binds tighter than `&`, so the sub-shape index 1 to 31 is masked to 0 | sub-shape 1 with voxel (0, 0, 0) gives index 0 instead of 0x0800_0000 | `(s & 0x1F) << 27`, which the decoder's layout (bits 27-31 unused by x, y, z) supports | not executed | ShapeIndex.DocumentedIndexLosesSubShape | ShapeIndex.EncodeThenDecode |
| src/test/java/testjoltjni/app/samples/broadphase/BroadPhaseInsertionTest.java:44-47 | the ascending sweep turns only once the position reaches the body count, so when the count is not a multiple of `max / 10` the last ascending batch runs past the last body at lines 75-77 | 25 bodies: the step is 2, updates 1 to 12 add bodies 0 to 23, and update 13 fetches bodies 24 and 25, of which 25 does not exist | turn when the next batch would not fit (position + step > count) | not executed | BroadPhaseInsertion.BatchOverrunsAt25 | BroadPhaseInsertion.CorrectedRunInRange |
