# A verified model of the myth render-graph core

myth is a real-time renderer written in Rust on top of wgpu. Each frame,
render nodes are registered under a fixed set of stages. The frame builder
sorts them by (stage, insertion order) into a render graph. The graph then
prepares every node and afterwards executes every node into one command
encoder. Around that loop sit the bookkeeping structures this project models:

- a pool that recycles per-frame render targets;
- caches of pipelines, shader variants, bind groups and resource fingerprints;
- a render-pass wrapper that drops redundant state changes;
- version counters and write guards, which tell the renderer what changed;
- the per-frame uniform allocator;
- the scene hierarchy and its transform propagation;
- UUID-deduplicating asset storage;
- the `.cube` LUT reader and the glTF vertex interleaving and GLB re-framing;
- the input edge state machine;
- the keyframe interval search.

GPU objects are opaque handles issued by `Gpu.Device`. Every GPU call a
component makes is either recorded as an event, or stands as an operation
that returns a fresh handle.

Each source file is one Dafny module in a file of its own:

| module | source file |
|---|---|
| Stage, FrameBuilder, RenderGraph, Composer | src/renderer/graph/stage.rs, builder.rs, graph.rs, composer.rs |
| TransientPool, Frame, Pass | src/renderer/graph/transient_pool.rs, frame.rs, pass.rs |
| PipelineCache, ShaderManager, ShaderGen, Vertex | src/renderer/pipeline/cache.rs, shader_manager.rs, shader_gen.rs, vertex.rs |
| ShaderDefines | src/resources/shader_defines.rs |
| ResourceBuilder, Binding | src/renderer/core/builder.rs, binding.rs |
| ResourceIds, Allocator | src/renderer/core/resources/resource_ids.rs, allocator.rs |
| Buffer, VersionTracker, Material, Geometry, InputState | src/resources/buffer.rs, version_tracker.rs, material/mod.rs, geometry.rs, input.rs |
| SceneGraph, TransformSystem | src/scene/scene.rs, transform_system.rs |
| AssetStorage, CubeLut, GltfLoader | src/assets/storage.rs, server.rs, loaders/gltf.rs |
| Tracks | src/animation/tracks.rs |

Four helper modules are shared by the others:

- `Wrappers`: Option, Result, and the machine-integer ranges with their wrapping increments.
- `Gpu`: the handle-issuing device.
- `Sorting`: the library sorts, as one insertion sort proved to return a sorted permutation.
- `Text`: string order, decimal formatting and line joining.

State that the source changes in place is modelled as classes, whose
methods state their whole new state. Pure code is modelled as functions
and lemmas. Machine integers (`u16`, `u32`, `u64`) are subset types, and a
counter the source increments with `+= 1` or `wrapping_add` wraps in the
model as it does in a release build. Where the model leaves an integer
unbounded or excludes an overflow or an out-of-range index, "## Left out"
names the member.

The code has none of the following mechanisms, and neither does the model:

- A `TransientTextureId` is a bare index into the active list. It carries no frame-epoch stamp, and nothing detects a stale id.
- The pool has no soft budget and no LRU eviction; src/renderer/graph/frame.rs:444 marks LRU eviction as a TODO. `trim` ages every free texture by one frame and drops those idle longer than the given bound.
- There is no error fallback pipeline.
- There is no per-node failure isolation in the graph.
- The frame blackboard has fixed fields, not typed keys.
- Textures are reused only on an exact descriptor match. There is no size bucketing.
- The material variants construct `SettingsGuard` with a field named `version`; the guard in src/resources/material/mod.rs has `layout_version`. The model follows mod.rs.
- The material variants' `bindings_mut` hands out a plain reference, so `BindingsGuard` is used through mod.rs only.

## Model

| member | source | states |
|---|---|---|
| Stage.Order | src/renderer/graph/stage.rs:34-82 | the stage's position is below 8 and indexes the stage itself in the declaration-order list of the eight stages |
| Stage.OrderInjective | src/renderer/graph/stage.rs:80-82 | two stages have the same order exactly when they are the same stage |
| Stage.OrderEnumerates | src/renderer/graph/stage.rs:34-74 | the k-th declared stage has order k, so orders are exactly 0..7 |
| Stage.StageChain | src/renderer/graph/stage.rs:106-113 | PreProcess < ShadowMap < Opaque < Skybox < BeforeTransparent < Transparent < PostProcess < UI, and every earlier-declared stage sorts before every later one |
| Stage.Name | src/renderer/graph/stage.rs:86-98 | every stage has a non-empty display name |
| Stage.NameInjective | src/renderer/graph/stage.rs:86-98 | distinct stages have distinct names |
| FrameBuilder.NodesOf | src/renderer/graph/builder.rs:161-167 | the graph receives the entries' nodes one for one, in entry order |
| FrameBuilder.AnyStage | src/renderer/graph/builder.rs:138-140 | true exactly when some entry carries the stage |
| FrameBuilder.EntryLeTotalPreorder | src/renderer/graph/builder.rs:155-157 | the (stage order, insertion order) key comparison is total and transitive, so sorting by it is well defined |
| FrameBuilder.AddAllTagged | src/renderer/graph/builder.rs:103-126 | adding nodes keeps every entry tagged with its insertion index modulo 2^16, grows the list by the number of nodes and leaves the earlier entries in place |
| FrameBuilder.AddAllSnoc | src/renderer/graph/builder.rs:117-126 | adding a sequence of nodes is the same as adding its prefix and then the last node with a single add_node |
| FrameBuilder.BuildSortedPermutation | src/renderer/graph/builder.rs:155-167 | the built order is sorted by (stage order, insertion order) and holds the same entries, and the same nodes, as were added |
| FrameBuilder.NodesOfCons | src/renderer/graph/builder.rs:161-165 | the node multiset of a list is its head's node plus the node multiset of its tail |
| FrameBuilder.NodesOfMultiset | src/renderer/graph/builder.rs:161-165 | entry lists that are permutations of each other hand the same multiset of nodes to the graph |
| FrameBuilder.NodesOfConcat | src/renderer/graph/builder.rs:161-165 | the nodes of a concatenation are the concatenated nodes |
| FrameBuilder.NodesOfSplit | src/renderer/graph/builder.rs:161-165 | removing one entry from a list removes exactly its node from the node multiset |
| FrameBuilder.TaggedOrdersDistinct | src/renderer/graph/builder.rs:104-109 | with at most 65536 additions, two different entries never share an order tag |
| FrameBuilder.TaggedDistinct | src/renderer/graph/builder.rs:104-109 | with at most 65536 additions, the entry list has no duplicates |
| FrameBuilder.BuildStableWithinStage | src/renderer/graph/builder.rs:155-157 | with at most 65536 additions, in the built order an earlier node has a lower stage, or the same stage and an earlier insertion |
| FrameBuilder.BuildExample | src/renderer/graph/builder.rs:155-167 | registering A (Opaque), B (UI), C (Opaque) builds the order A, C, B |
| FrameBuilder.FrameBuilder.constructor | src/renderer/graph/builder.rs:73-78 | a new builder has no entries and counter 0 |
| FrameBuilder.FrameBuilder.AddNode | src/renderer/graph/builder.rs:103-111 | appends one entry tagged with the current counter, then advances the counter with 16-bit wrap-around, keeping the tagging invariant |
| FrameBuilder.FrameBuilder.AddNodes | src/renderer/graph/builder.rs:117-126 | the entries become those of add_node called once per node in iteration order |
| FrameBuilder.FrameBuilder.NodeCount | src/renderer/graph/builder.rs:131-133 | the number of registered entries |
| FrameBuilder.FrameBuilder.HasStage | src/renderer/graph/builder.rs:138-140 | true exactly when some registered entry carries the stage |
| FrameBuilder.FrameBuilder.Clear | src/renderer/graph/builder.rs:144-147 | empties the entries and resets the counter to 0 |
| FrameBuilder.FrameBuilder.Build | src/renderer/graph/builder.rs:155-167 | a fresh graph whose nodes are the entries' nodes in sorted (stage, insertion) order |
| RenderGraph.PrepareEvents | src/renderer/graph/graph.rs:62-66 | one prepare call per stored node, the i-th call for the i-th node |
| RenderGraph.RunEvents | src/renderer/graph/graph.rs:83-89 | one run call per stored node, the i-th call for the i-th node |
| RenderGraph.CountEventAppend | src/renderer/graph/graph.rs:62-91 | the number of times a call occurs in a concatenated trace is the sum over its parts |
| RenderGraph.NoSubmitWhileRunning | src/renderer/graph/graph.rs:83-89 | the node loop of execute never submits |
| RenderGraph.ExecuteSubmitsOnceAtEnd | src/renderer/graph/graph.rs:83-91 | execute runs every node in stored order and then submits exactly once, as its last call |
| RenderGraph.EachNodePreparedOncePerOccurrence | src/renderer/graph/graph.rs:62-66 | prepare is called on a node exactly as many times as the node is stored |
| RenderGraph.EachNodeRunsOncePerOccurrence | src/renderer/graph/graph.rs:83-89 | run is called on a node exactly as many times as the node is stored |
| RenderGraph.PrepareEventsSnoc | src/renderer/graph/graph.rs:62-66 | preparing one more node appends exactly its prepare call |
| RenderGraph.RunEventsSnoc | src/renderer/graph/graph.rs:83-89 | running one more node appends exactly its run call |
| RenderGraph.RenderGraph.constructor | src/renderer/graph/graph.rs:39-43 | a new graph holds no nodes |
| RenderGraph.RenderGraph.AddNode | src/renderer/graph/graph.rs:58-60 | appends the node at the end |
| RenderGraph.RenderGraph.NodeCount | src/renderer/graph/graph.rs:97-99 | the number of nodes added |
| RenderGraph.RenderGraph.Prepare | src/renderer/graph/graph.rs:62-66 | the call trace grows by exactly one prepare per node, in stored order |
| RenderGraph.RenderGraph.Execute | src/renderer/graph/graph.rs:75-92 | the call trace grows by one run per node in stored order followed by one submit |
| Composer.LostSurfaceDoesNothing | src/renderer/graph/composer.rs:152-159 | when the surface cannot be acquired no node is prepared or run, nothing is submitted or presented and the pool is not reset |
| Composer.FrameLayout | src/renderer/graph/composer.rs:150-210 | a rendered frame is: acquire surface, prepare context with flip-flop 0, prepare every node in graph order, run every node in the same order, submit, present, reset the pool |
| Composer.PrepareAllBeforeExecuteAny | src/renderer/graph/composer.rs:169-203 | every prepare call precedes every run call |
| Composer.FlipFlopStartsAtZero | src/renderer/graph/composer.rs:188 | the only prepare context of a frame is created with ping-pong counter 0 |
| Composer.PoolResetOncePerFrame | src/renderer/graph/composer.rs:206-209 | a rendered frame presents once and resets the pool once, the reset being the last step, right after present |
| Composer.FrameComposer.constructor | src/renderer/graph/composer.rs:112-117 | the composer wraps the given frame builder |
| Composer.FrameComposer.AddNode | src/renderer/graph/composer.rs:112-117 | forwards to the builder: the builder's entries grow exactly as with its own add_node |
| Composer.FrameComposer.AddNodes | src/renderer/graph/composer.rs:130-136 | forwards to the builder's add_nodes |
| Composer.FrameComposer.Render | src/renderer/graph/composer.rs:150-210 | the call trace is that of a frame over the builder's sorted nodes; after a rendered frame the pool's active list is empty and every active texture is back in its free bucket, and after a lost surface the pool is untouched |
| TransientPool.FindBucket | src/renderer/graph/transient_pool.rs:186 | the free-map lookup: a found bucket carries the key, and no bucket carries it when nothing is found |
| TransientPool.Age | src/renderer/graph/transient_pool.rs:284-287 | ageing and filtering a bucket never lengthens it |
| TransientPool.PushFreeKeeps | src/renderer/graph/transient_pool.rs:274 | pushing a texture into the bucket of its own key keeps keys distinct and buckets well keyed, and adds exactly that texture to the free counts |
| TransientPool.PushFreeContains | src/renderer/graph/transient_pool.rs:274 | after the push the texture is in the bucket found under its key |
| TransientPool.ResetAllSnoc | src/renderer/graph/transient_pool.rs:266-275 | returning one more texture is one more push, in drain order |
| TransientPool.ResetAllKeepsMembers | src/renderer/graph/transient_pool.rs:266-275 | textures already free stay in the bucket under their key when reset returns others |
| TransientPool.ResetReturnsEveryTexture | src/renderer/graph/transient_pool.rs:265-277 | after reset every previously active texture is in the free bucket under its own key |
| TransientPool.ResetAllCount | src/renderer/graph/transient_pool.rs:265-297 | reset adds exactly the number of active textures to the free count |
| TransientPool.AgeWithinBound | src/renderer/graph/transient_pool.rs:284-287 | every texture a bucket keeps after ageing has idle count at most the maximum |
| TransientPool.TrimmedWithinBound | src/renderer/graph/transient_pool.rs:282-290 | after trim no bucket is empty and every kept texture has idle count at most the maximum |
| TransientPool.Aged | src/renderer/graph/transient_pool.rs:285 | one more idle frame keeps the texture and its views and adds one to the u32 idle count, the largest count wrapping to 0 |
| TransientPool.AgeKeepsExactly | src/renderer/graph/transient_pool.rs:284-287 | a texture survives ageing exactly when it is an original texture with its idle counter incremented by one (wrapping at 2^32) and that count is within the maximum |
| TransientPool.AgeShape | src/renderer/graph/transient_pool.rs:284-287 | ageing never adds a copy of a texture and keeps the bucket well keyed |
| TransientPool.TrimKeeps | src/renderer/graph/transient_pool.rs:282-290 | trim keeps bucket keys distinct and every bucket well keyed |
| TransientPool.TrimTex | src/renderer/graph/transient_pool.rs:282-290 | trim never adds a texture to the free list |
| TransientPool.TransientTexturePool.constructor | src/renderer/graph/transient_pool.rs:163-168 | a new pool has no active and no free textures |
| TransientPool.TransientTexturePool.Allocate | src/renderer/graph/transient_pool.rs:179-217 | the id is the active count before the call; the new active entry has the requested key, idle count 0 and one view per mip; the last free texture of an equal key is popped and reused with its views, its idle count reset to 0, otherwise a new texture is created and the free list is unchanged; no texture is ever held twice |
| TransientPool.TransientTexturePool.GetView | src/renderer/graph/transient_pool.rs:224-226 | the default view of the active texture with that id |
| TransientPool.TransientTexturePool.GetMipView | src/renderer/graph/transient_pool.rs:235-241 | the view of that mip level of the active texture |
| TransientPool.TransientTexturePool.GetTexture | src/renderer/graph/transient_pool.rs:248-250 | the active texture with that id |
| TransientPool.TransientTexturePool.MipCount | src/renderer/graph/transient_pool.rs:255-257 | the number of mip views of the active texture |
| TransientPool.TransientTexturePool.Reset | src/renderer/graph/transient_pool.rs:265-277 | active becomes empty, the free list is every active texture pushed under its key in order, and the total texture count is unchanged |
| TransientPool.TransientTexturePool.Trim | src/renderer/graph/transient_pool.rs:282-290 | the active list is unchanged and the free list becomes the aged, filtered, non-empty buckets |
| TransientPool.TransientTexturePool.TotalTextureCount | src/renderer/graph/transient_pool.rs:295-297 | active count plus the sizes of all free buckets |
| TransientPool.TrimBuckets | src/renderer/graph/transient_pool.rs:283-289 | the bucket loop of trim computes the aged, filtered, non-empty buckets |
| TransientPool.AgeBucket | src/renderer/graph/transient_pool.rs:284-287 | the per-bucket loop increments every idle count and keeps those within the maximum |
| TransientPool.NewPooled | src/renderer/graph/transient_pool.rs:191-194 | a newly created texture gets a fresh device handle, the requested key, idle count 0 and one view per mip |
| Frame.FrameBlackboard.constructor | src/renderer/graph/frame.rs:90-92 | a new blackboard holds no transient id |
| Frame.FrameBlackboard.Clear | src/renderer/graph/frame.rs:96-103 | all six transient ids become None |
| Frame.DepthBits | src/renderer/graph/frame.rs:316-321 | the depth field is below 2^30, zero for a negative depth (sign bit set), and otherwise the float bits shifted right by two |
| Frame.RenderKeyNew | src/renderer/graph/frame.rs:313-344 | an opaque key holds the pipeline id masked to 14 bits, the material index masked to 20 bits and the depth field, from high to low; a transparent key holds the inverted depth field, then pipeline, then material |
| Frame.OpaqueKeyOrder | src/renderer/graph/frame.rs:336-342 | opaque keys compare by masked pipeline, then masked material, then depth ascending, in both directions |
| Frame.TransparentKeyOrder | src/renderer/graph/frame.rs:327-334 | transparent keys compare by depth descending, then pipeline, then material, in both directions |
| Frame.TransparentBackToFront | src/renderer/graph/frame.rs:327-334 | a transparent draw with larger depth bits gets the smaller key, so it is drawn first |
| Frame.PackLess | src/renderer/graph/frame.rs:334-342 | comparing two packed fields is comparing the high parts, then the low parts |
| Frame.KeyLeTotalPreorder | src/renderer/graph/frame.rs:266-271 | ordering commands by their sort key is total and transitive |
| Frame.RenderLists.constructor | src/renderer/graph/frame.rs:223-235 | new lists are cleared and the global bind group id is 0 |
| Frame.RenderLists.Clear | src/renderer/graph/frame.rs:239-248 | all lists, queues and views are emptied, the bind group, the transmission flag and the skybox are reset, and the global bind group id is kept |
| Frame.RenderLists.InsertOpaque | src/renderer/graph/frame.rs:252-254 | appends to the opaque list; the transparent list and every other per-frame field are unchanged |
| Frame.RenderLists.InsertTransparent | src/renderer/graph/frame.rs:258-260 | appends to the transparent list; the opaque list and every other per-frame field are unchanged |
| Frame.RenderLists.Sort | src/renderer/graph/frame.rs:266-271 | each list ends in ascending key order and is a permutation of what it held; every other per-frame field is unchanged |
| Frame.RenderLists.IsEmpty | src/renderer/graph/frame.rs:276-278 | true exactly when both the opaque and the transparent list are empty |
| Pass.StateOf | src/renderer/graph/pass.rs:61-67 | the cached bind-group state always holds a full array of eight offsets |
| Pass.BindGroupNeedsUpdate | src/renderer/graph/pass.rs:50-56 | an update is needed exactly when the slot is empty or its cached state does not describe the given id and offsets |
| Pass.StateOfDescribes | src/renderer/graph/pass.rs:50-69 | the state recorded after a bind describes that bind, so repeating the same bind issues no call |
| Pass.ChangedBindingNeedsUpdate | src/renderer/graph/pass.rs:50-56 | a different id or a different offset list after a recorded bind always needs an update |
| Pass.TrackedRenderPass.constructor | src/renderer/graph/pass.rs:25-33 | a new pass tracks nothing and has issued no call |
| Pass.TrackedRenderPass.SetPipeline | src/renderer/graph/pass.rs:35-40 | the GPU call is issued exactly when the tracked pipeline id differs, and the id is recorded; other tracked state is untouched |
| Pass.TrackedRenderPass.SetBindGroup | src/renderer/graph/pass.rs:42-71 | the GPU call is issued exactly when the slot needs an update; afterwards the slot describes the given id and offsets and every other slot is unchanged |
| Pass.TrackedRenderPass.SetVertexBuffer | src/renderer/graph/pass.rs:73-84 | the call is issued exactly when the slot's tracked buffer id differs; only that slot changes |
| Pass.TrackedRenderPass.SetIndexBuffer | src/renderer/graph/pass.rs:86-96 | the call is issued exactly when the tracked index-buffer id differs, independently of the vertex slots |
| Pass.TrackedRenderPass.Draw | src/renderer/graph/pass.rs:98-100 | always passes the draw through and changes no tracked state |
| Pass.TrackedRenderPass.DrawIndexed | src/renderer/graph/pass.rs:102-109 | always passes the indexed draw through and changes no tracked state |
| Pass.TrackedRenderPass.InvalidateState | src/renderer/graph/pass.rs:129-134 | every tracked slot becomes empty and no call is issued |
| Pass.AfterInvalidateEverySetIssues | src/renderer/graph/pass.rs:122-134 | after invalidation, setting a pipeline, a bind group, a vertex buffer and an index buffer issues all four GPU calls whatever was cached before |
| PipelineCache.NextId | src/renderer/pipeline/cache.rs:538-548 | the id handed out is the old storage length, cast to u32, so it equals that length while the length fits in 32 bits |
| PipelineCache.InsertKeepsIdsBelow | src/renderer/pipeline/cache.rs:538-548 | recording the freshly pushed id keeps every id of the map a valid index into the grown storage |
| PipelineCache.PipelineCache.constructor | src/renderer/pipeline/cache.rs:95-106 | a new cache has empty storage, empty lookups and the storage invariant |
| PipelineCache.PipelineCache.GetRenderPipeline | src/renderer/pipeline/cache.rs:113-116 | the pipeline stored at that id (out-of-range ids are excluded, as the source panics) |
| PipelineCache.PipelineCache.GetComputePipeline | src/renderer/pipeline/cache.rs:120-123 | the compute pipeline stored at that id |
| PipelineCache.PipelineCache.Clear | src/renderer/pipeline/cache.rs:130-139 | empties both storage lists and all six lookup maps |
| PipelineCache.PipelineCache.GetPipelineFast | src/renderer/pipeline/cache.rs:144-146 | a level-1 hit exactly when the key was inserted, giving the id last inserted for it |
| PipelineCache.PipelineCache.InsertPipelineFast | src/renderer/pipeline/cache.rs:148-150 | the key now finds the given id, every other key finds what it found before, and storage and the other maps are unchanged |
| PipelineCache.PipelineCache.GetShadowPipelineFast | src/renderer/pipeline/cache.rs:153-158 | a level-1 shadow hit exactly when the key was inserted, giving its id |
| PipelineCache.PipelineCache.InsertShadowPipelineFast | src/renderer/pipeline/cache.rs:160-166 | the shadow key now finds the given id; nothing else changes |
| PipelineCache.PipelineCache.PushRenderPipeline | src/renderer/pipeline/cache.rs:538-542 | appends the pipeline and returns the old render-storage length as its id |
| PipelineCache.PipelineCache.PushComputePipeline | src/renderer/pipeline/cache.rs:544-548 | appends the compute pipeline and returns the old compute-storage length as its id |
| PipelineCache.PipelineCache.GetOrCreateRender | src/renderer/pipeline/cache.rs:174-298 | a known hash returns the stored id without creating anything; an unknown hash creates one pipeline, appends it and returns the old count; the family's map records the id, the other families' maps are untouched, and every id stays a valid index |
| PipelineCache.PipelineCache.GetOrCreateGraphics | src/renderer/pipeline/cache.rs:174-295 | the graphics family of the hit-or-create rule, with the other families untouched |
| PipelineCache.PipelineCache.GetOrCreateShadow | src/renderer/pipeline/cache.rs:300-383 | the shadow family of the hit-or-create rule, with the other families untouched |
| PipelineCache.PipelineCache.GetOrCreateFullscreen | src/renderer/pipeline/cache.rs:391-490 | the fullscreen family of the hit-or-create rule, with the other families untouched |
| PipelineCache.PipelineCache.GetOrCreateCompute | src/renderer/pipeline/cache.rs:495-520 | the same hit-or-create rule over the compute storage and map, leaving render storage and lookups alone |
| PipelineCache.PipelineCache.RenderPipelineCount | src/renderer/pipeline/cache.rs:526-528 | the number of stored render pipelines |
| PipelineCache.PipelineCache.ComputePipelineCount | src/renderer/pipeline/cache.rs:532-534 | the number of stored compute pipelines |
| PipelineCache.SecondRequestHits | src/renderer/pipeline/cache.rs:187-294 | asking twice for the same hash gives the same id and creates at most one pipeline |
| ShaderManager.LastIndexOf | src/renderer/pipeline/shader_manager.rs:47-49 | the position of the last occurrence of the character, or none when it does not occur |
| ShaderManager.StripTrailingSeparators | src/renderer/pipeline/shader_manager.rs:47-49 | a prefix of the path that ends neither in '/' nor in a `.` component, as `Path::components` reads the end of a path |
| ShaderManager.FileName | src/renderer/pipeline/shader_manager.rs:47-49 | the last path component after trailing separators and `.` components, when there is one, is non-empty, contains no '/' and is neither `.` nor `..` |
| ShaderManager.TemplateFileName | src/renderer/pipeline/shader_manager.rs:47-54 | a name whose extension is "wgsl" in any letter case is kept as is; any other name gets ".wgsl" appended |
| ShaderManager.LastIndexOfAppend | src/renderer/pipeline/shader_manager.rs:47-49 | the last occurrence in s + t of a character that occurs in t lies in t |
| ShaderManager.LastIndexOfAppendAbsent | src/renderer/pipeline/shader_manager.rs:47-49 | appending text without the character does not move its last occurrence |
| ShaderManager.AppendWgslFileName | src/renderer/pipeline/shader_manager.rs:47-54 | appending ".wgsl" to a path that ends in its file name appends it to the file name |
| ShaderManager.AppendWgslAfterCurDir | src/renderer/pipeline/shader_manager.rs:47-54 | a name ending in a `.` component gets ".wgsl" appended, and the result has the wgsl extension |
| ShaderManager.TrailingCurDirKeepsName | src/renderer/pipeline/shader_manager.rs:47-54 | "foo.wgsl/." has the file name "foo.wgsl", so it is looked up as given; "." has no file name and becomes "..wgsl" |
| ShaderManager.TemplateFileNameIdempotent | src/renderer/pipeline/shader_manager.rs:47-54 | a normalised template name has the wgsl extension and normalising it again changes nothing |
| ShaderManager.JoinTemplatePath | src/renderer/pipeline/shader_manager.rs:38 | an included name resolves to "chunks/" followed by the name, whatever the parent |
| ShaderManager.ShaderLoader | src/renderer/pipeline/shader_manager.rs:46-79 | never an error; the template source exactly when the normalised file name is an embedded asset with valid text, otherwise Ok(None) |
| ShaderManager.LocationAllocator.constructor | src/renderer/pipeline/shader_manager.rs:99-103 | a new allocator's counter is 0 |
| ShaderManager.LocationAllocator.Next | src/renderer/pipeline/shader_manager.rs:105-107 | returns the counter before the call and advances it by one, wrapping at 2^32 |
| ShaderManager.LocationAllocator.CallMethod | src/renderer/pipeline/shader_manager.rs:111-125 | the method "next" returns the next location; any other name is the error "method <name> not found" and leaves the counter alone |
| ShaderManager.LocationAllocator.NextMany | src/renderer/pipeline/shader_manager.rs:105-107 | n calls return the counter, counter + 1, …, counter + n - 1 in order, wrapping at 2^32 |
| ShaderManager.FreshAllocatorCountsFromZero | src/renderer/pipeline/shader_manager.rs:98-107 | a new allocator hands out 0, 1, …, n - 1 |
| ShaderDefines.AsMapDomain | src/resources/shader_defines.rs:49-50 | a symbol is defined exactly when some stored pair carries it as key |
| ShaderDefines.AsMapConcat | src/resources/shader_defines.rs:197-201 | the definitions of a concatenation are those of the first part overridden by those of the second |
| ShaderDefines.AsMapDistinct | src/resources/shader_defines.rs:134-141 | with distinct keys, each stored pair is exactly the definition of its key |
| ShaderDefines.SameMapSameDefines | src/resources/shader_defines.rs:233-237 | two strictly sorted define lists that define the same keys with the same values are the same list |
| ShaderDefines.SameDefinesIffSameMap | src/resources/shader_defines.rs:227-239 | canonical define lists are equal exactly when they define the same map, so equality and hashing are insertion-order independent |
| ShaderDefines.PermutedPairsSameMap | src/resources/shader_defines.rs:242-250 | reordering a list of pairs with distinct keys does not change the map they define |
| ShaderDefines.ReplaceAt | src/resources/shader_defines.rs:85-87 | overwriting the value at a found index keeps the list strictly sorted and updates just that key |
| ShaderDefines.InsertAt | src/resources/shader_defines.rs:88-90 | inserting at the binary-search position keeps the list strictly sorted and adds the new key |
| ShaderDefines.RemoveAt | src/resources/shader_defines.rs:105-108 | removing at a found index keeps the list strictly sorted and drops just that key |
| ShaderDefines.LenIsMapSize | src/resources/shader_defines.rs:152-154 | a canonical list has one pair per defined key |
| ShaderDefines.ShaderDefines.constructor | src/resources/shader_defines.rs:57-61 | a new set is empty and canonical |
| ShaderDefines.ShaderDefines.CloneOf | src/resources/shader_defines.rs:48 | a clone holds the same canonical list |
| ShaderDefines.ShaderDefines.Search | src/resources/shader_defines.rs:84-138 | the binary search: found exactly when the key is defined; the index is then its position, and otherwise the insertion point, with smaller keys before it and larger keys after it |
| ShaderDefines.ShaderDefines.SetSymbol | src/resources/shader_defines.rs:83-92 | the list stays strictly sorted and unique; the key now has the value; replacing keeps the length and inserting grows it by one |
| ShaderDefines.ShaderDefines.RemoveSymbol | src/resources/shader_defines.rs:105-112 | returns true exactly when the key was defined, deletes it and shrinks the list by one; otherwise nothing changes |
| ShaderDefines.ShaderDefines.ContainsSymbol | src/resources/shader_defines.rs:123-125 | true exactly when the key is defined |
| ShaderDefines.ShaderDefines.GetSymbol | src/resources/shader_defines.rs:136-141 | the value last set for the key, or None when it is not defined |
| ShaderDefines.ShaderDefines.Clear | src/resources/shader_defines.rs:145-147 | the set becomes empty |
| ShaderDefines.ShaderDefines.Len | src/resources/shader_defines.rs:152-154 | the number of defined keys |
| ShaderDefines.ShaderDefines.IsEmpty | src/resources/shader_defines.rs:159-161 | true exactly when nothing is defined |
| ShaderDefines.ShaderDefines.Merge | src/resources/shader_defines.rs:197-201 | every key of the other set takes the other's value and every other key keeps its own |
| ShaderDefines.ShaderDefines.MergedWith | src/resources/shader_defines.rs:205-209 | a fresh canonical set holding this set merged with the other, the other winning on clashes |
| ShaderDefines.FromPairs | src/resources/shader_defines.rs:242-250 | setting the pairs one by one gives a canonical set defining each key with the last value given for it |
| ShaderDefines.ShaderDefines.ComputeHash | src/resources/shader_defines.rs:213-225 | the hash of the sorted define vector; `InsertionOrderIrrelevant` proves two insertion orders of the same pairs hash alike |
| ShaderDefines.InsertionOrderIrrelevant | src/resources/shader_defines.rs:308-318 | the same pairs inserted in two different orders give equal sets with equal hashes |
| ShaderGen.Layered | src/renderer/pipeline/shader_gen.rs:33-44 | a key is defined by the layered sources exactly when some layer defines it; the item layer wins, then scene, then geometry, then material |
| ShaderGen.ShaderCompilationOptions.constructor | src/renderer/pipeline/shader_gen.rs:25-29 | new options hold a fresh, empty define set |
| ShaderGen.ShaderCompilationOptions.Wrap | src/renderer/pipeline/shader_gen.rs:43 | the options take over the given canonical define set |
| ShaderGen.ShaderCompilationOptions.AddDefine | src/renderer/pipeline/shader_gen.rs:59-61 | the key now has the given value, overriding any earlier value, and every other define is kept |
| ShaderGen.FromMerged | src/renderer/pipeline/shader_gen.rs:33-44 | the options define material, then geometry, then scene, then item defines, later sources winning on clashes, in a fresh canonical set |
| ShaderGen.ShaderCompilationOptions.ComputeHash | src/renderer/pipeline/shader_gen.rs:65-76 | the hash of the options' define vector; `EqualIffSameDefinitions` proves equal options hash alike |
| ShaderGen.ShaderCompilationOptions.Equals | src/renderer/pipeline/shader_gen.rs:84-88 | equality of the define vectors; `EqualIffSameDefinitions` proves it holds exactly when the two define the same map |
| ShaderGen.EqualIffSameDefinitions | src/renderer/pipeline/shader_gen.rs:64-88 | options are equal exactly when their define sets hold the same definitions, and equal options hash alike |
| Vertex.FindGroup | src/renderer/pipeline/vertex.rs:72-75 | the group-map lookup: a found group carries the buffer id, and no group carries it when nothing is found |
| Vertex.SortEach | src/renderer/pipeline/vertex.rs:81-83 | every group keeps its buffer id and has its attributes sorted by (offset, name) |
| Vertex.FieldTexts | src/renderer/pipeline/vertex.rs:119-134 | one struct-field line per emitted attribute, in emission order |
| Vertex.FieldLines | src/renderer/pipeline/vertex.rs:108-119 | the i-th emitted field has location i and the i-th attribute's name and format |
| Vertex.FlattenConcat | src/renderer/pipeline/vertex.rs:97-129 | emitting groups one after another emits their attributes one after another |
| Vertex.OffsetFlatten | src/renderer/pipeline/vertex.rs:95-110 | the first location of a group is the number of attributes in the groups before it |
| Vertex.AddToGroupsWell | src/renderer/pipeline/vertex.rs:70-76 | adding an attribute keeps one non-empty group per buffer id, each holding only its buffer's attributes |
| Vertex.AddToGroupsFlatten | src/renderer/pipeline/vertex.rs:70-76 | adding an attribute to the groups adds exactly that attribute |
| Vertex.AddToGroupsIds | src/renderer/pipeline/vertex.rs:70-76 | adding an attribute adds its buffer id to the group ids |
| Vertex.GroupByBufferWell | src/renderer/pipeline/vertex.rs:68-76 | grouping yields one non-empty group per distinct buffer id, each holding only that buffer's attributes |
| Vertex.GroupByBufferFlatten | src/renderer/pipeline/vertex.rs:68-76 | grouping loses and duplicates no attribute |
| Vertex.GroupByBufferIds | src/renderer/pipeline/vertex.rs:68-76 | the group ids are exactly the attributes' buffer ids |
| Vertex.SortEachShape | src/renderer/pipeline/vertex.rs:81-83 | sorting within groups keeps them well grouped and leaves each sorted by (offset, name) |
| Vertex.SortEachFlatten | src/renderer/pipeline/vertex.rs:81-83 | sorting within groups keeps the same attributes |
| Vertex.AttrLeTotalPreorder | src/renderer/pipeline/vertex.rs:82 | the (offset, name) comparison is total and transitive |
| Vertex.GroupLeTotalPreorder | src/renderer/pipeline/vertex.rs:86-90 | comparing groups by the name of their first attribute is total and transitive |
| Vertex.PermutedGroups | src/renderer/pipeline/vertex.rs:86-90 | reordering the groups keeps them well grouped with the same ids |
| Vertex.SortedGroupsShape | src/renderer/pipeline/vertex.rs:68-90 | the sorted groups are well grouped, hold exactly the attributes, have exactly the buffer ids, are ordered by first name and are each ordered by (offset, name) |
| Vertex.NamesMember | src/renderer/pipeline/vertex.rs:120 | a name is among the attribute names exactly when some attribute carries it |
| Vertex.NamesPermutation | src/renderer/pipeline/vertex.rs:120 | reordering attributes keeps the same set of names |
| Vertex.LocationMapFacts | src/renderer/pipeline/vertex.rs:109-120 | with distinct names, the location map sends the i-th emitted name to i and has exactly the emitted names as keys |
| Vertex.EmittedAll | src/renderer/pipeline/vertex.rs:97-129 | once every attribute is emitted, the fields are the expected lines and each name maps to its location |
| Vertex.GroupInFlat | src/renderer/pipeline/vertex.rs:97-129 | a group's attributes sit contiguously in the emission order, starting at the group's first location |
| Vertex.EmitGroup | src/renderer/pipeline/vertex.rs:97-129 | one pass of the outer loop: the buffer descriptor takes stride, step mode and buffer from the first attribute and gives consecutive locations from the current one |
| Vertex.GroupAttributes | src/renderer/pipeline/vertex.rs:68-76 | the grouping loop builds exactly the buffer groups |
| Vertex.AssignLocations | src/renderer/pipeline/vertex.rs:92-129 | every group gets a buffer descriptor and all attributes get consecutive locations in order |
| Vertex.GenerateVertexLayout | src/renderer/pipeline/vertex.rs:66-141 | one buffer descriptor per sorted group, stride and step mode from its first attribute; the vertex-input struct lists the attributes at locations 0..n-1; every attribute name maps to its location, and only those names |
| Vertex.ToSignature | src/renderer/pipeline/vertex.rs:50-64 | one signature per buffer keeping its stride, step mode and attributes |
| Vertex.OneLayoutPerBuffer | src/renderer/pipeline/vertex.rs:68-128 | exactly one group, hence one buffer descriptor, per distinct buffer id |
| Vertex.LocationsAreExactlyZeroToN | src/renderer/pipeline/vertex.rs:95-110 | the emission order is a permutation of the attributes with distinct names, so locations 0..n-1 are each used exactly once |
| Vertex.LayoutOrder | src/renderer/pipeline/vertex.rs:81-90 | groups are non-empty, ordered within by (offset, name), ordered among themselves by first name, and hold only their own buffer's attributes |
| Vertex.SignatureIffSameBuffers | src/renderer/pipeline/vertex.rs:42-64 | two layouts have equal signatures exactly when their buffers agree on stride, step mode and attributes |
| ResourceBuilder.OptionSize | src/renderer/core/builder.rs:68 | the resource size is the minimum binding size when there is one, and absent otherwise |
| ResourceBuilder.ResourceBuilder.constructor | src/renderer/core/builder.rs:34-42 | a new builder has four empty parallel lists and binding counter 0 |
| ResourceBuilder.ResourceBuilder.Push | src/renderer/core/builder.rs:54-74 | appends one layout entry with the current binding number, one resource, one name and one struct generator, then advances the u32 counter with wrap-around; the four lists stay parallel and entry i has binding i modulo 2^32 |
| ResourceBuilder.ResourceBuilder.AddUniformBuffer | src/renderer/core/builder.rs:44-75 | appends a uniform buffer entry with the given dynamic flag and minimum size, its resource sized by that minimum, at the next binding number |
| ResourceBuilder.ResourceBuilder.AddUniform | src/renderer/core/builder.rs:77-92 | a non-dynamic uniform with no size, backed by the buffer's bytes, whose struct is generated |
| ResourceBuilder.ResourceBuilder.AddDynamicUniform | src/renderer/core/builder.rs:94-110 | a uniform with a dynamic offset whose size is the minimum binding size, whose struct is generated |
| ResourceBuilder.ResourceBuilder.AddTexture | src/renderer/core/builder.rs:166-189 | appends a non-multisampled texture entry and resource with no struct, at the next binding number |
| ResourceBuilder.ResourceBuilder.AddSampler | src/renderer/core/builder.rs:191-209 | appends a sampler entry and resource with no struct, at the next binding number |
| ResourceBuilder.ResourceBuilder.AddStorageBuffer | src/renderer/core/builder.rs:211-245 | appends a storage entry, read-only as requested, non-dynamic and unsized, at the next binding number |
| ResourceBuilder.ResourceBuilder.AddStorage | src/renderer/core/builder.rs:247-263 | a storage buffer whose struct is generated |
| ResourceBuilder.ResourceBuilder.GenerateWgsl | src/renderer/core/builder.rs:265-334 | the loop over entries computes exactly the generated shader text, or the panic of a buffer entry without a struct name as an error |
| ResourceBuilder.StructTypeName | src/renderer/core/builder.rs:273-288 | a generated struct is named "Struct_" followed by the binding name, a named struct keeps its name, and no struct gives no type name |
| ResourceBuilder.EmitStopsAtError | src/renderer/core/builder.rs:297-302 | the first entry whose declaration fails decides the error of the whole generation |
| ResourceBuilder.EmitErrPersists | src/renderer/core/builder.rs:269-332 | once a declaration has failed, further entries do not change the error |
| ResourceBuilder.EmitErrStays | src/renderer/core/builder.rs:269-332 | an error so far stays the result after one more entry |
| ResourceBuilder.DeclarationErrIff | src/renderer/core/builder.rs:290-328 | a declaration fails exactly when a uniform or storage buffer has no struct name |
| ResourceBuilder.AnyMissingIff | src/renderer/core/builder.rs:290-328 | some of the first n entries lacks a needed struct name exactly when one of them does |
| ResourceBuilder.EmitErrIff | src/renderer/core/builder.rs:269-332 | generating the first n entries fails exactly when one of them lacks a needed struct name |
| ResourceBuilder.EmitErrStep | src/renderer/core/builder.rs:269-332 | one more entry fails the generation exactly when it had already failed or that entry lacks a struct name |
| ResourceBuilder.GeneratedWgslErrIff | src/renderer/core/builder.rs:265-334 | generation fails exactly when some buffer entry lacks a struct name |
| ResourceBuilder.GeneratedWgslShape | src/renderer/core/builder.rs:333 | the generated text starts with the group header and ends with a newline |
| ResourceBuilder.NatToStringInjective | src/renderer/core/builder.rs:295-325 | different numbers print differently |
| ResourceBuilder.BindingPrefixInjective | src/renderer/core/builder.rs:295-325 | within one group, distinct binding numbers give distinct "@group(g) @binding(b)" prefixes |
| ResourceBuilder.StorageAccessMode | src/renderer/core/builder.rs:301 | the storage access is "read" exactly when read-only and "read_write" otherwise |
| ResourceBuilder.GeneratedUniformDeclaration | src/renderer/core/builder.rs:275-298 | a uniform with a generated struct declares "var<uniform> u_<name>: Struct_<name>;" and emits the generator's definition of Struct_<name> |
| ResourceBuilder.StorageDeclaration | src/renderer/core/builder.rs:300-306 | a storage buffer declares "var<storage, access> st_<name>: array<T>;" |
| Binding.NewKey | src/renderer/core/binding.rs:179-184 | a new key carries the layout id and no resource ids |
| Binding.WithResource | src/renderer/core/binding.rs:187-190 | appends one resource id and keeps the layout id |
| Binding.KeyOfParts | src/renderer/core/binding.rs:177-191 | building a key from a layout id and a list of resource ids in order gives exactly that layout id and that list |
| Binding.KeyEqualIff | src/renderer/core/binding.rs:171-191 | two built keys are equal exactly when the layout ids and the ordered resource-id lists are equal |
| Binding.GlobalBindGroupCache.constructor | src/renderer/core/binding.rs:140-144 | a new cache is empty |
| Binding.GlobalBindGroupCache.Get | src/renderer/core/binding.rs:147-149 | the cached group exactly when the key is cached |
| Binding.GlobalBindGroupCache.Insert | src/renderer/core/binding.rs:151-153 | the key now maps to the given group and nothing else changes |
| Binding.GlobalBindGroupCache.GetOrCreate | src/renderer/core/binding.rs:155-161 | the factory runs exactly when the key is missing; a hit returns the cached group and changes nothing, a miss creates one group and caches it |
| Binding.GlobalBindGroupCache.Clear | src/renderer/core/binding.rs:164-166 | the cache becomes empty |
| Binding.InsertThenGet | src/renderer/core/binding.rs:147-153 | get after insert on the same key finds the inserted group, and other keys are unaffected |
| Binding.GetOrCreateTwice | src/renderer/core/binding.rs:155-161 | a second get_or_create on the same key returns the same group without calling the factory |
| ResourceIds.Existing | src/renderer/core/resources/resource_ids.rs:43-48 | an existing resource keeps its id and reports that it was not recreated |
| ResourceIds.Created | src/renderer/core/resources/resource_ids.rs:52-57 | a created resource keeps its id and reports that it was recreated |
| ResourceIds.IdOrInvalid | src/renderer/core/resources/resource_ids.rs:101-105 | a present id is recorded as itself, an absent one as u64::MAX |
| ResourceIds.ResourceIdSet.constructor | src/renderer/core/resources/resource_ids.rs:75-81 | a new set is empty with a dirty hash |
| ResourceIds.ResourceIdSet.Push | src/renderer/core/resources/resource_ids.rs:94-97 | appends one id and marks the hash dirty |
| ResourceIds.ResourceIdSet.PushOptional | src/renderer/core/resources/resource_ids.rs:101-105 | appends the id, or u64::MAX for none, and marks the hash dirty |
| ResourceIds.ResourceIdSet.Clear | src/renderer/core/resources/resource_ids.rs:109-112 | empties the set and marks the hash dirty |
| ResourceIds.ResourceIdSet.Len | src/renderer/core/resources/resource_ids.rs:117-119 | the number of recorded ids |
| ResourceIds.ResourceIdSet.IsEmpty | src/renderer/core/resources/resource_ids.rs:124-126 | true exactly when no id is recorded |
| ResourceIds.ResourceIdSet.AsSlice | src/renderer/core/resources/resource_ids.rs:131-133 | the recorded ids in order |
| ResourceIds.ResourceIdSet.HashValue | src/renderer/core/resources/resource_ids.rs:142-161 | the hash of the current ids, recomputed only when dirty and cached afterwards; the ids are unchanged |
| ResourceIds.ResourceIdSet.Matches | src/renderer/core/resources/resource_ids.rs:164-176 | true exactly when the two id sequences are equal; the hash fast path never changes the answer |
| ResourceIds.UnchangedIffSameFingerprint | src/renderer/core/resources/resource_ids.rs:196-223 | neither the resources nor the layout changed exactly when the new ids and layout hash form the stored fingerprint |
| ResourceIds.PushAll | src/renderer/core/resources/resource_ids.rs:94-105 | pushing a list of optional ids one by one records each, with u64::MAX for each absent one |
| ResourceIds.RecordedIds | src/renderer/core/resources/resource_ids.rs:101-105 | the i-th recorded id is the i-th optional id, or u64::MAX when absent |
| ResourceIds.RecordedIdsInjective | src/renderer/core/resources/resource_ids.rs:101-105 | when no real id is u64::MAX, two lists of optional ids record the same sequence exactly when they are equal |
| Allocator.Grown | src/renderer/core/resources/allocator.rs:94 | the grown capacity is at least double the old one and at least 128 |
| Allocator.DoubleUntilFacts | src/renderer/core/resources/allocator.rs:120-123 | the doubling loop ends at a capacity that covers the requirement, is the old capacity times a power of two, and overshoots by less than a factor of two unless no doubling was needed |
| Allocator.Defaults | src/renderer/core/resources/allocator.rs:34 | a buffer of n default slots |
| Allocator.ModelBufferAllocator.constructor | src/renderer/core/resources/allocator.rs:32-49 | a new allocator has capacity 4096, an empty cursor and host data, no pending re-creation, and a fresh buffer of 4096 default slots at version 0 |
| Allocator.ModelBufferAllocator.Reset | src/renderer/core/resources/allocator.rs:52-56 | zeroes the cursor, empties the host data and clears the re-creation flag; the capacity and buffer are kept |
| Allocator.ModelBufferAllocator.ExpandCapacity | src/renderer/core/resources/allocator.rs:93-111 | the capacity doubles with a floor of 128, re-creation is flagged and a fresh buffer of default slots of the new capacity replaces the old one |
| Allocator.ModelBufferAllocator.Allocate | src/renderer/core/resources/allocator.rs:59-72 | returns the old cursor times the slot size, cast to u32; the cursor advances and the host data grows by the slot, so its length stays the cursor; when the cursor passes the capacity, the capacity grows and re-creation is flagged |
| Allocator.ModelBufferAllocator.FlushToBuffer | src/renderer/core/resources/allocator.rs:75-90 | empty host data changes nothing; otherwise the host data overwrites the buffer's prefix and the rest of the buffer is kept, through one write guard that bumps the buffer version |
| Allocator.ModelBufferAllocator.EnsureCapacity | src/renderer/core/resources/allocator.rs:118-144 | a requirement within capacity changes nothing; a larger one doubles the capacity until it fits, with a floor of 128, flags re-creation and rebuilds the buffer; afterwards the capacity covers the requirement |
| Allocator.ModelBufferAllocator.NeedRecreateBuffer | src/renderer/core/resources/allocator.rs:113-115 | whether the GPU buffer must be re-created |
| Allocator.ModelBufferAllocator.BufferHandle | src/renderer/core/resources/allocator.rs:147-149 | the handle of the current buffer |
| Allocator.ModelBufferAllocator.BufferId | src/renderer/core/resources/allocator.rs:152-154 | the id of the current buffer |
| Allocator.ModelBufferAllocator.Len | src/renderer/core/resources/allocator.rs:157-159 | the number of slots allocated this frame |
| Allocator.ModelBufferAllocator.IsEmpty | src/renderer/core/resources/allocator.rs:162-164 | true exactly when nothing was allocated this frame |
| Allocator.AllocateFrame | src/renderer/core/resources/allocator.rs:52-72 | after a reset, n allocations hand out the offsets 0, 256, 512, … in order and leave n slots of host data with capacity for them |
| Buffer.BufferIdCounter.constructor | src/resources/buffer.rs:7 | buffer ids start at 1 |
| Buffer.BufferIdCounter.Fetch | src/resources/buffer.rs:7-38 | hands out the current id and advances the counter by one, wrapping at 2^64 |
| Buffer.NewBufferRef | src/resources/buffer.rs:36-48 | a buffer reference with the next id, the given usage and size, and version 0 |
| Buffer.CpuBuffer.constructor | src/resources/buffer.rs:190-210 | a new buffer takes the next id, has version 0 and a size equal to its data's byte size |
| Buffer.CpuBuffer.Version | src/resources/buffer.rs:274-276 | the current version |
| Buffer.CpuBuffer.Size | src/resources/buffer.rs:270-272 | the current size |
| Buffer.CpuBuffer.Read | src/resources/buffer.rs:279-283 | reads the current data and, being a function, changes no version |
| Buffer.CpuBuffer.Handle | src/resources/buffer.rs:294-304 | a reference carrying the buffer's id and usage and its current size and version |
| Buffer.CpuBuffer.Write | src/resources/buffer.rs:285-290 | a fresh guard on this buffer, marked changed |
| Buffer.CpuBuffer.Clone | src/resources/buffer.rs:176-187 | a fresh buffer with the same data and usage, a new id different from the original's, and version 0 |
| Buffer.BufferGuard.constructor | src/resources/buffer.rs:286-289 | a guard starts out marked changed |
| Buffer.BufferGuard.SkipSync | src/resources/buffer.rs:129-131 | the guard is no longer marked changed |
| Buffer.BufferGuard.Set | src/resources/buffer.rs:141-145 | writing through the guard replaces the data and does not yet touch version or size |
| Buffer.BufferGuard.Drop | src/resources/buffer.rs:147-154 | a changed guard bumps the version by one with wrap-around and refreshes the size from the data; an unchanged one leaves both alone |
| Buffer.WriteAndSync | src/resources/buffer.rs:147-154 | a write followed by the guard's drop installs the data, bumps the version by one and refreshes the size |
| Buffer.WriteSkippingSync | src/resources/buffer.rs:129-154 | with skip_sync before the drop the data changes but version and size do not |
| VersionTracker.ChangeTracker.constructor | src/resources/version_tracker.rs:9-11 | a new tracker has version 0 |
| VersionTracker.ChangeTracker.Changed | src/resources/version_tracker.rs:14-16 | the version goes up by one, wrapping at 2^64 |
| VersionTracker.ChangeTracker.Version | src/resources/version_tracker.rs:20-22 | the current version |
| VersionTracker.Versioned.constructor | src/resources/version_tracker.rs:26-29 | the data and version a guard borrows |
| VersionTracker.MutGuard.constructor | src/resources/version_tracker.rs:32-34 | a guard over the given data and version |
| VersionTracker.MutGuard.Get | src/resources/version_tracker.rs:40-42 | reading through the guard gives the guarded data |
| VersionTracker.MutGuard.Set | src/resources/version_tracker.rs:46-48 | writing through the guard replaces the data and leaves the version for the drop |
| VersionTracker.MutGuard.Drop | src/resources/version_tracker.rs:52-56 | dropping keeps the data and adds one to the version, wrapping |
| VersionTracker.WriteThroughGuard | src/resources/version_tracker.rs:45-56 | a write through a guard is visible after the drop, with the version one higher |
| VersionTracker.ChangedMany | src/resources/version_tracker.rs:9-16 | n calls to changed on a new tracker leave version n modulo 2^64 |
| Material.FeatureBit | src/resources/material/mod.rs:21-30 | each feature flag is one of the eight bits of the set |
| Material.FeatureBitInjective | src/resources/material/mod.rs:21-30 | two flags share a bit exactly when they are the same flag |
| Material.SlotPresence | src/resources/material/mod.rs:59-66 | which of the seven texture slots are filled, one entry per slot |
| Material.LayoutChangedIff | src/resources/material/mod.rs:59-66 | the layout counts as changed exactly when some slot went from filled to empty or back |
| Material.DefaultSettings | src/resources/material/mod.rs:136-145 | default settings are opaque, depth write and test on, both sides drawn |
| Material.MaterialState.constructor | src/resources/material/mod.rs:107-145 | a new material has every slot empty, default settings and both versions 0 |
| Material.BindingsGuard.constructor | src/resources/material/mod.rs:37-42 | the guard remembers the slots as they were when it was taken |
| Material.BindingsGuard.Set | src/resources/material/mod.rs:51-55 | a write through the guard replaces the slots and leaves settings and versions alone |
| Material.BindingsGuard.Drop | src/resources/material/mod.rs:57-73 | the binding version always goes up by one, wrapping; the layout version goes up by one exactly when the layout changed, and otherwise stays |
| Material.SettingsGuard.constructor | src/resources/material/mod.rs:75-79 | the guard remembers the settings as they were when it was taken |
| Material.SettingsGuard.Set | src/resources/material/mod.rs:88-92 | a write through the guard replaces the settings and leaves slots and versions alone |
| Material.SettingsGuard.Drop | src/resources/material/mod.rs:94-100 | the layout version goes up by one exactly when the settings now differ from the initial ones; the binding version never moves |
| Material.SwapTexture | src/resources/material/mod.rs:57-73 | replacing the texture in a filled slot bumps the binding version but keeps the layout version |
| Material.FillSlot | src/resources/material/mod.rs:57-73 | filling an empty slot bumps both versions |
| Material.RewriteSameSettings | src/resources/material/mod.rs:94-100 | writing the same settings back keeps the layout version |
| Material.ShaderNameInjective | src/resources/material/mod.rs:161-168 | every material variant has its own shader name |
| Material.ShaderName | src/resources/material/mod.rs:161-168 | the shader template of each variant; `ShaderNameInjective` proves no two variants share one |
| Material.GetFeatures | src/resources/material/mod.rs:170-203 | IBL is set exactly for Standard and Physical, and every other flag is a map the variant reads; `GetFeaturesMeaning` states which flags exactly |
| Material.GetFeaturesMeaning | src/resources/material/mod.rs:170-203 | a flag is in the features exactly when it is the IBL flag of a Standard or Physical material, or the flag of a slot that variant reads and that is filled |
| Material.GetFeaturesFollowPresence | src/resources/material/mod.rs:170-203 | features depend only on the variant and on which slots are filled, not on the textures in them |
| Material.SameLayoutSameFeatures | src/resources/material/mod.rs:57-73 | an edit that leaves the layout version alone leaves the features alone |
| Material.NewMaterial | src/resources/material/mod.rs:264-270 | a new material carries the given uuid, no name, the chosen variant, empty slots and default settings |
| Material.NewMaterialFeatures | src/resources/material/mod.rs:170-203 | a new Standard or Physical material has only the IBL feature, the others none |
| Material.AsKind | src/resources/material/mod.rs:290-345 | the variant's data comes back exactly when the material is of that variant |
| Geometry.AttrVersionCounter.constructor | src/resources/geometry.rs:32 | attribute versions are drawn starting from 1 |
| Geometry.AttrVersionCounter.Fetch | src/resources/geometry.rs:50 | each draw returns the current value and advances the counter by one, wrapping at 2^64 |
| Geometry.NewAttribute | src/resources/geometry.rs:36-82 | a new planar or instanced attribute owns a fresh vertex buffer of the data's size, holds the bytes, takes a fresh version, starts at offset 0 and counts the elements truncated to u32 |
| Geometry.UpdateData | src/resources/geometry.rs:107-124 | without CPU data nothing changes; otherwise the bytes are replaced, the count becomes the new length and a fresh version is drawn, keeping the buffer handle |
| Geometry.Overwrite | src/resources/geometry.rs:135-137 | the written range holds the new bytes and every byte outside it is unchanged |
| Geometry.UpdateRegion | src/resources/geometry.rs:127-141 | the write and the version bump happen exactly when the attribute has data and the range ends within it; otherwise the attribute and the counter are unchanged |
| Geometry.ReadElement | src/resources/geometry.rs:182-201 | an element is read exactly when its bytes lie within the data, and the result holds those bytes |
| Geometry.ReadVec3 | src/resources/geometry.rs:144-160 | only a Float32x3 attribute reads, and then the 12 bytes of the element when in bounds |
| Geometry.ReadVec4 | src/resources/geometry.rs:163-179 | only a Float32x4 attribute reads, and then the 16 bytes of the element when in bounds |
| Geometry.ReadAfterUpdateRegion | src/resources/geometry.rs:127-141 | after a region write, an element inside the region reads back the bytes written there |
| Geometry.U16Le | src/resources/geometry.rs:544-558 | two little-endian bytes that encode the index |
| Geometry.U32Le | src/resources/geometry.rs:568-582 | four little-endian bytes that encode the index |
| Geometry.U16BytesAt | src/resources/geometry.rs:544-558 | the u16 index buffer holds index i in bytes 2i and 2i+1 |
| Geometry.U32BytesAt | src/resources/geometry.rs:568-582 | the u32 index buffer holds index i in bytes 4i to 4i+3 |
| Geometry.ToUpper | src/resources/geometry.rs:852-855 | upper-cases the ASCII letters of the name and keeps its length; the Unicode case mapping of `to_uppercase` is not modelled |
| Geometry.AttributeDefinesAdd | src/resources/geometry.rs:852-855 | adding an attribute adds exactly its HAS_ macro |
| Geometry.AttributeDefinesMeaning | src/resources/geometry.rs:852-855 | a key is defined exactly when it is the HAS_ macro of some attribute, and its value is "1" |
| Geometry.DefinesMeaning | src/resources/geometry.rs:838-882 | the defines are the attribute macros, the morph macros when the geometry has morph targets (normals and tangents only with their buffers), and SUPPORT_SKINNING when joints and weights are both present, all set to "1" |
| Geometry.WithFlagsMeaning | src/resources/geometry.rs:857-875 | adding the morph and skinning flags keeps every other define, adds exactly the flags that are set, and values each added flag "1" |
| Geometry.AttributeDefined | src/resources/geometry.rs:852-855 | every attribute's macro is defined to "1" |
| Geometry.SupportSkinningIff | src/resources/geometry.rs:870-875 | SUPPORT_SKINNING is defined exactly when both joints and weights are present |
| Geometry.DefinesIgnoreReplacement | src/resources/geometry.rs:377-391 | replacing an existing attribute leaves the defines unchanged |
| Geometry.DefinesCache.constructor | src/resources/geometry.rs:341 | the defines cache starts empty |
| Geometry.DefinesCache.Fill | src/resources/geometry.rs:878 | the cache holds the layout version with the defines computed for it |
| Geometry.Geometry.HasMorphTargets | src/resources/geometry.rs:540-542 | morph targets exist exactly when the count is positive and the position buffer exists |
| Geometry.Geometry.constructor | src/resources/geometry.rs:322-346 | a new geometry has no attributes, no index, no morph targets, all versions 0 and an empty cache |
| Geometry.Geometry.GetAttribute | src/resources/geometry.rs:402-404 | the attribute stored under the name, if any |
| Geometry.Geometry.BumpLayout | src/resources/geometry.rs:387 | only the layout version moves, by one, wrapping |
| Geometry.Geometry.SetAttribute | src/resources/geometry.rs:377-391 | the attribute is stored; structure and data versions always go up by one; the layout version goes up exactly when the name is new or its format or step mode changed |
| Geometry.Geometry.RemoveAttribute | src/resources/geometry.rs:393-400 | a present name is removed and returned, bumping layout and structure versions; an absent name returns None and changes nothing |
| Geometry.Geometry.GetAttributeMut | src/resources/geometry.rs:406-409 | a mutable lookup returns the attribute and bumps only the data version |
| Geometry.Geometry.IndexAttributeMut | src/resources/geometry.rs:371-375 | a mutable index lookup bumps structure and data versions and nothing else |
| Geometry.Geometry.SetIndices | src/resources/geometry.rs:544-566 | the index becomes a fresh u16 buffer holding the indices' bytes, count = length, stride 2; structure and data versions go up |
| Geometry.Geometry.SetIndicesU32 | src/resources/geometry.rs:568-590 | the index becomes a fresh u32 buffer holding the indices' bytes, count = length, stride 4; structure and data versions go up |
| Geometry.Geometry.UpdateAttributeRegion | src/resources/geometry.rs:822-833 | a present name always bumps the data version; when the region fits its data, the attribute holds the bytes written over that region and takes the next attribute version; otherwise, or for an absent name, the attributes and the version counter are unchanged; layout, structure, index and morph state never change |
| Geometry.Geometry.ShaderDefines | src/resources/geometry.rs:838-882 | the cached or recomputed defines equal the defines of the current attributes and morph state, as long as that state changes only through the modelled mutators (each of which bumps the layout version when the defines could change); the cache is left keyed by the current layout version |
| Geometry.Geometry.ComputeDefines | src/resources/geometry.rs:849-875 | the loop builds exactly the defines of the current attributes and morph buffers |
| Geometry.Geometry.ComputeAttributeDefines | src/resources/geometry.rs:852-855 | the loop builds exactly the HAS_ macros of the current attributes |
| Geometry.ReplaceKeepsLayout | src/resources/geometry.rs:378-388 | replacing an attribute with one of the same format and step mode keeps the layout version |
| SceneGraph.Without | src/scene/scene.rs:227-233 | retain drops every occurrence of the handle and keeps all others; a handle that is absent leaves the list as it was |
| SceneGraph.CreateNodeKeepsValid | src/scene/scene.rs:138-140 | a created node gets a fresh handle, is a new node, is not a root, and the links stay consistent |
| SceneGraph.AddNodeKeepsValid | src/scene/scene.rs:150-154 | an added parentless node gets a fresh handle and becomes a root, and the links stay consistent |
| SceneGraph.AddToParentKeepsValid | src/scene/scene.rs:157-169 | a node added under an existing parent gets a fresh handle, names that parent, is appended to its children and leaves the roots alone, and the links stay consistent |
| SceneGraph.WithChildShape | src/scene/scene.rs:157-169 | adding under a parent changes only that parent's children, by one appended handle |
| SceneGraph.WithChildLinked | src/scene/scene.rs:157-169 | parent and child links agree after adding under a parent |
| SceneGraph.Detach | src/scene/scene.rs:226-233 | detaching keeps the set of nodes and the next handle |
| SceneGraph.DetachIsDetached | src/scene/scene.rs:226-233 | after the detach step the child is in no child list and not a root, and every node keeps its parent link |
| SceneGraph.DetachKeepsOthers | src/scene/scene.rs:226-233 | the detach step removes only the child's own entries from child lists and roots |
| SceneGraph.DetachRemovesChild | src/scene/scene.rs:226-233 | after the detach step no node lists the child and the roots do not hold it |
| SceneGraph.AttachedRelinks | src/scene/scene.rs:235-250 | attaching to an existing parent appends the child to it, sets its parent and marks its transform dirty |
| SceneGraph.AttachedAsRootRelinks | src/scene/scene.rs:236-241 | with the parent link cleared, an attach to a missing parent makes the child a parentless root |
| SceneGraph.RelinkedValid | src/scene/scene.rs:220-250 | re-linking a detached child under a new parent, or as a root, keeps the links consistent |
| SceneGraph.AttachKeepsValid | src/scene/scene.rs:220-250 | attach to an existing other node keeps the links consistent; the child names the new parent, is listed only there, is not a root and is marked dirty |
| SceneGraph.AttachToMissingParentLeavesStaleParent | src/scene/scene.rs:236-241 | as written, attaching a node that has a parent to a missing parent makes it a root that still names its old parent, so the links disagree |
| SceneGraph.AttachedAsRoot | src/scene/scene.rs:236-241 | the error branch as evidently intended: the same as attach, except the child that falls back to the roots has no parent |
| SceneGraph.AttachAsRootKeepsValid | src/scene/scene.rs:220-250 | with the error branch corrected, every attach of an existing node keeps the links consistent |
| SceneGraph.AttachUnderOwnChildMakesCycle | src/scene/scene.rs:219-250 | as written, attaching a node under one of its own children makes each the other's child: the links still agree, but no rank orders the nodes, so the recursive traversals cannot end |
| SceneGraph.AttachedEdges | src/scene/scene.rs:227-244 | every child link after attach was there before, except the new one from the parent to the child |
| SceneGraph.AttachCheckedKeepsRanked | src/scene/scene.rs:219-250 | with a parent inside the child's subtree refused, attach keeps the nodes acyclic (the lifted rank orders them) and, for an existing child and an issued parent, keeps the links consistent; otherwise it is the attach with the corrected error branch |
| SceneGraph.RankAfterAttachOrdersOld | src/scene/scene.rs:210-217 | lifting every node outside a subtree above it keeps every existing child link ordered |
| SceneGraph.SubtreeBelowRoot | src/scene/scene.rs:210-217 | no handle in a subtree ranks above its root |
| SceneGraph.SubtreesBelowBound | src/scene/scene.rs:210-217 | every handle in the subtrees of a list ranks below the list's bound |
| SceneGraph.SubtreeStartsAtRoot | src/scene/scene.rs:210-217 | the collected subtree starts with the node itself |
| SceneGraph.SubtreeClosed | src/scene/scene.rs:210-217 | the collected subtree holds every child of every node in it |
| SceneGraph.SubtreesHoldEach | src/scene/scene.rs:213-215 | collecting a child list holds every listed child |
| SceneGraph.Unlink | src/scene/scene.rs:177-186 | unlinking keeps the set of nodes and the next handle |
| SceneGraph.RemoveNodeKeepsValid | src/scene/scene.rs:172-207 | removing a node deletes exactly its subtree, takes it out of the roots, leaves no child of a removed node behind and keeps the links consistent |
| SceneGraph.DropComponentsStep | src/scene/scene.rs:190-202 | dropping the components of one node more is dropping them for the larger set |
| SceneGraph.Scene.constructor | src/scene/scene.rs:89-130 | a new scene has no nodes, no roots and empty component maps and pools |
| SceneGraph.Scene.Insert | src/scene/scene.rs:139 | the slot-map insert stores the node under a handle never issued before |
| SceneGraph.Scene.CreateNode | src/scene/scene.rs:138-140 | a new node under a fresh handle, outside the roots |
| SceneGraph.Scene.CreateNodeWithName | src/scene/scene.rs:143-147 | a new node under a fresh handle with its name recorded |
| SceneGraph.Scene.AddNode | src/scene/scene.rs:150-154 | the node under a fresh handle, appended to the roots |
| SceneGraph.Scene.AddToParent | src/scene/scene.rs:157-169 | the node under a fresh handle, appended to the parent's children when the parent exists, naming the parent in any case |
| SceneGraph.Scene.Attach | src/scene/scene.rs:220-251 | the hierarchy after attach is exactly the attach of the old hierarchy, components unchanged |
| SceneGraph.Scene.AttachChecked | src/scene/scene.rs:219-250 | the corrected attach: the child's subtree is collected and a parent inside it refused; the result is the checked attach of the old hierarchy and stays ranked |
| SceneGraph.Scene.GetNode | src/scene/scene.rs:255-258 | the node stored under the handle, if any |
| SceneGraph.Scene.CollectSubtree | src/scene/scene.rs:210-217 | the recursion appends exactly the node's subtree, depth first, to what was collected |
| SceneGraph.Scene.RemoveOne | src/scene/scene.rs:190-205 | one node and its components removed, nothing else |
| SceneGraph.Scene.RemoveNode | src/scene/scene.rs:172-207 | the hierarchy after remove is the unlinked one without the subtree, and the subtree's components are dropped |
| SceneGraph.Scene.UnlinkFromParent | src/scene/scene.rs:177-186 | the node leaves its parent's children, or the roots when parentless |
| SceneGraph.Scene.RemoveAll | src/scene/scene.rs:188-206 | every listed node and its components removed |
| SceneGraph.Scene.FindNodeByName | src/scene/scene.rs:696-703 | a returned handle carries the name; none is returned exactly when no node carries it |
| TransformSystem.RankedWorldsOnly | src/scene/transform_system.rs:231-272 | the update changes only world matrices and flags, so the tree shape it walks is the one it started with |
| TransformSystem.ParentWorld | src/scene/transform_system.rs:287-296 | the parent's stored world matrix when the node has a parent that exists, the identity otherwise |
| TransformSystem.Visit | src/scene/transform_system.rs:240-258 | the node's world is recomputed, as the parent's world times its local matrix, exactly when its local changed or its parent's world was recomputed; otherwise it keeps its world; no other node changes, and the camera of the node follows the new world |
| TransformSystem.ChildBound | src/scene/transform_system.rs:262-271 | every child ranks below its parent, so the recursion ends |
| TransformSystem.UpdateTransformRecursive | src/scene/transform_system.rs:231-272 | the recursive update computes the depth-first tree update of the node and its subtree, changing only worlds and flags |
| TransformSystem.UpdateChildren | src/scene/transform_system.rs:269-271 | the children are updated in order, each under the parent's new world and update flag |
| TransformSystem.UpdateHierarchy | src/scene/transform_system.rs:171-180 | the recursive update of all roots, each under the identity and no forced update |
| TransformSystem.UpdateSubtree | src/scene/transform_system.rs:282-302 | the subtree update is the tree update of the root under its parent's world, forced |
| TransformSystem.Pushed | src/scene/transform_system.rs:192-194 | pushing a list in reverse puts its first element on top of the stack |
| TransformSystem.PushedFront | src/scene/transform_system.rs:192-194 | the first pushed element is the last stack entry |
| TransformSystem.PushedBack | src/scene/transform_system.rs:192-194 | the last listed element is the bottom stack entry |
| TransformSystem.RunStackAppend | src/scene/transform_system.rs:196-228 | draining a stack drains its top part, then the part below |
| TransformSystem.PushedIsForest | src/scene/transform_system.rs:192-228 | draining the reversed pushes of a list is the depth-first update of that list |
| TransformSystem.WeightAppend | src/scene/transform_system.rs:196-228 | the work left in a stack is the sum over its parts |
| TransformSystem.WeightPushed | src/scene/transform_system.rs:192-194 | the work of a pushed list is the size of its subtrees |
| TransformSystem.PushRoots | src/scene/transform_system.rs:192-194 | the stack holds the roots in reverse, each under the identity and no forced update |
| TransformSystem.PushChildren | src/scene/transform_system.rs:221-225 | the children are pushed in reverse on top of the stack, each with the node's world and update flag |
| TransformSystem.UpdateHierarchyIterative | src/scene/transform_system.rs:185-228 | the explicit-stack update computes exactly what the recursive update of all roots computes |
| TransformSystem.PopVisitsTree | src/scene/transform_system.rs:196-226 | one pop visits the top node and pushes its children, which leaves the result unchanged and strictly less work |
| TransformSystem.TreeFrame | src/scene/transform_system.rs:231-272 | the update of a subtree changes no node and no camera outside it |
| TransformSystem.ForestFrame | src/scene/transform_system.rs:269-271 | the update of a list of subtrees changes no node and no camera outside them |
| TransformSystem.ForcedTree | src/scene/transform_system.rs:240-271 | a forced update recomputes every node in the subtree and keeps every world already recomputed |
| TransformSystem.ForcedForest | src/scene/transform_system.rs:269-271 | a forced update of a list recomputes every node in its subtrees |
| TransformSystem.UpdateSubtreeRecomputes | src/scene/transform_system.rs:282-302 | update_subtree recomputes every node of the subtree and leaves every other node as it was |
| TransformSystem.CleanTreeUnchanged | src/scene/transform_system.rs:240-271 | with nothing pending, an unforced update changes nothing |
| TransformSystem.CleanForestUnchanged | src/scene/transform_system.rs:171-180 | with nothing pending anywhere, the hierarchy update changes nothing |
| TransformSystem.NextLevelBelow | src/scene/transform_system.rs:88-96 | the children of a level rank below that level, so the level loop ends |
| TransformSystem.LevelsUnfold | src/scene/transform_system.rs:86-108 | the levels from a non-empty level are that level followed by the levels from its children |
| TransformSystem.LevelsEnds | src/scene/transform_system.rs:81-108 | there are levels exactly when there are roots; the first is the roots and the last has no children |
| TransformSystem.LevelsStep | src/scene/transform_system.rs:86-108 | each level is exactly the children of the one before, in order |
| TransformSystem.LevelsNonEmpty | src/scene/transform_system.rs:86-112 | no level is empty |
| TransformSystem.SubtreesAppend | src/scene/transform_system.rs:86-108 | the subtrees of two lists are the subtrees of each, in order |
| TransformSystem.SubtreesByLevel | src/scene/transform_system.rs:86-108 | a level's subtrees are the level plus the subtrees of its children |
| TransformSystem.LevelsCount | src/scene/transform_system.rs:48-50 | the levels hold as many nodes as the subtrees of the roots |
| TransformSystem.Cleared | src/scene/transform_system.rs:40-45 | clearing keeps the number of batches and empties each |
| TransformSystem.NonEmpty | src/scene/transform_system.rs:112 | retain keeps only the non-empty batches |
| TransformSystem.NonEmptyAppend | src/scene/transform_system.rs:112 | retain distributes over concatenation |
| TransformSystem.NonEmptyDropsEmpty | src/scene/transform_system.rs:112 | retain drops batches that are all empty and keeps batches that are all non-empty |
| TransformSystem.EmptyRootsKeepStaleBatch | src/scene/transform_system.rs:79-83 | as written, an output that held one batch built again from no roots keeps one empty batch, although there are no levels |
| TransformSystem.LevelOrderBatches.constructor | src/scene/transform_system.rs:35-37 | no batches, no parent indices |
| TransformSystem.LevelOrderBatches.Clear | src/scene/transform_system.rs:40-45 | every batch is emptied, the batch count kept, the parent indices cleared |
| TransformSystem.LevelOrderBatches.TotalNodes | src/scene/transform_system.rs:48-50 | the sum of the batch lengths |
| TransformSystem.LevelOrderBatches.Depth | src/scene/transform_system.rs:53-55 | the number of batches |
| TransformSystem.CollectNextLevel | src/scene/transform_system.rs:88-96 | the loop collects the children of the current level, in order |
| TransformSystem.SaveLevels | src/scene/transform_system.rs:86-108 | the level loop appends exactly the levels from the roots after the batches already there |
| TransformSystem.RetainNonEmpty | src/scene/transform_system.rs:112 | the batches become their non-empty ones |
| TransformSystem.BuildLevelOrderBatches | src/scene/transform_system.rs:74-113 | as written: no roots leave the cleared old batches; otherwise the batches are the levels from the roots |
| TransformSystem.BuildLevelOrderBatchesRetained | src/scene/transform_system.rs:74-113 | with the retain also on the early return, the batches are exactly the levels from the roots, so no roots give zero batches |
| TransformSystem.UpdateHierarchyBatched | src/scene/transform_system.rs:119-166 | the batched update runs each batch in order, forcing every level after the first |
| TransformSystem.BatchStepKeeps | src/scene/transform_system.rs:124-164 | one batch step keeps the node set and every recomputed world |
| TransformSystem.ForcedBatch | src/scene/transform_system.rs:141-160 | a forced batch recomputes every node in it |
| TransformSystem.BatchedRecomputesDeeperLevels | src/scene/transform_system.rs:119-166 | the batched update recomputes every node below the first level |
| AssetStorage.AssetStorage.constructor | src/assets/storage.rs:35-39 | a new storage holds no assets and no uuids |
| AssetStorage.AssetStorage.Insert | src/assets/storage.rs:45 | the slot-map insert stores the asset under a handle never issued before |
| AssetStorage.AssetStorage.Add | src/assets/storage.rs:43-46 | the asset is stored under a fresh handle and get finds it there; the uuid lookup is untouched |
| AssetStorage.AssetStorage.AddWithUuid | src/assets/storage.rs:49-57 | a known uuid returns its handle and stores nothing; a new uuid stores the asset under a fresh handle and records the uuid for it |
| AssetStorage.AssetStorage.Get | src/assets/storage.rs:61-64 | the asset stored under the handle, if any |
| AssetStorage.AssetStorage.GetHandleByUuid | src/assets/storage.rs:73-76 | the handle recorded for the uuid, if any |
| AssetStorage.AssetStorage.GetByUuid | src/assets/storage.rs:66-70 | the asset of the handle recorded for the uuid, when both exist |
| AssetStorage.GetByUuidIsGetOfHandle | src/assets/storage.rs:66-76 | a uuid lookup is the handle lookup followed by get, and a known uuid always finds its asset |
| AssetStorage.AddTwiceKeepsFirst | src/assets/storage.rs:49-57 | adding twice under one new uuid returns the same handle both times and keeps the first asset |
| CubeLut.Lines | src/assets/server.rs:500 | splitting text at newlines gives at least one line |
| CubeLut.LinesRoundTrip | src/assets/server.rs:500 | the lines joined with newlines give the text back, and no line holds a newline |
| CubeLut.TrimStart | src/assets/server.rs:501 | leading whitespace and only that is removed |
| CubeLut.TrimEnd | src/assets/server.rs:501 | trailing whitespace and only that is removed |
| CubeLut.Trim | src/assets/server.rs:501 | a trimmed line starts and ends with a non-space, or is empty |
| CubeLut.WordLength | src/assets/server.rs:509 | the length of the leading run of non-space characters |
| CubeLut.Tokens | src/assets/server.rs:509 | split_whitespace gives non-empty words without whitespace |
| CubeLut.TokensAreMaximalRuns | src/assets/server.rs:509 | the words are the maximal whitespace-free runs of the line in order: joined by single spaces they are the line with its whitespace collapsed |
| CubeLut.SqueezeTokens | src/assets/server.rs:509 | collapsing whitespace from any point gives the words of the rest joined by single spaces, led by one space when a space is owed |
| CubeLut.ParseU32 | src/assets/server.rs:511 | a parsed size is the value of a run of decimal digits, optionally signed with a plus |
| CubeLut.ParseU32Accepts | src/assets/server.rs:511 | every run of decimal digits, leading zeros included, with or without a leading plus, whose value is below 2^32 parses to that value |
| CubeLut.ParseU32RoundTrip | src/assets/server.rs:511 | every u32 written in decimal parses back to itself |
| CubeLut.FloatAccepts | src/assets/server.rs:532-534 | decimal, signed-exponent and leading-dot numbers are accepted as f32 |
| CubeLut.FloatRejects | src/assets/server.rs:532-534 | a lone dot and an exponent without digits are refused |
| CubeLut.DataLine | src/assets/server.rs:528-540 | a data line yields three values only when it has exactly three tokens that are all floats |
| CubeLut.Classify | src/assets/server.rs:501-540 | a line classed as data holds exactly three float tokens |
| CubeLut.ClassifyAll | src/assets/server.rs:500-541 | each line is classed on its own |
| CubeLut.RunAppend | src/assets/server.rs:500-541 | scanning two runs of lines is scanning the first, then the second, stopping at an error |
| CubeLut.ClassifyAllAppend | src/assets/server.rs:500-541 | classing distributes over concatenation |
| CubeLut.IgnoredLineChangesNothing | src/assets/server.rs:502-505 | a blank or comment line, or a metadata line, anywhere in the file, changes nothing |
| CubeLut.RunCollectsTriples | src/assets/server.rs:528-540 | the scan only ever appends whole triples of float values to what it had |
| CubeLut.DataIsFloatTriples | src/assets/server.rs:497-541 | after the line loop the data is a whole number of triples of float values |
| CubeLut.SizeDirectiveIsNotData | src/assets/server.rs:508-516 | a LUT_3D_SIZE line is never read as data |
| CubeLut.BadSizeFails | src/assets/server.rs:510-513 | an unparsable size with two tokens fails the whole decode as an invalid size |
| CubeLut.SizeLineSetsSize | src/assets/server.rs:508-516 | LUT_3D_SIZE n sets the size to n |
| CubeLut.Texels | src/assets/server.rs:564-574 | each consecutive triple becomes one texel with those values and alpha one |
| CubeLut.TexelsRoundTrip | src/assets/server.rs:564-574 | the colours of the texels are the values they were made from |
| CubeLut.ExpectedLen | src/assets/server.rs:550 | size³·3, in 32 bits, equal to the true product when that fits |
| CubeLut.FinishOutcome | src/assets/server.rs:543-584 | no size is an error, too few values is an error reporting both counts, otherwise a size³ image of opaque texels holding the last size³·3 values in order |
| CubeLut.RunErrorIsInvalidSize | src/assets/server.rs:510-513 | the only error the line loop stops with is an invalid size |
| CubeLut.ReadLine | src/assets/server.rs:501-540 | one loop iteration is the step of the specification on that line |
| CubeLut.ReadSize | src/assets/server.rs:508-516 | the size branch is the step on the size directive |
| CubeLut.ReadValues | src/assets/server.rs:528-540 | the data branch is the step on a data line |
| CubeLut.Decode | src/assets/server.rs:487-585 | the decode of a `.cube` text: the line scan, then the checks of `FinishOutcome`; `DecodeCubeCpu` proves the imperative decoder computes it |
| CubeLut.DecodeCubeCpu | src/assets/server.rs:487-585 | the decoder returns exactly the decode of the text |
| CubeLut.ReadLines | src/assets/server.rs:497-541 | the line loop computes the scan of all lines from size 0 and no data |
| CubeLut.RunStep | src/assets/server.rs:500-541 | scanning one line more is one step more |
| CubeLut.Checked | src/assets/server.rs:543-584 | the checks and the conversion after the loop compute the finish of the scan |
| CubeLut.RunStopsAtError | src/assets/server.rs:511-513 | once a line fails, the rest of the file does not matter |
| CubeLut.WrappedSizeAcceptsNoData | src/assets/server.rs:550 | as written, LUT_3D_SIZE 2048 wraps the expected length to 0 and an empty data block is accepted as a 2048³ image |
| CubeLut.FinishUnwrapped | src/assets/server.rs:550-557 | the evidently intended check: an image always has size³ texels and too few values are always refused |
| CubeLut.FinishUnwrappedAgrees | src/assets/server.rs:550-557 | where the product fits in 32 bits the intended check is the written one; for size 2048 it refuses empty data |
| GltfLoader.Zeros | src/assets/loaders/gltf.rs:1022 | a zero-filled buffer of the given length |
| GltfLoader.MulIsProduct | src/assets/loaders/gltf.rs:1020-1021 | the repeated-addition product is the product |
| GltfLoader.MulMonotone | src/assets/loaders/gltf.rs:1031-1032 | a later vertex starts no earlier |
| GltfLoader.Chunk | src/assets/loaders/gltf.rs:1034-1042 | vertex i's bytes of a channel have the channel's item size |
| GltfLoader.VertexBytes | src/assets/loaders/gltf.rs:1031-1043 | one vertex of the buffer is stride bytes long |
| GltfLoader.Interleave | src/assets/loaders/gltf.rs:1019-1043 | the buffer is stride × vertex_count bytes long |
| GltfLoader.Attributes | src/assets/loaders/gltf.rs:1052-1066 | one attribute per channel, in order, each with the channel's name and format, its offset the sum of the item sizes before it, the total stride, and the vertex count |
| GltfLoader.StrideStep | src/assets/loaders/gltf.rs:1024-1029 | each offset is the previous one plus the previous channel's item size |
| GltfLoader.StrideBound | src/assets/loaders/gltf.rs:1024-1029 | a channel's bytes end within the stride |
| GltfLoader.VertexBytesAt | src/assets/loaders/gltf.rs:1031-1043 | within a vertex, byte b of channel k sits at that channel's offset plus b |
| GltfLoader.InterleaveAt | src/assets/loaders/gltf.rs:1031-1043 | within the buffer, vertex i starts at i × stride |
| GltfLoader.ChunkAt | src/assets/loaders/gltf.rs:1034-1042 | a chunk byte is the stream's byte, or zero when the stream is too short for that vertex |
| GltfLoader.InterleaveLayout | src/assets/loaders/gltf.rs:1031-1043 | byte i·stride + offset_k + b of the buffer is byte b of vertex i's item in channel k, or zero when that channel's source is too short |
| GltfLoader.CopyInto | src/assets/loaders/gltf.rs:1040-1041 | copy_from_slice replaces exactly the destination range |
| GltfLoader.CopyChannel | src/assets/loaders/gltf.rs:1034-1042 | one channel's bytes of a vertex land after what is already filled |
| GltfLoader.FillChannel | src/assets/loaders/gltf.rs:1033-1042 | the inner loop step fills one more channel of the vertex |
| GltfLoader.FillVertex | src/assets/loaders/gltf.rs:1031-1043 | the inner loop fills one more vertex completely |
| GltfLoader.BuildInterleavedBuffer | src/assets/loaders/gltf.rs:1010-1067 | None exactly when there are no channels or no vertices; otherwise a buffer of stride × count bytes holding the interleaved vertices, with its attributes |
| GltfLoader.TotalStride | src/assets/loaders/gltf.rs:1019 | the sum of the item sizes |
| GltfLoader.Offsets | src/assets/loaders/gltf.rs:1024-1029 | the offsets are the prefix sums of the item sizes |
| GltfLoader.FillVertices | src/assets/loaders/gltf.rs:1031-1043 | the vertex loop leaves the zeroed buffer holding exactly the interleaved data |
| GltfLoader.MakeAttributes | src/assets/loaders/gltf.rs:1052-1066 | the attribute loop builds exactly the attributes of the channels, with the count truncated to u32 |
| GltfLoader.Find | src/assets/loaders/gltf.rs:40 | the position of the first occurrence of the character, or none when absent |
| GltfLoader.DataUriRoundTrip | src/assets/loaders/gltf.rs:38-53 | a base64 data URI decodes to exactly what its payload decodes to |
| GltfLoader.FindAfterPrefix | src/assets/loaders/gltf.rs:40 | the first comma after a comma-free header is right after the header |
| GltfLoader.DecodeDataUri | src/assets/loaders/gltf.rs:38-53 | the data URI decoder as written; `DataUriHeaderErrors` states its three errors and its success case, `DataUriRoundTrip` its round trip |
| GltfLoader.DataUriHeaderErrors | src/assets/loaders/gltf.rs:38-53 | no data: prefix is one error, no comma is another; success means a header ending in ;base64 before the first comma whose payload decodes to the result |
| GltfLoader.Le32 | src/assets/loaders/gltf.rs:128-129 | four little-endian bytes |
| GltfLoader.Le32RoundTrip | src/assets/loaders/gltf.rs:104-108 | reading back four little-endian bytes gives the value written |
| GltfLoader.FrameGlb | src/assets/loaders/gltf.rs:101-111 | the header checks of `sanitize_glb` as written, with the out-of-bounds slices as a result of their own; `HeaderOnlyGlbPanics` and `FrameGlbCheckedAgrees` relate it to the checked version |
| GltfLoader.HeaderOnlyGlbPanics | src/assets/loaders/gltf.rs:107-108 | as written, a 12-byte version-2 header with no chunk slices past the end and panics |
| GltfLoader.FrameGlbChecked | src/assets/loaders/gltf.rs:102-112 | the evidently intended decision never panics, and a JSON chunk it returns lies within the data |
| GltfLoader.FrameGlbCheckedAgrees | src/assets/loaders/gltf.rs:102-112 | the intended decision agrees with the written one wherever that does not panic, and passes the header-only file through |
| GltfLoader.Spaces | src/assets/loaders/gltf.rs:132 | n ASCII spaces |
| GltfLoader.PaddedLength | src/assets/loaders/gltf.rs:120-121 | the chunk length is the JSON length rounded up to a multiple of 4 |
| GltfLoader.JsonTypeBytes | src/assets/loaders/gltf.rs:129 | the rewritten chunk type bytes are the JSON type |
| GltfLoader.ReframeLayout | src/assets/loaders/gltf.rs:119-140 | the rewritten file keeps the magic and version, records its own length in the header, records the padded chunk length, holds the new JSON padded with spaces to a multiple of 4, and keeps every byte after the old chunk |
| GltfLoader.PushSpaces | src/assets/loaders/gltf.rs:132 | the padding loop appends n spaces |
| GltfLoader.WriteGlb | src/assets/loaders/gltf.rs:123-140 | the writing steps build exactly the re-framed file |
| GltfLoader.BackPatchLength | src/assets/loaders/gltf.rs:139-140 | the total length, in 32 bits, replaces the placeholder in the header |
| GltfLoader.SanitizeGlb | src/assets/loaders/gltf.rs:101-143 | short files, other versions and non-JSON first chunks are returned unchanged; a chunk past the end is a slice error; unparsable JSON is an error; unpatched JSON returns the input; patched JSON returns the re-framed file |
| GltfLoader.TextureOf | src/assets/loaders/gltf.rs:268-283 | the engine texture takes the sRGB or linear format as asked and copies the image, size and name |
| GltfLoader.TextureCache.constructor | src/assets/loaders/gltf.rs:300-321 | an empty cache over the loaded images |
| GltfLoader.TextureCache.GetOrCreateTexture | src/assets/loaders/gltf.rs:633-669 | a known key returns its handle and adds nothing; an index past the images is an error; otherwise a texture is stored and cached; every handle returned names the texture for its key |
| GltfLoader.GetTwiceSameHandle | src/assets/loaders/gltf.rs:633-669 | asking twice for the same key gives the same answer, and an answer is a handle exactly when the index is in range |
| GltfLoader.Position | src/assets/loaders/gltf.rs:907 | the first position of the value, or none when absent |
| GltfLoader.ChildOfAnyStep | src/assets/loaders/gltf.rs:901-908 | the children of one more parent add exactly that parent's children |
| GltfLoader.AddChildJoints | src/assets/loaders/gltf.rs:902-906 | the inner loop adds exactly the children that are joints |
| GltfLoader.CollectChildJoints | src/assets/loaders/gltf.rs:901-908 | the joints that are a child of some joint |
| GltfLoader.RootBoneIndex | src/assets/loaders/gltf.rs:910-924 | the position of the skin's skeleton root among the joints when it is one; otherwise the first joint that is no joint's child; otherwise 0 |
| InputState.Inject | src/resources/input.rs:198-227 | a press adds the button to held, and to down only if it was not held; a release removes it from held, and adds it to up only if it was held |
| InputState.InjectConsistent | src/resources/input.rs:198-227 | one event keeps the edge rules: a button that went down is held or went up since, a held button that went up went down again |
| InputState.InjectTouchesOnlyItsButton | src/resources/input.rs:198-227 | an event changes the held, down and up state of its own button only |
| InputState.StartFrameConsistent | src/resources/input.rs:188-195 | a frame with no edges yet satisfies the edge rules |
| InputState.ReplayAppend | src/resources/input.rs:198-227 | replaying one event more is one inject more |
| InputState.HeldIsLastEvent | src/resources/input.rs:198-227 | after a run of events a button is held exactly when its last event was a press, or, with no event, when it was held before |
| InputState.ReplayConsistent | src/resources/input.rs:198-227 | any run of events keeps the edge rules |
| InputState.TapWithinFrame | src/resources/input.rs:198-227 | a press and release of an unheld button within one frame shows it both down and up, not held, and leaves the rest held as before |
| InputState.Input.constructor | src/resources/input.rs:170-183 | nothing held, no edges, position, deltas and size zero |
| InputState.Input.GetKey | src/resources/input.rs:252-256 | the key is held; `HeldIsLastEvent` proves this is exactly when its last event was a press |
| InputState.Input.GetKeyDown | src/resources/input.rs:258-262 | the key went down this frame; `TapWithinFrame` shows a press and release within a frame reads down and up but not held |
| InputState.Input.GetKeyUp | src/resources/input.rs:264-268 | the key went up this frame; `InjectConsistent` keeps a key that went up and is held marked down again |
| InputState.Input.GetMouseButton | src/resources/input.rs:270-274 | the mouse button is held, under the same event rule as the keys (`HeldIsLastEvent`) |
| InputState.Input.GetMouseButtonDown | src/resources/input.rs:276-280 | the mouse button went down this frame, under the same edge rules as the keys |
| InputState.Input.GetMouseButtonUp | src/resources/input.rs:282-286 | the mouse button went up this frame, under the same edge rules as the keys |
| InputState.Input.StartFrame | src/resources/input.rs:188-195 | the down and up sets and the two deltas are cleared; held buttons, position and size are kept |
| InputState.Input.InjectKey | src/resources/input.rs:198-211 | the key state follows the event rule; mouse, position, deltas and size are untouched |
| InputState.Input.InjectMouseButton | src/resources/input.rs:214-227 | the mouse state follows the event rule; keys, position, deltas and size are untouched |
| InputState.Input.InjectMousePosition | src/resources/input.rs:230-236 | the position becomes the new one; the delta grows by the movement unless the old position was exactly zero |
| InputState.Input.InjectScroll | src/resources/input.rs:239-241 | the scroll delta grows by the event's delta |
| InputState.Input.InjectResize | src/resources/input.rs:244-246 | the screen size becomes the new size, nothing else changes |
| InputState.ScrollAccumulates | src/resources/input.rs:188-195 | scroll events within a frame add up, and the next frame starts from zero scroll with the held keys kept |
| Tracks.ValueIndex | src/animation/tracks.rs:153-158 | a cubic-spline track keeps each key's value in the middle of its three slots; other tracks one value per key |
| Tracks.SampleAtFrame | src/animation/tracks.rs:160-197 | at or past the last interval the last key's value is read; otherwise a step track reads the interval's value, a linear track blends the interval's two values, a cubic track reads value, out-tangent, next in-tangent and next value |
| Tracks.PartitionPoint | src/animation/tracks.rs:43 | every key before the point is at or before the time, and the key at the point is after it |
| Tracks.PartitionPointSplits | src/animation/tracks.rs:43 | on sorted keys, a key is at or before the time exactly when it lies before the partition point |
| Tracks.IntervalIndexBrackets | src/animation/tracks.rs:139-140 | on sorted keys the fallback index is 0 before the first key, the last index at or after the last key, and otherwise the interval whose keys bracket the time |
| Tracks.IntervalUnique | src/animation/tracks.rs:139-140 | the interval that brackets the time is the fallback index |
| Tracks.IntervalIndexAtEnd | src/animation/tracks.rs:139-140 | at or after the last key the fallback index is the last key |
| Tracks.SampleAtInterval | src/animation/tracks.rs:36-46 | sample as evidently intended fails exactly on an empty track |
| Tracks.Sample | src/animation/tracks.rs:43-45 | fails exactly on an empty track; `SampleSkipsInterval` shows it reads the key after the interval, not the interval |
| Tracks.CursorSample | src/animation/tracks.rs:71-119 | the cursor sample as written; `CursorSampleAgrees` proves it reads what the intended sample reads for a cursor inside the track, and `StaleCursorPanics` shows the panic for one past the end |
| Tracks.SampleSkipsInterval | src/animation/tracks.rs:43-45 | as written, a linear track with keys 0 and 2 sampled at 1 reads only the second value, where the intended sample blends both |
| Tracks.SampleAtIntervalBlendsBracket | tests/animation_tests.rs:193-201 | with the intended sample, a linear track between its first and last key blends the two values of the interval that brackets the time |
| Tracks.SingleKeyframeHolds | src/animation/tracks.rs:61-63 | a single-key track always reads that key's value, by either path |
| Tracks.ForwardFindsInterval | src/animation/tracks.rs:74-97 | whatever the forward scan finds is the interval of the time |
| Tracks.BackwardFindsInterval | src/animation/tracks.rs:98-127 | with the cursor inside the track the backward scan never panics, and whatever it finds is the interval of the time |
| Tracks.CursorIndexIsInterval | src/animation/tracks.rs:65-145 | with a cursor inside the track and sorted keys, the cursor path picks exactly the interval of the time |
| Tracks.CursorSampleAgrees | tests/animation_tests.rs:297-315 | with a cursor inside the track, the cursor sample reads what the intended sample reads and leaves the cursor on the interval |
| Tracks.StaleCursorPanics | src/animation/tracks.rs:71-119 | as written, a cursor past the end with the time before the first key reads a key time past the end and panics |
| Tracks.CursorIndexCheckedIsInterval | src/animation/tracks.rs:65-145 | the intended scan never panics on sorted keys, always picks the interval of the time, and agrees with the scan as written for every cursor inside the track |
| Tracks.KeyframeCursor.constructor | src/animation/tracks.rs:13-16 | a new cursor points at interval 0 |
| Tracks.ScanForward | src/animation/tracks.rs:77-97 | the forward loop computes the forward scan |
| Tracks.ScanBackward | src/animation/tracks.rs:101-127 | the backward loop computes the backward scan, panic included |
| Tracks.SampleWithCursor | src/animation/tracks.rs:50-148 | the method reads what the cursor sample reads and leaves the cursor where it says, or fails with its error |
| Tracks.SampleTwice | tests/animation_tests.rs:297-315 | two samples in a row through one cursor read what the intended sample reads at each time, and the cursor ends on the second time's interval |
| Wrappers.WrappingIncU32 | src/renderer/core/builder.rs:74 | u32 wrapping_add(1), the release behaviour of `+= 1`: one more, except that the largest value wraps to 0 |
| Wrappers.WrappingIncU64 | src/resources/version_tracker.rs:15 | u64 wrapping_add(1): one more, except that the largest value wraps to 0 |
| Wrappers.WrappingIncU16 | src/renderer/graph/builder.rs:109 | u16 wrapping_add(1): one more, except that the largest value wraps to 0 |
| Allocator.UniformStride | src/renderer/core/resources/allocator.rs:171-177 | the slot size of one dynamic uniform, which is never zero |
| Sorting.SortBy | src/renderer/graph/frame.rs:266-271 | sorting keeps the length |
| Sorting.SortByPermutes | src/renderer/graph/frame.rs:266-271 | the sorted sequence is a permutation of the input |
| Sorting.SortBySorted | src/renderer/graph/frame.rs:266-271 | under a total preorder the result is in order |
| Sorting.SortedUnique | src/renderer/graph/builder.rs:155-157 | under a total order, two sorted permutations of one sequence are equal, so an unstable sort has only one possible result |
| Text.StrLeRefl | src/renderer/pipeline/vertex.rs:82 | string order is reflexive |
| Text.StrLeTotal | src/renderer/pipeline/vertex.rs:82 | any two strings are ordered one way or the other |
| Text.StrLeTrans | src/renderer/pipeline/vertex.rs:82 | string order is transitive |
| Text.StrLeAntisym | src/renderer/pipeline/vertex.rs:82 | strings ordered both ways are equal |
| Text.NatToString | src/renderer/core/builder.rs:295-333 | a number prints as a non-empty run of decimal digits, and only 0 prints as "0" |
| Text.NatToStringRoundTrip | src/renderer/core/builder.rs:295-333 | the printed digits have exactly the printed number as their value |

## Left out

- GPU work. Creating pipelines, textures, views, bind groups and buffers, recording commands, surfaces and uploads are wgpu calls. They become `Gpu.Device.Create` handles or events in a log. What a render node does inside `prepare` and `run` is not modelled.
- Hashing. FxHash, ahash and `compute_hash` are parameters, or fixed stand-in functions of their input. The model uses only that a hash is a function of what it hashes, never that it is collision-free.
- Floating point. Keyframe times, mouse positions, scroll deltas and window sizes are integers. The depth in a `RenderKey` is its `to_bits` pattern. Interpolation weights and the resulting blend are left out; `Tracks` states only which keyframe values a sample reads.
- Matrices. Local and world transforms in `SceneGraph` and `TransformSystem` are symbolic (`Affine`): they record the product they were computed as, not its numbers.
- Cameras. A camera is keyed by its node and records the world matrix it was last updated from. src/scene/scene.rs:409-416 passes four arguments (a camera pool and a camera map) to `update_hierarchy_iterative`, while src/scene/transform_system.rs:185-189 declares three. The model follows transform_system.rs.
- Parallelism. The level batches of `update_hierarchy_batched` are processed one node at a time. rayon's parallel iteration is not modelled.
- TransformSystem.UpdateHierarchyBatched: specified as running the batches level by level. `BatchedRecomputesDeeperLevels` proves that every node below the root level is recomputed. The result is not proved equal to the depth-first traversal's.
- Concurrency. Locks (`RwLock`, `Mutex`), `Arc` sharing and atomic counters are modelled sequentially. Process-wide counters are classes whose `fetch_add` wraps at 2^64.
- Library decoding. UTF-8 validation of the `.cube` bytes, `from_utf8` in the shader loader, base64 payloads, the image and half-float decoders, `serde_json` parsing, patching and serialising, and minijinja template expansion are outside this model. Where their result matters it is a parameter (`base64`, the patched JSON bytes), or the text is taken as already decoded.
- CubeLut: float tokens are kept as strings. Which tokens `f32::from_str` accepts is modelled; their numeric value and the conversion to `f16` are not.
- CubeLut: `str::lines` also strips a `\r` before each `\n`. Every line is trimmed before use, so that `\r` is dropped by `Trim` instead.
- GltfLoader: the `usize` offset and stride arithmetic is unbounded. `vertex_count * stride` cannot overflow for a buffer that fits in memory.
- Tracks: the values vector is assumed to hold one value, or three for cubic splines, per key time. A track with too few values panics in the source; this model records which indices would be read.
- Tracks.PartitionPoint: key times are not required to be sorted. Rust's `partition_point` is a binary search, and its result on times that are not partitioned by the sample time is unspecified (for times [0, 5, 1, 1] and time 2 it returns 4). The model always returns the end of the leading run of times not after the sample time (1 there). Only on sorted times are the two proved to agree.
- Pass.TrackedRenderPass.SetVertexBuffer: requires a slot below `VERTEX_BUFFER_SLOTS` (8). The source indexes its fixed array with the slot, so a larger slot panics.
- ResourceBuilder.ResourceBuilder.AddUniformBuffer (and every other `add_*`, through `Push`): the binding counter wraps to 0 after u32::MAX, the release behaviour of `+= 1`. A debug build panics there instead; that panic is not modelled.
- TransientPool.Aged: the idle count wraps to 0 after u32::MAX, the release behaviour of `+= 1`, so such a texture is kept by `trim`. A debug build panics there; that panic is not modelled.
- Geometry.UpdateRegion: `offset_bytes + len` is an unbounded sum. In the source it is a `usize` sum, and for an offset within `len` of 2^64 it overflows: a debug build panics, and a release build wraps the end and then panics on the slice whenever the wrapped end lies within the data. The model leaves the attribute and the counter unchanged in that case.
- Geometry.ReadElement: `offset + i * stride` (plus the element size) is an unbounded sum. In the source it is `usize` arithmetic, which overflows for values near 2^64: a debug build panics, and a release build wraps and can pass its bounds check with a wrong start. The model compares the exact sum with the data length, so it reads no element there.
- SceneGraph.Scene.RemoveNode (and `CollectSubtree`): requires a ghost rank showing the child links have no cycle. The source recurses forever on a cycle, which `attach` as written can create (see "## Findings"); that non-termination is not modelled.
- TransformSystem.UpdateHierarchy (and every other traversal in `TransformSystem`): requires the same acyclicity rank. On a cyclic hierarchy the source never terminates; the model has no member for that case.
- Geometry.ToUpper: only the ASCII letters 'a'..'z' are upper-cased. Rust's `to_uppercase` maps all of Unicode, so a name like "ß" gives `HAS_SS` and "é" gives `HAS_É` in the source, and the macro can be longer than "HAS_" plus the name.
- Pass.TrackedRenderPass.SetBindGroup: requires at most eight dynamic offsets and a slot below four. The source indexes its fixed arrays with these values, so larger ones panic, either at once or on the next bind of that slot.
- ShaderDefines: the string-facing wrappers (`set`, `get`, `contains`, `remove` taking `&str`) go through the lasso interner. Symbols are naturals, and the interner is not modelled.
- ShaderManager: the debug-build read of shader files from disk is I/O and is left out. The embedded-asset lookup is a map parameter.
- InputState: `mouse_position`, `mouse_delta`, `scroll_delta` and `screen_size` only read the fields the injection methods maintain, so they have no separate members. `screen_size` also converts to `f32`, which is not modelled.
- SceneGraph: the component getters and setters, including `set_name` and `get_name` (mesh, camera, light, skin, morph-weight and name accessors; only `create_node_with_name` and `find_node_by_name` touch names in the model), bounding boxes, `compute_vertex_normals`, and the morph-target storage-buffer packing are left out. Those are float math or plain field access.
- Material: colours, scalar parameters and the uniform block with its `uniform_version`, and every material variant file except mod.rs, are not modelled.
- Geometry.Geometry.ShaderDefines: `build_morph_storage_buffers` (src/resources/geometry.rs:423-515) is not modelled. It sets the morph-target count and buffers, which are also public fields, and bumps only the data version. The cache is keyed by the layout version alone, so in the source a cache filled before the morph buffers were built can keep defines without `HAS_MORPH_TARGETS`, `HAS_MORPH_NORMALS` or `HAS_MORPH_TANGENTS`. The model promises fresh defines only because no modelled method changes the morph state.
- FrameBuilder.FrameBuilder.Build: the source's `sort_unstable_by_key` may put entries with equal (stage, tag) keys in any order. Equal keys arise only after more than 65536 additions, when the 16-bit tag wraps. The model sorts them one deterministic way, and its contract promises only a sorted permutation. Insertion order within a stage (`BuildStableWithinStage`) is proved only while the tags have not wrapped.
- Asset I/O, async loading and the loaders other than `decode_cube_cpu`, and the glTF `load_*` functions apart from the root-bone choice, are not part of this model.

## Findings

| source | as written | input that shows it | evidently intended | confidence | as-written member | corrected member |
|---|---|---|---|---|---|---|
| src/animation/tracks.rs:43-45 | `sample` passes the partition point, the index of the first key after the time, to `sample_at_frame` as the interval's left key | a linear track with times [0, 2] sampled at 1 reads only the value of key 1 | the interval starting at the partition point minus one, so the sample blends keys 0 and 1. tests/animation_tests.rs:193-201 expects the blend (5.0 halfway between 0 and 10) | high; not executed | Tracks.SampleSkipsInterval | Tracks.SampleAtInterval |
| src/animation/tracks.rs:71-119 | a cursor past the end is replaced by key 0 only for the first comparison; the backward scan then indexes `times` from the stale cursor | times [1, 2], cursor 5, time 0: `times[5]` is out of bounds | the cursor reset to 0 before it is used at all | high; not executed | Tracks.StaleCursorPanics | Tracks.CursorIndexCheckedIsInterval |
| src/scene/transform_system.rs:79-83 | `clear` empties each batch but keeps it. With no roots the function returns before the empty batches are dropped | a `LevelOrderBatches` holding [[0]], rebuilt from no roots, keeps one empty batch | no batches for no roots | medium; not executed | TransformSystem.EmptyRootsKeepStaleBatch | TransformSystem.BuildLevelOrderBatchesRetained |
| src/scene/scene.rs:236-242 | attaching to a missing parent pushes the child to the roots but leaves its `parent` naming the old parent | a child of node p attached to a removed handle: it becomes a root whose parent is still p, which no longer lists it | the child made a root with no parent | high; not executed | SceneGraph.AttachToMissingParentLeavesStaleParent | SceneGraph.AttachAsRootKeepsValid |
| src/scene/scene.rs:219-250 | `attach` refuses only a node attached to itself; nothing stops a parent that lies inside the child's own subtree | node a with child b, then `attach(a, b)`: a and b become each other's children, and a later `remove_node(a)` (through `collect_subtree`) or `update_hierarchy` recurses without end | a parent inside the child's subtree refused, so the hierarchy stays a forest | high; not executed | SceneGraph.AttachUnderOwnChildMakesCycle | SceneGraph.AttachCheckedKeepsRanked |
| src/assets/loaders/gltf.rs:107-108 | the first chunk's header is read from bytes 12..20 without checking that they exist | the 12-byte GLB header `glTF`, version 2, length 12: slicing `data[12..16]` panics | data too short for its header passed through unchanged, as other malformed input is | medium; not executed. `sanitize_glb` is dead code: it is marked `#[allow(dead_code)]` (gltf.rs:100), and its only caller, `sanitize_gltf_data`, is called only from a commented-out line (gltf.rs:449) | GltfLoader.HeaderOnlyGlbPanics | GltfLoader.FrameGlbCheckedAgrees |
| src/assets/server.rs:550 | `size * size * size * 3` is computed in `u32`; it wraps in a release build (a debug build panics) before the length check | `LUT_3D_SIZE 2048` with no data lines: the expected length wraps to 0 and an empty 2048³ table is accepted | the product computed without wrapping, so the missing data is reported | high; not executed | CubeLut.WrappedSizeAcceptsNoData | CubeLut.FinishUnwrappedAgrees |
