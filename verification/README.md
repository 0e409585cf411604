# Ezgl bookkeeping and draw passes in Dafny

Ezgl is a thin Rust wrapper over OpenGL. This project models the parts of it that are plain
data manipulation. It leaves the GPU out. The GL calls a pass makes are recorded as an
abstract command trace, `Commands.Run`: the calls made so far, plus the panic that stopped
the pass, if there was one. The modelled parts are:

- **The handle registry of `DrawEngine`** (`resource_table.dfy`, `draw_engine.dfy`).
  - Buffers, shaders and textures are each kept as a `usize` counter plus three parallel
    vectors: ids, resources and init lines.
  - Lookup is a linear `position`. Freeing `swap_remove`s the same slot of all three vectors.
  - Draw environments live in a list kept in depth order by an insert before the first
    strictly deeper entry. `free_draw_env` `swap_remove`s from that list.
- **`DrawEngine::draw`** (`engine_draw.dfy`). For each environment, in list order, it:
  1. looks up the shader and activates it;
  2. looks up the index buffer and checks that it is an element buffer;
  3. runs the buffer loop and the texture loop (texture units 0, 1, 2, ...);
  4. applies depth and blending, switching them off explicitly when unset;
  5. sends the uniforms;
  6. makes one `glDrawElements`.

  Every `expect`/`panic!` becomes a `DrawFault`. That includes the out-of-bounds index in the
  `expect` message of the buffer and texture lookups, which is built whether or not the lookup succeeds.
- **`DrawEnv`** (`draw_env.rs`, modelled in `draw_env.dfy`).
  - Binding lists deduplicated by handle id. Removal is a `swap_remove`.
  - The `usize::MAX` sentinels.
  - Last-call-wins depth and blend toggles.
  - `add_texture`/`remove_texture` act on the `buffers` list, as the code does, so no method
    touches `textures`.
- **Validation**:
  - `Buffer::new`/`init`/`blit` (`buffer.dfy`);
  - `Texture2D::new`/`load_from_pixels`/`blit` (`texture.dfy`);
  - the extension classification and file reading of `Shader::from_file` (`shader.dfy`).
- **The type tables**:
  - `GLSLType::get_type`/`into_glsl_any` (`glsl.dfy`);
  - `BufferType`, `ElementType` and `UniformType` for Rust host types (`host_types.dfy`).
  - Each table is stated against an independent reading of the type's name (`Glsl.ShapeOf`).
- **The two immediate builders**: `Draw` (`draw.dfy`) and `InstantDraw` (`instant_draw.dfy`).
  - Builder calls are folded over an initial value.
  - `draw` is a command trace with the source's checks in the source's order.

Where the code and its design intent diverge, the model follows the code:

- A `free_*`/`get_*` of an id that is not live panics with "Unreachable". The model makes
  this a precondition rather than an error result.
- Binding lists deduplicate by handle, not by location. A `None` uniform is stored, not
  removed.
- `free_draw_env` can leave the environment list out of depth order
  (`DrawEngine.FreeDrawEnvBreaksOrder`).
- `draw` can fail on a live buffer, because the `expect` message indexes the init-line vector
  by handle id (`EngineDraw.LiveBufferIndexPanics`).
- `InstantDraw::draw` points `bool` buffers (component type `BOOL`) through
  `glVertexAttribPointer`, because `BOOL` is not in its integer list
  (`InstantDrawBuilder.IntegerPointerHosts`).

Integer widths:

- `usize` and `u32` counters and products are unbounded in the model.
- Where the code multiplies a draw count, the result is wrapped as a release build wraps it:
  - `count * 3` in `start_tri_draw` is reduced modulo 2^32;
  - the casts to `GLsizei` in all three draw passes keep the low 32 bits (`GL.AsI32`).

## Model

| member | source | states |
|---|---|---|
| `ResourceTables.Empty` | src/draw_engine.rs:46-67 | A fresh registry is valid, has counter 0 and no live id. |
| `ResourceTables.Slot` | src/draw_engine.rs:97 | The `position` lookup finds a slot exactly when the id is live, and that slot holds the id. |
| `ResourceTables.SlotOfIndex` | src/draw_engine.rs:107 | In a valid registry the id stored at slot k is found at slot k: ids are never duplicated. |
| `ResourceTables.Create` | src/draw_engine.rs:77-92 | `create_*` returns the current counter as the new id and moves the counter past it. The id was not live before and is live after, with the given resource and line. Every other id keeps its liveness, resource and line. The three vectors stay parallel. |
| `ResourceTables.Free` | src/draw_engine.rs:95-103 | `free_*` removes exactly the given id, keeps the counter, and leaves every other live id with its resource and line. |
| `ResourceTables.SwapRemoveValid` | src/draw_engine.rs:100-102 | `swap_remove` of one slot from all three vectors keeps them parallel and the ids distinct. It makes the removed id dead and no new id live. |
| `ResourceTables.SwapRemoveKeepsOthers` | src/draw_engine.rs:100-102 | After that `swap_remove` every other id is still live, with the same resource and line. |
| `ResourceTables.Modify` | src/draw_engine.rs:105-110 | `get_*_mut` runs the closure on the live resource in place and returns its result. Ids, lines, the counter and every other resource are untouched. |
| `ResourceTables.Run` | src/draw_engine.rs:77-103 | Any sequence of creates and frees that does not panic leaves the registry valid. |
| `ResourceTables.RunIdsIncrease` | src/draw_engine.rs:79-80 | Over any sequence of creates and frees, the ids handed out strictly increase. They are at least the starting counter and below the final one, so no id is ever reused. |
| `Seqs.Position` | src/draw_engine.rs:199 | `iter().position(p)` returns the first index satisfying `p`, or `None` when none does. |
| `Seqs.IndexOf` | src/draw_engine.rs:97 | `position` by equality returns the first index holding `x`, or `None` exactly when `x` is absent. |
| `Seqs.SwapRemove` | src/draw_engine.rs:214 | `swap_remove(i)` moves the last element into slot `i`, keeps every other slot, and loses exactly one copy of the removed element. |
| `Seqs.Insert` | src/draw_engine.rs:203 | `insert(i, x)` puts `x` at `i`, shifts the tail right, and removing `x` again gives the original list. |
| `Seqs.SwapRemoveKeeps` | src/draw_env.rs:73 | Every element other than the removed one survives a `swap_remove`. |
| `Handles.NewGetId` | src/handles.rs:9-70 | `get_id` returns the id each of the four handle kinds was made from. Two buffer handles, or two environment handles, made from different ids differ. |
| `GL.AsI32` | src/instant_draw.rs:257 | An integer `as` cast to `GLsizei` is a 32-bit value congruent to its input modulo 2^32. It is the identity on values that fit. |
| `Buffers.New` | src/buffer.rs:53-62 | A new buffer is uninitialised (`buffer_type` 0), takes its count and component type from `T::get_type()`, and refuses a blit. |
| `Buffers.Init` | src/buffer.rs:64-98 | Any target other than array or element buffer gives `InvalidBufferType`. An array buffer accepts exactly the non-index component types. An element buffer accepts exactly `UNSIGNED_BYTE`/`UNSIGNED_SHORT`. A refused type gives `InvalidGLSLType`. Success stores the target and enables blits. Failure changes nothing. |
| `Buffers.Blit` | src/buffer.rs:100-120 | `blit` fails, with `BufferNotInitialized`, exactly when the buffer was never initialised. |
| `Buffers.InitAcceptsByType` | src/buffer.rs:66-80 | For a fresh buffer of GLSL type `T`, an element buffer accepts `T` exactly when `T` is one of the two index-triangle types. An array buffer accepts exactly the other types. |
| `Textures.BytesPerColor` | src/texture.rs:68-72 | Only RGB (3 bytes) and RGBA (4 bytes) have a pixel size. |
| `Textures.New` | src/texture.rs:27-34 | A new texture is 0 by 0 with format 0, a format no check accepts. |
| `Textures.LoadFromPixels` | src/texture.rs:60-106 | A format other than RGB/RGBA gives `FormatNotSupported`, before the length check. Otherwise the load succeeds exactly when `bpc * width * height` equals the length cast to `u32`, and fails with `InvalidDataDimensions` when not. Success stores width, height and format. Failure changes nothing. |
| `Textures.Blit` | src/texture.rs:109-152 | `blit` never changes the texture. It gives `OutOfBounds` exactly when the region leaves the image, checked first. Within bounds, the format and length rules apply as in the load, with the texture's own format. |
| `Textures.BlitBeforeLoadFails` | src/texture.rs:118-127 | Every blit on a never-loaded texture fails, with `OutOfBounds` or `FormatNotSupported`. |
| `Textures.LoadThenBlitWhole` | src/texture.rs:75-132 | After a successful load, blitting the whole image with data of the same length succeeds. |
| `Shaders.Classify` | src/shader.rs:25-31 | "geom", "frag" and "vert" map to the geometry, fragment and vertex stages, both ways. Any other UTF-8 extension `s` gives `UnsupportedExtension(s)`. A missing or non-UTF-8 extension gives `Other`. Every stage produced is one the shader resource accepts. |
| `Shaders.FromFile` | src/shader.rs:24-43 | Extension errors come first and are never `CouldNotOpenFile` or `CompileError`. A classified file that cannot be opened gives `CouldNotOpenFile(path)`. A file that opens but cannot be read as UTF-8 text panics (`ReadPanic`). Otherwise the result is the compilation of its text for the classified stage. |
| `Glsl.GetType` | src/glsl_type.rs:174-572 | Each GLSL type maps to (component count, component type) as its name reads: n-vectors to (n, scalar), C-by-R matrices to (C·R, scalar), the triangle types to (-1, index type). Only the two triangle types have a non-positive count or report `UNSIGNED_BYTE`/`UNSIGNED_SHORT`. |
| `Glsl.IntoGlslAny` | src/glsl_type.rs:175-572 | `into_glsl_any` is `None` exactly for the double-based and triangle types. Otherwise it is the variant of the same name carrying the value unchanged. |
| `HostTypes.GlslTwin` | src/glsl_types.rs:5-33 | Each Rust host type corresponds to a GLSL type of the same shape: tuples to vectors of their scalar, `MatCxR` to float C-by-R matrices. |
| `HostTypes.BufferGetType` | src/glsl_types.rs:36-188 | `BufferType::get_type` agrees with the GLSL table on the twin type. A tuple of n scalars gives (n, the scalar's enum). A matrix gives a count in {4, 6, 8, 9, 12, 16} and `FLOAT`. |
| `HostTypes.ElementGetType` | src/glsl_types.rs:192-212 | `u8`, `u16` and `u32` map to `UNSIGNED_BYTE`, `UNSIGNED_SHORT` and `UNSIGNED_INT`, both ways. |
| `HostTypes.UniformIntoAny` | src/glsl_types.rs:216-398 | `UniformType::into_glsl_any` is never `None`. It is the variant of matching arity and base type, carrying the value unchanged, and agrees with the GLSL table on the twin type. |
| `DrawEnvs.Find` | src/draw_env.rs:67 | The lookup by handle finds an entry with that handle, or none exactly when no entry has it. |
| `DrawEnvs.AddUnique` | src/draw_env.rs:58-63 | An add of a present handle is a no-op, so the first location wins. Otherwise it appends one entry with that location. No other handle changes presence, and handle uniqueness is preserved. |
| `DrawEnvs.RemoveByHandle` | src/draw_env.rs:65-74 | A remove of an absent handle is a no-op. Otherwise exactly one entry goes, every entry with another handle stays, none appears, and a unique list stays unique without the handle. |
| `DrawEnvs.SwapRemoveUnique` | src/draw_env.rs:73 | `swap_remove` from a list with distinct handles keeps them distinct and drops the removed handle. |
| `DrawEnvs.New` | src/draw_env.rs:35-48 | A new environment has the `usize::MAX` sentinel as shader and index buffer, empty lists, and depth and blending off. |
| `DrawEnvs.Apply` | src/draw_env.rs:50-126 | `add_shader` and `add_index_buffer` overwrite their stored id and change nothing else; every other method leaves both ids alone. `add_buffer`/`add_texture` add to `buffers` and `remove_buffer`/`remove_texture` remove from it, by handle; `add_uniform`/`remove_uniform` do the same on `uniforms`. No other method changes either list. No method changes `textures`. Depth toggles set depth and only depth; blend toggles set blending and only blending. Toggles change no list. Every method keeps the `buffers` and `uniforms` lists free of repeated handles. |
| `DrawEnvs.ApplyAllKeepsUnique` | src/draw_env.rs:58-110 | Over any sequence of calls, `buffers` and `uniforms` never hold a handle twice, and `textures` never changes. |
| `DrawEnvs.DepthFoldLastWins` | src/draw_env.rs:112-118 | Reading the depth toggles alone, the last one wins; with none the setting is the initial one. |
| `DrawEnvs.ApplyAllDepthFold` | src/draw_env.rs:112-118 | The depth setting after any call sequence is the one the toggle-only reading gives. |
| `DrawEnvs.ApplyAllDepthLastWins` | src/draw_env.rs:112-118 | After any call sequence the depth setting is the one the last depth toggle asked for, whatever came after it, or the initial one if there was none. |
| `DrawEnvs.BlendFoldLastWins` | src/draw_env.rs:120-126 | Reading the blend toggles alone, the last one wins; with none the setting is the initial one. |
| `DrawEnvs.ApplyAllBlendFold` | src/draw_env.rs:120-126 | The blend setting after any call sequence is the one the toggle-only reading gives. |
| `DrawEnvs.ApplyAllBlendLastWins` | src/draw_env.rs:120-126 | After any call sequence blending is what the last blend toggle asked for, or the initial setting if there was none. |
| `DrawEnvs.TogglesKeepBindings` | src/draw_env.rs:112-126 | A sequence of toggles only leaves shader, index buffer and all three lists as they were. |
| `DrawEngine.New` | src/draw_engine.rs:46-67 | A new engine is valid, with every counter 0, nothing live and no environment. |
| `DrawEngine.CreateBuffer` | src/draw_engine.rs:77-92 | `create_buffer` registers a fresh `Buffer::new::<T>()` under the next id and line, touching nothing else. |
| `DrawEngine.FreeBuffer` | src/draw_engine.rs:95-103 | `free_buffer` frees exactly that id from the buffer registry, touching nothing else. |
| `DrawEngine.GetBufferMut` | src/draw_engine.rs:105-110 | `get_buffer_mut` applies the closure to that buffer in place and returns its result, touching nothing else. |
| `DrawEngine.CreateShader` | src/draw_engine.rs:122-137 | `create_shader` registers a new shader under the next id and line, touching nothing else. |
| `DrawEngine.FreeShader` | src/draw_engine.rs:139-147 | `free_shader` frees exactly that id, touching nothing else. |
| `DrawEngine.GetShaderMut` | src/draw_engine.rs:149-154 | `get_shader_mut` applies the closure to that shader in place, touching nothing else. |
| `DrawEngine.CreateTexture` | src/draw_engine.rs:156-171 | `create_texture` registers a `Texture2D::new()` under the next id and line, touching nothing else. |
| `DrawEngine.FreeTexture` | src/draw_engine.rs:173-181 | `free_texture` frees exactly that id, touching nothing else. |
| `DrawEngine.GetTextureMut` | src/draw_engine.rs:183-188 | `get_texture_mut` applies the closure to that texture in place, touching nothing else. |
| `DrawEngine.InsertIndex` | src/draw_engine.rs:199-202 | The insert position has every earlier entry no deeper than the new depth, and the entry at it, if any, strictly deeper. |
| `DrawEngine.EnvSlot` | src/draw_engine.rs:211 | The lookup by environment id finds an entry with that id, or none exactly when no entry has it. |
| `DrawEngine.CreateDrawEnv` | src/draw_engine.rs:190-207 | `create_draw_env` returns the old counter as a new, previously dead id and inserts a fresh `DrawEnv` with its depth and line. It goes after every entry not deeper and before the first deeper one. The other entries keep their order and the registries are untouched. |
| `DrawEngine.InsertFreshValid` | src/draw_engine.rs:192-203 | Inserting an entry under the next id keeps environment ids distinct and below the counter. |
| `DrawEngine.InsertFreshIds` | src/draw_engine.rs:192-203 | The same, on the entry list alone. |
| `DrawEngine.FreeDrawEnv` | src/draw_engine.rs:209-215 | `free_draw_env` removes exactly that environment with a `swap_remove`: the last entry moves into the freed slot and every other slot keeps its entry. It is no longer live, every other entry is still present, none appears, and the counter stays. |
| `DrawEngine.SwapRemoveEnvValid` | src/draw_engine.rs:214 | The `swap_remove` keeps environment ids valid and kills the removed id. |
| `DrawEngine.SwapRemoveEnvKeeps` | src/draw_engine.rs:214 | The `swap_remove` loses the removed entry and nothing else. |
| `DrawEngine.GetDrawEnv` | src/draw_engine.rs:217-222 | `get_draw_env` applies the closure to that environment only. Depth, id, line and position of every entry are unchanged. |
| `DrawEngine.CreateDrawEnvKeepsOrder` | src/draw_engine.rs:199-203 | An environment list ordered by depth, and by creation among equal depths, stays so after `create_draw_env`. |
| `DrawEngine.InsertKeepsOrder` | src/draw_engine.rs:199-203 | Inserting after every entry not deeper and before every deeper one, with an id above all present, keeps that order. |
| `DrawEngine.FreeDrawEnvBreaksOrder` | src/draw_engine.rs:211-214 | `free_draw_env` breaks the order whenever the freed entry has at least two entries after it and the last entry is strictly deeper than the one right after the freed entry, which the last entry then precedes. |
| `Commands.ChainFaults` | src/draw_engine.rs:254-265 | A `for_each` loop whose body may panic gets through exactly when every iteration does. Otherwise it reports the panic of the first iteration that panics. |
| `Commands.ChainNoDraws` | src/draw_engine.rs:254-283 | A loop whose iterations make no draw call makes none. |
| `Commands.ChainAt` | src/draw_engine.rs:254-283 | When every iteration gets through with `w` calls, the loop makes `w` calls per iteration, those of iteration k at `w·k` onwards. |
| `Commands.ChainLength` | src/draw_engine.rs:254-283 | The length part of the same: `w` calls per iteration. |
| `Commands.ChainDrawsAre` | src/draw_engine.rs:236-358 | When every iteration gets through with exactly one draw call, the loop's draw calls are those, in iteration order. |
| `Commands.CallForMatchesShape` | src/draw_engine.rs:319-345 | The uniform dispatch follows the GLSL type's shape: float, int and unsigned/bool n-vectors go to `glUniform{n}f/i/ui`, and C-by-R matrices to `glUniformMatrix{C}x{R}fv`. |
| `Commands.SendUniformsSpec` | src/draw.rs:179-210 | A builder's uniform loop never draws. It gets through exactly when every entry has a value, and then sends them in list order, one call each. Otherwise it stops at `unreachable!()`. |
| `Commands.SettingsExplicit` | src/draw_engine.rs:286-313 | An unset depth test or blending is switched off explicitly. A set one is switched on and configured with its function. |
| `EngineDraw.BufferPassFaults` | src/draw_engine.rs:254-265 | The buffer loop never draws. It gets through exactly when every binding's handle is live and below the init-line vector's length. Otherwise it panics on the first binding that is not, with the index error or the lookup message. |
| `EngineDraw.BufferPassCmds` | src/draw_engine.rs:254-265 | A buffer loop that gets through makes, per binding in order: bind to the buffer's own target, enable the location, and point it with the buffer's count and type. |
| `EngineDraw.TexturePassFaults` | src/draw_engine.rs:267-283 | The same for the texture loop. |
| `EngineDraw.TexturePassUnits` | src/draw_engine.rs:267-283 | A texture loop that gets through gives binding k texture unit k, in list order: activate the unit, bind the texture, point the sampler location at k. |
| `EngineDraw.UniformPassSpec` | src/draw_engine.rs:315-348 | The uniform loop never draws. It gets through exactly when every entry has a value, and then sends each in list order. Otherwise it reaches `unreachable!()`. |
| `EngineDraw.SetupSpec` | src/draw_engine.rs:253-348 | An environment's set-up never draws. It gets through exactly when every buffer and texture binding resolves and every uniform has a value. |
| `EngineDraw.SetupTrace` | src/draw_engine.rs:253-348 | A set-up that gets through is the buffer loop, then the texture loop, then depth, then blending, then the uniforms. |
| `EngineDraw.EnvPassSpec` | src/draw_engine.rs:236-251 | One environment's pass gets through exactly when its shader is live and activates, its index buffer is live and an element buffer, and its set-up gets through. An unbound shader panics before any call, with the environment's line. After a successful activation, an unbound index buffer panics with that line too. |
| `EngineDraw.EnvPassCmds` | src/draw_engine.rs:236-357 | A pass that gets through starts with `UseProgram` and binding the index buffer as the element buffer. It ends with its one `glDrawElements` of `count * 3` indices of the index buffer's type. |
| `EngineDraw.EnvsPassFaults` | src/draw_engine.rs:236-358 | The environment loop gets through exactly when every environment's pass does. |
| `EngineDraw.EnvsPassDraws` | src/draw_engine.rs:236-358 | When the loop gets through, it makes one draw call per environment, in list order. |
| `EngineDraw.DrawFaults` | src/draw_engine.rs:225-364 | `draw` always starts by clearing and binding a fresh vertex array. It gets through exactly when every environment's pass does and `glGetError` reports no error. When every pass succeeds it ends by deleting the vertex array, and an error recorded by GL then panics (`GlErrorRecorded`). |
| `EngineDraw.DrawSpec` | src/draw_engine.rs:225-364 | A `draw` that gets through makes exactly one `glDrawElements` per environment, in depth-list order, each with its environment's index type, whether or not the closing error check then panics. |
| `EngineDraw.FreshEnvNeedsProgram` | src/draw_engine.rs:238 | An environment nobody configured panics with "Program not bound" and its own line before making any call: the `usize::MAX` sentinel is never a live id. |
| `EngineDraw.LiveBufferIndexPanics` | src/draw_engine.rs:256 | After creating buffers 0 and 1 and freeing 0, buffer 1 is live, yet binding it panics on the init-line index although its lookup succeeds: the `expect` message indexes the init-line vector by handle id whether or not the lookup found the handle. |
| `DrawBuilder.New` | src/draw.rs:59-73 | `Draw::new()` has count and draw type 0, no program and no index buffer, empty lists, and no depth test or blending. |
| `DrawBuilder.BuildAppends` | src/draw.rs:82-92 | `add_buffer`, `add_texture` and `with_uniform` append in call order, with nothing merged or removed. |
| `DrawBuilder.BuildSnoc` | src/draw.rs:75-100 | Each builder call acts on what the earlier calls built. |
| `DrawBuilder.ApplySets` | src/draw.rs:75-100 | `with_count`, `enable_depth` and `enable_blend` overwrite their own setting and leave the others alone. |
| `DrawBuilder.BuildLastWins` | src/draw.rs:75-100 | Each of the three settings holds what the last call setting it wrote, or its initial value if no call did. |
| `DrawBuilder.Mult` | src/draw.rs:112-116 | Only `POINTS` and `TRIANGLES` have an index multiplier: 1 for `POINTS`, 3 for `TRIANGLES`. |
| `DrawBuilder.DrawFaults` | src/draw.rs:104-126 | The checks of `draw` come in the source's order. A missing program, then a missing index buffer, panic before any call. A bad draw type, a zero count, or an index buffer that is not an element buffer panic after `UseProgram` only. A draw that passes them fails only on a `None` uniform. |
| `DrawBuilder.NewCannotDraw` | src/draw.rs:59-105 | A fresh `Draw::new()` panics with "No program attached" without any call. |
| `DrawBuilder.BufferCallsAt` | src/draw.rs:133-141 | The buffer loop makes, per buffer in order: bind to the buffer's own target, enable the location, and point it with the buffer's count and type. |
| `DrawBuilder.TextureCallsAt` | src/draw.rs:143-154 | The texture loop gives texture k unit k, in list order. It tells the sampler its unit, then activates the unit and binds the texture. |
| `DrawBuilder.SetupDrawsNothing` | src/draw.rs:133-176 | The buffer, texture, depth and blend blocks make no draw call. |
| `DrawBuilder.DrawTrace` | src/draw.rs:102-220 | A draw that passes its checks, with every uniform set, makes `UseProgram`, binds the element buffer, then runs the buffers, textures, depth and blending, then the uniforms, then the draw call. |
| `DrawBuilder.DrawCmds` | src/draw.rs:102-220 | The same draw sends its uniforms in list order after the set-up. It ends with its only draw call, `DrawElements(draw_type, count * mult, ibo type, 0)`. |
| `InstantDrawBuilder.StartTriDraw` | src/instant_draw.rs:69-87 | `start_tri_draw` stores the draw type `TRIANGLES`, the program, and the index buffer with `T::get_type()`. It stores a `u32` count that is 0 exactly when `count` is 0 and reads as `count * 3` when cast to `GLsizei`. The lists start empty, with no depth test or blending. |
| `InstantDrawBuilder.BareTriDraw` | src/instant_draw.rs:69-259 | A triangle draw with no builder calls binds the program and the element buffer, explicitly disables depth test and blending, then draws the wrapped `count * 3` indices of type `T::get_type()`. |
| `InstantDrawBuilder.BuildKeeps` | src/instant_draw.rs:69-122 | No builder call changes the count, draw type, program or index buffer that `start_tri_draw` fixed. |
| `InstantDrawBuilder.BuildAppendsBuffers` | src/instant_draw.rs:89-104 | `with_buffer` appends in call order what it copies out of the buffer and `T::get_type()`. |
| `InstantDrawBuilder.BuildAppendsTextures` | src/instant_draw.rs:106-109 | `with_texture` appends in call order. |
| `InstantDrawBuilder.BuildAppendsUniforms` | src/instant_draw.rs:111-114 | `with_uniform` appends in call order. |
| `InstantDrawBuilder.BuildLastWins` | src/instant_draw.rs:116-122 | The last `enable_depth`, and separately the last `enable_blend`, wins. With none the setting stays as it was. |
| `InstantDrawBuilder.ZeroCountDrawsNothing` | src/instant_draw.rs:124-128 | A stored count of 0 makes no GL call at all. |
| `InstantDrawBuilder.DrawFaults` | src/instant_draw.rs:124-236 | A draw with indices starts with `UseProgram` and binding the element buffer, even if it panics later. It panics exactly when some uniform is `None`. |
| `InstantDrawBuilder.BufferCallsAt` | src/instant_draw.rs:139-170 | The buffer loop makes, per buffer in order: bind to its target, enable the location, point it. The integer pointer call is used exactly for `BYTE` to `UNSIGNED_INT` components, the float one otherwise. |
| `InstantDrawBuilder.IntegerPointerHosts` | src/instant_draw.rs:144-169 | A buffer attached for host type `T` gets the integer pointer call exactly when `T` is an `i32` or `u32` scalar or tuple. `f32`, matrices and `bool` go through the float call. |
| `InstantDrawBuilder.TextureCallsAt` | src/instant_draw.rs:173-180 | The texture loop gives texture k unit k, in list order: sampler, then unit, then bind. |
| `InstantDrawBuilder.BindCallsDrawNothing` | src/instant_draw.rs:139-180 | The buffer and texture loops make no draw call. |
| `InstantDrawBuilder.DrawTrace` | src/instant_draw.rs:124-259 | A draw with indices and every uniform set makes `UseProgram`, binds the element buffer, then runs the buffers and textures, the uniforms, depth and blending, and the draw call. |
| `InstantDrawBuilder.DrawCmds` | src/instant_draw.rs:124-259 | In that draw the uniforms come in list order before depth and blending. It ends with its only draw call, `DrawElements(draw_type, count, ibo type, 0)`. |
| `InstantDrawBuilder.WrappedTripleZero` | src/instant_draw.rs:75 | The wrapped `u32` product `count * 3` is 0 only when `count` is 0. |
| `InstantDrawBuilder.TriDrawCall` | src/instant_draw.rs:69-87 | After `start_tri_draw(count, ..)` and any builder calls, the draw call is `DrawElements(TRIANGLES, count * 3, T::get_type(), 0)`, the product read as a `GLsizei`. The draw makes no call exactly when `count` is 0, and otherwise starts with the given program and index buffer. |
| `InstantDrawBuilder.AsI32Wrapped` | src/instant_draw.rs:257 | Wrapping to `u32` before the cast to `GLsizei` changes nothing. |

## Left out

- GPU effects are not modelled: data uploads, texture parameters, shader compilation, vertex array creation and deletion. GL object names and draw-time results enter the model as parameters:
  - `resource` fields;
  - `activates` for `Program::activate`;
  - `value` for the uniform-id lookup the engine's uniform loop assumes but does not show;
  - `fromString` for `Shader::from_string`;
  - `glError` for whether `glGetError` reports an error at the end of `DrawEngine::draw`.
- File I/O and PNG decoding in `Texture2D::load_from_file` are not modelled; they are device and OS effects. The outcome of opening and reading the file in `Shader::from_file` becomes the `file` parameter.
- Debug output is left out as logging with no effect on the modelled state: `enable_debug` and the debug callbacks.
- `bind_vao` and `clear` of the two builders are left out: they are single GL calls with no bookkeeping.
- The source's helper files are not part of this model: `program.rs`, `gl_*_resource.rs`, `global_lock.rs`, `buffer_data.rs`, `lib.rs`.
  - They contain RAII wrappers, a static mutex, a plain struct and module declarations.
  - The checks of `GLShaderResource::new` appear only as `Shaders.ResourceAccepts`.
- Items referenced but not defined in the files are abstracted:
  - `Buffer::get_key` and `UniformHandle` ids are plain `nat` keys;
  - `MutableBuffer` is the buffer itself;
  - `Buffer::new::<T>()` is `Buffers.New` of the GLSL type.
- In `draw.rs` the `Rc<RefCell<..>>` contents are read from a `Cells` snapshot. A `RefCell` borrow panic cannot be expressed and is not modelled.
- Floating point is abstracted:
  - An environment's `f32` depth is an exact `real`, and NaN placement is not modelled.
  - Uniform payloads are opaque integer sequences.
- The `u32` `texture_target` counter and `TEXTURE0 + texture_target` are unbounded. A pass binding 2^32 textures is not modelled.
- Debug builds panic on integer overflow; the model follows release builds. Where a product is modelled, it wraps as in a release build.
- `ResourceTables.Create`: requires the `usize` counter below `usize::MAX`. The source's `+= 1` would overflow there, which is not modelled. `ResourceTables.Run` reports that case as `None`.
- `DrawEngine.CreateBuffer`: same counter precondition. It applies equally to `DrawEngine.CreateShader`, `DrawEngine.CreateTexture` and `DrawEngine.CreateDrawEnv`.
- `DrawEngine.FreeBuffer`: requires the id to be live, because the source panics ("Unreachable") otherwise. The same holds for every `DrawEngine.Free*` and `DrawEngine.Get*` member and for `ResourceTables.Free`/`ResourceTables.Modify`.
- `Textures.LoadFromPixels`: requires the `u32` product `bpc * width * height` not to overflow. Overflowing dimensions are not modelled.
- `Textures.Blit`: requires the `u32` sums `x + width` and `y + height` not to overflow, and the area product not to overflow when the region is in bounds.
- `EngineDraw.EnvPassCmds`: states the first two calls and the last call of a pass. The calls between them are stated by `EngineDraw.SetupTrace`, `EngineDraw.BufferPassCmds` and `EngineDraw.TexturePassUnits`.
