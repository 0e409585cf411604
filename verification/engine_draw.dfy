/** `DrawEngine::draw` of `draw_engine.rs`: clear, make a vertex array current, replay every
    draw environment in list order, delete the vertex array. Each environment's pass looks
    its shader and index buffer up in the registries, binds its buffers and textures, sets
    depth and blending, sends its uniforms and issues one `DrawElements`. A failed lookup
    panics through `expect`; the calls made before the panic stay in the trace. */
module EngineDraw {
  import opened GL
  import opened Results
  import opened Commands
  import RT = ResourceTables
  import Glsl
  import Buffers
  import Shaders
  import Textures
  import DrawEnvs
  import opened DrawEngine

  /** Why `draw` panicked. The `expect` messages carry a source line: the environment's own
      line, or a line read from one of the `*_init_lines` vectors. */
  datatype DrawFault =
    | ProgramNotBound(line: nat)
    | CouldNotActivate(line: nat)
    | IndexBufferNotBound(line: nat)
    | NotElementBuffer(line: nat)
    | InvalidBufferHandle(line: nat)
    | InvalidTextureHandle(line: nat)
    | LineIndexOutOfBounds(index: nat)
    | UniformIsNone
    | GlErrorRecorded

  /** A binding of handle `h` gets through the lookup of lines 256 and 271. The argument of
      `expect` is evaluated whether or not the lookup found the handle, and it indexes the
      init-line vector with the handle id itself, so `h` must be below that vector's length
      as well as live. */
  predicate BindingOk<R>(t: RT.Table<R>, h: nat) {
    h < |t.lines| && RT.Live(t, h)
  }

  /** The panic of a binding that fails `BindingOk`: the index out of bounds, or the failed
      lookup, whose message names the line stored at position `h`. */
  function BindingFault<R>(t: RT.Table<R>, h: nat, texture: bool): DrawFault {
    if h >= |t.lines| then LineIndexOutOfBounds(h)
    else if texture then InvalidTextureHandle(t.lines[h])
    else InvalidBufferHandle(t.lines[h])
  }

  /** `list[k]` is the first binding that fails. */
  predicate FirstBad<R>(t: RT.Table<R>, list: seq<DrawEnvs.Binding>, k: nat) {
    && k < |list| && !BindingOk(t, list[k].handle)
    && forall j :: 0 <= j < k ==> BindingOk(t, list[j].handle)
  }

  /** Every binding passes the lookup. */
  predicate AllOk<R>(t: RT.Table<R>, list: seq<DrawEnvs.Binding>) {
    forall k :: 0 <= k < |list| ==> BindingOk(t, list[k].handle)
  }

  /** One iteration of the buffer loop: look the handle up, then bind, enable and point
      the attribute. */
  function BufferStep(t: RT.Table<Buffers.Buffer>, b: DrawEnvs.Binding): Run<DrawFault>
    requires RT.Valid(t)
  {
    if !BindingOk(t, b.handle) then Run([], Some(BindingFault(t, b.handle, false)))
    else Run(AttribCmds(RT.Get(t, b.handle), b.loc), None)
  }

  /** The buffer loop of one environment: its iterations in list order. */
  function BufferPass(t: RT.Table<Buffers.Buffer>, list: seq<DrawEnvs.Binding>): Run<DrawFault>
    requires RT.Valid(t)
  {
    Chain(BufferRuns(t, list), 0)
  }

  /** The buffer loop's iterations, one per binding. */
  function BufferRuns(t: RT.Table<Buffers.Buffer>, list: seq<DrawEnvs.Binding>): (r: seq<Run<DrawFault>>)
    requires RT.Valid(t)
    ensures |r| == |list| && forall k :: 0 <= k < |list| ==> r[k] == BufferStep(t, list[k])
  {
    seq(|list|, k requires 0 <= k < |list| => BufferStep(t, list[k]))
  }

  /** One iteration of the texture loop. `texture_target` counts the bindings done so far,
      so binding `unit` goes to texture unit `unit`. */
  function TextureStep(t: RT.Table<Textures.Texture>, b: DrawEnvs.Binding, unit: nat): Run<DrawFault>
    requires RT.Valid(t)
  {
    if !BindingOk(t, b.handle) then Run([], Some(BindingFault(t, b.handle, true)))
    else Run(TextureCmds(RT.Get(t, b.handle), b.loc, unit), None)
  }

  /** The three calls that put texture `tex` on texture unit `unit` and point the sampler
      at location `loc` to it. */
  function TextureCmds(tex: Textures.Texture, loc: int, unit: nat): seq<Cmd> {
    [Texture(ActiveTexture(TEXTURE0 + unit)), Texture(BindTexture(TEXTURE_2D, tex.resource)), Texture(Uniform1i(loc, unit))]
  }

  /** The texture loop of one environment. */
  function TexturePass(t: RT.Table<Textures.Texture>, list: seq<DrawEnvs.Binding>): Run<DrawFault>
    requires RT.Valid(t)
  {
    Chain(TextureRuns(t, list), 0)
  }

  /** The texture loop's iterations, one per binding. */
  function TextureRuns(t: RT.Table<Textures.Texture>, list: seq<DrawEnvs.Binding>): (r: seq<Run<DrawFault>>)
    requires RT.Valid(t)
    ensures |r| == |list| && forall k :: 0 <= k < |list| ==> r[k] == TextureStep(t, list[k], k)
  {
    seq(|list|, k requires 0 <= k < |list| => TextureStep(t, list[k], k))
  }

  /** One iteration of the uniform loop. The source matches each entry against the
      `GLSLAny` variants, but the entries of `DrawEnv.uniforms` are ids; `value` stands for
      the id-to-value lookup the source does not show. `None` reaches `unreachable!()`. */
  function UniformStep(b: DrawEnvs.Binding, value: nat -> Option<Glsl.UniformValue>): Run<DrawFault> {
    match value(b.handle)
    case None => Run([], Some(UniformIsNone))
    case Some(v) => Run([UniformCmd(b.loc, v)], None)
  }

  /** The uniform loop of one environment. */
  function UniformPass(list: seq<DrawEnvs.Binding>, value: nat -> Option<Glsl.UniformValue>): Run<DrawFault> {
    Chain(UniformRuns(list, value), 0)
  }

  /** The uniform loop's iterations, one per entry. */
  function UniformRuns(list: seq<DrawEnvs.Binding>, value: nat -> Option<Glsl.UniformValue>): (r: seq<Run<DrawFault>>)
    ensures |r| == |list| && forall k :: 0 <= k < |list| ==> r[k] == UniformStep(list[k], value)
  {
    seq(|list|, k requires 0 <= k < |list| => UniformStep(list[k], value))
  }

  /** The panics of the buffer loop: it gets through exactly when every binding does, and
      otherwise panics on the first binding that does not. It never draws. */
  lemma BufferPassFaults(t: RT.Table<Buffers.Buffer>, list: seq<DrawEnvs.Binding>)
    requires RT.Valid(t)
    ensures var r := BufferPass(t, list);
      && NoDraws(r.cmds)
      && (r.fault.None? <==> AllOk(t, list))
      && (r.fault.Some? ==> exists k: nat :: FirstBad(t, list, k) && r.fault.value == BindingFault(t, list[k].handle, false))
  {
    var runs := BufferRuns(t, list);
    ChainFaults(runs, 0);
    ChainNoDraws(runs, 0);
    if BufferPass(t, list).fault.Some? {
      var k: nat :| FirstFail(runs, 0, k) && BufferPass(t, list).fault == runs[k].fault;
      assert FirstBad(t, list, k);
    }
  }

  /** A buffer loop that gets through makes three calls per binding, in list order: the
      binding's buffer bound to the buffer's own target, its location enabled, and an
      attribute pointer with the buffer's component count and type. */
  lemma BufferPassCmds(t: RT.Table<Buffers.Buffer>, list: seq<DrawEnvs.Binding>)
    requires RT.Valid(t) && AllOk(t, list)
    ensures |BufferPass(t, list).cmds| == 3 * |list|
    ensures forall k :: 0 <= k < |list| ==> (BindingOk(t, list[k].handle) &&
      var buf := RT.Get(t, list[k].handle);
      && BufferPass(t, list).cmds[3 * k] == Attrib(BindBuffer(buf.bufferType, buf.resource))
      && BufferPass(t, list).cmds[3 * k + 1] == Attrib(EnableVertexAttribArray(list[k].loc))
      && BufferPass(t, list).cmds[3 * k + 2] == Attrib(VertexAttribPointer(list[k].loc, buf.glslTypeCount, buf.glslType)))
  {
    var runs := BufferRuns(t, list);
    ChainLength(runs, 0, 3);
    forall k | 0 <= k < |list|
      ensures BindingOk(t, list[k].handle) &&
        var buf := RT.Get(t, list[k].handle);
        && BufferPass(t, list).cmds[3 * k] == Attrib(BindBuffer(buf.bufferType, buf.resource))
        && BufferPass(t, list).cmds[3 * k + 1] == Attrib(EnableVertexAttribArray(list[k].loc))
        && BufferPass(t, list).cmds[3 * k + 2] == Attrib(VertexAttribPointer(list[k].loc, buf.glslTypeCount, buf.glslType))
    {
      ChainAt(runs, 0, 3, k, 0);
      ChainAt(runs, 0, 3, k, 1);
      ChainAt(runs, 0, 3, k, 2);
    }
  }

  /** The panics of the texture loop, as for buffers. */
  lemma TexturePassFaults(t: RT.Table<Textures.Texture>, list: seq<DrawEnvs.Binding>)
    requires RT.Valid(t)
    ensures var r := TexturePass(t, list);
      && NoDraws(r.cmds)
      && (r.fault.None? <==> AllOk(t, list))
      && (r.fault.Some? ==> exists k: nat :: FirstBad(t, list, k) && r.fault.value == BindingFault(t, list[k].handle, true))
  {
    var runs := TextureRuns(t, list);
    ChainFaults(runs, 0);
    ChainNoDraws(runs, 0);
    if TexturePass(t, list).fault.Some? {
      var k: nat :| FirstFail(runs, 0, k) && TexturePass(t, list).fault == runs[k].fault;
      assert FirstBad(t, list, k);
    }
  }

  /** A texture loop that gets through makes three calls per binding and hands out texture
      units 0, 1, 2, ... in list order, telling each binding's sampler location its unit. */
  lemma TexturePassUnits(t: RT.Table<Textures.Texture>, list: seq<DrawEnvs.Binding>)
    requires RT.Valid(t) && AllOk(t, list)
    ensures |TexturePass(t, list).cmds| == 3 * |list|
    ensures forall k :: 0 <= k < |list| ==> (BindingOk(t, list[k].handle)
      && TexturePass(t, list).cmds[3 * k] == Texture(ActiveTexture(TEXTURE0 + k))
      && TexturePass(t, list).cmds[3 * k + 1] == Texture(BindTexture(TEXTURE_2D, RT.Get(t, list[k].handle).resource))
      && TexturePass(t, list).cmds[3 * k + 2] == Texture(Uniform1i(list[k].loc, k)))
  {
    var runs := TextureRuns(t, list);
    ChainLength(runs, 0, 3);
    forall k | 0 <= k < |list|
      ensures BindingOk(t, list[k].handle)
        && TexturePass(t, list).cmds[3 * k] == Texture(ActiveTexture(TEXTURE0 + k))
        && TexturePass(t, list).cmds[3 * k + 1] == Texture(BindTexture(TEXTURE_2D, RT.Get(t, list[k].handle).resource))
        && TexturePass(t, list).cmds[3 * k + 2] == Texture(Uniform1i(list[k].loc, k))
    {
      ChainAt(runs, 0, 3, k, 0);
      ChainAt(runs, 0, 3, k, 1);
      ChainAt(runs, 0, 3, k, 2);
    }
  }

  /** The uniform loop sends every value in list order, or reaches `unreachable!()` if some
      entry has none. It never draws. */
  lemma UniformPassSpec(list: seq<DrawEnvs.Binding>, value: nat -> Option<Glsl.UniformValue>)
    ensures var r := UniformPass(list, value);
      && NoDraws(r.cmds)
      && (r.fault.None? <==> forall k :: 0 <= k < |list| ==> value(list[k].handle).Some?)
      && (r.fault.Some? ==> r.fault.value == UniformIsNone)
      && (r.fault.None? ==> |r.cmds| == |list| && forall k :: 0 <= k < |list| ==>
            r.cmds[k] == UniformCmd(list[k].loc, value(list[k].handle).value))
  {
    var runs := UniformRuns(list, value);
    ChainFaults(runs, 0);
    ChainNoDraws(runs, 0);
    if UniformPass(list, value).fault.None? {
      assert forall k :: 0 <= k < |list| ==> value(list[k].handle).Some?;
      ChainLength(runs, 0, 1);
      forall k | 0 <= k < |list|
        ensures UniformPass(list, value).cmds[k] == UniformCmd(list[k].loc, value(list[k].handle).value)
      {
        ChainAt(runs, 0, 1, k, 0);
      }
    }
  }

  /** The set-up of one environment between binding its index buffer and drawing: buffers,
      textures, depth and blending, then uniforms. */
  function Setup(e: Engine, x: EnvEntry, value: nat -> Option<Glsl.UniformValue>): Run<DrawFault>
    requires Valid(e)
  {
    Then(BufferPass(e.buffers, x.env.buffers),
    Then(TexturePass(e.textures, x.env.textures),
    Then(Run(DepthCmds(x.env.depth) + BlendCmds(x.env.blend), None),
         UniformPass(x.env.uniforms, value))))
  }

  /** Every buffer and texture binding passes the lookup and every uniform has a value. */
  predicate SetupOk(e: Engine, x: EnvEntry, value: nat -> Option<Glsl.UniformValue>)
    requires Valid(e)
  {
    && AllOk(e.buffers, x.env.buffers)
    && AllOk(e.textures, x.env.textures)
    && (forall k :: 0 <= k < |x.env.uniforms| ==> value(x.env.uniforms[k].handle).Some?)
  }

  /** The set-up gets through exactly when `SetupOk` holds, and never draws. */
  lemma SetupSpec(e: Engine, x: EnvEntry, value: nat -> Option<Glsl.UniformValue>)
    requires Valid(e)
    ensures NoDraws(Setup(e, x, value).cmds)
    ensures Setup(e, x, value).fault.None? <==> SetupOk(e, x, value)
  {
    BufferPassFaults(e.buffers, x.env.buffers);
    TexturePassFaults(e.textures, x.env.textures);
    UniformPassSpec(x.env.uniforms, value);
    SettingsDrawNothing(x.env.depth, x.env.blend);
  }

  /** A set-up that gets through is, in this order: the buffer loop, the texture loop, the
      depth block, the blend block and the uniform loop. */
  lemma SetupTrace(e: Engine, x: EnvEntry, value: nat -> Option<Glsl.UniformValue>)
    requires Valid(e) && SetupOk(e, x, value)
    ensures Setup(e, x, value).cmds ==
      BufferPass(e.buffers, x.env.buffers).cmds + TexturePass(e.textures, x.env.textures).cmds
      + DepthCmds(x.env.depth) + BlendCmds(x.env.blend) + UniformPass(x.env.uniforms, value).cmds
  {
    BufferPassFaults(e.buffers, x.env.buffers);
    TexturePassFaults(e.textures, x.env.textures);
    UniformPassSpec(x.env.uniforms, value);
  }

  /** Everything one environment needs for its pass to get through: a live shader that
      activates, a live index buffer initialised as an element buffer, and a set-up that
      gets through. */
  predicate EnvOk(e: Engine, x: EnvEntry, activates: Shaders.Shader -> bool,
                  value: nat -> Option<Glsl.UniformValue>)
    requires Valid(e)
  {
    && RT.Live(e.shaders, x.env.shader) && activates(RT.Get(e.shaders, x.env.shader))
    && RT.Live(e.buffers, x.env.indices)
    && RT.Get(e.buffers, x.env.indices).bufferType == ELEMENT_ARRAY_BUFFER
    && SetupOk(e, x, value)
  }

  /** The draw call of an environment whose index buffer is live. The `GLint` product
      `count * 3` wraps to 32 bits (a release build). */
  function DrawOf(e: Engine, x: EnvEntry, count: int, offset: int): Cmd
    requires Valid(e) && RT.Live(e.buffers, x.env.indices)
  {
    Frame(DrawElements(TRIANGLES, AsI32(count * 3), RT.Get(e.buffers, x.env.indices).glslType, offset))
  }

  /** The body of the `for_each` over `draw_envs` for one entry. `activates` says whether
      `Shader::activate` succeeds; on success the program is current, recorded as
      `UseProgram`. */
  function EnvPass(e: Engine, x: EnvEntry, count: int, offset: int,
                   activates: Shaders.Shader -> bool, value: nat -> Option<Glsl.UniformValue>): Run<DrawFault>
    requires Valid(e)
  {
    match RT.Slot(e.shaders, x.env.shader)
    case None => Run([], Some(ProgramNotBound(x.line)))
    case Some(p) =>
      var program := e.shaders.items[p];
      if !activates(program) then Run([], Some(CouldNotActivate(e.shaders.lines[p])))
      else
        var use := Frame(UseProgram(program.resource));
        match RT.Slot(e.buffers, x.env.indices)
        case None => Run([use], Some(IndexBufferNotBound(x.line)))
        case Some(ii) =>
          var ib := e.buffers.items[ii];
          if ib.bufferType != ELEMENT_ARRAY_BUFFER then Run([use], Some(NotElementBuffer(e.buffers.lines[ii])))
          else
            Then(Run([use, Attrib(BindBuffer(ib.bufferType, ib.resource))], None),
            Then(Setup(e, x, value),
                 Run([Frame(DrawElements(TRIANGLES, AsI32(count * 3), ib.glslType, offset))], None)))
  }

  /** One environment's pass gets through exactly when `EnvOk` holds; an unbound shader
      or index buffer panics with the environment's line. */
  lemma EnvPassSpec(e: Engine, x: EnvEntry, count: int, offset: int,
                    activates: Shaders.Shader -> bool, value: nat -> Option<Glsl.UniformValue>)
    requires Valid(e)
    ensures var r := EnvPass(e, x, count, offset, activates, value);
      && (r.fault.None? <==> EnvOk(e, x, activates, value))
      && (!RT.Live(e.shaders, x.env.shader) ==> r == Run([], Some(ProgramNotBound(x.line))))
      && (RT.Live(e.shaders, x.env.shader) && activates(RT.Get(e.shaders, x.env.shader)) ==>
            !RT.Live(e.buffers, x.env.indices) ==> r.fault == Some(IndexBufferNotBound(x.line)))
  {
    SetupSpec(e, x, value);
  }

  /** A pass that gets through starts by making its program current and binding its index
      buffer as the element buffer, and ends with its draw call, the only one it makes. */
  lemma EnvPassCmds(e: Engine, x: EnvEntry, count: int, offset: int,
                    activates: Shaders.Shader -> bool, value: nat -> Option<Glsl.UniformValue>)
    requires Valid(e) && EnvOk(e, x, activates, value)
    ensures var r := EnvPass(e, x, count, offset, activates, value);
      && r.fault.None? && |r.cmds| >= 3
      && r.cmds[0] == Frame(UseProgram(RT.Get(e.shaders, x.env.shader).resource))
      && r.cmds[1] == Attrib(BindBuffer(ELEMENT_ARRAY_BUFFER, RT.Get(e.buffers, x.env.indices).resource))
      && r.cmds[|r.cmds| - 1] == DrawOf(e, x, count, offset)
      && Draws(r.cmds) == [DrawOf(e, x, count, offset)]
  {
    SetupSpec(e, x, value);
    var ib := RT.Get(e.buffers, x.env.indices);
    var head := [Frame(UseProgram(RT.Get(e.shaders, x.env.shader).resource)), Attrib(BindBuffer(ib.bufferType, ib.resource))];
    var body := head + Setup(e, x, value).cmds;
    var draw := DrawOf(e, x, count, offset);
    assert EnvPass(e, x, count, offset, activates, value).cmds == body + [draw];
    assert NoDraws(body);
    DrawsEndingIn(body, draw);
  }

  /** The passes of the draw environments, in list order, stopping at the first panic. */
  function EnvsPass(e: Engine, count: int, offset: int,
                    activates: Shaders.Shader -> bool, value: nat -> Option<Glsl.UniformValue>): Run<DrawFault>
    requires Valid(e)
  {
    Chain(EnvRuns(e, count, offset, activates, value), 0)
  }

  /** The passes, one per environment. */
  function EnvRuns(e: Engine, count: int, offset: int,
                   activates: Shaders.Shader -> bool, value: nat -> Option<Glsl.UniformValue>): (r: seq<Run<DrawFault>>)
    requires Valid(e)
    ensures |r| == |e.envs|
    ensures forall k :: 0 <= k < |e.envs| ==> r[k] == EnvPass(e, e.envs[k], count, offset, activates, value)
  {
    seq(|e.envs|, k requires 0 <= k < |e.envs| => EnvPass(e, e.envs[k], count, offset, activates, value))
  }

  /** Every environment gets through its pass. */
  predicate AllEnvsOk(e: Engine, activates: Shaders.Shader -> bool, value: nat -> Option<Glsl.UniformValue>)
    requires Valid(e)
  {
    forall k :: 0 <= k < |e.envs| ==> EnvOk(e, e.envs[k], activates, value)
  }

  /** The passes get through exactly when every environment is `EnvOk`. */
  lemma EnvsPassFaults(e: Engine, count: int, offset: int,
                       activates: Shaders.Shader -> bool, value: nat -> Option<Glsl.UniformValue>)
    requires Valid(e)
    ensures EnvsPass(e, count, offset, activates, value).fault.None? <==> AllEnvsOk(e, activates, value)
  {
    var runs := EnvRuns(e, count, offset, activates, value);
    ChainFaults(runs, 0);
    forall k | 0 <= k < |e.envs|
      ensures runs[k].fault.None? <==> EnvOk(e, e.envs[k], activates, value)
    {
      EnvPassSpec(e, e.envs[k], count, offset, activates, value);
    }
  }

  /** When the passes get through, they make one draw call per environment, in list order. */
  lemma {:induction false} EnvsPassDraws(e: Engine, count: int, offset: int,
                      activates: Shaders.Shader -> bool, value: nat -> Option<Glsl.UniformValue>)
    requires Valid(e) && AllEnvsOk(e, activates, value)
    ensures var d := Draws(EnvsPass(e, count, offset, activates, value).cmds);
      && |d| == |e.envs|
      && forall k :: 0 <= k < |e.envs| ==> EnvOk(e, e.envs[k], activates, value) && d[k] == DrawOf(e, e.envs[k], count, offset)
  {
    var runs := EnvRuns(e, count, offset, activates, value);
    var ds := seq(|e.envs|, k requires 0 <= k < |e.envs| && RT.Live(e.buffers, e.envs[k].env.indices) =>
      DrawOf(e, e.envs[k], count, offset));
    forall k | 0 <= k < |e.envs|
      ensures runs[k].fault.None? && Draws(runs[k].cmds) == [ds[k]]
    {
      EnvPassCmds(e, e.envs[k], count, offset, activates, value);
    }
    ChainDrawsAre(runs, ds, 0);
    assert ds[0..] == ds;
  }

  /** `draw(count, offset)`: `vao` is the name `glGenVertexArrays` returns, and `glError`
      says whether `glGetError` reports an error after the vertex array is deleted, which
      the closing `assert!` turns into a panic. */
  function Draw(e: Engine, count: int, offset: int, vao: nat, glError: bool,
                activates: Shaders.Shader -> bool, value: nat -> Option<Glsl.UniformValue>): Run<DrawFault>
    requires Valid(e) && IsI32(count)
  {
    // the two mask bits are disjoint, so their `|` is their sum
    Then(Run(DrawPrologue(vao), None),
    Then(EnvsPass(e, count, offset, activates, value),
         Run([Frame(DeleteVertexArray(vao))], if glError then Some(GlErrorRecorded) else None)))
  }

  /** The calls `draw` makes before the first environment: clear colour and depth, then
      make a fresh vertex array current. */
  function DrawPrologue(vao: nat): seq<Cmd> {
    [Frame(Clear(COLOR_BUFFER_BIT + DEPTH_BUFFER_BIT)), Frame(GenVertexArray(vao)), Frame(BindVertexArray(vao))]
  }

  /** A draw always starts by clearing and binding a fresh vertex array. When every
      environment gets through, it deletes the vertex array, and then panics exactly when
      GL has recorded an error; a draw gets through exactly when both hold. */
  lemma DrawFaults(e: Engine, count: int, offset: int, vao: nat, glError: bool,
                   activates: Shaders.Shader -> bool, value: nat -> Option<Glsl.UniformValue>)
    requires Valid(e) && IsI32(count)
    ensures var r := Draw(e, count, offset, vao, glError, activates, value);
      && |r.cmds| >= 3
      && r.cmds[0] == Frame(Clear(COLOR_BUFFER_BIT + DEPTH_BUFFER_BIT))
      && r.cmds[1] == Frame(GenVertexArray(vao))
      && r.cmds[2] == Frame(BindVertexArray(vao))
      && (r.fault.None? <==> AllEnvsOk(e, activates, value) && !glError)
      && (AllEnvsOk(e, activates, value) ==> r.cmds[|r.cmds| - 1] == Frame(DeleteVertexArray(vao)))
      && (AllEnvsOk(e, activates, value) && glError ==> r.fault == Some(GlErrorRecorded))
  {
    EnvsPassFaults(e, count, offset, activates, value);
  }

  /** A draw whose environments all get through has made one `DrawElements` of `count * 3`
      indices (the wrapped `GLint` product) per environment, in list order, each with its
      environment's index type, whether or not the closing error check then panics. */
  lemma {:induction false} DrawSpec(e: Engine, count: int, offset: int, vao: nat, glError: bool,
                 activates: Shaders.Shader -> bool, value: nat -> Option<Glsl.UniformValue>)
    requires Valid(e) && IsI32(count) && AllEnvsOk(e, activates, value)
    ensures var d := Draws(Draw(e, count, offset, vao, glError, activates, value).cmds);
      && |d| == |e.envs|
      && forall k :: 0 <= k < |e.envs| ==> EnvOk(e, e.envs[k], activates, value) && d[k] == DrawOf(e, e.envs[k], count, offset)
  {
    EnvsPassFaults(e, count, offset, activates, value);
    EnvsPassDraws(e, count, offset, activates, value);
    var body := EnvsPass(e, count, offset, activates, value).cmds;
    var tail := [Frame(DeleteVertexArray(vao))];
    assert Draw(e, count, offset, vao, glError, activates, value).cmds == DrawPrologue(vao) + (body + tail);
    DrawsAppend(body, tail);
    DrawsAppend(DrawPrologue(vao), body + tail);
    DrawsOnlyDraws(tail);
    DrawsOnlyDraws(DrawPrologue(vao));
    assert Draws(Draw(e, count, offset, vao, glError, activates, value).cmds) == Draws(body);
  }

  /** A draw environment nobody set up never gets past its shader lookup: the `usize::MAX`
      sentinel `DrawEnv::new` leaves is never a live shader id. */
  lemma FreshEnvNeedsProgram(e: Engine, depth: real, id: nat, line: nat, count: int, offset: int,
                             activates: Shaders.Shader -> bool, value: nat -> Option<Glsl.UniformValue>)
    requires Valid(e)
    ensures EnvPass(e, EnvEntry(depth, id, DrawEnvs.New(), line), count, offset, activates, value)
      == Run([], Some(ProgramNotBound(line)))
  {
    assert !RT.Live(e.shaders, USIZE_MAX) by {
      assert forall i :: 0 <= i < |e.shaders.ids| ==> e.shaders.ids[i] < USIZE_MAX;
    }
  }

  /** The `expect` message costs a live buffer its draw: after creating buffers 0 and 1
      and freeing 0, buffer 1 is live but the init-line vector has one entry, so a binding
      of buffer 1 panics on the index although its lookup succeeds. */
  lemma LiveBufferIndexPanics(b: Buffers.Buffer, loc: int)
    ensures var t0 := RT.Empty<Buffers.Buffer>();
      var (t1, id0) := RT.Create(t0, b, 10);
      var (t2, id1) := RT.Create(t1, b, 11);
      var t3 := RT.Free(t2, id0);
      && RT.Live(t3, id1)
      && BufferPass(t3, [DrawEnvs.Binding(id1, loc)]).fault == Some(LineIndexOutOfBounds(1))
  {
    var t0 := RT.Empty<Buffers.Buffer>();
    var (t1, id0) := RT.Create(t0, b, 10);
    var (t2, id1) := RT.Create(t1, b, 11);
    var t3 := RT.Free(t2, id0);
    assert |t3.lines| == 1 && id1 == 1;
    var runs := BufferRuns(t3, [DrawEnvs.Binding(id1, loc)]);
    assert runs[0] == Run([], Some(LineIndexOutOfBounds(1)));
  }
}
