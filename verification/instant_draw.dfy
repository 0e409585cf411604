/** The `InstantDraw` builder of `instant_draw.rs`: a triangle draw assembled from borrowed
    program, buffers and textures and issued at once by `draw`. Unlike the `Draw` builder it
    copies what it needs out of each buffer when the buffer is attached, checks nothing,
    and sends the uniforms before the depth and blend settings. */
module InstantDrawBuilder {
  import opened GL
  import opened Results
  import opened Commands
  import Glsl
  import Buffers
  import Textures
  import HostTypes

  /** What `with_buffer` copies out of a buffer: its GL name, its binding target, and the
      component count and type of its host type, and the attribute location. */
  datatype BufferEntry = BufferEntry(resource: nat, bufferType: GLenum, typeCount: int, typeType: GLenum, loc: int)

  /** A borrowed texture and the sampler location it is attached at. */
  datatype TextureEntry = TextureEntry(texture: Textures.Texture, loc: int)

  /** `count` is the `u32` index count (three per triangle); `program` is the program's GL
      name; `ibo` is the index buffer's GL name and index type. */
  datatype InstantDraw = InstantDraw(
    count: nat,
    drawType: GLenum,
    program: nat,
    ibo: (nat, GLenum),
    buffers: seq<BufferEntry>,
    textures: seq<TextureEntry>,
    uniforms: seq<UniformEntry>,
    depth: Option<GLenum>,
    blend: Option<(GLenum, GLenum)>)

  /** The only panic of `draw`: a `None` uniform reaching `unreachable!()`. */
  datatype InstantFault = UniformIsNone

  /** `start_tri_draw::<T>(count, program, ibo)`, where `T` is `elem` and `ibo` the index
      buffer's GL name. The `u32` product `count * 3` wraps (a release build). */
  function StartTriDraw(count: nat, program: nat, ibo: nat, elem: HostTypes.ElementHost): (d: InstantDraw)
    requires IsU32(count)
    ensures IsU32(d.count) && (d.count == 0 <==> count == 0) && AsI32(d.count) == AsI32(count * 3)
    ensures d.drawType == TRIANGLES && d.program == program
    ensures d.ibo == (ibo, HostTypes.ElementGetType(elem))
    ensures d.buffers == [] && d.textures == [] && d.uniforms == []
    ensures d.depth.None? && d.blend.None?
  {
    WrappedTripleZero(count);
    AsI32Wrapped(count * 3);
    InstantDraw((count * 3) % U32_LIMIT, TRIANGLES, program, (ibo, HostTypes.ElementGetType(elem)), [], [], [], None, None)
  }

  /** A call on the builder. `WithBuffer` names the buffer and its host type `T`. */
  datatype BuildOp =
    | WithBuffer(buffer: Buffers.Buffer, host: HostTypes.ImplType, loc: int)
    | WithTexture(texture: Textures.Texture, loc: int)
    | WithUniform(value: Option<Glsl.UniformValue>, loc: int)
    | EnableDepth(func: GLenum)
    | EnableBlend(sfactor: GLenum, dfactor: GLenum)

  /** What `with_buffer` records for buffer `b` of host type `h`. */
  function EntryOf(b: Buffers.Buffer, h: HostTypes.ImplType, loc: int): BufferEntry {
    BufferEntry(b.resource, b.bufferType, HostTypes.BufferGetType(h).0, HostTypes.BufferGetType(h).1, loc)
  }

  /** One builder call. */
  function Apply(d: InstantDraw, op: BuildOp): InstantDraw {
    match op
    case WithBuffer(b, h, loc) => d.(buffers := d.buffers + [EntryOf(b, h, loc)])
    case WithTexture(t, loc) => d.(textures := d.textures + [TextureEntry(t, loc)])
    case WithUniform(v, loc) => d.(uniforms := d.uniforms + [UniformEntry(v, loc)])
    case EnableDepth(f) => d.(depth := Some(f))
    case EnableBlend(s, f) => d.(blend := Some((s, f)))
  }

  /** The builder calls in order. */
  function Build(d: InstantDraw, ops: seq<BuildOp>): InstantDraw
    decreases |ops|
  {
    if |ops| == 0 then d else Build(Apply(d, ops[0]), ops[1..])
  }

  /** The buffers the calls attach, in call order. */
  function BuffersAdded(ops: seq<BuildOp>): seq<BufferEntry>
    decreases |ops|
  {
    if |ops| == 0 then []
    else (if ops[0].WithBuffer? then [EntryOf(ops[0].buffer, ops[0].host, ops[0].loc)] else []) + BuffersAdded(ops[1..])
  }

  /** The textures the calls attach, in call order. */
  function TexturesAdded(ops: seq<BuildOp>): seq<TextureEntry>
    decreases |ops|
  {
    if |ops| == 0 then []
    else (if ops[0].WithTexture? then [TextureEntry(ops[0].texture, ops[0].loc)] else []) + TexturesAdded(ops[1..])
  }

  /** The uniforms the calls add, in call order. */
  function UniformsAdded(ops: seq<BuildOp>): seq<UniformEntry>
    decreases |ops|
  {
    if |ops| == 0 then []
    else (if ops[0].WithUniform? then [UniformEntry(ops[0].value, ops[0].loc)] else []) + UniformsAdded(ops[1..])
  }

  /** The count, draw type, program and index buffer fixed by `start_tri_draw` never
      change. */
  lemma {:induction false} BuildKeeps(d: InstantDraw, ops: seq<BuildOp>)
    ensures var r := Build(d, ops);
      r.count == d.count && r.drawType == d.drawType && r.program == d.program && r.ibo == d.ibo
    decreases |ops|
  {
    if |ops| > 0 {
      BuildKeeps(Apply(d, ops[0]), ops[1..]);
    }
  }

  /** The buffer list grows by exactly the buffers the calls attach, in call order. */
  lemma {:induction false} BuildAppendsBuffers(d: InstantDraw, ops: seq<BuildOp>)
    ensures Build(d, ops).buffers == d.buffers + BuffersAdded(ops)
    decreases |ops|
  {
    if |ops| > 0 {
      BuildAppendsBuffers(Apply(d, ops[0]), ops[1..]);
      if ops[0].WithBuffer? {
        assert BuffersAdded(ops) == [EntryOf(ops[0].buffer, ops[0].host, ops[0].loc)] + BuffersAdded(ops[1..]);
      } else {
        assert BuffersAdded(ops) == BuffersAdded(ops[1..]);
      }
    }
  }

  /** The texture list grows by exactly the textures the calls attach, in call order. */
  lemma {:induction false} BuildAppendsTextures(d: InstantDraw, ops: seq<BuildOp>)
    ensures Build(d, ops).textures == d.textures + TexturesAdded(ops)
    decreases |ops|
  {
    if |ops| > 0 {
      BuildAppendsTextures(Apply(d, ops[0]), ops[1..]);
      if ops[0].WithTexture? {
        assert TexturesAdded(ops) == [TextureEntry(ops[0].texture, ops[0].loc)] + TexturesAdded(ops[1..]);
      } else {
        assert TexturesAdded(ops) == TexturesAdded(ops[1..]);
      }
    }
  }

  /** The uniform list grows by exactly the uniforms the calls add, in call order. */
  lemma {:induction false} BuildAppendsUniforms(d: InstantDraw, ops: seq<BuildOp>)
    ensures Build(d, ops).uniforms == d.uniforms + UniformsAdded(ops)
    decreases |ops|
  {
    if |ops| > 0 {
      BuildAppendsUniforms(Apply(d, ops[0]), ops[1..]);
      if ops[0].WithUniform? {
        assert UniformsAdded(ops) == [UniformEntry(ops[0].value, ops[0].loc)] + UniformsAdded(ops[1..]);
      } else {
        assert UniformsAdded(ops) == UniformsAdded(ops[1..]);
      }
    }
  }

  /** Building with one more call at the end is applying it to what was built. */
  lemma {:induction false} BuildSnoc(d: InstantDraw, ops: seq<BuildOp>, op: BuildOp)
    ensures Build(d, ops + [op]) == Apply(Build(d, ops), op)
    decreases |ops|
  {
    if |ops| > 0 {
      assert (ops + [op])[1..] == ops[1..] + [op];
      BuildSnoc(Apply(d, ops[0]), ops[1..], op);
    }
  }

  /** The last `enable_depth` wins, and so does the last `enable_blend`: the setting holds
      what the last call that sets it wrote, or what it held before the calls if none
      did. */
  lemma {:induction false} BuildLastWins(d: InstantDraw, ops: seq<BuildOp>)
    ensures var r := Build(d, ops);
      && (r.depth == d.depth || (r.depth.Some? && exists i :: 0 <= i < |ops| && ops[i] == EnableDepth(r.depth.value)))
      && (forall i :: (0 <= i < |ops| && ops[i].EnableDepth? &&
            (forall j :: i < j < |ops| ==> !ops[j].EnableDepth?)) ==> r.depth == Some(ops[i].func))
      && ((forall i :: 0 <= i < |ops| ==> !ops[i].EnableDepth?) ==> r.depth == d.depth)
      && (forall i :: (0 <= i < |ops| && ops[i].EnableBlend? &&
            (forall j :: i < j < |ops| ==> !ops[j].EnableBlend?)) ==> r.blend == Some((ops[i].sfactor, ops[i].dfactor)))
      && ((forall i :: 0 <= i < |ops| ==> !ops[i].EnableBlend?) ==> r.blend == d.blend)
    decreases |ops|
  {
    if |ops| > 0 {
      var init := ops[..|ops| - 1];
      var last := ops[|ops| - 1];
      assert ops == init + [last];
      BuildSnoc(d, init, last);
      BuildLastWins(d, init);
      var r0 := Build(d, init);
      if r0.depth != d.depth && !last.EnableDepth? {
        assert r0.depth.Some?;
        var i :| 0 <= i < |init| && init[i] == EnableDepth(r0.depth.value);
        assert ops[i] == init[i];
      }
    }
  }

  /** The component types `draw` points with `glVertexAttribIPointer`. */
  predicate IsIntegerType(ty: GLenum) {
    ty == BYTE || ty == UNSIGNED_BYTE || ty == SHORT || ty == UNSIGNED_SHORT || ty == INT || ty == UNSIGNED_INT
  }

  /** The three calls of one buffer: bind it to its target, enable the location, and point
      it, through the integer entry point for integer component types. */
  function BufferCmds(b: BufferEntry): seq<Cmd> {
    [Attrib(BindBuffer(b.bufferType, b.resource)), Attrib(EnableVertexAttribArray(b.loc)),
     if IsIntegerType(b.typeType) then Attrib(VertexAttribIPointer(b.loc, b.typeCount, b.typeType))
     else Attrib(VertexAttribPointer(b.loc, b.typeCount, b.typeType))]
  }

  /** The buffer loop's iterations, one per buffer. */
  function BufferRuns(list: seq<BufferEntry>): (r: seq<Run<InstantFault>>)
    ensures |r| == |list| && forall k :: 0 <= k < |list| ==> r[k] == Run(BufferCmds(list[k]), None)
  {
    seq(|list|, k requires 0 <= k < |list| => Run(BufferCmds(list[k]), None))
  }

  /** The texture loop's iterations: texture `k` on unit `k`. */
  function TextureRuns(list: seq<TextureEntry>): (r: seq<Run<InstantFault>>)
    ensures |r| == |list|
    ensures forall k :: 0 <= k < |list| ==> r[k] == Run(SamplerCmds(list[k].texture.resource, list[k].loc, k), None)
  {
    seq(|list|, k requires 0 <= k < |list| => Run(SamplerCmds(list[k].texture.resource, list[k].loc, k), None))
  }

  /** The calls between the index buffer and the uniforms: buffers, then textures. */
  function BindCalls(d: InstantDraw): seq<Cmd> {
    Chain(BufferRuns(d.buffers), 0).cmds + Chain(TextureRuns(d.textures), 0).cmds
  }

  /** The draw call `draw` ends with; the `u32` count is cast to `GLsizei`. */
  function FinalDraw(d: InstantDraw): Cmd {
    Frame(DrawElements(d.drawType, AsI32(d.count), d.ibo.1, 0))
  }

  /** `draw()`: nothing at all for a count of 0. */
  function DrawRun(d: InstantDraw): Run<InstantFault> {
    if d.count == 0 then Run([], None)
    else
      Then(Run([Frame(UseProgram(d.program)), Attrib(BindBuffer(ELEMENT_ARRAY_BUFFER, d.ibo.0))] + BindCalls(d), None),
      Then(SendUniforms(d.uniforms, UniformIsNone),
           Run(DepthCmds(d.depth) + BlendCmds(d.blend) + [FinalDraw(d)], None)))
  }

  /** A draw of no indices makes no call at all. */
  lemma ZeroCountDrawsNothing(d: InstantDraw)
    requires d.count == 0
    ensures DrawRun(d) == Run([], None)
  {
  }

  /** A draw of some indices starts with `UseProgram` and binds the index buffer as the
      element buffer, whether or not it panics later; it panics exactly when some uniform
      is `None`, and only with `UniformIsNone`. */
  lemma DrawFaults(d: InstantDraw)
    requires d.count > 0
    ensures var r := DrawRun(d);
      && |r.cmds| >= 2
      && r.cmds[0] == Frame(UseProgram(d.program))
      && r.cmds[1] == Attrib(BindBuffer(ELEMENT_ARRAY_BUFFER, d.ibo.0))
      && (r.fault.None? <==> forall k :: 0 <= k < |d.uniforms| ==> d.uniforms[k].value.Some?)
      && (r.fault.Some? ==> r.fault.value == UniformIsNone)
  {
    SendUniformsSpec(d.uniforms, UniformIsNone);
  }

  /** The buffer loop makes three calls per buffer; integer component types (`BYTE` to
      `UNSIGNED_INT`) are pointed with `glVertexAttribIPointer`, all others with
      `glVertexAttribPointer`. */
  lemma BufferCallsAt(list: seq<BufferEntry>)
    ensures |Chain(BufferRuns(list), 0).cmds| == 3 * |list|
    ensures forall k :: 0 <= k < |list| ==> (
      var c := Chain(BufferRuns(list), 0).cmds; var b := list[k];
      && c[3 * k] == Attrib(BindBuffer(b.bufferType, b.resource))
      && c[3 * k + 1] == Attrib(EnableVertexAttribArray(b.loc))
      && (IsIntegerType(b.typeType) ==> c[3 * k + 2] == Attrib(VertexAttribIPointer(b.loc, b.typeCount, b.typeType)))
      && (!IsIntegerType(b.typeType) ==> c[3 * k + 2] == Attrib(VertexAttribPointer(b.loc, b.typeCount, b.typeType))))
  {
    var runs := BufferRuns(list);
    ChainLength(runs, 0, 3);
    forall k | 0 <= k < |list|
      ensures var c := Chain(runs, 0).cmds; var b := list[k];
        && c[3 * k] == Attrib(BindBuffer(b.bufferType, b.resource))
        && c[3 * k + 1] == Attrib(EnableVertexAttribArray(b.loc))
        && (IsIntegerType(b.typeType) ==> c[3 * k + 2] == Attrib(VertexAttribIPointer(b.loc, b.typeCount, b.typeType)))
        && (!IsIntegerType(b.typeType) ==> c[3 * k + 2] == Attrib(VertexAttribPointer(b.loc, b.typeCount, b.typeType)))
    {
      ChainAt(runs, 0, 3, k, 0);
      ChainAt(runs, 0, 3, k, 1);
      ChainAt(runs, 0, 3, k, 2);
    }
  }

  /** A buffer attached for host type `T` is pointed through the integer entry point
      exactly when `T` is an `i32` or `u32` scalar or tuple: `f32` data, the matrices, and
      `bool` data (whose component type is `BOOL`) go through the float one. */
  lemma IntegerPointerHosts(b: Buffers.Buffer, h: HostTypes.ImplType, loc: int)
    ensures IsIntegerType(EntryOf(b, h, loc).typeType) <==>
      h.Tuple? && (h.elem == HostTypes.I32 || h.elem == HostTypes.U32)
  {
  }

  /** The texture loop makes three calls per texture and hands out units 0, 1, 2, ... in
      list order, telling the sampler its unit before activating the unit and binding. */
  lemma TextureCallsAt(list: seq<TextureEntry>)
    ensures |Chain(TextureRuns(list), 0).cmds| == 3 * |list|
    ensures forall k :: 0 <= k < |list| ==> (
      var c := Chain(TextureRuns(list), 0).cmds;
      && c[3 * k] == Texture(Uniform1i(list[k].loc, k))
      && c[3 * k + 1] == Texture(ActiveTexture(TEXTURE0 + k))
      && c[3 * k + 2] == Texture(BindTexture(TEXTURE_2D, list[k].texture.resource)))
  {
    var runs := TextureRuns(list);
    ChainLength(runs, 0, 3);
    forall k | 0 <= k < |list|
      ensures var c := Chain(runs, 0).cmds;
        && c[3 * k] == Texture(Uniform1i(list[k].loc, k))
        && c[3 * k + 1] == Texture(ActiveTexture(TEXTURE0 + k))
        && c[3 * k + 2] == Texture(BindTexture(TEXTURE_2D, list[k].texture.resource))
    {
      ChainAt(runs, 0, 3, k, 0);
      ChainAt(runs, 0, 3, k, 1);
      ChainAt(runs, 0, 3, k, 2);
    }
  }

  /** The buffer and texture loops never draw. */
  lemma BindCallsDrawNothing(d: InstantDraw)
    ensures NoDraws(BindCalls(d))
  {
    ChainNoDraws(BufferRuns(d.buffers), 0);
    ChainNoDraws(TextureRuns(d.textures), 0);
    NoDrawsAppend(Chain(BufferRuns(d.buffers), 0).cmds, Chain(TextureRuns(d.textures), 0).cmds);
  }

  /** The trace of a draw that does not panic, as the concatenation of its parts. */
  lemma DrawTrace(d: InstantDraw)
    requires d.count > 0
    requires forall k :: 0 <= k < |d.uniforms| ==> d.uniforms[k].value.Some?
    ensures var r := DrawRun(d);
      && r.fault.None?
      && r.cmds == [Frame(UseProgram(d.program)), Attrib(BindBuffer(ELEMENT_ARRAY_BUFFER, d.ibo.0))] + BindCalls(d)
                   + SendUniforms(d.uniforms, UniformIsNone).cmds
                   + (DepthCmds(d.depth) + BlendCmds(d.blend)) + [FinalDraw(d)]
  {
    SendUniformsSpec(d.uniforms, UniformIsNone);
  }

  /** A draw of some indices whose uniforms all have values: program, index buffer,
      buffers and textures, then the uniforms in list order, then depth and blending, and
      last its one draw call. */
  lemma DrawCmds(d: InstantDraw)
    requires d.count > 0
    requires forall k :: 0 <= k < |d.uniforms| ==> d.uniforms[k].value.Some?
    ensures var r := DrawRun(d); var n := 2 + |BindCalls(d)|;
      && r.fault.None?
      && |r.cmds| == n + |d.uniforms| + |DepthCmds(d.depth) + BlendCmds(d.blend)| + 1
      && r.cmds[2..n] == BindCalls(d)
      && (forall k :: 0 <= k < |d.uniforms| ==>
            r.cmds[n + k] == UniformCmd(d.uniforms[k].loc, d.uniforms[k].value.value))
      && r.cmds[n + |d.uniforms| .. |r.cmds| - 1] == DepthCmds(d.depth) + BlendCmds(d.blend)
      && r.cmds[|r.cmds| - 1] == FinalDraw(d)
      && Draws(r.cmds) == [FinalDraw(d)]
  {
    DrawTrace(d);
    SendUniformsSpec(d.uniforms, UniformIsNone);
    BindCallsDrawNothing(d);
    SettingsDrawNothing(d.depth, d.blend);
    var head := [Frame(UseProgram(d.program)), Attrib(BindBuffer(ELEMENT_ARRAY_BUFFER, d.ibo.0))] + BindCalls(d);
    var u := SendUniforms(d.uniforms, UniformIsNone).cmds;
    var settings := DepthCmds(d.depth) + BlendCmds(d.blend);
    var cmds := DrawRun(d).cmds;
    assert cmds == (head + u) + settings + [FinalDraw(d)];
    assert cmds[2..|head|] == BindCalls(d);
    forall k | 0 <= k < |d.uniforms| ensures cmds[|head| + k] == u[k] {
    }
    assert cmds[|head| + |u| .. |cmds| - 1] == settings;
    assert NoDraws([Frame(UseProgram(d.program)), Attrib(BindBuffer(ELEMENT_ARRAY_BUFFER, d.ibo.0))]);
    NoDrawsAppend([Frame(UseProgram(d.program)), Attrib(BindBuffer(ELEMENT_ARRAY_BUFFER, d.ibo.0))], BindCalls(d));
    NoDrawsAppend(head, u);
    NoDrawsAppend(head + u, settings);
    DrawsEndingIn(head + u + settings, FinalDraw(d));
  }

  /** The `u32` product `count * 3` is 0 only for no triangles: 3 has no common factor
      with 2^32. */
  lemma WrappedTripleZero(count: nat)
    requires IsU32(count)
    ensures (count * 3) % U32_LIMIT == 0 <==> count == 0
  {
    var q := (count * 3) / U32_LIMIT;
    assert count * 3 == q * U32_LIMIT + (count * 3) % U32_LIMIT;
    assert 0 <= q < 3;
  }

  /** A triangle draw of `count` triangles, whatever was attached afterwards, ends with
      `DrawElements(TRIANGLES, count * 3, T's index type, 0)`, the product read as a
      `GLsizei` (exact up to 715827882 triangles); it makes no call exactly when `count`
      is 0, and otherwise starts by using `program` and binding `ibo`. */
  lemma TriDrawCall(count: nat, program: nat, ibo: nat, elem: HostTypes.ElementHost, ops: seq<BuildOp>)
    requires IsU32(count)
    ensures var d := Build(StartTriDraw(count, program, ibo, elem), ops);
      && d.drawType == TRIANGLES
      && FinalDraw(d) == Frame(DrawElements(TRIANGLES, AsI32(count * 3), HostTypes.ElementGetType(elem), 0))
      && (count * 3 <= I32_MAX ==> FinalDraw(d).frame.count == count * 3)
      && (count == 0 <==> DrawRun(d) == Run([], None))
      && (count > 0 ==> DrawRun(d).cmds[..2] == [Frame(UseProgram(program)), Attrib(BindBuffer(ELEMENT_ARRAY_BUFFER, ibo))])
  {
    var d := Build(StartTriDraw(count, program, ibo, elem), ops);
    BuildKeeps(StartTriDraw(count, program, ibo, elem), ops);
    WrappedTripleZero(count);
    AsI32Wrapped(count * 3);
    if count > 0 {
      DrawFaults(d);
    }
  }

  /** A triangle draw with no builder calls after `start_tri_draw` binds the program and
      the index buffer, turns depth test and blending off explicitly, and draws. */
  lemma BareTriDraw(count: nat, program: nat, ibo: nat, elem: HostTypes.ElementHost)
    requires IsU32(count) && count > 0
    ensures DrawRun(StartTriDraw(count, program, ibo, elem)) == Run([
      Frame(UseProgram(program)), Attrib(BindBuffer(ELEMENT_ARRAY_BUFFER, ibo)),
      State(Disable(DEPTH_TEST)), State(Disable(BLEND)),
      Frame(DrawElements(TRIANGLES, AsI32(count * 3), HostTypes.ElementGetType(elem), 0))], None)
  {
  }

  /** Reading the wrapped `u32` as a `GLsizei` is reading the unwrapped product. */
  lemma AsI32Wrapped(x: nat)
    ensures AsI32(x % U32_LIMIT) == AsI32(x)
  {
  }
}
