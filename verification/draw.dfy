/** The `Draw` builder of `draw.rs`: a draw call assembled piece by piece from shared
    (`Rc<RefCell<..>>`) programs, buffers and textures, then issued by `draw`. The shared
    objects are named by cell ids; what a cell holds when `draw` runs is the `Cells`
    parameter, since another owner may have changed it since it was attached. */
module DrawBuilder {
  import opened GL
  import opened Results
  import opened Commands
  import Glsl
  import Buffers
  import Textures

  /** The contents of the shared cells when `draw` runs: a program's GL name, a buffer, a
      texture. */
  datatype Cells = Cells(programs: map<nat, nat>, buffers: map<nat, Buffers.Buffer>, textures: map<nat, Textures.Texture>)

  /** A shared buffer or texture attached at a location. */
  datatype Attached = Attached(cell: nat, loc: int)

  datatype Draw = Draw(
    count: nat,
    drawType: GLenum,
    program: Option<nat>,
    ibo: Option<nat>,
    buffers: seq<Attached>,
    textures: seq<Attached>,
    uniforms: seq<UniformEntry>,
    depth: Option<GLenum>,
    blend: Option<(GLenum, GLenum)>)

  /** Why `draw` panicked. */
  datatype DrawFault =
    | NoProgram
    | NoIbo
    | InvalidDrawType
    | InvalidDrawCount
    | IboNotElementBuffer
    | UniformIsNone

  /** Every cell the draw refers to holds a value: an `Rc` keeps what it points at alive. */
  predicate Reaches(d: Draw, cells: Cells) {
    && (d.program.Some? ==> d.program.value in cells.programs)
    && (d.ibo.Some? ==> d.ibo.value in cells.buffers)
    && (forall k :: 0 <= k < |d.buffers| ==> d.buffers[k].cell in cells.buffers)
    && (forall k :: 0 <= k < |d.textures| ==> d.textures[k].cell in cells.textures)
  }

  /** `Draw::new()`: count and draw type 0, no program and no index buffer, nothing
      attached, and neither depth test nor blending. */
  function New(): (d: Draw)
    ensures d.count == 0 && d.drawType == 0
    ensures d.program.None? && d.ibo.None?
    ensures d.buffers == [] && d.textures == [] && d.uniforms == []
    ensures d.depth.None? && d.blend.None?
  {
    Draw(0, 0, None, None, [], [], [], None, None)
  }

  /** A call on the builder. */
  datatype BuildOp =
    | WithCount(num: nat, drawType: GLenum, program: nat, ibo: nat)
    | AddBuffer(buffer: nat, loc: int)
    | AddTexture(texture: nat, loc: int)
    | WithUniform(value: Option<Glsl.UniformValue>, loc: int)
    | EnableDepth(func: GLenum)
    | EnableBlend(sfactor: GLenum, dfactor: GLenum)

  /** One builder call: `with_count`, `enable_depth` and `enable_blend` overwrite their
      fields; the three lists are pushed onto. */
  function Apply(d: Draw, op: BuildOp): Draw {
    match op
    case WithCount(num, t, p, i) => d.(count := num, drawType := t, program := Some(p), ibo := Some(i))
    case AddBuffer(b, loc) => d.(buffers := d.buffers + [Attached(b, loc)])
    case AddTexture(t, loc) => d.(textures := d.textures + [Attached(t, loc)])
    case WithUniform(v, loc) => d.(uniforms := d.uniforms + [UniformEntry(v, loc)])
    case EnableDepth(f) => d.(depth := Some(f))
    case EnableBlend(s, f) => d.(blend := Some((s, f)))
  }

  /** The builder calls in order. */
  function Build(d: Draw, ops: seq<BuildOp>): Draw
    decreases |ops|
  {
    if |ops| == 0 then d else Build(Apply(d, ops[0]), ops[1..])
  }

  /** The buffers the calls attach, in call order. */
  function BuffersAdded(ops: seq<BuildOp>): seq<Attached>
    decreases |ops|
  {
    if |ops| == 0 then []
    else (if ops[0].AddBuffer? then [Attached(ops[0].buffer, ops[0].loc)] else []) + BuffersAdded(ops[1..])
  }

  /** The textures the calls attach, in call order. */
  function TexturesAdded(ops: seq<BuildOp>): seq<Attached>
    decreases |ops|
  {
    if |ops| == 0 then []
    else (if ops[0].AddTexture? then [Attached(ops[0].texture, ops[0].loc)] else []) + TexturesAdded(ops[1..])
  }

  /** The uniforms the calls add, in call order. */
  function UniformsAdded(ops: seq<BuildOp>): seq<UniformEntry>
    decreases |ops|
  {
    if |ops| == 0 then []
    else (if ops[0].WithUniform? then [UniformEntry(ops[0].value, ops[0].loc)] else []) + UniformsAdded(ops[1..])
  }

  /** The three settings the builder overwrites: the draw parameters of `with_count`,
      depth and blending. */
  datatype Setting = DrawParams | DepthSetting | BlendSetting

  /** `op` sets `f`. */
  predicate Sets(op: BuildOp, f: Setting) {
    match f
    case DrawParams => op.WithCount?
    case DepthSetting => op.EnableDepth?
    case BlendSetting => op.EnableBlend?
  }

  /** The index of the last call that sets `f`, if any. */
  function LastSet(ops: seq<BuildOp>, f: Setting): (r: Option<nat>)
    ensures r.Some? ==> r.value < |ops| && Sets(ops[r.value], f)
    ensures r.Some? ==> forall j :: r.value < j < |ops| ==> !Sets(ops[j], f)
    ensures r.None? ==> forall j :: 0 <= j < |ops| ==> !Sets(ops[j], f)
    decreases |ops|
  {
    if |ops| == 0 then None
    else if Sets(ops[|ops| - 1], f) then Some(|ops| - 1)
    else LastSet(ops[..|ops| - 1], f)
  }

  /** The lists grow by exactly what the calls add, in call order, with nothing removed or
      merged: attaching the same buffer twice attaches it twice. */
  lemma {:induction false} BuildAppends(d: Draw, ops: seq<BuildOp>)
    ensures Build(d, ops).buffers == d.buffers + BuffersAdded(ops)
    ensures Build(d, ops).textures == d.textures + TexturesAdded(ops)
    ensures Build(d, ops).uniforms == d.uniforms + UniformsAdded(ops)
    decreases |ops|
  {
    if |ops| > 0 {
      BuildAppends(Apply(d, ops[0]), ops[1..]);
      assert d.buffers + (if ops[0].AddBuffer? then [Attached(ops[0].buffer, ops[0].loc)] else []) + BuffersAdded(ops[1..])
        == d.buffers + BuffersAdded(ops);
      assert d.textures + (if ops[0].AddTexture? then [Attached(ops[0].texture, ops[0].loc)] else []) + TexturesAdded(ops[1..])
        == d.textures + TexturesAdded(ops);
      assert d.uniforms + (if ops[0].WithUniform? then [UniformEntry(ops[0].value, ops[0].loc)] else []) + UniformsAdded(ops[1..])
        == d.uniforms + UniformsAdded(ops);
    }
  }

  /** Building with one more call at the end is applying it to what was built. */
  lemma {:induction false} BuildSnoc(d: Draw, ops: seq<BuildOp>, op: BuildOp)
    ensures Build(d, ops + [op]) == Apply(Build(d, ops), op)
    decreases |ops|
  {
    if |ops| > 0 {
      assert (ops + [op])[1..] == ops[1..] + [op];
      BuildSnoc(Apply(d, ops[0]), ops[1..], op);
    }
  }

  /** The value of a setting. */
  datatype SettingValue =
    | ParamsValue(count: nat, drawType: GLenum, program: Option<nat>, ibo: Option<nat>)
    | DepthValue(depth: Option<GLenum>)
    | BlendValue(blend: Option<(GLenum, GLenum)>)

  /** The value setting `f` has in `d`. */
  function Read(d: Draw, f: Setting): SettingValue {
    match f
    case DrawParams => ParamsValue(d.count, d.drawType, d.program, d.ibo)
    case DepthSetting => DepthValue(d.depth)
    case BlendSetting => BlendValue(d.blend)
  }

  /** The value a call that sets `f` writes. */
  function Written(op: BuildOp, f: Setting): SettingValue
    requires Sets(op, f)
  {
    match f
    case DrawParams => ParamsValue(op.num, op.drawType, Some(op.program), Some(op.ibo))
    case DepthSetting => DepthValue(Some(op.func))
    case BlendSetting => BlendValue(Some((op.sfactor, op.dfactor)))
  }

  /** A call overwrites the setting it sets and leaves the others alone. */
  lemma ApplySets(d: Draw, op: BuildOp, f: Setting)
    ensures Sets(op, f) ==> Read(Apply(d, op), f) == Written(op, f)
    ensures !Sets(op, f) ==> Read(Apply(d, op), f) == Read(d, f)
  {
  }

  /** The last `with_count`, `enable_depth` and `enable_blend` win: each setting holds
      what the last call that sets it wrote, or what it held before the calls if none
      did. */
  lemma {:induction false} BuildLastWins(d: Draw, ops: seq<BuildOp>, f: Setting)
    ensures Read(Build(d, ops), f) ==
      match LastSet(ops, f)
      case None => Read(d, f)
      case Some(i) => Written(ops[i], f)
    decreases |ops|
  {
    if |ops| > 0 {
      var init := ops[..|ops| - 1];
      var last := ops[|ops| - 1];
      assert ops == init + [last];
      BuildSnoc(d, init, last);
      BuildLastWins(d, init, f);
      ApplySets(Build(d, init), last, f);
    }
  }

  /** The index multiplier of a draw type: 1 for `POINTS`, 3 for `TRIANGLES`, and no other
      type is accepted. */
  function Mult(drawType: GLenum): (r: Option<nat>)
    ensures r.Some? <==> drawType == POINTS || drawType == TRIANGLES
    ensures drawType == POINTS ==> r == Some(1)
    ensures drawType == TRIANGLES ==> r == Some(3)
  {
    if drawType == POINTS then Some(1)
    else if drawType == TRIANGLES then Some(3)
    else None
  }

  /** The calls of the buffer loop: three per attached buffer, in list order. */
  function BufferCalls(list: seq<Attached>, cells: Cells): seq<Cmd>
    requires forall k :: 0 <= k < |list| ==> list[k].cell in cells.buffers
  {
    Chain(BufferRuns(list, cells), 0).cmds
  }

  function BufferRuns(list: seq<Attached>, cells: Cells): (r: seq<Run<DrawFault>>)
    requires forall k :: 0 <= k < |list| ==> list[k].cell in cells.buffers
    ensures |r| == |list|
    ensures forall k :: 0 <= k < |list| ==> r[k] == Run(AttribCmds(cells.buffers[list[k].cell], list[k].loc), None)
  {
    seq(|list|, k requires 0 <= k < |list| => Run(AttribCmds(cells.buffers[list[k].cell], list[k].loc), None))
  }

  /** The calls of the texture loop: three per attached texture, in list order, texture `k`
      on unit `k`. */
  function TextureCalls(list: seq<Attached>, cells: Cells): seq<Cmd>
    requires forall k :: 0 <= k < |list| ==> list[k].cell in cells.textures
  {
    Chain(TextureRuns(list, cells), 0).cmds
  }

  function TextureRuns(list: seq<Attached>, cells: Cells): (r: seq<Run<DrawFault>>)
    requires forall k :: 0 <= k < |list| ==> list[k].cell in cells.textures
    ensures |r| == |list|
    ensures forall k :: 0 <= k < |list| ==> r[k] == Run(SamplerCmds(cells.textures[list[k].cell].resource, list[k].loc, k), None)
  {
    seq(|list|, k requires 0 <= k < |list| => Run(SamplerCmds(cells.textures[list[k].cell].resource, list[k].loc, k), None))
  }

  /** Everything `draw` checks before it binds anything: a program and an index buffer are
      attached, the draw type is accepted, the count is not 0 and the index buffer is
      bound as an element buffer. */
  predicate Ready(d: Draw, cells: Cells)
    requires Reaches(d, cells)
  {
    && d.program.Some? && d.ibo.Some?
    && Mult(d.drawType).Some? && d.count > 0
    && cells.buffers[d.ibo.value].bufferType == ELEMENT_ARRAY_BUFFER
  }

  /** The draw call `draw` ends with. `count * mult` is a `usize` product cast to `GLsizei`;
      both the `usize` wrap-around and the cast keep the low 32 bits, hence `AsI32`. */
  function FinalDraw(d: Draw, cells: Cells): Cmd
    requires Reaches(d, cells) && Ready(d, cells)
  {
    Frame(DrawElements(d.drawType, AsI32(d.count * Mult(d.drawType).value), cells.buffers[d.ibo.value].glslType, 0))
  }

  /** Everything `draw` sends after the index buffer and before the uniforms. */
  function SetupCalls(d: Draw, cells: Cells): seq<Cmd>
    requires Reaches(d, cells)
  {
    BufferCalls(d.buffers, cells) + TextureCalls(d.textures, cells) + DepthCmds(d.depth) + BlendCmds(d.blend)
  }

  /** `draw()`. */
  function DrawRun(d: Draw, cells: Cells): Run<DrawFault>
    requires Reaches(d, cells)
  {
    if d.program.None? then Run([], Some(NoProgram))
    else if d.ibo.None? then Run([], Some(NoIbo))
    else
      var use := Frame(UseProgram(cells.programs[d.program.value]));
      var ibo := cells.buffers[d.ibo.value];
      match Mult(d.drawType)
      case None => Run([use], Some(InvalidDrawType))
      case Some(mult) =>
        if d.count == 0 then Run([use], Some(InvalidDrawCount))
        else if ibo.bufferType != ELEMENT_ARRAY_BUFFER then Run([use], Some(IboNotElementBuffer))
        else
          Then(Run([use, Attrib(BindBuffer(ibo.bufferType, ibo.resource))] + SetupCalls(d, cells), None),
          Then(SendUniforms(d.uniforms, UniformIsNone),
               Run([Frame(DrawElements(d.drawType, AsI32(d.count * mult), ibo.glslType, 0))], None)))
  }

  /** The panics of `draw`, in the order it checks: a missing program or index buffer
      before any call; a bad draw type, a zero count or an index buffer that is not an
      element buffer after `UseProgram` only; and otherwise a `None` uniform, which is the
      only way a ready draw fails. */
  lemma DrawFaults(d: Draw, cells: Cells)
    requires Reaches(d, cells)
    ensures var r := DrawRun(d, cells);
      && (d.program.None? ==> r == Run([], Some(NoProgram)))
      && (d.program.Some? && d.ibo.None? ==> r == Run([], Some(NoIbo)))
      && (d.program.Some? && d.ibo.Some? ==>
            var use := Frame(UseProgram(cells.programs[d.program.value]));
            && (Mult(d.drawType).None? ==> r == Run([use], Some(InvalidDrawType)))
            && (Mult(d.drawType).Some? && d.count == 0 ==> r == Run([use], Some(InvalidDrawCount)))
            && ((Mult(d.drawType).Some? && d.count > 0 &&
                 cells.buffers[d.ibo.value].bufferType != ELEMENT_ARRAY_BUFFER) ==> r == Run([use], Some(IboNotElementBuffer))))
      && (r.fault.None? <==> Ready(d, cells) && forall k :: 0 <= k < |d.uniforms| ==> d.uniforms[k].value.Some?)
      && (Ready(d, cells) && r.fault.Some? ==> r.fault.value == UniformIsNone)
  {
    SendUniformsSpec(d.uniforms, UniformIsNone);
  }

  /** A fresh builder cannot draw: it has no program. */
  lemma NewCannotDraw(cells: Cells)
    ensures Reaches(New(), cells) && DrawRun(New(), cells) == Run([], Some(NoProgram))
  {
  }

  /** The buffer loop makes three calls per buffer: bind it to its own target, enable its
      location, and point the attribute with the buffer's component count and type. */
  lemma BufferCallsAt(list: seq<Attached>, cells: Cells)
    requires forall k :: 0 <= k < |list| ==> list[k].cell in cells.buffers
    ensures |BufferCalls(list, cells)| == 3 * |list|
    ensures forall k :: 0 <= k < |list| ==> (list[k].cell in cells.buffers &&
      var buf := cells.buffers[list[k].cell];
      && BufferCalls(list, cells)[3 * k] == Attrib(BindBuffer(buf.bufferType, buf.resource))
      && BufferCalls(list, cells)[3 * k + 1] == Attrib(EnableVertexAttribArray(list[k].loc))
      && BufferCalls(list, cells)[3 * k + 2] == Attrib(VertexAttribPointer(list[k].loc, buf.glslTypeCount, buf.glslType)))
  {
    var runs := BufferRuns(list, cells);
    ChainLength(runs, 0, 3);
    forall k | 0 <= k < |list|
      ensures list[k].cell in cells.buffers &&
        var buf := cells.buffers[list[k].cell];
        && BufferCalls(list, cells)[3 * k] == Attrib(BindBuffer(buf.bufferType, buf.resource))
        && BufferCalls(list, cells)[3 * k + 1] == Attrib(EnableVertexAttribArray(list[k].loc))
        && BufferCalls(list, cells)[3 * k + 2] == Attrib(VertexAttribPointer(list[k].loc, buf.glslTypeCount, buf.glslType))
    {
      ChainAt(runs, 0, 3, k, 0);
      ChainAt(runs, 0, 3, k, 1);
      ChainAt(runs, 0, 3, k, 2);
    }
  }

  /** The texture loop makes three calls per texture and hands out units 0, 1, 2, ... in
      list order: the sampler location is told the unit before the unit is made active and
      the texture bound. */
  lemma TextureCallsAt(list: seq<Attached>, cells: Cells)
    requires forall k :: 0 <= k < |list| ==> list[k].cell in cells.textures
    ensures |TextureCalls(list, cells)| == 3 * |list|
    ensures forall k :: 0 <= k < |list| ==> (list[k].cell in cells.textures
      && TextureCalls(list, cells)[3 * k] == Texture(Uniform1i(list[k].loc, k))
      && TextureCalls(list, cells)[3 * k + 1] == Texture(ActiveTexture(TEXTURE0 + k))
      && TextureCalls(list, cells)[3 * k + 2] == Texture(BindTexture(TEXTURE_2D, cells.textures[list[k].cell].resource)))
  {
    var runs := TextureRuns(list, cells);
    ChainLength(runs, 0, 3);
    forall k | 0 <= k < |list|
      ensures list[k].cell in cells.textures
        && TextureCalls(list, cells)[3 * k] == Texture(Uniform1i(list[k].loc, k))
        && TextureCalls(list, cells)[3 * k + 1] == Texture(ActiveTexture(TEXTURE0 + k))
        && TextureCalls(list, cells)[3 * k + 2] == Texture(BindTexture(TEXTURE_2D, cells.textures[list[k].cell].resource))
    {
      ChainAt(runs, 0, 3, k, 0);
      ChainAt(runs, 0, 3, k, 1);
      ChainAt(runs, 0, 3, k, 2);
    }
  }

  /** The buffer and texture loops never draw. */
  lemma SetupDrawsNothing(d: Draw, cells: Cells)
    requires Reaches(d, cells)
    ensures NoDraws(SetupCalls(d, cells))
  {
    ChainNoDraws(BufferRuns(d.buffers, cells), 0);
    ChainNoDraws(TextureRuns(d.textures, cells), 0);
    SettingsDrawNothing(d.depth, d.blend);
  }

  /** A ready draw whose uniforms all have values gets through: program, index buffer,
      set-up calls, uniforms, draw call. */
  lemma DrawTrace(d: Draw, cells: Cells)
    requires Reaches(d, cells) && Ready(d, cells)
    requires forall k :: 0 <= k < |d.uniforms| ==> d.uniforms[k].value.Some?
    ensures var r := DrawRun(d, cells);
      && r.fault.None?
      && r.cmds == [Frame(UseProgram(cells.programs[d.program.value])),
                    Attrib(BindBuffer(ELEMENT_ARRAY_BUFFER, cells.buffers[d.ibo.value].resource))]
                   + SetupCalls(d, cells) + SendUniforms(d.uniforms, UniformIsNone).cmds + [FinalDraw(d, cells)]
  {
    SendUniformsSpec(d.uniforms, UniformIsNone);
  }

  /** A ready draw whose uniforms all have values makes its program current, binds its
      index buffer as the element buffer, then makes the set-up calls and sends the
      uniforms in list order, and ends with its one draw call of `count * mult` indices. */
  lemma DrawCmds(d: Draw, cells: Cells)
    requires Reaches(d, cells) && Ready(d, cells)
    requires forall k :: 0 <= k < |d.uniforms| ==> d.uniforms[k].value.Some?
    ensures var r := DrawRun(d, cells);
      && r.fault.None?
      && |r.cmds| == 2 + |SetupCalls(d, cells)| + |d.uniforms| + 1
      && r.cmds[0] == Frame(UseProgram(cells.programs[d.program.value]))
      && r.cmds[1] == Attrib(BindBuffer(ELEMENT_ARRAY_BUFFER, cells.buffers[d.ibo.value].resource))
      && r.cmds[2..2 + |SetupCalls(d, cells)|] == SetupCalls(d, cells)
      && (forall k :: 0 <= k < |d.uniforms| ==>
            r.cmds[2 + |SetupCalls(d, cells)| + k] == UniformCmd(d.uniforms[k].loc, d.uniforms[k].value.value))
      && r.cmds[|r.cmds| - 1] == FinalDraw(d, cells)
      && Draws(r.cmds) == [FinalDraw(d, cells)]
  {
    DrawTrace(d, cells);
    SendUniformsSpec(d.uniforms, UniformIsNone);
    SetupDrawsNothing(d, cells);
    var head := [Frame(UseProgram(cells.programs[d.program.value])),
                 Attrib(BindBuffer(ELEMENT_ARRAY_BUFFER, cells.buffers[d.ibo.value].resource))];
    var setup := SetupCalls(d, cells);
    var u := SendUniforms(d.uniforms, UniformIsNone).cmds;
    var cmds := DrawRun(d, cells).cmds;
    assert cmds == (head + setup) + u + [FinalDraw(d, cells)];
    assert cmds[2..2 + |setup|] == setup;
    forall k | 0 <= k < |d.uniforms| ensures cmds[2 + |setup| + k] == u[k] {
    }
    NoDrawsAppend(head, setup);
    NoDrawsAppend(head + setup, u);
    DrawsEndingIn(head + setup + u, FinalDraw(d, cells));
  }
}
