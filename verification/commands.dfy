/** The GL calls the three draw passes issue, as an abstract trace. Nothing here models what
    a call does to the device; a trace records which calls are made, in which order and with
    which arguments. A pass that panics part-way leaves the calls made so far in the trace
    and reports the panic as its fault. */
module Commands {
  import opened GL
  import opened Results
  import Glsl
  import Buffers

  /** The `glUniform*` entry point a uniform value is sent through: `n` components of
      float, signed or unsigned integer type, or a float matrix of `cols` columns and
      `rows` rows. */
  datatype UniformCall =
    | UniformF(n: nat)
    | UniformI(n: nat)
    | UniformUi(n: nat)
    | UniformMatrixF(cols: nat, rows: nat)

  /** Calls that frame a draw: clearing, the vertex array object, the current program and
      the draw call itself. */
  datatype FrameCall =
    | Clear(mask: nat)
    | GenVertexArray(vao: nat)
    | BindVertexArray(vao: nat)
    | DeleteVertexArray(vao: nat)
    | UseProgram(program: nat)
    | DrawElements(mode: GLenum, count: int, ty: GLenum, offset: int)

  /** Calls that hook a buffer up to a vertex attribute. */
  datatype AttribCall =
    | BindBuffer(target: GLenum, buffer: nat)
    | EnableVertexAttribArray(index: int)
    | VertexAttribPointer(index: int, size: int, ty: GLenum)
    | VertexAttribIPointer(index: int, size: int, ty: GLenum)

  /** Calls that put a texture on a texture unit and point a sampler uniform at the unit. */
  datatype TextureCall =
    | ActiveTexture(unit: GLenum)
    | BindTexture(target: GLenum, texture: nat)
    | Uniform1i(location: int, value: int)

  /** Calls that switch the depth test and blending. */
  datatype StateCall =
    | Enable(cap: GLenum)
    | Disable(cap: GLenum)
    | DepthFunc(func: GLenum)
    | BlendFunc(sfactor: GLenum, dfactor: GLenum)

  /** One GL call, grouped by what it is for. */
  datatype Cmd =
    | Frame(frame: FrameCall)
    | Attrib(attrib: AttribCall)
    | Texture(texture: TextureCall)
    | State(state: StateCall)
    | Uniform(location: int, call: UniformCall, payload: Glsl.Payload)

  /** `c` is a `glDrawElements` call. */
  predicate IsDraw(c: Cmd) {
    c.Frame? && c.frame.DrawElements?
  }

  /** The calls a pass made, and the panic that stopped it, if one did. */
  datatype Run<F> = Run(cmds: seq<Cmd>, fault: Option<F>)

  /** Runs `a`, and `b` after it unless `a` panicked. */
  function Then<F>(a: Run<F>, b: Run<F>): Run<F> {
    if a.fault.Some? then a else Run(a.cmds + b.cmds, b.fault)
  }

  /** The runs of a loop body over its iterations `i`, `i + 1`, ..., back to back, stopping
      after the first that panics. */
  function Chain<F>(runs: seq<Run<F>>, i: nat): Run<F>
    decreases |runs| - i
  {
    if i >= |runs| then Run([], None) else Then(runs[i], Chain(runs, i + 1))
  }

  /** Every iteration from `i` on gets through. */
  predicate AllPass<F>(runs: seq<Run<F>>, i: nat) {
    forall k :: i <= k < |runs| ==> runs[k].fault.None?
  }

  /** Iteration `k` is the first from `i` on that panics. */
  predicate FirstFail<F>(runs: seq<Run<F>>, i: nat, k: nat) {
    && i <= k < |runs| && runs[k].fault.Some?
    && forall j :: i <= j < k ==> runs[j].fault.None?
  }

  /** A chain gets through exactly when each iteration does; otherwise it reports the panic
      of the first iteration that panics. */
  lemma {:induction false} ChainFaults<F>(runs: seq<Run<F>>, i: nat)
    ensures Chain(runs, i).fault.None? <==> AllPass(runs, i)
    ensures Chain(runs, i).fault.Some? ==>
      exists k: nat :: FirstFail(runs, i, k) && Chain(runs, i).fault == runs[k].fault
    decreases |runs| - i
  {
    if i < |runs| && runs[i].fault.None? {
      ChainFaults(runs, i + 1);
      if Chain(runs, i + 1).fault.Some? {
        var k: nat :| FirstFail(runs, i + 1, k) && Chain(runs, i + 1).fault == runs[k].fault;
        assert FirstFail(runs, i, k);
      }
    } else if i < |runs| {
      assert FirstFail(runs, i, i);
    }
  }

  /** A chain of iterations that draw nothing draws nothing. */
  lemma {:induction false} ChainNoDraws<F>(runs: seq<Run<F>>, i: nat)
    requires forall k :: i <= k < |runs| ==> NoDraws(runs[k].cmds)
    ensures NoDraws(Chain(runs, i).cmds)
    decreases |runs| - i
  {
    if i < |runs| {
      ChainNoDraws(runs, i + 1);
    }
  }

  /** When every iteration gets through making `w` calls, the chain has made `w` calls per
      iteration, and those of iteration `k` sit at `w * (k - i)` onwards. */
  lemma {:induction false} ChainAt<F>(runs: seq<Run<F>>, i: nat, w: nat, k: nat, j: nat)
    requires AllPass(runs, i) && i <= k < |runs| && j < w
    requires forall m :: i <= m < |runs| ==> |runs[m].cmds| == w
    ensures |Chain(runs, i).cmds| == w * (|runs| - i)
    ensures w * (k - i) + j < |Chain(runs, i).cmds|
    ensures Chain(runs, i).cmds[w * (k - i) + j] == runs[k].cmds[j]
    decreases |runs| - i
  {
    ChainLength(runs, i, w);
    ChainLength(runs, i + 1, w);
    var rest := Chain(runs, i + 1).cmds;
    assert Chain(runs, i).cmds == runs[i].cmds + rest;
    if i < k {
      ChainAt(runs, i + 1, w, k, j);
      MulStep(w, k - (i + 1));
    }
  }

  /** The length half of `ChainAt`. */
  lemma {:induction false} ChainLength<F>(runs: seq<Run<F>>, i: nat, w: nat)
    requires AllPass(runs, i) && i <= |runs|
    requires forall m :: i <= m < |runs| ==> |runs[m].cmds| == w
    ensures Chain(runs, i).fault.None?
    ensures |Chain(runs, i).cmds| == w * (|runs| - i)
    decreases |runs| - i
  {
    if i < |runs| {
      ChainLength(runs, i + 1, w);
      MulStep(w, |runs| - (i + 1));
    }
  }

  lemma MulStep(w: nat, n: nat)
    ensures w * (n + 1) == w + w * n
  {
  }

  /** When every iteration gets through with exactly the one draw call `ds[k]`, the
      chain's draw calls from iteration `i` on are `ds[i..]`. */
  lemma {:induction false} ChainDrawsAre<F>(runs: seq<Run<F>>, ds: seq<Cmd>, i: nat)
    requires |ds| == |runs| && i <= |runs|
    requires forall m :: 0 <= m < |runs| ==> runs[m].fault.None? && Draws(runs[m].cmds) == [ds[m]]
    ensures Draws(Chain(runs, i).cmds) == ds[i..]
    decreases |runs| - i
  {
    if i < |runs| {
      ChainDrawsAre(runs, ds, i + 1);
      var rest := Chain(runs, i + 1).cmds;
      assert Chain(runs, i).cmds == runs[i].cmds + rest;
      DrawsAppend(runs[i].cmds, rest);
      assert ds[i..] == [ds[i]] + ds[i + 1..];
    }
  }

  /** The `match` on a `GLSLAny` variant that picks the `glUniform*` call: the same table
      in all three draw passes. */
  function CallFor(k: Glsl.UniformKind): UniformCall {
    match k
    case Float => UniformF(1)
    case Vec2 => UniformF(2)
    case Vec3 => UniformF(3)
    case Vec4 => UniformF(4)
    case Int => UniformI(1)
    case Ivec2 => UniformI(2)
    case Ivec3 => UniformI(3)
    case Ivec4 => UniformI(4)
    case Uint => UniformUi(1)
    case Uvec2 => UniformUi(2)
    case Uvec3 => UniformUi(3)
    case Uvec4 => UniformUi(4)
    case Bool => UniformUi(1)
    case Bvec2 => UniformUi(2)
    case Bvec3 => UniformUi(3)
    case Bvec4 => UniformUi(4)
    case Mat2 => UniformMatrixF(2, 2)
    case Mat3 => UniformMatrixF(3, 3)
    case Mat4 => UniformMatrixF(4, 4)
    case Mat2x3 => UniformMatrixF(2, 3)
    case Mat3x2 => UniformMatrixF(3, 2)
    case Mat2x4 => UniformMatrixF(2, 4)
    case Mat4x2 => UniformMatrixF(4, 2)
    case Mat3x4 => UniformMatrixF(3, 4)
    case Mat4x3 => UniformMatrixF(4, 3)
  }

  /** The call table follows the shape of the GLSL type: float vectors go through
      `glUniform{n}f`, int vectors through `glUniform{n}i`, unsigned and bool vectors
      through `glUniform{n}ui`, and matrices through `glUniformMatrix{c}x{r}fv`. */
  lemma CallForMatchesShape(k: Glsl.UniformKind)
    ensures var shape, c := Glsl.ShapeOf(k), CallFor(k);
      && (shape.Vector? && shape.scalar == Glsl.FloatS ==> c == UniformF(shape.n))
      && (shape.Vector? && shape.scalar == Glsl.IntS ==> c == UniformI(shape.n))
      && (shape.Vector? && shape.scalar in {Glsl.UintS, Glsl.BoolS} ==> c == UniformUi(shape.n))
      && (shape.Matrix? ==> c == UniformMatrixF(shape.cols, shape.rows))
  {
  }

  /** The one call that sends `v` to `location`. */
  function UniformCmd(location: int, v: Glsl.UniformValue): Cmd {
    Uniform(location, CallFor(v.kind), v.payload)
  }

  /** An entry of a builder's uniform list: the `GLSLAny` (`None` for its `None` variant)
      and the location it is sent to. */
  datatype UniformEntry = UniformEntry(value: Option<Glsl.UniformValue>, loc: int)

  /** One iteration of a builder's uniform loop: the value is sent, or its `None` variant
      reaches `unreachable!()`, reported as `none`. */
  function SendUniform<F>(x: UniformEntry, none: F): Run<F> {
    match x.value
    case None => Run([], Some(none))
    case Some(v) => Run([UniformCmd(x.loc, v)], None)
  }

  /** A builder's uniform loop. */
  function SendUniforms<F>(list: seq<UniformEntry>, none: F): Run<F> {
    Chain(UniformRuns(list, none), 0)
  }

  /** The uniform loop's iterations, one per entry. */
  function UniformRuns<F>(list: seq<UniformEntry>, none: F): (r: seq<Run<F>>)
    ensures |r| == |list| && forall k :: 0 <= k < |list| ==> r[k] == SendUniform(list[k], none)
  {
    seq(|list|, k requires 0 <= k < |list| => SendUniform(list[k], none))
  }

  /** A builder's uniform loop sends every value in list order, one call each, or reaches
      `unreachable!()` on the first `None`. It never draws. */
  lemma SendUniformsSpec<F>(list: seq<UniformEntry>, none: F)
    ensures var r := SendUniforms(list, none);
      && NoDraws(r.cmds)
      && (r.fault.None? <==> forall k :: 0 <= k < |list| ==> list[k].value.Some?)
      && (r.fault.Some? ==> r.fault.value == none)
      && (r.fault.None? ==> |r.cmds| == |list| && forall k :: 0 <= k < |list| ==>
            r.cmds[k] == UniformCmd(list[k].loc, list[k].value.value))
  {
    var runs := UniformRuns(list, none);
    ChainFaults(runs, 0);
    ChainNoDraws(runs, 0);
    if SendUniforms(list, none).fault.None? {
      assert forall k :: 0 <= k < |list| ==> list[k].value.Some?;
      ChainLength(runs, 0, 1);
      forall k | 0 <= k < |list|
        ensures SendUniforms(list, none).cmds[k] == UniformCmd(list[k].loc, list[k].value.value)
      {
        ChainAt(runs, 0, 1, k, 0);
      }
    }
  }

  /** The three calls that hook buffer `buf` up to attribute location `loc`, as the
      engine and the `Draw` builder make them. */
  function AttribCmds(buf: Buffers.Buffer, loc: int): seq<Cmd> {
    [Attrib(BindBuffer(buf.bufferType, buf.resource)), Attrib(EnableVertexAttribArray(loc)),
     Attrib(VertexAttribPointer(loc, buf.glslTypeCount, buf.glslType))]
  }

  /** The three calls the two builders make per texture: point the sampler at `loc` to
      unit `unit` first, then make the unit active and bind the texture named `resource`
      to it. */
  function SamplerCmds(resource: nat, loc: int, unit: nat): seq<Cmd> {
    [Texture(Uniform1i(loc, unit)), Texture(ActiveTexture(TEXTURE0 + unit)), Texture(BindTexture(TEXTURE_2D, resource))]
  }

  /** The depth block: `Enable(DEPTH_TEST)` and `DepthFunc` for a setting, an explicit
      `Disable(DEPTH_TEST)` for none. */
  function DepthCmds(depth: Option<GLenum>): seq<Cmd> {
    match depth
    case Some(f) => [State(Enable(DEPTH_TEST)), State(DepthFunc(f))]
    case None => [State(Disable(DEPTH_TEST))]
  }

  /** The blend block, likewise. */
  function BlendCmds(blend: Option<(GLenum, GLenum)>): seq<Cmd> {
    match blend
    case Some((s, d)) => [State(Enable(BLEND)), State(BlendFunc(s, d))]
    case None => [State(Disable(BLEND))]
  }

  /** The trace contains no draw call. */
  predicate NoDraws(cmds: seq<Cmd>) {
    forall i :: 0 <= i < |cmds| ==> !IsDraw(cmds[i])
  }

  /** The `DrawElements` calls of a trace, in order. */
  function Draws(cmds: seq<Cmd>): (r: seq<Cmd>)
    ensures |r| <= |cmds|
    decreases |cmds|
  {
    if |cmds| == 0 then []
    else (if IsDraw(cmds[0]) then [cmds[0]] else []) + Draws(cmds[1..])
  }

  /** `Draws` keeps exactly the draw calls: everything it keeps is one, and a trace without
      any has none. */
  lemma {:induction false} DrawsOnlyDraws(cmds: seq<Cmd>)
    ensures forall i :: 0 <= i < |Draws(cmds)| ==> IsDraw(Draws(cmds)[i])
    ensures NoDraws(cmds) <==> Draws(cmds) == []
    decreases |cmds|
  {
    if |cmds| > 0 {
      DrawsOnlyDraws(cmds[1..]);
      if !NoDraws(cmds[1..]) {
        var i :| 0 <= i < |cmds[1..]| && IsDraw(cmds[1..][i]);
        assert IsDraw(cmds[i + 1]);
      }
    }
  }

  /** The draws of two traces run back to back are the draws of the first, then those
      of the second. */
  lemma {:induction false} DrawsAppend(a: seq<Cmd>, b: seq<Cmd>)
    ensures Draws(a + b) == Draws(a) + Draws(b)
    decreases |a|
  {
    if |a| > 0 {
      assert (a + b)[1..] == a[1..] + b;
      DrawsAppend(a[1..], b);
    } else {
      assert a + b == b;
    }
  }

  /** Two traces without draw calls, run back to back, have none. */
  lemma NoDrawsAppend(a: seq<Cmd>, b: seq<Cmd>)
    requires NoDraws(a) && NoDraws(b)
    ensures NoDraws(a + b)
  {
    assert forall i :: |a| <= i < |a + b| ==> (a + b)[i] == b[i - |a|];
  }

  /** An unset depth test or blending is switched off explicitly, never left as the
      previous pass had it; a set one is switched on and then configured. */
  lemma SettingsExplicit(depth: Option<GLenum>, blend: Option<(GLenum, GLenum)>)
    ensures State(Disable(DEPTH_TEST)) in DepthCmds(depth) <==> depth.None?
    ensures State(Enable(DEPTH_TEST)) in DepthCmds(depth) <==> depth.Some?
    ensures depth.Some? ==> DepthCmds(depth)[|DepthCmds(depth)| - 1] == State(DepthFunc(depth.value))
    ensures State(Disable(BLEND)) in BlendCmds(blend) <==> blend.None?
    ensures State(Enable(BLEND)) in BlendCmds(blend) <==> blend.Some?
    ensures blend.Some? ==> BlendCmds(blend)[|BlendCmds(blend)| - 1] == State(BlendFunc(blend.value.0, blend.value.1))
  {
  }

  /** The depth and blend blocks draw nothing. */
  lemma SettingsDrawNothing(depth: Option<GLenum>, blend: Option<(GLenum, GLenum)>)
    ensures NoDraws(DepthCmds(depth) + BlendCmds(blend))
  {
  }

  /** A trace that draws nothing until its final draw call draws exactly that call. */
  lemma DrawsEndingIn(a: seq<Cmd>, d: Cmd)
    requires NoDraws(a) && IsDraw(d)
    ensures Draws(a + [d]) == [d]
  {
    DrawsAppend(a, [d]);
    DrawsOnlyDraws(a);
    assert Draws([d]) == [d] + Draws([]);
  }
}
