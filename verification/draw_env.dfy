/** `DrawEnv` of `draw_env.rs`: the bindings one draw of the engine will apply. Binding
    lists hold (handle id, location) pairs, deduplicated by handle id (the first binding of
    a handle wins; nothing deduplicates by location), and removal is a `swap_remove`.
    `add_texture` and `remove_texture` act on the `buffers` list, as the source does, so no
    operation ever changes `textures`. `EnableDepth`/`EnableBlend` are modelled as `Option`. */
module DrawEnvs {
  import opened GL
  import opened Results
  import opened Seqs

  /** An entry of a binding list: a handle id and the location it is bound at. */
  datatype Binding = Binding(handle: nat, loc: int)

  datatype DrawEnv = DrawEnv(
    shader: nat,
    indices: nat,
    buffers: seq<Binding>,
    depth: Option<GLenum>,
    blend: Option<(GLenum, GLenum)>,
    textures: seq<Binding>,
    uniforms: seq<Binding>)

  /** Some entry of `list` has handle `h`. */
  predicate Binds(list: seq<Binding>, h: nat) {
    exists i :: 0 <= i < |list| && list[i].handle == h
  }

  /** No two entries of `list` share a handle. */
  predicate Unique(list: seq<Binding>) {
    forall i, j :: 0 <= i < j < |list| ==> list[i].handle != list[j].handle
  }

  /** The first entry of `list` with handle `h`, if any. */
  function Find(list: seq<Binding>, h: nat): (r: Option<nat>)
    ensures r.Some? ==> r.value < |list| && list[r.value].handle == h
    ensures r.None? <==> !Binds(list, h)
  {
    Position(list, (b: Binding) => b.handle == h)
  }

  /** `if !list.iter().any(|&(k, _)| k == h) { list.push((h, loc)) }` */
  function AddUnique(list: seq<Binding>, h: nat, loc: int): (r: seq<Binding>)
    ensures Binds(r, h)
    ensures Binds(list, h) ==> r == list
    ensures !Binds(list, h) ==> |r| == |list| + 1 && r[..|list|] == list && r[|list|].loc == loc
    ensures forall k :: k != h ==> (Binds(r, k) <==> Binds(list, k))
    ensures Unique(list) ==> Unique(r)
  {
    if Find(list, h).Some? then list
    else
      var r := list + [Binding(h, loc)];
      assert r[|list|].handle == h;
      r
  }

  /** `if let Some(i) = list.iter().position(|&(k, _)| k == h) { list.swap_remove(i) }` */
  function RemoveByHandle(list: seq<Binding>, h: nat): (r: seq<Binding>)
    ensures !Binds(list, h) ==> r == list
    ensures Binds(list, h) ==> |r| == |list| - 1
    ensures forall b :: b in r ==> b in list
    ensures forall b :: b in list && b.handle != h ==> b in r
    ensures Unique(list) ==> Unique(r) && !Binds(r, h)
  {
    match Find(list, h)
    case None => list
    case Some(i) =>
      var r := SwapRemove(list, i);
      assert forall b :: b in r ==> b in list by {
        forall b | b in r ensures b in list {
          assert b in multiset(r);
        }
      }
      assert forall b :: b in list && b.handle != h ==> b in r by {
        forall b | b in list && b.handle != h ensures b in r {
          var j :| 0 <= j < |list| && list[j] == b;
          SwapRemoveKeeps(list, i, j);
        }
      }
      if Unique(list) then SwapRemoveUnique(list, i); r else r
  }

  /** Removing entry `i` from a list without repeated handles leaves such a list, in which
      the handle of entry `i` no longer occurs. */
  lemma SwapRemoveUnique(list: seq<Binding>, i: nat)
    requires Unique(list) && i < |list|
    ensures Unique(SwapRemove(list, i)) && !Binds(SwapRemove(list, i), list[i].handle)
  {
    var r := SwapRemove(list, i);
    var last := |list| - 1;
    forall a, b | 0 <= a < b < |r| ensures r[a].handle != r[b].handle {
      var a0 := if a == i then last else a;
      var b0 := if b == i then last else b;
      assert r[a] == list[a0] && r[b] == list[b0];
    }
    forall a | 0 <= a < |r| ensures r[a].handle != list[i].handle {
      var a0 := if a == i then last else a;
      assert r[a] == list[a0];
    }
  }

  /** `DrawEnv::new()`: no shader and no index buffer (the `usize::MAX` sentinel), no
      bindings, depth test and blending off. */
  function New(): (e: DrawEnv)
    ensures e.shader == USIZE_MAX && e.indices == USIZE_MAX
    ensures e.buffers == [] && e.textures == [] && e.uniforms == []
    ensures e.depth.None? && e.blend.None?
  {
    DrawEnv(USIZE_MAX, USIZE_MAX, [], None, None, [], [])
  }

  function AddShader(e: DrawEnv, shader: nat): DrawEnv {
    e.(shader := shader)
  }

  /** `add_index_buffer`: `key` is the buffer's `get_key()`. */
  function AddIndexBuffer(e: DrawEnv, key: nat): DrawEnv {
    e.(indices := key)
  }

  function AddBuffer(e: DrawEnv, key: nat, attribLoc: int): DrawEnv {
    e.(buffers := AddUnique(e.buffers, key, attribLoc))
  }

  function RemoveBuffer(e: DrawEnv, key: nat): DrawEnv {
    e.(buffers := RemoveByHandle(e.buffers, key))
  }

  /** As written in the source: the texture id goes into `buffers`. */
  function AddTexture(e: DrawEnv, texture: nat, attribLoc: int): DrawEnv {
    e.(buffers := AddUnique(e.buffers, texture, attribLoc))
  }

  /** As written in the source: removes from `buffers`. */
  function RemoveTexture(e: DrawEnv, texture: nat): DrawEnv {
    e.(buffers := RemoveByHandle(e.buffers, texture))
  }

  /** `add_uniform`: `uniform` is the `UniformHandle`'s `get_id()`. */
  function AddUniform(e: DrawEnv, uniform: nat, attribLoc: int): DrawEnv {
    e.(uniforms := AddUnique(e.uniforms, uniform, attribLoc))
  }

  function RemoveUniform(e: DrawEnv, uniform: nat): DrawEnv {
    e.(uniforms := RemoveByHandle(e.uniforms, uniform))
  }

  function EnableDepth(e: DrawEnv, func: GLenum): DrawEnv {
    e.(depth := Some(func))
  }

  function DisableDepth(e: DrawEnv): DrawEnv {
    e.(depth := None)
  }

  function EnableBlend(e: DrawEnv, src: GLenum, dst: GLenum): DrawEnv {
    e.(blend := Some((src, dst)))
  }

  function DisableBlend(e: DrawEnv): DrawEnv {
    e.(blend := None)
  }

  /** One call of a public `DrawEnv` method, with its arguments. */
  datatype Op =
    | AddShaderOp(shader: nat)
    | AddIndexBufferOp(key: nat)
    | AddBufferOp(key: nat, loc: int)
    | RemoveBufferOp(key: nat)
    | AddTextureOp(texture: nat, loc: int)
    | RemoveTextureOp(texture: nat)
    | AddUniformOp(uniform: nat, loc: int)
    | RemoveUniformOp(uniform: nat)
    | EnableDepthOp(func: GLenum)
    | DisableDepthOp
    | EnableBlendOp(src: GLenum, dst: GLenum)
    | DisableBlendOp

  predicate IsDepthOp(op: Op) { op.EnableDepthOp? || op.DisableDepthOp? }
  predicate IsBlendOp(op: Op) { op.EnableBlendOp? || op.DisableBlendOp? }

  /** The depth setting a depth toggle asks for. */
  function DepthOf(op: Op): Option<GLenum>
    requires IsDepthOp(op)
  {
    if op.EnableDepthOp? then Some(op.func) else None
  }

  /** The blend setting a blend toggle asks for. */
  function BlendOf(op: Op): Option<(GLenum, GLenum)>
    requires IsBlendOp(op)
  {
    if op.EnableBlendOp? then Some((op.src, op.dst)) else None
  }

  /** The calls that change `buffers`: both buffer and texture additions and removals. */
  predicate IsBufferListOp(op: Op) {
    op.AddBufferOp? || op.RemoveBufferOp? || op.AddTextureOp? || op.RemoveTextureOp?
  }

  predicate IsUniformListOp(op: Op) { op.AddUniformOp? || op.RemoveUniformOp? }

  /** Dispatches one method call. */
  function Apply(e: DrawEnv, op: Op): (r: DrawEnv)
    ensures op.AddShaderOp? ==> r == e.(shader := op.shader)
    ensures !op.AddShaderOp? ==> r.shader == e.shader
    ensures op.AddIndexBufferOp? ==> r == e.(indices := op.key)
    ensures !op.AddIndexBufferOp? ==> r.indices == e.indices
    ensures op.AddBufferOp? ==> r.buffers == AddUnique(e.buffers, op.key, op.loc)
    ensures op.RemoveBufferOp? ==> r.buffers == RemoveByHandle(e.buffers, op.key)
    ensures op.AddTextureOp? ==> r.buffers == AddUnique(e.buffers, op.texture, op.loc)
    ensures op.RemoveTextureOp? ==> r.buffers == RemoveByHandle(e.buffers, op.texture)
    ensures !IsBufferListOp(op) ==> r.buffers == e.buffers
    ensures op.AddUniformOp? ==> r.uniforms == AddUnique(e.uniforms, op.uniform, op.loc)
    ensures op.RemoveUniformOp? ==> r.uniforms == RemoveByHandle(e.uniforms, op.uniform)
    ensures !IsUniformListOp(op) ==> r.uniforms == e.uniforms
    ensures r.textures == e.textures
    ensures IsDepthOp(op) ==> r.depth == DepthOf(op)
    ensures !IsDepthOp(op) ==> r.depth == e.depth
    ensures IsBlendOp(op) ==> r.blend == BlendOf(op)
    ensures !IsBlendOp(op) ==> r.blend == e.blend
    ensures IsDepthOp(op) || IsBlendOp(op) ==>
      r.buffers == e.buffers && r.uniforms == e.uniforms &&
      r.shader == e.shader && r.indices == e.indices
    ensures Unique(e.buffers) ==> Unique(r.buffers)
    ensures Unique(e.uniforms) ==> Unique(r.uniforms)
  {
    match op
    case AddShaderOp(s) => AddShader(e, s)
    case AddIndexBufferOp(k) => AddIndexBuffer(e, k)
    case AddBufferOp(k, loc) => AddBuffer(e, k, loc)
    case RemoveBufferOp(k) => RemoveBuffer(e, k)
    case AddTextureOp(t, loc) => AddTexture(e, t, loc)
    case RemoveTextureOp(t) => RemoveTexture(e, t)
    case AddUniformOp(u, loc) => AddUniform(e, u, loc)
    case RemoveUniformOp(u) => RemoveUniform(e, u)
    case EnableDepthOp(f) => EnableDepth(e, f)
    case DisableDepthOp => DisableDepth(e)
    case EnableBlendOp(s, d) => EnableBlend(e, s, d)
    case DisableBlendOp => DisableBlend(e)
  }

  /** The calls of `ops`, first to last. */
  function ApplyAll(e: DrawEnv, ops: seq<Op>): DrawEnv
    decreases |ops|
  {
    if |ops| == 0 then e else Apply(ApplyAll(e, ops[..|ops| - 1]), ops[|ops| - 1])
  }

  /** No sequence of calls makes two `buffers` entries, or two `uniforms` entries, share a
      handle, and none changes `textures`. */
  lemma {:induction false} ApplyAllKeepsUnique(e: DrawEnv, ops: seq<Op>)
    requires Unique(e.buffers) && Unique(e.uniforms)
    ensures Unique(ApplyAll(e, ops).buffers) && Unique(ApplyAll(e, ops).uniforms)
    ensures ApplyAll(e, ops).textures == e.textures
    decreases |ops|
  {
    if |ops| > 0 {
      ApplyAllKeepsUnique(e, ops[..|ops| - 1]);
    }
  }

  /** `ops[i]` is a depth toggle and no later call is one. */
  predicate LastDepthToggle(ops: seq<Op>, i: nat) {
    i < |ops| && IsDepthOp(ops[i]) && forall j :: i < j < |ops| ==> !IsDepthOp(ops[j])
  }

  /** `ops[i]` is a blend toggle and no later call is one. */
  predicate LastBlendToggle(ops: seq<Op>, i: nat) {
    i < |ops| && IsBlendOp(ops[i]) && forall j :: i < j < |ops| ==> !IsBlendOp(ops[j])
  }

  /** The depth setting a script of calls leaves, starting from `d0`, read off the
      toggles alone. */
  function DepthFold(d0: Option<GLenum>, ops: seq<Op>): Option<GLenum>
    decreases |ops|
  {
    if |ops| == 0 then d0
    else if IsDepthOp(ops[|ops| - 1]) then DepthOf(ops[|ops| - 1])
    else DepthFold(d0, ops[..|ops| - 1])
  }

  /** Last toggle wins in the fold; with no toggle it is the starting setting. */
  lemma {:induction false} DepthFoldLastWins(d0: Option<GLenum>, ops: seq<Op>)
    ensures (forall i :: 0 <= i < |ops| ==> !IsDepthOp(ops[i])) ==> DepthFold(d0, ops) == d0
    ensures forall i: nat :: LastDepthToggle(ops, i) ==> DepthFold(d0, ops) == DepthOf(ops[i])
    decreases |ops|
  {
    if |ops| > 0 {
      var n := |ops| - 1;
      var init := ops[..n];
      DepthFoldLastWins(d0, init);
      if !IsDepthOp(ops[n]) {
        forall i: nat | LastDepthToggle(ops, i)
          ensures DepthFold(d0, ops) == DepthOf(ops[i])
        {
          assert init[i] == ops[i];
          assert LastDepthToggle(init, i);
        }
        if forall i :: 0 <= i < |ops| ==> !IsDepthOp(ops[i]) {
          assert forall i :: 0 <= i < |init| ==> init[i] == ops[i];
        }
      } else {
        forall i: nat | LastDepthToggle(ops, i)
          ensures DepthFold(d0, ops) == DepthOf(ops[i])
        {
          assert i == n;
        }
      }
    }
  }

  /** Every call's effect on the depth setting is the fold's. */
  lemma {:induction false} ApplyAllDepthFold(e: DrawEnv, ops: seq<Op>)
    ensures ApplyAll(e, ops).depth == DepthFold(e.depth, ops)
    decreases |ops|
  {
    if |ops| > 0 {
      ApplyAllDepthFold(e, ops[..|ops| - 1]);
    }
  }

  /** The depth setting is the one the last depth toggle asked for, whatever else was
      called after it; with no toggle it is the initial one. */
  lemma {:induction false} ApplyAllDepthLastWins(e: DrawEnv, ops: seq<Op>)
    ensures (forall i :: 0 <= i < |ops| ==> !IsDepthOp(ops[i])) ==> ApplyAll(e, ops).depth == e.depth
    ensures forall i: nat :: LastDepthToggle(ops, i) ==> ApplyAll(e, ops).depth == DepthOf(ops[i])
  {
    ApplyAllDepthFold(e, ops);
    DepthFoldLastWins(e.depth, ops);
  }

  /** The blend setting a script of calls leaves, starting from `d0`, read off the
      toggles alone. */
  function BlendFold(d0: Option<(GLenum, GLenum)>, ops: seq<Op>): Option<(GLenum, GLenum)>
    decreases |ops|
  {
    if |ops| == 0 then d0
    else if IsBlendOp(ops[|ops| - 1]) then BlendOf(ops[|ops| - 1])
    else BlendFold(d0, ops[..|ops| - 1])
  }

  /** Last toggle wins in the fold; with no toggle it is the starting setting. */
  lemma {:induction false} BlendFoldLastWins(d0: Option<(GLenum, GLenum)>, ops: seq<Op>)
    ensures (forall i :: 0 <= i < |ops| ==> !IsBlendOp(ops[i])) ==> BlendFold(d0, ops) == d0
    ensures forall i: nat :: LastBlendToggle(ops, i) ==> BlendFold(d0, ops) == BlendOf(ops[i])
    decreases |ops|
  {
    if |ops| > 0 {
      var n := |ops| - 1;
      var init := ops[..n];
      BlendFoldLastWins(d0, init);
      if !IsBlendOp(ops[n]) {
        forall i: nat | LastBlendToggle(ops, i)
          ensures BlendFold(d0, ops) == BlendOf(ops[i])
        {
          assert init[i] == ops[i];
          assert LastBlendToggle(init, i);
        }
        if forall i :: 0 <= i < |ops| ==> !IsBlendOp(ops[i]) {
          assert forall i :: 0 <= i < |init| ==> init[i] == ops[i];
        }
      } else {
        forall i: nat | LastBlendToggle(ops, i)
          ensures BlendFold(d0, ops) == BlendOf(ops[i])
        {
          assert i == n;
        }
      }
    }
  }

  /** Every call's effect on the blend setting is the fold's. */
  lemma {:induction false} ApplyAllBlendFold(e: DrawEnv, ops: seq<Op>)
    ensures ApplyAll(e, ops).blend == BlendFold(e.blend, ops)
    decreases |ops|
  {
    if |ops| > 0 {
      ApplyAllBlendFold(e, ops[..|ops| - 1]);
    }
  }

  /** The blend setting is the one the last blend toggle asked for, whatever else was
      called after it; with no toggle it is the initial one. */
  lemma {:induction false} ApplyAllBlendLastWins(e: DrawEnv, ops: seq<Op>)
    ensures (forall i :: 0 <= i < |ops| ==> !IsBlendOp(ops[i])) ==> ApplyAll(e, ops).blend == e.blend
    ensures forall i: nat :: LastBlendToggle(ops, i) ==> ApplyAll(e, ops).blend == BlendOf(ops[i])
  {
    ApplyAllBlendFold(e, ops);
    BlendFoldLastWins(e.blend, ops);
  }

  /** Toggles change neither binding list: a script of toggles only leaves every list,
      the shader and the index buffer as they were. */
  lemma {:induction false} TogglesKeepBindings(e: DrawEnv, ops: seq<Op>)
    requires forall i :: 0 <= i < |ops| ==> IsDepthOp(ops[i]) || IsBlendOp(ops[i])
    ensures var r := ApplyAll(e, ops);
      r.buffers == e.buffers && r.uniforms == e.uniforms && r.textures == e.textures &&
      r.shader == e.shader && r.indices == e.indices
    decreases |ops|
  {
    if |ops| > 0 {
      TogglesKeepBindings(e, ops[..|ops| - 1]);
    }
  }
}
