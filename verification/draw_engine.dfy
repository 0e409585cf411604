/** `DrawEngine` of `draw_engine.rs`: three handle registries (buffers, shaders, textures),
    the depth-ordered list of draw environments, and `draw`, which replays every
    environment as GL calls. The GL names the device hands out, `Shader::activate` and the
    uniform values are not part of this file's source and arrive as parameters. */
module DrawEngine {
  import opened GL
  import opened Results
  import opened Seqs
  import RT = ResourceTables
  import Glsl
  import Buffers
  import Shaders
  import Textures
  import DrawEnvs
  import Handles

  /** An element of `draw_envs`: the depth it was created with, its id, the environment
      and the source line of the `create_draw_env` call. Depth is an `f32` in the source;
      the model orders by an exact real and does not place NaN. */
  datatype EnvEntry = EnvEntry(depth: real, id: nat, env: DrawEnvs.DrawEnv, line: nat)

  datatype Engine = Engine(
    buffers: RT.Table<Buffers.Buffer>,
    shaders: RT.Table<Shaders.Shader>,
    textures: RT.Table<Textures.Texture>,
    envCounter: nat,
    envs: seq<EnvEntry>)

  predicate EnvLive(e: Engine, id: nat) {
    exists i :: 0 <= i < |e.envs| && e.envs[i].id == id
  }

  /** The three registries are valid, every environment id was handed out by the
      environment counter, and no two environments share an id. */
  predicate Valid(e: Engine) {
    && RT.Valid(e.buffers) && RT.Valid(e.shaders) && RT.Valid(e.textures)
    && e.envCounter <= USIZE_MAX
    && (forall i :: 0 <= i < |e.envs| ==> e.envs[i].id < e.envCounter)
    && (forall i, j :: 0 <= i < j < |e.envs| ==> e.envs[i].id != e.envs[j].id)
  }

  /** `DrawEngine::new()`: every counter at 0, nothing live. */
  function New(): (e: Engine)
    ensures Valid(e) && e.envs == [] && e.envCounter == 0
    ensures e.buffers.counter == 0 && e.shaders.counter == 0 && e.textures.counter == 0
    ensures forall id :: !RT.Live(e.buffers, id) && !RT.Live(e.shaders, id) && !RT.Live(e.textures, id)
  {
    Engine(RT.Empty(), RT.Empty(), RT.Empty(), 0, [])
  }

  // ---------------------------------------------------------------- buffers

  /** `create_buffer::<T>(line)`: `t` is `T` and `resource` the GL name of the new buffer. */
  function CreateBuffer<T>(e: Engine, t: Glsl.GlslType, resource: nat, line: nat)
    : (r: (Engine, Handles.BufferHandle<T>))
    requires Valid(e) && e.buffers.counter < USIZE_MAX
    ensures Valid(r.0)
    ensures RT.Created(e.buffers, r.0.buffers, r.1.GetId(), Buffers.New(t, resource), line)
    ensures r.0 == e.(buffers := r.0.buffers)
  {
    var (buffers, id) := RT.Create(e.buffers, Buffers.New(t, resource), line);
    (e.(buffers := buffers), Handles.BufferHandle<T>.New(id))
  }

  /** `free_buffer(handle)`; a handle that is not live panics in the source. */
  function FreeBuffer<T>(e: Engine, h: Handles.BufferHandle<T>): (e': Engine)
    requires Valid(e) && RT.Live(e.buffers, h.GetId())
    ensures Valid(e') && RT.Freed(e.buffers, e'.buffers, h.GetId())
    ensures e' == e.(buffers := e'.buffers)
  {
    e.(buffers := RT.Free(e.buffers, h.GetId()))
  }

  /** `get_buffer_mut(handle, func)`: `func` may change the buffer (initialise it, fill
      it) and returns `X`. */
  function GetBufferMut<T, X>(e: Engine, h: Handles.BufferHandle<T>, f: Buffers.Buffer -> (Buffers.Buffer, X))
    : (r: (Engine, X))
    requires Valid(e) && RT.Live(e.buffers, h.GetId())
    ensures Valid(r.0)
    ensures RT.Modified(e.buffers, r.0.buffers, h.GetId(), f(RT.Get(e.buffers, h.GetId())).0)
    ensures r.1 == f(RT.Get(e.buffers, h.GetId())).1
    ensures r.0 == e.(buffers := r.0.buffers)
  {
    var (buffers, x) := RT.Modify(e.buffers, h.GetId(), f);
    (e.(buffers := buffers), x)
  }

  // ---------------------------------------------------------------- shaders

  /** `create_shader(line)`: `resource` is the GL name of the new shader. */
  function CreateShader(e: Engine, resource: nat, line: nat): (r: (Engine, Handles.ShaderHandle))
    requires Valid(e) && e.shaders.counter < USIZE_MAX
    ensures Valid(r.0)
    ensures RT.Created(e.shaders, r.0.shaders, r.1.GetId(), Shaders.Shader(resource), line)
    ensures r.0 == e.(shaders := r.0.shaders)
  {
    var (shaders, id) := RT.Create(e.shaders, Shaders.Shader(resource), line);
    (e.(shaders := shaders), Handles.ShaderHandle.New(id))
  }

  function FreeShader(e: Engine, h: Handles.ShaderHandle): (e': Engine)
    requires Valid(e) && RT.Live(e.shaders, h.GetId())
    ensures Valid(e') && RT.Freed(e.shaders, e'.shaders, h.GetId())
    ensures e' == e.(shaders := e'.shaders)
  {
    e.(shaders := RT.Free(e.shaders, h.GetId()))
  }

  function GetShaderMut<X>(e: Engine, h: Handles.ShaderHandle, f: Shaders.Shader -> (Shaders.Shader, X))
    : (r: (Engine, X))
    requires Valid(e) && RT.Live(e.shaders, h.GetId())
    ensures Valid(r.0)
    ensures RT.Modified(e.shaders, r.0.shaders, h.GetId(), f(RT.Get(e.shaders, h.GetId())).0)
    ensures r.1 == f(RT.Get(e.shaders, h.GetId())).1
    ensures r.0 == e.(shaders := r.0.shaders)
  {
    var (shaders, x) := RT.Modify(e.shaders, h.GetId(), f);
    (e.(shaders := shaders), x)
  }

  // ---------------------------------------------------------------- textures

  /** `create_texture(line)`: `resource` is the GL name `Texture2D::new` generated. */
  function CreateTexture(e: Engine, resource: nat, line: nat): (r: (Engine, Handles.TextureHandle))
    requires Valid(e) && e.textures.counter < USIZE_MAX
    ensures Valid(r.0)
    ensures RT.Created(e.textures, r.0.textures, r.1.GetId(), Textures.New(resource), line)
    ensures r.0 == e.(textures := r.0.textures)
  {
    var (textures, id) := RT.Create(e.textures, Textures.New(resource), line);
    (e.(textures := textures), Handles.TextureHandle.New(id))
  }

  function FreeTexture(e: Engine, h: Handles.TextureHandle): (e': Engine)
    requires Valid(e) && RT.Live(e.textures, h.GetId())
    ensures Valid(e') && RT.Freed(e.textures, e'.textures, h.GetId())
    ensures e' == e.(textures := e'.textures)
  {
    e.(textures := RT.Free(e.textures, h.GetId()))
  }

  function GetTextureMut<X>(e: Engine, h: Handles.TextureHandle, f: Textures.Texture -> (Textures.Texture, X))
    : (r: (Engine, X))
    requires Valid(e) && RT.Live(e.textures, h.GetId())
    ensures Valid(r.0)
    ensures RT.Modified(e.textures, r.0.textures, h.GetId(), f(RT.Get(e.textures, h.GetId())).0)
    ensures r.1 == f(RT.Get(e.textures, h.GetId())).1
    ensures r.0 == e.(textures := r.0.textures)
  {
    var (textures, x) := RT.Modify(e.textures, h.GetId(), f);
    (e.(textures := textures), x)
  }

  // ---------------------------------------------------------------- draw environments

  /** Ascending by depth, and among equal depths ascending by id, that is, in creation
      order. */
  predicate Ordered(envs: seq<EnvEntry>) {
    forall i, j :: 0 <= i < j < |envs| ==>
      envs[i].depth < envs[j].depth || (envs[i].depth == envs[j].depth && envs[i].id < envs[j].id)
  }

  /** `draw_envs.iter().position(|&(d, ..)| d > depth)`, or the length: the index before
      the first strictly deeper entry. */
  function InsertIndex(envs: seq<EnvEntry>, depth: real): (k: nat)
    ensures k <= |envs|
    ensures forall i :: 0 <= i < k ==> envs[i].depth <= depth
    ensures k < |envs| ==> envs[k].depth > depth
  {
    match Position(envs, (x: EnvEntry) => x.depth > depth)
    case Some(i) => i
    case None => |envs|
  }

  /** `draw_envs.iter().position(|&(_, h, ..)| h == id)`. */
  function EnvSlot(envs: seq<EnvEntry>, id: nat): (r: Option<nat>)
    ensures r.Some? ==> r.value < |envs| && envs[r.value].id == id
    ensures r.None? <==> forall i :: 0 <= i < |envs| ==> envs[i].id != id
  {
    Position(envs, (x: EnvEntry) => x.id == id)
  }

  /** `create_draw_env(depth, line)`: a fresh `DrawEnv` under the next id, inserted before
      the first entry that is strictly deeper (after all entries of equal depth). */
  function CreateDrawEnv(e: Engine, depth: real, line: nat): (r: (Engine, Handles.DrawEnvHandle))
    requires Valid(e) && e.envCounter < USIZE_MAX
    ensures Valid(r.0)
    ensures r.1.GetId() == e.envCounter && r.0.envCounter == e.envCounter + 1
    ensures !EnvLive(e, r.1.GetId()) && EnvLive(r.0, r.1.GetId())
    ensures exists k :: (0 <= k < |r.0.envs|
      && r.0.envs[k] == EnvEntry(depth, r.1.GetId(), DrawEnvs.New(), line)
      && r.0.envs[..k] + r.0.envs[k + 1..] == e.envs
      && (forall i :: 0 <= i < k ==> e.envs[i].depth <= depth)
      && (k < |e.envs| ==> e.envs[k].depth > depth))
    ensures r.0.buffers == e.buffers && r.0.shaders == e.shaders && r.0.textures == e.textures
  {
    var id := e.envCounter;
    var k := InsertIndex(e.envs, depth);
    var x := EnvEntry(depth, id, DrawEnvs.New(), line);
    var envs := Insert(e.envs, k, x);
    InsertFreshValid(e, k, x);
    assert envs[k] == x && envs[..k] + envs[k + 1..] == e.envs;
    (e.(envCounter := id + 1, envs := envs), Handles.DrawEnvHandle.New(id))
  }

  /** Inserting an entry under the next id anywhere keeps the environment ids distinct and
      below the counter. */
  lemma {:induction false} InsertFreshValid(e: Engine, k: nat, x: EnvEntry)
    requires Valid(e) && e.envCounter < USIZE_MAX && k <= |e.envs| && x.id == e.envCounter
    ensures Valid(e.(envCounter := e.envCounter + 1, envs := Insert(e.envs, k, x)))
    ensures !EnvLive(e, x.id)
  {
    InsertFreshIds(e.envs, e.envCounter, k, x);
  }

  /** The id part of `InsertFreshValid`, on the entry list alone. */
  lemma {:induction false} InsertFreshIds(envs: seq<EnvEntry>, c: nat, k: nat, x: EnvEntry)
    requires k <= |envs| && x.id == c
    requires forall i :: 0 <= i < |envs| ==> envs[i].id < c
    requires forall i, j :: 0 <= i < j < |envs| ==> envs[i].id != envs[j].id
    ensures var r := Insert(envs, k, x);
      && (forall i :: 0 <= i < |r| ==> r[i].id < c + 1)
      && (forall i, j :: 0 <= i < j < |r| ==> r[i].id != r[j].id)
  {
    var r := Insert(envs, k, x);
    forall i, j | 0 <= i < j < |r| ensures r[i].id != r[j].id {
      if i != k && j != k {
        var i0 := if i < k then i else i - 1;
        var j0 := if j < k then j else j - 1;
        assert r[i] == envs[i0] && r[j] == envs[j0];
      } else if i == k {
        assert r[j] == envs[j - 1];
      } else {
        assert r[i] == envs[i];
      }
    }
  }

  /** `free_draw_env(handle)`: the entry is `swap_remove`d, so the last entry moves into its
      slot. A handle that is not live panics in the source. */
  function FreeDrawEnv(e: Engine, h: Handles.DrawEnvHandle): (e': Engine)
    requires Valid(e) && EnvLive(e, h.GetId())
    ensures Valid(e') && e'.envCounter == e.envCounter
    ensures !EnvLive(e', h.GetId()) && |e'.envs| == |e.envs| - 1
    ensures forall x :: x in e'.envs ==> x in e.envs
    ensures forall x :: x in e.envs && x.id != h.GetId() ==> x in e'.envs
    ensures forall s :: 0 <= s < |e.envs| && e.envs[s].id == h.GetId() ==>
      && (s < |e'.envs| ==> e'.envs[s] == e.envs[|e.envs| - 1])
      && (forall i :: 0 <= i < |e'.envs| && i != s ==> e'.envs[i] == e.envs[i])
    ensures e' == e.(envs := e'.envs)
  {
    var s := EnvSlot(e.envs, h.GetId()).value;
    SwapRemoveEnvValid(e, s);
    SwapRemoveEnvKeeps(e.envs, s);
    e.(envs := SwapRemove(e.envs, s))
  }

  /** Removing slot `s` keeps the environment ids valid, and the id that was there is gone. */
  lemma SwapRemoveEnvValid(e: Engine, s: nat)
    requires Valid(e) && s < |e.envs|
    ensures Valid(e.(envs := SwapRemove(e.envs, s)))
    ensures !EnvLive(e.(envs := SwapRemove(e.envs, s)), e.envs[s].id)
  {
    var envs := SwapRemove(e.envs, s);
    var last := |e.envs| - 1;
    forall i | 0 <= i < |envs| ensures envs[i] == e.envs[if i == s then last else i] && envs[i].id != e.envs[s].id {
    }
    forall i, j | 0 <= i < j < |envs| ensures envs[i].id != envs[j].id {
      assert envs[i] == e.envs[if i == s then last else i];
      assert envs[j] == e.envs[if j == s then last else j];
    }
  }

  /** Removing slot `s` loses the element there and nothing else. */
  lemma SwapRemoveEnvKeeps(envs: seq<EnvEntry>, s: nat)
    requires s < |envs|
    ensures forall x :: x in SwapRemove(envs, s) ==> x in envs
    ensures forall x :: x in envs && x != envs[s] ==> x in SwapRemove(envs, s)
  {
    var r := SwapRemove(envs, s);
    forall x | x in r ensures x in envs {
      assert x in multiset(r);
    }
    forall x | x in envs && x != envs[s] ensures x in r {
      var j :| 0 <= j < |envs| && envs[j] == x;
      SwapRemoveKeeps(envs, s, j);
    }
  }

  /** `get_draw_env(handle, func)`: `func` runs on the environment in place; depth, id and
      line of every entry and the order of the list stay as they were. */
  function GetDrawEnv<X>(e: Engine, h: Handles.DrawEnvHandle, f: DrawEnvs.DrawEnv -> (DrawEnvs.DrawEnv, X))
    : (r: (Engine, X))
    requires Valid(e) && EnvLive(e, h.GetId())
    ensures Valid(r.0) && |r.0.envs| == |e.envs|
    ensures forall i :: 0 <= i < |e.envs| ==>
      && r.0.envs[i].depth == e.envs[i].depth && r.0.envs[i].id == e.envs[i].id
      && r.0.envs[i].line == e.envs[i].line
      && r.0.envs[i].env == (if e.envs[i].id == h.GetId() then f(e.envs[i].env).0 else e.envs[i].env)
    ensures exists i :: 0 <= i < |e.envs| && e.envs[i].id == h.GetId() && r.1 == f(e.envs[i].env).1
    ensures r.0 == e.(envs := r.0.envs)
  {
    var s := EnvSlot(e.envs, h.GetId()).value;
    var (env, x) := f(e.envs[s].env);
    (e.(envs := e.envs[s := e.envs[s].(env := env)]), x)
  }

  /** Inserting keeps the list ordered: the new id is larger than every id present, and
      it goes after every entry that is not deeper and before every entry that is. */
  lemma {:induction false} CreateDrawEnvKeepsOrder(e: Engine, depth: real, line: nat)
    requires Valid(e) && e.envCounter < USIZE_MAX && Ordered(e.envs)
    ensures Ordered(CreateDrawEnv(e, depth, line).0.envs)
  {
    var x := EnvEntry(depth, e.envCounter, DrawEnvs.New(), line);
    InsertKeepsOrder(e.envs, InsertIndex(e.envs, depth), x);
  }

  lemma InsertKeepsOrder(envs: seq<EnvEntry>, k: nat, x: EnvEntry)
    requires Ordered(envs) && k <= |envs|
    requires forall i :: 0 <= i < k ==> envs[i].depth <= x.depth
    requires k < |envs| ==> envs[k].depth > x.depth
    requires forall i :: 0 <= i < |envs| ==> envs[i].id < x.id
    ensures Ordered(Insert(envs, k, x))
  {
    var r := Insert(envs, k, x);
    forall i, j | 0 <= i < j < |r|
      ensures r[i].depth < r[j].depth || (r[i].depth == r[j].depth && r[i].id < r[j].id)
    {
      if j == k {
        assert r[i] == envs[i];
      } else if i == k {
        assert r[j] == envs[j - 1];
        if j - 1 > k {
          assert envs[k].depth <= envs[j - 1].depth;
        }
      } else {
        var i0 := if i < k then i else i - 1;
        var j0 := if j < k then j else j - 1;
        assert r[i] == envs[i0] && r[j] == envs[j0];
      }
    }
  }

  /** Freeing breaks the order whenever the freed environment has at least two entries
      after it and the last entry is strictly deeper than its successor: the last entry
      moves in front of that successor. */
  lemma FreeDrawEnvBreaksOrder(e: Engine, h: Handles.DrawEnvHandle, s: nat)
    requires Valid(e) && s + 2 < |e.envs| && e.envs[s].id == h.GetId()
    requires e.envs[s + 1].depth < e.envs[|e.envs| - 1].depth
    ensures EnvLive(e, h.GetId())
    ensures FreeDrawEnv(e, h).envs[s] == e.envs[|e.envs| - 1]
    ensures FreeDrawEnv(e, h).envs[s + 1] == e.envs[s + 1]
    ensures !Ordered(FreeDrawEnv(e, h).envs)
  {
    assert EnvSlot(e.envs, h.GetId()) == Some(s);
    var envs := SwapRemove(e.envs, s);
    assert FreeDrawEnv(e, h).envs == envs;
    assert envs[s] == e.envs[|e.envs| - 1] && envs[s + 1] == e.envs[s + 1];
  }
}
