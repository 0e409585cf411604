/** The handle registry `DrawEngine` keeps three times over (buffers, shaders, textures):
    a counter that hands out ids, and three parallel vectors holding each live entry's id,
    resource and the caller's source line. Lookup is a linear `position` over the ids;
    deletion `swap_remove`s the same index of all three vectors. */
module ResourceTables {
  import opened GL
  import opened Results
  import opened Seqs

  datatype Table<R> = Table(counter: nat, ids: seq<nat>, items: seq<R>, lines: seq<nat>)

  /** The vectors stay parallel, every live id was handed out by the counter, no id is
      live twice, and the `usize` counter has not overflowed. */
  predicate Valid<R>(t: Table<R>) {
    && |t.ids| == |t.items| == |t.lines|
    && t.counter <= USIZE_MAX
    && (forall i :: 0 <= i < |t.ids| ==> t.ids[i] < t.counter)
    && (forall i, j :: 0 <= i < j < |t.ids| ==> t.ids[i] != t.ids[j])
  }

  predicate Live<R>(t: Table<R>, id: nat) {
    id in t.ids
  }

  function Empty<R>(): (t: Table<R>)
    ensures Valid(t) && t.counter == 0 && forall id :: !Live(t, id)
  {
    Table(0, [], [], [])
  }

  /** `ids.iter().position(|&h| h == id)`: the slot holding `id`, if it is live. */
  function Slot<R>(t: Table<R>, id: nat): (r: Option<nat>)
    ensures r.Some? <==> Live(t, id)
    ensures r.Some? ==> r.value < |t.ids| && t.ids[r.value] == id
  {
    IndexOf(t.ids, id)
  }

  /** In a valid table a live id has exactly one slot. */
  lemma SlotOfIndex<R>(t: Table<R>, k: nat)
    requires Valid(t) && k < |t.ids|
    ensures Slot(t, t.ids[k]) == Some(k)
  {
  }

  /** The resource a live id names. */
  function Get<R>(t: Table<R>, id: nat): R
    requires Valid(t) && Live(t, id)
  {
    t.items[Slot(t, id).value]
  }

  /** The source line recorded when the id was created. */
  function LineOf<R>(t: Table<R>, id: nat): nat
    requires Valid(t) && Live(t, id)
  {
    t.lines[Slot(t, id).value]
  }

  /** `t'` is `t` after the creation of `id` holding `r`, made at source line `line`:
      `id` is the old counter value, the counter moves past it, `id` was not live before
      and is now, and every other id keeps its liveness, resource and line. */
  ghost predicate Created<R>(t: Table<R>, t': Table<R>, id: nat, r: R, line: nat)
    requires Valid(t) && Valid(t')
  {
    && id == t.counter && t'.counter == t.counter + 1
    && |t'.ids| == |t.ids| + 1
    && !Live(t, id) && Live(t', id)
    && Get(t', id) == r && LineOf(t', id) == line
    && (forall k :: Live(t', k) <==> Live(t, k) || k == id)
    && (forall k :: Live(t, k) ==> Get(t', k) == Get(t, k) && LineOf(t', k) == LineOf(t, k))
  }

  /** `t'` is `t` with exactly `id` freed: the counter stays, `id` is no longer live, and
      every other live id keeps its resource and line. */
  ghost predicate Freed<R>(t: Table<R>, t': Table<R>, id: nat)
    requires Valid(t) && Valid(t')
  {
    && t'.counter == t.counter
    && |t'.ids| == |t.ids| - 1
    && !Live(t', id)
    && (forall k :: Live(t', k) <==> Live(t, k) && k != id)
    && (forall k :: Live(t, k) && k != id ==> Get(t', k) == Get(t, k) && LineOf(t', k) == LineOf(t, k))
  }

  /** `create_*`: the current counter value becomes the new id, the counter moves on, and
      the entry is pushed onto the three vectors. */
  function Create<R>(t: Table<R>, r: R, line: nat): (res: (Table<R>, nat))
    requires Valid(t) && t.counter < USIZE_MAX
    ensures Valid(res.0) && Created(t, res.0, res.1, r, line)
  {
    var id := t.counter;
    var t' := Table(id + 1, t.ids + [id], t.items + [r], t.lines + [line]);
    SlotOfIndex(t', |t.ids|);
    forall k | Live(t, k)
      ensures Get(t', k) == Get(t, k) && LineOf(t', k) == LineOf(t, k)
    {
      var s := Slot(t, k).value;
      SlotOfIndex(t', s);
    }
    (t', id)
  }

  /** `free_*`: the slot of a live id is `swap_remove`d from all three vectors. Freeing an
      id that is not live panics in the source, hence the precondition. */
  function Free<R>(t: Table<R>, id: nat): (t': Table<R>)
    requires Valid(t) && Live(t, id)
    ensures Valid(t') && Freed(t, t', id)
  {
    var s := Slot(t, id).value;
    var t' := Table(t.counter, SwapRemove(t.ids, s), SwapRemove(t.items, s), SwapRemove(t.lines, s));
    SwapRemoveValid(t, s, t');
    SwapRemoveKeepsOthers(t, s, t');
    t'
  }

  /** Removing slot `s` from a valid table leaves a valid table in which the id that was in
      slot `s` is no longer live, and no other id became live. */
  lemma SwapRemoveValid<R>(t: Table<R>, s: nat, t': Table<R>)
    requires Valid(t) && s < |t.ids|
    requires t' == Table(t.counter, SwapRemove(t.ids, s), SwapRemove(t.items, s), SwapRemove(t.lines, s))
    ensures Valid(t') && !Live(t', t.ids[s])
    ensures forall k :: Live(t', k) ==> Live(t, k)
  {
    var last := |t.ids| - 1;
    forall i, j | 0 <= i < j < |t'.ids| ensures t'.ids[i] != t'.ids[j] {
      var i0 := if i == s then last else i;
      var j0 := if j == s then last else j;
      assert t'.ids[i] == t.ids[i0] && t'.ids[j] == t.ids[j0];
    }
    forall i | 0 <= i < |t'.ids| ensures t'.ids[i] != t.ids[s] && t'.ids[i] in t.ids {
      var i0 := if i == s then last else i;
      assert t'.ids[i] == t.ids[i0];
    }
  }

  /** Removing slot `s` keeps every other id with its resource and line. */
  lemma {:induction false} SwapRemoveKeepsOthers<R>(t: Table<R>, s: nat, t': Table<R>)
    requires Valid(t) && s < |t.ids|
    requires t' == Table(t.counter, SwapRemove(t.ids, s), SwapRemove(t.items, s), SwapRemove(t.lines, s))
    ensures Valid(t')
    ensures forall k :: Live(t, k) && k != t.ids[s] ==>
      Live(t', k) && Get(t', k) == Get(t, k) && LineOf(t', k) == LineOf(t, k)
  {
    SwapRemoveValid(t, s, t');
    forall k | Live(t, k) && k != t.ids[s]
      ensures Live(t', k) && Get(t', k) == Get(t, k) && LineOf(t', k) == LineOf(t, k)
    {
      var i := Slot(t, k).value;
      var i' := if i == |t.ids| - 1 then s else i;
      assert t'.ids[i'] == k;
      SlotOfIndex(t', i');
    }
  }

  /** `t'` is `t` with the resource of `id` replaced by `r`: ids, lines and the counter are
      untouched and every other id keeps its resource. */
  ghost predicate Modified<R>(t: Table<R>, t': Table<R>, id: nat, r: R)
    requires Valid(t) && Valid(t') && Live(t, id)
  {
    && t'.counter == t.counter && t'.ids == t.ids && t'.lines == t.lines
    && Get(t', id) == r
    && (forall k :: Live(t, k) && k != id ==> Get(t', k) == Get(t, k))
  }

  /** `get_*_mut(handle, func)`: `func` runs on the live resource in place and its result is
      returned. */
  function Modify<R, X>(t: Table<R>, id: nat, f: R -> (R, X)): (res: (Table<R>, X))
    requires Valid(t) && Live(t, id)
    ensures Valid(res.0) && Modified(t, res.0, id, f(Get(t, id)).0)
    ensures res.1 == f(Get(t, id)).1
  {
    var s := Slot(t, id).value;
    var (r, x) := f(t.items[s]);
    var t' := t.(items := t.items[s := r]);
    forall k | Live(t, k) && k != id
      ensures Get(t', k) == Get(t, k)
    {
      SlotOfIndex(t, Slot(t, k).value);
    }
    (t', x)
  }

  /** A call sequence against one table: creations of a resource, and frees of an id. */
  datatype TableOp<R> = CreateOp(resource: R, line: nat) | FreeOp(id: nat)

  /** Runs the calls in order and collects the ids the creations returned; `None` when a
      call would panic (a free of an id that is not live, or a counter overflow). */
  function Run<R>(t: Table<R>, ops: seq<TableOp<R>>): (r: Option<(Table<R>, seq<nat>)>)
    requires Valid(t)
    ensures r.Some? ==> Valid(r.value.0)
    decreases |ops|
  {
    if |ops| == 0 then Some((t, []))
    else
      match ops[0]
      case CreateOp(res, line) =>
        if t.counter == USIZE_MAX then None
        else
          var (t1, id) := Create(t, res, line);
          (match Run(t1, ops[1..])
           case None => None
           case Some((t2, ids)) => Some((t2, [id] + ids)))
      case FreeOp(id) =>
        if !Live(t, id) then None
        else Run(Free(t, id), ops[1..])
  }

  /** Ids are never reused: over any call sequence, the ids handed out strictly increase,
      none of them was handed out before the sequence started, and every one is below the
      final counter. */
  lemma {:induction false} RunIdsIncrease<R>(t: Table<R>, ops: seq<TableOp<R>>)
    requires Valid(t)
    requires Run(t, ops).Some?
    ensures var (t', ids) := Run(t, ops).value;
      && t.counter <= t'.counter
      && (forall i :: 0 <= i < |ids| ==> t.counter <= ids[i] < t'.counter)
      && (forall i, j :: 0 <= i < j < |ids| ==> ids[i] < ids[j])
    decreases |ops|
  {
    if |ops| > 0 {
      match ops[0]
      case CreateOp(res, line) =>
        var (t1, id) := Create(t, res, line);
        RunIdsIncrease(t1, ops[1..]);
      case FreeOp(id) =>
        RunIdsIncrease(Free(t, id), ops[1..]);
    }
  }
}
