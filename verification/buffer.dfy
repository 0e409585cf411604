/** `Buffer<T>` of `buffer.rs`: a GL buffer object that remembers its binding target
    (`buffer_type`, 0 until initialised) and the component layout of `T`. The data uploads
    (`glBufferData`, `glBufferSubData`) are device effects and are not modelled; only the
    validation and the fields are. */
module Buffers {
  import opened GL
  import opened Results
  import Glsl

  datatype BufferError = InvalidBufferType | BufferNotInitialized | InvalidGLSLType

  /** `resource` is the GL buffer name the device handed out. */
  datatype Buffer = Buffer(bufferType: GLenum, glslTypeCount: int, glslType: GLenum, resource: nat)

  /** The component types that only index (element) buffers may hold. */
  predicate IsIndexComponent(ty: GLenum) {
    ty == UNSIGNED_BYTE || ty == UNSIGNED_SHORT
  }

  /** `Buffer::<T>::new()`, where `t` is `T` and `resource` the name `glGenBuffers` returned. */
  function New(t: Glsl.GlslType, resource: nat): (b: Buffer)
    ensures b.bufferType == 0 && b.resource == resource
    ensures (b.glslTypeCount, b.glslType) == Glsl.GetType(t)
    ensures Blit(b).1 == Fail(BufferNotInitialized)
  {
    var (count, ty) := Glsl.GetType(t);
    Buffer(0, count, ty, resource)
  }

  /** `buffer.init(buffer_type, data)`: the buffer after the call and what the call returned. */
  function Init(b: Buffer, bufferType: GLenum): (r: (Buffer, Outcome<BufferError>))
    ensures bufferType != ARRAY_BUFFER && bufferType != ELEMENT_ARRAY_BUFFER ==>
      r.1 == Fail(InvalidBufferType)
    ensures bufferType == ARRAY_BUFFER ==> (r.1.Pass? <==> !IsIndexComponent(b.glslType))
    ensures bufferType == ELEMENT_ARRAY_BUFFER ==> (r.1.Pass? <==> IsIndexComponent(b.glslType))
    ensures (bufferType == ARRAY_BUFFER || bufferType == ELEMENT_ARRAY_BUFFER) && r.1.Fail? ==>
      r.1.error == InvalidGLSLType
    ensures r.1.Pass? ==> r.0.bufferType == bufferType && Blit(r.0).1.Pass?
    ensures r.1.Fail? ==> r.0 == b
    ensures r.0.glslTypeCount == b.glslTypeCount && r.0.glslType == b.glslType
    ensures r.0.resource == b.resource
  {
    if bufferType == ARRAY_BUFFER then
      if IsIndexComponent(b.glslType) then (b, Fail(InvalidGLSLType))
      else (b.(bufferType := bufferType), Pass)
    else if bufferType == ELEMENT_ARRAY_BUFFER then
      if IsIndexComponent(b.glslType) then (b.(bufferType := bufferType), Pass)
      else (b, Fail(InvalidGLSLType))
    else (b, Fail(InvalidBufferType))
  }

  /** `buffer.blit(pos, data)`: refused exactly while the buffer was never initialised. */
  function Blit(b: Buffer): (r: (Buffer, Outcome<BufferError>))
    ensures r.0 == b
    ensures r.1.Fail? <==> b.bufferType == 0
    ensures r.1.Fail? ==> r.1.error == BufferNotInitialized
  {
    if b.bufferType == 0 then (b, Fail(BufferNotInitialized)) else (b, Pass)
  }

  /** The index-triangle types are exactly the ones an element buffer accepts and an
      array buffer refuses. */
  lemma InitAcceptsByType(t: Glsl.GlslType, resource: nat)
    ensures Init(New(t, resource), ELEMENT_ARRAY_BUFFER).1.Pass? <==> Glsl.IsTriangle(t)
    ensures Init(New(t, resource), ARRAY_BUFFER).1.Pass? <==> !Glsl.IsTriangle(t)
  {
    var b := New(t, resource);
    assert b.glslType == Glsl.GetType(t).1;
  }
}
