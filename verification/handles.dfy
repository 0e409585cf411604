/** The typed handle newtypes of `handles.rs`. A handle is an id and nothing more; it does
    not keep the resource it names alive. `BufferHandle` carries the buffer's element type as
    a phantom type parameter, which has no run-time content. */
module Handles {

  datatype BufferHandle<T> = BufferHandle(id: nat) {
    static function New(id: nat): (h: BufferHandle<T>)
      ensures h.GetId() == id
    {
      BufferHandle(id)
    }

    function GetId(): nat {
      id
    }
  }

  datatype TextureHandle = TextureHandle(id: nat) {
    static function New(id: nat): (h: TextureHandle)
      ensures h.GetId() == id
    {
      TextureHandle(id)
    }

    function GetId(): nat {
      id
    }
  }

  datatype ShaderHandle = ShaderHandle(id: nat) {
    static function New(id: nat): (h: ShaderHandle)
      ensures h.GetId() == id
    {
      ShaderHandle(id)
    }

    function GetId(): nat {
      id
    }
  }

  datatype DrawEnvHandle = DrawEnvHandle(id: nat) {
    static function New(id: nat): (h: DrawEnvHandle)
      ensures h.GetId() == id
    {
      DrawEnvHandle(id)
    }

    function GetId(): nat {
      id
    }
  }

  /** A handle gives back the id it was made from, and handles of one kind made from
      different ids are different. */
  lemma NewGetId<T>(id: nat, other: nat)
    ensures BufferHandle<T>.New(id).GetId() == id && TextureHandle.New(id).GetId() == id
    ensures ShaderHandle.New(id).GetId() == id && DrawEnvHandle.New(id).GetId() == id
    ensures id != other ==> BufferHandle<T>.New(id) != BufferHandle<T>.New(other)
    ensures id != other ==> DrawEnvHandle.New(id) != DrawEnvHandle.New(other)
  {
  }
}
