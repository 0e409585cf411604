/** `Texture2D` of `texture.rs`: the validation in front of the pixel uploads. The uploads
    themselves (`glTexImage2D`, `glTexSubImage2D`, the parameter calls) are device effects
    and are not modelled. Widths, heights and offsets are `u32` in the source; the model
    asks that the additions and products the checks perform do not overflow, and models
    the `data.len() as u32` cast as truncation to 32 bits. */
module Textures {
  import opened GL
  import opened Results

  datatype TextureError = FileNotFound | InvalidDataDimensions | OutOfBounds | FormatNotSupported

  /** `resource` is the GL texture name `glGenTextures` returned. */
  datatype Texture = Texture(width: nat, height: nat, format: GLenum, resource: nat)

  /** The bytes per pixel of the two supported formats. */
  function BytesPerColor(format: GLenum): (r: Option<nat>)
    ensures r.Some? <==> format == RGB || format == RGBA
    ensures r.Some? ==> r.value == (if format == RGB then 3 else 4)
  {
    if format == RGB then Some(3)
    else if format == RGBA then Some(4)
    else None
  }

  /** `data.len() as u32`. */
  function LenAsU32(len: nat): nat {
    len % U32_LIMIT
  }

  /** The `u32` product `bytes_per_color * width * height` does not overflow. */
  predicate AreaFits(bpc: nat, width: nat, height: nat) {
    bpc * width < U32_LIMIT && bpc * width * height < U32_LIMIT
  }

  /** `Texture2D::new()`, with `resource` the name `glGenTextures` returned. */
  function New(resource: nat): (t: Texture)
    ensures t.width == 0 && t.height == 0 && t.format == 0 && t.resource == resource
    ensures BytesPerColor(t.format).None?
  {
    Texture(0, 0, 0, resource)
  }

  /** `texture.load_from_pixels(width, height, format, data)` with `|data| == dataLen`:
      the texture after the call and the call's result. */
  function LoadFromPixels(t: Texture, width: nat, height: nat, format: GLenum, dataLen: nat)
    : (r: (Texture, Outcome<TextureError>))
    requires IsU32(width) && IsU32(height)
    requires BytesPerColor(format).Some? ==> AreaFits(BytesPerColor(format).value, width, height)
    ensures format != RGB && format != RGBA ==> r.1 == Fail(FormatNotSupported)
    ensures (format == RGB || format == RGBA) ==>
      (r.1.Pass? <==> BytesPerColor(format).value * width * height == LenAsU32(dataLen))
    ensures (format == RGB || format == RGBA) && r.1.Fail? ==> r.1.error == InvalidDataDimensions
    ensures r.1.Pass? ==>
      r.0.width == width && r.0.height == height && r.0.format == format
    ensures r.1.Fail? ==> r.0 == t
    ensures r.0.resource == t.resource
  {
    match BytesPerColor(format)
    case None => (t, Fail(FormatNotSupported))
    case Some(bpc) =>
      if bpc * width * height != LenAsU32(dataLen) then (t, Fail(InvalidDataDimensions))
      else (t.(width := width, height := height, format := format), Pass)
  }

  /** The `u32` additions of the bounds check do not overflow; `||` does not evaluate its
      right side once the left side holds. */
  predicate BoundsFit(t: Texture, x: nat, y: nat, width: nat, height: nat) {
    x + width < U32_LIMIT && (x + width <= t.width ==> y + height < U32_LIMIT)
  }

  /** `texture.blit(x, y, width, height, data)` with `|data| == dataLen`. The area product
      is formed only once the region is in bounds. */
  function Blit(t: Texture, x: nat, y: nat, width: nat, height: nat, dataLen: nat)
    : (r: (Texture, Outcome<TextureError>))
    requires BoundsFit(t, x, y, width, height)
    requires x + width <= t.width && y + height <= t.height && BytesPerColor(t.format).Some? ==>
      AreaFits(BytesPerColor(t.format).value, width, height)
    ensures r.0 == t
    ensures r.1 == Fail(OutOfBounds) <==> x + width > t.width || y + height > t.height
    ensures x + width <= t.width && y + height <= t.height && BytesPerColor(t.format).None? ==>
      r.1 == Fail(FormatNotSupported)
    ensures x + width <= t.width && y + height <= t.height && BytesPerColor(t.format).Some? ==>
      (r.1.Pass? <==> BytesPerColor(t.format).value * width * height == LenAsU32(dataLen)) &&
      (r.1.Fail? ==> r.1.error == InvalidDataDimensions)
  {
    if x + width > t.width || y + height > t.height then (t, Fail(OutOfBounds))
    else
      match BytesPerColor(t.format)
      case None => (t, Fail(FormatNotSupported))
      case Some(bpc) =>
        if bpc * width * height != LenAsU32(dataLen) then (t, Fail(InvalidDataDimensions))
        else (t, Pass)
  }

  /** A texture that was never loaded refuses every blit, for one of two reasons. */
  lemma BlitBeforeLoadFails(resource: nat, x: nat, y: nat, width: nat, height: nat, dataLen: nat)
    requires x + width < U32_LIMIT && y + height < U32_LIMIT
    ensures Blit(New(resource), x, y, width, height, dataLen).1 in
      {Fail(OutOfBounds), Fail(FormatNotSupported)}
  {
  }

  /** After a successful load, blitting the whole image again with data of the same
      length is accepted. */
  lemma LoadThenBlitWhole(t: Texture, width: nat, height: nat, format: GLenum, dataLen: nat)
    requires IsU32(width) && IsU32(height)
    requires BytesPerColor(format).Some? ==> AreaFits(BytesPerColor(format).value, width, height)
    requires LoadFromPixels(t, width, height, format, dataLen).1.Pass?
    ensures var t' := LoadFromPixels(t, width, height, format, dataLen).0;
      BoundsFit(t', 0, 0, width, height) &&
      Blit(t', 0, 0, width, height, dataLen).1.Pass?
  {
  }
}
