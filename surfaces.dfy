/** The Unity surfaces the pipeline draws into (`Texture2D`, `Sprite`) and the byte layout
    that carries decoded pixels into a `BGRA32` texture. */
module Surfaces {
  import opened Types

  /** A `Texture2D`: its size is fixed when it is created; uploads replace its pixels,
      stored row by row from the bottom row up. */
  class Texture {
    const width: nat
    const height: nat
    var pixels: seq<Color32>
    var name: string

    ghost predicate Valid()
      reads this
    {
      |pixels| == width * height
    }

    constructor (width: nat, height: nat, pixels: seq<Color32>)
      requires |pixels| == width * height
      ensures Valid()
      ensures this.width == width && this.height == height && this.pixels == pixels && name == ""
    {
      this.width, this.height := width, height;
      this.pixels := pixels;
      name := "";
    }
  }

  /** A `Sprite` covering the whole of one texture. */
  class Sprite {
    const texture: Texture
    var name: string

    constructor (texture: Texture)
      ensures this.texture == texture && name == ""
    {
      this.texture := texture;
      name := "";
    }
  }

  /** A pixel as the 32-bit `Format32bppArgb` word System.Drawing hands out:
      alpha in the top byte, blue in the bottom one. */
  function ArgbWord(c: Color32): (w: nat)
    ensures w < 0x1_0000_0000
  {
    c.a as nat * 0x100_0000 + c.r as nat * 0x1_0000 + c.g as nat * 0x100 + c.b as nat
  }

  /** A 32-bit word as it lies in little-endian memory, lowest byte first. */
  function LittleEndian(w: nat): (bytes: Bytes)
    requires w < 0x1_0000_0000
    ensures |bytes| == 4
  {
    [(w % 0x100) as byte, (w / 0x100 % 0x100) as byte, (w / 0x1_0000 % 0x100) as byte, (w / 0x100_0000) as byte]
  }

  /** The bytes `LockBits` copies out of a 32bpp ARGB bitmap: one little-endian word per pixel
      (the stride of a 32-bit format is exactly four bytes per pixel). */
  function ArgbMemory(pixels: seq<Color32>): (data: Bytes)
    ensures |data| == 4 * |pixels|
  {
    if pixels == [] then [] else LittleEndian(ArgbWord(pixels[0])) + ArgbMemory(pixels[1..])
  }

  /** How `TextureFormat.BGRA32` reads raw texture data: four bytes per pixel, blue first. */
  function DecodeBgra32(data: Bytes): (pixels: seq<Color32>)
    requires |data| % 4 == 0
    ensures |pixels| == |data| / 4
  {
    if data == [] then [] else [Color32(data[2], data[1], data[0], data[3])] + DecodeBgra32(data[4..])
  }

  /** A little-endian ARGB word is laid out blue, green, red, alpha. */
  lemma WordLayout(c: Color32)
    ensures LittleEndian(ArgbWord(c)) == [c.b, c.g, c.r, c.a]
  {
    var w := ArgbWord(c);
    assert w % 0x100 == c.b as nat;
    assert w / 0x100 == c.a as nat * 0x1_0000 + c.r as nat * 0x100 + c.g as nat;
    assert w / 0x1_0000 == c.a as nat * 0x100 + c.r as nat;
    assert w / 0x100_0000 == c.a as nat;
  }

  /** Reading ARGB memory as BGRA32 gives the very same colours: on a little-endian machine the
      two formats name the same byte order, so no channel is swapped on upload. */
  lemma {:induction false} Bgra32ReadsArgbMemory(pixels: seq<Color32>)
    ensures DecodeBgra32(ArgbMemory(pixels)) == pixels
  {
    if pixels != [] {
      var data := ArgbMemory(pixels);
      WordLayout(pixels[0]);
      assert data[4..] == ArgbMemory(pixels[1..]);
      Bgra32ReadsArgbMemory(pixels[1..]);
    }
  }
}
