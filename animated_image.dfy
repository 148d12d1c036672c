/** `AnimatedImage`: a decoded image ready for display, either a static sprite or a GIF whose
    frames are composited one after another into a colour buffer that is uploaded to the sprite's
    texture. */
module AnimatedImages {
  import opened Types
  import opened Surfaces
  import opened Playback

  /** One frame as the GIF loader gives it; only its delay (`graphicControl.fdelay`) is read here. */
  datatype GifFrame = GifFrame(fdelay: real)

  /** What the GIF loader decodes: the logical screen size and the frames (`imageData`). */
  datatype GifImage = GifImage(width: nat, height: nat, frames: seq<GifFrame>)

  /** The delay of each frame, in order. */
  function Delays(frames: seq<GifFrame>): seq<real>
  {
    seq(|frames|, k requires 0 <= k < |frames| => frames[k].fdelay)
  }

  /** What the current frame's `Dispose` and `DrawTo` do to the colour buffer during one call
      (they belong to the GIF loader); when `DrawTo` throws, `draw` gives the buffer as it left it. */
  datatype FrameEffects = FrameEffects(
    dispose: seq<Color32> -> seq<Color32>,
    draw: seq<Color32> -> seq<Color32>,
    drawThrows: bool)

  /** The buffer after the frame's disposal and then its drawing. */
  function Composite(fx: FrameEffects, buffer: seq<Color32>): seq<Color32>
  {
    fx.draw(fx.dispose(buffer))
  }

  /** Both effects work in place on the buffer, so they keep its length. */
  predicate KeepsSize(fx: FrameEffects, buffer: seq<Color32>)
  {
    |fx.dispose(buffer)| == |buffer| && |Composite(fx, buffer)| == |buffer|
  }

  /** Copies `content` into `a`, as `Dispose` and `DrawTo` do with `_colors`. */
  method Overwrite(a: array<Color32>, content: seq<Color32>)
    requires |content| == a.Length
    modifies a
    ensures a[..] == content
  {
    forall i | 0 <= i < a.Length {
      a[i] := content[i];
    }
  }

  class AnimatedImage {
    const sprite: Sprite?
    const isAnimated: bool
    const gif: Option<GifImage>         // `_gifImage`, null for a static image
    const colors: array?<Color32>       // `_colors`, null for a static image
    var currentIndex: nat               // `_currentIndex`
    var deltaAccumulated: real          // `_deltaAccumulated`

    ghost predicate Valid()
      reads this
    {
      (isAnimated <==> gif.Some?) &&
      (isAnimated ==>
        sprite != null && colors != null &&
        sprite.texture.width == gif.value.width && sprite.texture.height == gif.value.height &&
        colors.Length == gif.value.width * gif.value.height &&
        (currentIndex < |gif.value.frames| || (gif.value.frames == [] && currentIndex == 0)))
    }

    /** The objects `OnUpdate` may change: this image, its buffer and its texture. */
    ghost function Repr(): set<object>
      reads this
    {
      {this} + (if colors != null then {colors} else {}) + (if sprite != null then {sprite.texture} else {})
    }

    /** An animated image with at least one frame; anything else ignores `OnUpdate`. */
    predicate Plays()
      reads this
    {
      isAnimated && gif.Some? && gif.value.frames != []
    }

    function State(): Clock
      reads this
    {
      Clock(currentIndex, deltaAccumulated)
    }

    /** `AnimatedImage(GIFImage)`: a fresh sprite the size of the GIF's screen, a transparent
        colour buffer of the same size, and playback at the first frame with no time on it. */
    constructor FromGif(gifImage: GifImage)
      ensures Valid() && isAnimated && gif == Some(gifImage)
      ensures currentIndex == 0 && deltaAccumulated == 0.0
      ensures sprite != null && fresh(sprite) && fresh(sprite.texture) && fresh(colors)
      ensures colors != null && forall i :: 0 <= i < colors.Length ==> colors[i] == Transparent
    {
      var n := gifImage.width * gifImage.height;
      var texture := new Texture(gifImage.width, gifImage.height, seq(n, _ => Transparent));
      var created := new Sprite(texture);
      var buffer := new Color32[n];
      var i := 0;
      while i < buffer.Length
        invariant 0 <= i <= buffer.Length
        invariant forall k :: 0 <= k < i ==> buffer[k] == Transparent
      {
        buffer[i] := Transparent;
        i := i + 1;
      }
      isAnimated := true;
      sprite := created;
      colors := buffer;
      gif := Some(gifImage);
      currentIndex := 0;
      deltaAccumulated := 0.0;
    }

    /** `AnimatedImage(Sprite)`: a static image showing the given sprite. */
    constructor FromSprite(s: Sprite?)
      ensures Valid() && !isAnimated && gif == None && colors == null
      ensures sprite == s && currentIndex == 0 && deltaAccumulated == 0.0
    {
      isAnimated := false;
      sprite := s;
      gif := None;
      colors := null;
      currentIndex := 0;
      deltaAccumulated := 0.0;
    }

    /** `OnUpdate(timeDelta)`: composites the current frame when no time has accumulated on it
        (dispose, draw, upload to the texture), then adds the elapsed time and moves to the next
        frame once the frame's delay is reached. A throwing `DrawTo` uploads the buffer as it is
        and ends the call with the clock untouched. */
    method OnUpdate(timeDelta: real, fx: FrameEffects)
      requires Valid()
      requires Plays() ==> colors != null && KeepsSize(fx, colors[..])
      modifies Repr()
      ensures Valid()
      ensures !Plays() ==>
        State() == old(State()) &&
        (colors != null ==> colors[..] == old(colors[..])) &&
        (sprite != null ==> sprite.texture.pixels == old(sprite.texture.pixels))
      ensures sprite != null ==> sprite.texture.name == old(sprite.texture.name)
      ensures Plays() ==>
        State() == Advance(Delays(gif.value.frames), old(State()), Tick(timeDelta, fx.drawThrows)) &&
        colors != null && sprite != null &&
        (Composites(old(State())) ==>
          colors[..] == Composite(fx, old(colors[..])) && sprite.texture.pixels == colors[..]) &&
        (!Composites(old(State())) ==>
          colors[..] == old(colors[..]) && sprite.texture.pixels == old(sprite.texture.pixels))
    {
      if !isAnimated || |gif.value.frames| == 0 {
        return;
      }
      var texture := sprite.texture;
      var frame := gif.value.frames[currentIndex];
      if deltaAccumulated == 0.0 {
        Overwrite(colors, fx.dispose(colors[..]));
        Overwrite(colors, fx.draw(colors[..]));
        if fx.drawThrows {
          texture.pixels := colors[..];
          return;
        }
        texture.pixels := colors[..];
      }
      deltaAccumulated := deltaAccumulated + timeDelta;
      if deltaAccumulated >= frame.fdelay {
        deltaAccumulated := 0.0;
        if currentIndex < |gif.value.frames| - 1 {
          currentIndex := currentIndex + 1;
        } else {
          currentIndex := 0;
        }
      }
    }
  }
}
