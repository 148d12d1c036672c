/** `WebImage`: an image component bound to a source location. Assigning a non-null `Src`
    cancels the previous request's token and starts a download with a fresh one; the download's callbacks
    set the displayed sprite and the animated image that `OnUpdate` drives. */
module WebImages {
  import opened Types
  import opened Surfaces
  import opened Playback
  import opened AnimatedImages
  import opened Downloads

  /** A download the component started: the source it asked for and the token it passed.
      Tokens are numbered in the order their `CancellationTokenSource`s were created. */
  datatype Download = Download(url: string, token: nat)

  class WebImage {
    var src: Option<string>                 // `_src`
    var tokenSource: Option<nat>            // `_tokenSource`
    var cancelled: set<nat>                 // tokens whose source has been cancelled
    var tokensCreated: nat
    var downloads: seq<Download>            // `TryDownload` calls started, in order
    var animatedImage: AnimatedImage?       // `_animatedImage`
    var sprite: Sprite?                     // `Sprite`, the picture on display
    var spinnerEnabled: bool                // `Spinner.Enabled`

    /** Each download has its own token, the newest one is held in `_tokenSource` and is the
        only one not cancelled, and the source on display was the last one downloaded. */
    ghost predicate Valid()
      reads this, animatedImage
    {
      Valid'() &&
      (src.Some? ==> downloads != [] && downloads[|downloads| - 1].url == src.value)
    }

    /** `token.IsCancellationRequested` for one of this component's tokens. */
    predicate IsCancellationRequested(token: nat)
      reads this
    {
      token in cancelled
    }

    /** A component with no source, no token, nothing on display and the spinner as given. */
    constructor (spinner: bool)
      ensures Valid()
      ensures src == None && tokenSource == None && cancelled == {} && downloads == []
      ensures animatedImage == null && sprite == null && spinnerEnabled == spinner
    {
      src, tokenSource, cancelled, tokensCreated, downloads := None, None, {}, 0, [];
      animatedImage, sprite, spinnerEnabled := null, null, spinner;
    }

    /** Only the newest download can still deliver through the checkpoints: every older one's
        token is cancelled. */
    lemma OnlyNewestDownloadLive()
      requires Valid()
      ensures forall i :: 0 <= i < |downloads| ==>
        (IsCancellationRequested(downloads[i].token) <==> i < |downloads| - 1)
    {
    }

    /** The `Src` setter and `UpdateImage`: a source turns the spinner on, cancels the previous
        token, creates a fresh one and starts downloading the source with it; null clears the
        sprite and turns the spinner off, leaving the token, the downloads and the animated image
        as they were. `StopAllCoroutines` stops only the coroutine waiting on the previous task,
        not the task, so it changes nothing here. */
    method SetSrc(value: Option<string>)
      requires Valid()
      modifies this
      ensures Valid()
      ensures src == value && animatedImage == old(animatedImage)
      ensures value.Some? ==>
        spinnerEnabled && sprite == old(sprite) &&
        cancelled == old(cancelled) + (if old(tokenSource).Some? then {old(tokenSource).value} else {}) &&
        tokenSource == Some(old(tokensCreated)) && !IsCancellationRequested(old(tokensCreated)) &&
        downloads == old(downloads) + [Download(value.value, old(tokensCreated))]
      ensures value.None? ==>
        sprite == null && !spinnerEnabled &&
        tokenSource == old(tokenSource) && cancelled == old(cancelled) && downloads == old(downloads)
    {
      src := value;
      UpdateImage();
    }

    method UpdateImage()
      requires Valid() || (src.Some? && Valid'())
      modifies this
      ensures Valid()
      ensures src == old(src) && animatedImage == old(animatedImage)
      ensures src.Some? ==>
        spinnerEnabled && sprite == old(sprite) &&
        cancelled == old(cancelled) + (if old(tokenSource).Some? then {old(tokenSource).value} else {}) &&
        tokenSource == Some(old(tokensCreated)) &&
        downloads == old(downloads) + [Download(src.value, old(tokensCreated))]
      ensures src.None? ==>
        sprite == null && !spinnerEnabled &&
        tokenSource == old(tokenSource) && cancelled == old(cancelled) && downloads == old(downloads)
    {
      spinnerEnabled := true;
      if src.Some? {
        if tokenSource.Some? {
          cancelled := cancelled + {tokenSource.value};
        }
        tokenSource := Some(tokensCreated);
        downloads := downloads + [Download(src.value, tokensCreated)];
        tokensCreated := tokensCreated + 1;
      } else {
        sprite := null;
        spinnerEnabled := false;
      }
    }

    /** `Valid` except that `src` may name a source not yet downloaded: the state between the
        assignment of `_src` and `UpdateImage`. */
    ghost predicate Valid'()
      reads this, animatedImage
    {
      tokensCreated == |downloads| &&
      (forall i :: 0 <= i < |downloads| ==> downloads[i].token == i) &&
      tokenSource == (if tokensCreated == 0 then None else Some(tokensCreated - 1)) &&
      (forall t: nat :: t in cancelled <==> t + 1 < tokensCreated) &&
      (animatedImage != null ==> animatedImage.Valid())
    }

    /** `OnImageLoadSuccess`: show the image's sprite, hide the spinner, keep the image for playback. */
    method OnImageLoadSuccess(image: AnimatedImage)
      requires Valid() && image.Valid()
      modifies this
      ensures Valid()
      ensures sprite == image.sprite && !spinnerEnabled && animatedImage == image
      ensures src == old(src) && tokenSource == old(tokenSource) && cancelled == old(cancelled) &&
              downloads == old(downloads)
    {
      sprite := image.sprite;
      spinnerEnabled := false;
      animatedImage := image;
    }

    /** `OnImageLoadFailed`: show nothing and drop the image; the spinner is left as it is. */
    method OnImageLoadFailed(reason: string)
      requires Valid()
      modifies this
      ensures Valid()
      ensures sprite == null && animatedImage == null && spinnerEnabled == old(spinnerEnabled)
      ensures src == old(src) && tokenSource == old(tokenSource) && cancelled == old(cancelled) &&
              downloads == old(downloads)
    {
      sprite := null;
      animatedImage := null;
    }

    /** Runs the callback a download invoked, if any. */
    method Deliver(callback: Callback)
      requires Valid()
      requires callback.Succeeded? ==> callback.image.Valid()
      modifies this
      ensures Valid()
      ensures callback.NoCallback? ==>
        sprite == old(sprite) && animatedImage == old(animatedImage) && spinnerEnabled == old(spinnerEnabled)
      ensures callback.Succeeded? ==>
        sprite == callback.image.sprite && animatedImage == callback.image && !spinnerEnabled
      ensures callback.Failed? ==>
        sprite == null && animatedImage == null && spinnerEnabled == old(spinnerEnabled)
      ensures src == old(src) && tokenSource == old(tokenSource) && cancelled == old(cancelled) &&
              downloads == old(downloads)
    {
      match callback
      case NoCallback =>
      case Succeeded(image) => OnImageLoadSuccess(image);
      case Failed(reason) => OnImageLoadFailed(reason);
    }

    /** `OnUpdate`: hands the frame time to the animated image, if there is one. */
    method OnUpdate(timeDelta: real, fx: FrameEffects)
      requires Valid()
      requires animatedImage != null && animatedImage.Plays() ==>
        animatedImage.colors != null && KeepsSize(fx, animatedImage.colors[..])
      modifies if animatedImage != null then animatedImage.Repr() else {}
      ensures Valid()
      ensures animatedImage != null && animatedImage.Plays() ==>
        animatedImage.State() == Advance(Delays(animatedImage.gif.value.frames), old(animatedImage.State()),
                                         Tick(timeDelta, fx.drawThrows))
      ensures animatedImage != null && !animatedImage.Plays() ==> animatedImage.State() == old(animatedImage.State())
    {
      if animatedImage != null {
        animatedImage.OnUpdate(timeDelta, fx);
      }
    }
  }
}
