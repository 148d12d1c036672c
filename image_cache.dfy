/** `ImageUtils.TryDownload` and the process-wide `ImageCache` it fills: a dictionary from the
    requested location, exactly as given, to the decoded image. The awaits of `TryDownload` run as
    sequential steps; the request's cancellation token is sampled at its three checkpoints. */
module Downloads {
  import opened Types
  import opened Surfaces
  import opened AnimatedImages
  import opened ImageUtils

  /** `token.IsCancellationRequested` after the fetch, after the GIF decode and before the
      success callback. */
  datatype TokenSamples = TokenSamples(afterFetch: bool, afterGifDecode: bool, beforeSuccess: bool)

  const NeverCancelled := TokenSamples(false, false, false)

  /** Which of the two callbacks a request invoked, if any, and with what. */
  datatype Callback = NoCallback | Succeeded(image: AnimatedImage) | Failed(reason: string)

  /** How the task `TryDownload` returns ended: an exception from the static decoder is not caught. */
  datatype Completion = RanToCompletion | Faulted(error: Exception)

  /** `e.Message ?? ""`, the reason handed to the failure callback. */
  function FailureReason(e: Exception): string
  {
    match Message(e)
    case Some(m) => m
    case None => ""
  }

  /** A miss ends with an image in the cache: the fetch and decoding succeeded and the token was
      not seen cancelled before the image was built. */
  predicate Stores(url: string, host: Host, token: TokenSamples)
  {
    var fetched := GetData(url, host);
    fetched.Ok? && !token.afterFetch && !token.afterGifDecode &&
    (host.loadGif(fetched.value).Some? || host.decodeBitmap(fetched.value).Some?)
  }

  class ImageCache {
    var entries: map<string, AnimatedImage>
    ghost var fetchLog: seq<string>     // the locations `GetDataAsync` was asked for, in order

    ghost predicate Valid()
      reads this, entries.Values
    {
      forall url :: url in entries ==> entries[url].Valid()
    }

    constructor ()
      ensures Valid() && entries == map[] && fetchLog == []
    {
      entries := map[];
      fetchLog := [];
    }

    /** `ImageCache.TryGetValue(url, out var image)`. */
    method Lookup(url: string) returns (hit: Option<AnimatedImage>)
      ensures hit.Some? <==> url in entries
      ensures hit.Some? ==> hit.value == entries[url]
    {
      hit := if url in entries then Some(entries[url]) else None;
    }

    /** What a miss does, as a relation between the cache before and after and the outcome. */
    twostate predicate MissHandled(url: string, host: Host, token: TokenSamples,
                                   new callback: Callback, completion: Completion)
      reads this
    {
      fetchLog == old(fetchLog) + [url] &&
      var fetched := GetData(url, host);
      if fetched.Err? then
        // no checkpoint before the fetch: the failure is reported even for a cancelled token
        callback == Failed(FailureReason(fetched.error)) && completion == RanToCompletion &&
        entries == old(entries)
      else if token.afterFetch || token.afterGifDecode then
        callback == NoCallback && completion == RanToCompletion && entries == old(entries)
      else if host.loadGif(fetched.value).None? && host.decodeBitmap(fetched.value).None? then
        callback == NoCallback && completion == Faulted(InvalidImage) && entries == old(entries)
      else
        url in entries && fresh(entries[url]) && entries == old(entries)[url := entries[url]] &&
        completion == RanToCompletion &&
        callback == (if token.beforeSuccess then NoCallback else Succeeded(entries[url]))
    }

    /** What the stored image is, on a miss that stores one: an animation of the decoded GIF, or
        else a static image whose texture has the decoded bitmap's size and pixels. */
    twostate predicate StoredImage(url: string, host: Host)
      reads this, entries.Values
      reads if url in entries && entries[url].sprite != null then {entries[url].sprite.texture} else {}
      requires GetData(url, host).Ok? && url in entries
    {
      var data := GetData(url, host).value;
      var image := entries[url];
      match host.loadGif(data)
      case Some(gif) =>
        image.isAnimated && image.gif == Some(gif) && image.State() == Playback.Clock(0, 0.0)
      case None =>
        !image.isAnimated && image.sprite != null && fresh(image.sprite) &&
        host.decodeBitmap(data).Some? &&
        var bitmap := host.decodeBitmap(data).value;
        image.sprite.texture.Valid() && image.sprite.texture.pixels == bitmap.pixels &&
        image.sprite.texture.width == bitmap.width && image.sprite.texture.height == bitmap.height
    }

    /** Lines 32 to 67 of `TryDownload`: everything after the cache lookup missed. */
    method FetchAndStore(url: string, host: Host, token: TokenSamples)
      returns (callback: Callback, completion: Completion)
      requires Valid()
      modifies this
      ensures Valid()
      ensures MissHandled(url, host, token, callback, completion)
      ensures Stores(url, host, token) ==> url in entries && StoredImage(url, host)
    {
      fetchLog := fetchLog + [url];
      var fetched := GetData(url, host);
      if fetched.Err? {
        return Failed(FailureReason(fetched.error)), RanToCompletion;
      }
      var data := fetched.value;
      if token.afterFetch {
        return NoCallback, RanToCompletion;
      }
      var gif := host.loadGif(data);
      if token.afterGifDecode {
        return NoCallback, RanToCompletion;
      }
      var image: AnimatedImage;
      if gif.Some? {
        image := new AnimatedImage.FromGif(gif.value);
        entries := entries[url := image];
      } else {
        var sprite := LoadSpriteAsync(data, host.decodeBitmap);
        if sprite.Err? {
          return NoCallback, Faulted(sprite.error);
        }
        image := new AnimatedImage.FromSprite(sprite.value);
        entries := entries[url := image];
      }
      if token.beforeSuccess {
        return NoCallback, RanToCompletion;
      }
      callback, completion := Succeeded(image), RanToCompletion;
    }

    /** `TryDownload(url, onSuccess, onFail, token)`: a hit hands over the cached image at once,
        with no fetch and no change; a miss fetches, decodes and stores as `MissHandled` says.
        Whenever the success callback fires, the cache already maps `url` to its image. */
    method TryDownload(url: string, host: Host, token: TokenSamples)
      returns (callback: Callback, completion: Completion)
      requires Valid()
      modifies this
      ensures Valid()
      ensures url in old(entries) ==>
        callback == Succeeded(old(entries)[url]) && completion == RanToCompletion &&
        entries == old(entries) && fetchLog == old(fetchLog)
      ensures url !in old(entries) ==> MissHandled(url, host, token, callback, completion)
      ensures url !in old(entries) && Stores(url, host, token) ==> url in entries && StoredImage(url, host)
      ensures callback.Succeeded? ==> url in entries && entries[url] == callback.image
    {
      var hit := Lookup(url);
      if hit.Some? {
        return Succeeded(hit.value), RanToCompletion;
      }
      callback, completion := FetchAndStore(url, host, token);
    }
  }
}
