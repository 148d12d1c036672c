/** Runs of the cache and the image component together, one await at a time, showing how they
    behave when requests overlap, when `Src` changes while a download is in flight, and when a
    location is asked for a second time. */
module Scenarios {
  import opened Types
  import opened AnimatedImages
  import opened ImageUtils
  import opened Downloads
  import opened WebImages

  /** Two requests for the same location both miss before either download finishes: each
      fetches, each builds its own image, and the cache keeps the one stored last. There is no
      sharing of a download that is already under way. */
  method OverlappingMissesBothFetch(url: string, host: Host)
    returns (first: Callback, second: Callback, cached: AnimatedImage, ghost fetches: seq<string>)
    requires Stores(url, host, NeverCancelled)
    ensures first.Succeeded? && second.Succeeded? && first.image != second.image
    ensures cached == second.image
    ensures fetches == [url, url]
  {
    var cache := new ImageCache();
    var hitA := cache.Lookup(url);
    var hitB := cache.Lookup(url);
    assert hitA.None? && hitB.None?;
    var doneA, doneB;
    first, doneA := cache.FetchAndStore(url, host, NeverCancelled);
    second, doneB := cache.FetchAndStore(url, host, NeverCancelled);
    cached := cache.entries[url];
    fetches := cache.fetchLog;
  }

  /** A location asked for a second time is served from the cache: the same image, and no
      second fetch. */
  method RepeatedRequestHits(url: string, host: Host)
    returns (first: Callback, second: Callback, ghost fetches: seq<string>)
    requires Stores(url, host, NeverCancelled)
    ensures first.Succeeded? && second == first
    ensures fetches == [url]
  {
    var cache := new ImageCache();
    var doneA, doneB;
    first, doneA := cache.TryDownload(url, host, NeverCancelled);
    second, doneB := cache.TryDownload(url, host, NeverCancelled);
    fetches := cache.fetchLog;
  }

  /** `Src` is set to the web location `k`, whose download is still waiting for the web
      request, and then to `j`, which is cached and shown at once. The download of `k` then
      fails: its token was cancelled, but no checkpoint guards the failure callback, so the
      image of `j` is cleared from the component. */
  method StaleFailureClearsNewerImage(k: string, hostK: Host, j: string, hostJ: Host)
    returns (web: WebImage)
    requires k != j && Stores(j, hostJ, NeverCancelled) && IsWebLocation(k) && GetData(k, hostK).Err?
    ensures web.src == Some(j) && web.IsCancellationRequested(0)
    ensures web.sprite == null && web.animatedImage == null
  {
    var cache := new ImageCache();
    var warm, warmDone := cache.TryDownload(j, hostJ, NeverCancelled);
    assert warm.Succeeded? && j in cache.entries;
    web := new WebImage(false);

    web.SetSrc(Some(k));
    var hitK := cache.Lookup(k);
    assert hitK.None?;

    web.SetSrc(Some(j));
    var shown, shownDone := cache.TryDownload(j, hostJ, NeverCancelled);
    assert shown.Succeeded?;
    web.Deliver(shown);

    var stale := web.IsCancellationRequested(0);
    var late, lateDone := cache.FetchAndStore(k, hostK, TokenSamples(stale, stale, stale));
    assert late.Failed?;
    web.Deliver(late);
  }

  /** The same run, but the web request for `k` succeeds: the cancelled token stops the
      download at the checkpoint after the fetch, and the image of `j` stays on display. */
  method StaleSuccessSuppressed(k: string, hostK: Host, j: string, hostJ: Host)
    returns (web: WebImage, shown: AnimatedImage)
    requires k != j && Stores(j, hostJ, NeverCancelled) && IsWebLocation(k) && GetData(k, hostK).Ok?
    ensures web.src == Some(j) && web.IsCancellationRequested(0)
    ensures web.animatedImage == shown && web.sprite == shown.sprite && !web.spinnerEnabled
  {
    var cache := new ImageCache();
    var warm, warmDone := cache.TryDownload(j, hostJ, NeverCancelled);
    shown := warm.image;
    web := new WebImage(false);

    web.SetSrc(Some(k));
    var hitK := cache.Lookup(k);
    assert hitK.None?;

    web.SetSrc(Some(j));
    var hitJ, hitJDone := cache.TryDownload(j, hostJ, NeverCancelled);
    web.Deliver(hitJ);

    var stale := web.IsCancellationRequested(0);
    var late, lateDone := cache.FetchAndStore(k, hostK, TokenSamples(stale, stale, stale));
    web.Deliver(late);
  }

  /** `Src` is set to a location and then to null before the download finishes. Null cancels
      nothing, so the download still delivers and its image is shown although `Src` is null. */
  method NullSourceKeepsDownloadLive(url: string, host: Host)
    returns (web: WebImage)
    requires Stores(url, host, NeverCancelled)
    ensures web.src == None && !web.IsCancellationRequested(0)
    ensures web.sprite != null && web.animatedImage != null && !web.spinnerEnabled
  {
    var cache := new ImageCache();
    web := new WebImage(false);
    web.SetSrc(Some(url));
    web.SetSrc(None);
    var live := web.IsCancellationRequested(0);
    var callback, done := cache.TryDownload(url, host, TokenSamples(live, live, live));
    web.Deliver(callback);
  }
}
