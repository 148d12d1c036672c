# Image loading in the Beat Saber SDK, modelled in Dafny

This project models how the SDK's UI components get their pictures. There are three parts:

- `ImageUtils` finds the bytes behind a location. A location can be a web address, a file on disk or a resource embedded in an assembly. `ImageUtils` decodes the bytes into a texture and a sprite. `TryDownload` stores the images it decodes in a process-wide cache keyed by the location string. A download whose token is seen cancelled before the image is built stores nothing. When two downloads of one location overlap, the later image replaces the earlier one.
- `AnimatedImage` wraps a decoded image. A static image is one sprite. A GIF is played back by compositing its frames into a colour buffer, one `OnUpdate` call per host frame, and uploading the buffer to the sprite's texture.
- `WebImage` is the component bound to a `Src` location. Setting `Src` to a location cancels the previous request's token and starts a new download. Setting it to null cancels nothing. The download's callbacks set the sprite on display and the image that `OnUpdate` plays.

Modules:

- `Types`: bytes, colours, `Option`/`Result`, and the exceptions that reach the code.
- `Text`: the .NET string operations the path logic uses.
- `Surfaces`: textures, sprites and the BGRA32 byte layout.
- `Playback`: the clock of an animation as pure functions.
- `AnimatedImages`: the `AnimatedImage` class.
- `ImageUtils`: location classification, resource paths and the loaders.
- `Downloads`: the cache class and `TryDownload`.
- `WebImages`: the `WebImage` class.
- `Scenarios`: runs of the cache and the component together, one await at a time.

The awaits of `TryDownload` are sequential steps in the model. A download that has not finished yet is split into its cache lookup (`ImageCache.Lookup`) and the rest (`ImageCache.FetchAndStore`). That way other steps can run in between. A cancellation token is a number issued by the component. `IsCancellationRequested` is sampled at the three checkpoints of `TryDownload` (`TokenSamples`).

Some things the code does that a reader might not expect:

- Nothing stops two requests for the same location from both fetching and decoding. The last one to finish owns the cache entry (`Scenarios.OverlappingMissesBothFetch`).
- One long `OnUpdate` call moves an animation by at most one frame and drops the excess time. It does not catch up, so it never goes round the whole cycle in one call (`Playback.OneLongTickMovesOneFrame`, `Playback.ExcessTimeDiscarded`).
- Cancellation does not suppress every callback. A fetch failure is reported without looking at the token (`Scenarios.StaleFailureClearsNewerImage`). So is a cache hit, which is delivered at once, before anything can cancel it.
- Setting `Src` to null cancels nothing. A download still running delivers its image afterwards (`Scenarios.NullSourceKeepsDownloadLive`).

## Model

| member | source | states |
|---|---|---|
| Text.IndexOf | BeatSaberSDK/Utils/ImageUtils.cs:94 | `IndexOf('.')` is -1 exactly when the character is absent; otherwise it is a position holding the character with none before it |
| Text.Split | BeatSaberSDK/Utils/ImageUtils.cs:89 | `Split(':')` yields one piece more than there are separators, and no piece contains the separator |
| Text.JoinSplit | BeatSaberSDK/Utils/ImageUtils.cs:89 | the pieces of `Split`, joined with the separator, give the input back |
| Text.SplitFirst | BeatSaberSDK/Utils/ImageUtils.cs:89-98 | the first piece of `Split` is the text before the first separator; the rest is the split of the text after it; no separator gives one piece |
| Text.SplitWithoutSeparator | BeatSaberSDK/Utils/ImageUtils.cs:92-93 | a text without the separator splits into itself alone |
| Text.StartsWithIgnoreCase | BeatSaberSDK/Utils/ImageUtils.cs:268 | defines `StartsWith(…, OrdinalIgnoreCase)`: the prefix fits and each of its characters matches after upper-casing with `ToUpperOrdinal` |
| Text.ToUpperOrdinal | BeatSaberSDK/Utils/ImageUtils.cs:268 | defines the upper case of a character: ASCII small letters, the long s (U+017F) to 'S' and the dotless i (U+0131) to 'I' |
| Text.UpperIsIdempotent | BeatSaberSDK/Utils/ImageUtils.cs:268 | upper-casing an upper-cased character changes nothing |
| Text.UpperOrdinal | BeatSaberSDK/Utils/ImageUtils.cs:268 | upper-casing keeps the length and folds each character on its own |
| Text.IgnoreCaseIsCaseBlind | BeatSaberSDK/Utils/ImageUtils.cs:268 | the `OrdinalIgnoreCase` prefix test gives the same answer when the text or the prefix is upper-cased, and an exact prefix always matches |
| ImageUtils.BadResourcePath | BeatSaberSDK/Utils/ImageUtils.cs:101 | defines the exception thrown for a path with two or more ':', whose message names the path |
| ImageUtils.AssemblyFromPath | BeatSaberSDK/Utils/ImageUtils.cs:87-103 | without ':' the assembly is the text before the first '.', and the whole input is the path; with no '.' the `Substring` length is out of range; with one ':' the two sides are assembly and path; with more the path is refused with its message |
| ImageUtils.SplitAtColons | BeatSaberSDK/Utils/ImageUtils.cs:89-101 | splitting on ':' gives one piece without ':', the two sides with one ':', and three or more pieces otherwise |
| ImageUtils.AssemblyFromPathReadsLocator | BeatSaberSDK/Utils/ImageUtils.cs:96-98 | `assembly:path` is read back as that assembly and that path whenever neither holds a ':' |
| ImageUtils.IsWebLocation | BeatSaberSDK/Utils/ImageUtils.cs:268 | defines a web location: an `http://` or `https://` prefix in any letter case |
| ImageUtils.ClassifyLocation | BeatSaberSDK/Utils/ImageUtils.cs:266-286 | a location is read from the web exactly when it starts with `http://` or `https://` in any case; from a file exactly when it is not web and the file exists; otherwise from the resource `AssemblyFromPath` names, whose error is passed on |
| ImageUtils.WebLocationIgnoresFiles | BeatSaberSDK/Utils/ImageUtils.cs:268-271 | a web location is fetched from the web whatever the file system holds |
| ImageUtils.UpperCaseSchemeIsWeb | BeatSaberSDK/Utils/ImageUtils.cs:268 | `HTTPS://…` is a web location |
| ImageUtils.LongSSchemeIsWeb | BeatSaberSDK/Utils/ImageUtils.cs:268 | `httpſ://…`, spelled with the long s, is a web location too |
| ImageUtils.BareResourcePath | BeatSaberSDK/Utils/ImageUtils.cs:92-94 | `Mod.Resources.icon.png`, not a file, is the resource `Mod.Resources.icon.png` of assembly `Mod` |
| ImageUtils.QualifiedResourcePath | BeatSaberSDK/Utils/ImageUtils.cs:96-98 | `Mod:Images.icon.png`, not a file, is the resource `Images.icon.png` of assembly `Mod` |
| ImageUtils.GetData | BeatSaberSDK/Utils/ImageUtils.cs:266-286 | the bytes come from the reader the location's class selects, and a bad resource path fails with `AssemblyFromPath`'s error |
| ImageUtils.LoadImageFromStream | BeatSaberSDK/Utils/ImageUtils.cs:196-227 | a null stream throws `ArgumentNullException("stream")`; an undecodable one passes on the decoder's error; otherwise a new texture of the bitmap's size holds exactly the bitmap's pixels |
| ImageUtils.LoadImageFromBytes | BeatSaberSDK/Utils/ImageUtils.cs:178-187 | a null array throws `ArgumentNullException("data")`; otherwise as the stream loader |
| ImageUtils.LoadImageFromPath | BeatSaberSDK/Utils/ImageUtils.cs:160-169 | a null or empty path throws `ArgumentNullException("path")`; an error opening the file is passed on; otherwise a new texture of the decoded bitmap's size holds exactly its pixels, as the stream loader gives |
| ImageUtils.LoadSpriteFromTexture | BeatSaberSDK/Utils/ImageUtils.cs:234-244 | a null texture gives a null sprite; otherwise a new sprite over that texture carrying its name |
| ImageUtils.LoadSpriteAsync | BeatSaberSDK/Utils/ImageUtils.cs:229-232 | an undecodable array throws; otherwise a new sprite, named as its texture, over a new valid texture of the decoded bitmap's width and height holding its pixels |
| Surfaces.ArgbMemory | BeatSaberSDK/Utils/ImageUtils.cs:211-214 | defines the bytes `LockBits` copies out: one little-endian 32bpp ARGB word per pixel, four bytes each |
| Surfaces.DecodeBgra32 | BeatSaberSDK/Utils/ImageUtils.cs:223-224 | defines how a `BGRA32` texture reads raw data: four bytes per pixel, blue first; one pixel per four bytes |
| Surfaces.WordLayout | BeatSaberSDK/Utils/ImageUtils.cs:211-222 | a 32bpp ARGB word lies in little-endian memory as blue, green, red, alpha |
| Surfaces.Bgra32ReadsArgbMemory | BeatSaberSDK/Utils/ImageUtils.cs:211-224 | ARGB memory read as BGRA32 gives back the same colours: the upload swaps no channel |
| Playback.NextIndex | BeatSaberSDK/Models/AnimatedImage.cs:74-78 | the next frame stays in range and is the current one plus one, modulo the frame count |
| Playback.Advance | BeatSaberSDK/Models/AnimatedImage.cs:47-80 | one call keeps the index in range; it moves to the next frame exactly when the draw did not throw and the accumulated time reaches the frame's delay; a call that moves leaves time zero, one that neither throws nor moves adds its `timeDelta` to the accumulated time, and the time left is zero or below the new frame's delay; a throwing draw leaves the clock as it was |
| Playback.ExcessTimeDiscarded | BeatSaberSDK/Models/AnimatedImage.cs:71-79 | any two calls that reach the delay end on the same clock: the next frame at time zero |
| Playback.FailingDrawStalls | BeatSaberSDK/Models/AnimatedImage.cs:55-64 | while every draw throws, any number of calls leaves the clock where it was |
| Playback.RunKeepsClockValid | BeatSaberSDK/Models/AnimatedImage.cs:47-80 | after any calls the index is in range and the time is below the current delay; the index has moved on, modulo the frame count, by the number of calls that moved, at most one per call |
| Playback.Forward | BeatSaberSDK/Models/AnimatedImage.cs:74-78 | moving on one frame at a time, `m` times, lands on frame `(index + m) % count` |
| Playback.Run | BeatSaberSDK/Models/AnimatedImage.cs:47-80 | defines the clock after successive `OnUpdate` calls |
| Playback.TotalTime | BeatSaberSDK/Models/AnimatedImage.cs:71 | defines the time several calls add up to |
| Playback.TimeAccumulates | BeatSaberSDK/Models/AnimatedImage.cs:71-72 | successful calls whose times together stay below the frame's delay stay on that frame, move nothing, and leave the accumulated time grown by exactly their total |
| Playback.FramesMoved | BeatSaberSDK/Models/AnimatedImage.cs:72-79 | defines how many of those calls moved to another frame |
| Playback.Composites | BeatSaberSDK/Models/AnimatedImage.cs:55 | defines when a call composites its frame: no time has accumulated on it |
| Playback.Moves | BeatSaberSDK/Models/AnimatedImage.cs:55-72 | defines when a call moves on: the draw did not throw and the accumulated time reaches the frame's delay |
| Playback.ExactDelaysWrapAround | BeatSaberSDK/Models/AnimatedImage.cs:71-79 | calls each lasting the current frame's delay move on by one frame each, so the remaining frames are shown once each, and return to the first frame at time zero |
| Playback.ExactTicks | BeatSaberSDK/Models/AnimatedImage.cs:71-72 | one successful call per frame, each as long as that frame's delay |
| Playback.OneLongTickMovesOneFrame | BeatSaberSDK/Models/AnimatedImage.cs:71-79 | one call lasting a whole cycle or more moves a multi-frame animation from the first frame to the second, not back to the first |
| AnimatedImages.Delays | BeatSaberSDK/Models/AnimatedImage.cs:72 | defines the delay of each frame, its `graphicControl.fdelay`, in frame order |
| AnimatedImages.Composite | BeatSaberSDK/Models/AnimatedImage.cs:56-58 | defines the buffer after the frame's `Dispose` and then its `DrawTo` |
| AnimatedImages.Overwrite | BeatSaberSDK/Models/AnimatedImage.cs:56-58 | after a frame writes its pixels in place, the buffer holds exactly them |
| AnimatedImages.AnimatedImage.Plays | BeatSaberSDK/Models/AnimatedImage.cs:48 | defines when `OnUpdate` does anything: an animated image with at least one frame |
| AnimatedImages.AnimatedImage.FromGif | BeatSaberSDK/Models/AnimatedImage.cs:21-36 | a GIF becomes an animated image with a new sprite the size of the GIF's screen and a new, fully transparent buffer of that size, at frame 0 with no time |
| AnimatedImages.AnimatedImage.FromSprite | BeatSaberSDK/Models/AnimatedImage.cs:38-41 | a sprite becomes a static image showing that sprite |
| AnimatedImages.AnimatedImage.OnUpdate | BeatSaberSDK/Models/AnimatedImage.cs:47-80 | a static image or one without frames is left alone; otherwise the clock advances as `Advance` says; the frame is disposed, drawn and uploaded exactly when no time had accumulated, and buffer and texture are untouched otherwise; the texture's name never changes |
| Downloads.FailureReason | BeatSaberSDK/Utils/ImageUtils.cs:36 | defines the reason passed to the failure callback: `e.Message ?? ""` |
| Types.Message | BeatSaberSDK/Utils/ImageUtils.cs:36 | defines `e.Message`: the exception's own message, which may be null |
| Downloads.Stores | BeatSaberSDK/Utils/ImageUtils.cs:32-64 | defines when a miss stores an image: the fetch succeeds, the token is not seen cancelled after the fetch or the GIF decode, and one of the two decoders accepts the bytes |
| Downloads.ImageCache.MissHandled | BeatSaberSDK/Utils/ImageUtils.cs:32-67 | defines each outcome of a miss: the fetch is logged; a fetch error gives the failure callback with the message; a token cancelled after fetch or decode gives no callback; an undecodable array faults the task; otherwise a new image is stored under the location and reported unless the token is cancelled before the success callback |
| Downloads.ImageCache.StoredImage | BeatSaberSDK/Utils/ImageUtils.cs:54-64 | defines the stored image: for a GIF, an animation of it at frame 0 with no time; otherwise a static image over a new sprite whose valid texture has the decoded bitmap's width, height and pixels |
| Downloads.ImageCache.constructor | BeatSaberSDK/Utils/ImageUtils.cs:18 | the cache starts empty |
| Downloads.ImageCache.Lookup | BeatSaberSDK/Utils/ImageUtils.cs:27 | a hit exactly when the location is cached, with the cached image |
| Downloads.ImageCache.FetchAndStore | BeatSaberSDK/Utils/ImageUtils.cs:32-67 | a fetch error is reported to the failure callback even with a cancelled token; a cancelled token after the fetch or the GIF decode ends quietly; an undecodable array faults the task with no callback; otherwise a new image (animated for a GIF, else static over a texture of the decoded bitmap's size and pixels) is stored and reported unless the token is cancelled before the success callback |
| Downloads.ImageCache.TryDownload | BeatSaberSDK/Utils/ImageUtils.cs:20-68 | a hit reports the cached image at once with no fetch and no change; a miss behaves as `FetchAndStore`; whenever success is reported, the cache maps the location to the reported image |
| WebImages.WebImage.constructor | BeatSaberSDK/Components/Image/WebImage.cs:12-23 | no source, no token, no download and nothing on display |
| WebImages.WebImage.IsCancellationRequested | BeatSaberSDK/Utils/ImageUtils.cs:39-66 | defines the token test at the three checkpoints: whether that token's source was cancelled |
| WebImages.WebImage.OnlyNewestDownloadLive | BeatSaberSDK/Components/Image/WebImage.cs:29-32 | of all downloads started, only the newest one's token is not cancelled |
| WebImages.WebImage.SetSrc | BeatSaberSDK/Components/Image/WebImage.cs:14-37 | a source turns the spinner on, cancels the previous token, and starts a download of it with a fresh, uncancelled token; null clears the sprite and hides the spinner, and cancels nothing |
| WebImages.WebImage.UpdateImage | BeatSaberSDK/Components/Image/WebImage.cs:25-37 | the same, for the source already assigned |
| WebImages.WebImage.OnImageLoadSuccess | BeatSaberSDK/Components/Image/WebImage.cs:50-54 | the image's sprite is shown, the spinner hidden and the image kept for playback |
| WebImages.WebImage.OnImageLoadFailed | BeatSaberSDK/Components/Image/WebImage.cs:56-59 | nothing is shown and the image is dropped; the spinner stays as it was |
| WebImages.WebImage.Deliver | BeatSaberSDK/Components/Image/WebImage.cs:45-48 | the callback a download invoked, if any, takes effect on the component; the tokens and the source are unchanged |
| WebImages.WebImage.OnUpdate | BeatSaberSDK/Components/Image/WebImage.cs:39-43 | the frame time is passed to the image being played, whose clock advances as `Advance` says |
| Scenarios.OverlappingMissesBothFetch | BeatSaberSDK/Utils/ImageUtils.cs:27-63 | two requests that both miss fetch twice and build two different images, and the cache keeps the second |
| Scenarios.RepeatedRequestHits | BeatSaberSDK/Utils/ImageUtils.cs:27-30 | a second request for a location reports the very same image as the first, with a single fetch in all |
| Scenarios.StaleFailureClearsNewerImage | BeatSaberSDK/Utils/ImageUtils.cs:33-38 | a superseded download that fails, arriving after a newer source was shown, still clears the component's sprite and image |
| Scenarios.StaleSuccessSuppressed | BeatSaberSDK/Utils/ImageUtils.cs:39 | a superseded download that succeeds is stopped by its cancelled token, and the newer image stays on display |
| Scenarios.NullSourceKeepsDownloadLive | BeatSaberSDK/Components/Image/WebImage.cs:29-36 | after `Src` goes from a location to null, the download still running delivers, and its image is shown with `Src` null |

## Left out

- I/O: the web request, `File.Exists`, file reads and `Assembly.Load` with the manifest-resource readers are functions in `Host`. Their failures are their `Err` results. `GetWebDataAsync`, `GetResource`, `GetResourceAsync` and `GetResourceContent` are these readers and are not modelled further.
- `LoadTextureFromAssemblyAsync` and `LoadSpriteFromAssemblyAsync` only compose a resource reader with the loaders above, so they have no members of their own.
- Decoding: the GIF loader and `System.Drawing.Bitmap` are functions too. A throwing GIF loader is `None`. The vertical flip is done by the bitmap function, whose pixels are already bottom row first. The frames' `Dispose` and `DrawTo` are one `FrameEffects` value per call.
- Floating point: `timeDelta`, `fdelay` and `_deltaAccumulated` are reals, so float rounding is not modelled.
- Unity objects: the render texture and `Graphics.Blit` collapse into the sprite's texture. The render texture's initial content is taken to be transparent. `Apply`, mipmaps, readability, `pixelsPerUnit`, the sprite's rectangle and pivot are not modelled.
- Concurrency and coroutines: `Task.Run`, `Task.Factory.StartNew`, `StartCoroutine` and `StopAllCoroutines` are sequential steps. Stopping the coroutine that waits on a download does not stop the download, so it has no effect in the model.
- Exception messages: in the model, `Message` returns the type name of a .NET exception. The wording .NET gives its messages is not modelled.
- Case folding: `OrdinalIgnoreCase` upper-cases every character with the invariant culture. The model upper-cases only the characters whose upper case is ASCII: the ASCII small letters, the long s and the dotless i. The prefixes compared here are ASCII, so a character whose upper case is not ASCII can never match them, and the answer is the same.
- Callbacks: null callbacks are not modelled. The component always passes both.
- The spinner: it is reduced to its `Enabled` flag. Its state before the first `Src` is a constructor argument, because the `Spinner` class decides it.
- WebImages.WebImage.OnUpdate: states only the clock of the image it forwards to. The buffer and texture effects are those of `AnimatedImages.AnimatedImage.OnUpdate`.
- Scheduling: in C#, `StartCoroutine` runs `TryDownload` at once, up to its first await that is still pending. So a cache hit, or a fetch that fails without waiting, is delivered while `Src` is being set. The model runs the download as a separate step after the setter. The scenarios keep to runs where this makes no difference. The failing download in `Scenarios.StaleFailureClearsNewerImage` is a web request, which always completes later, and a successful miss always waits for its decoding task.
- Scenarios.StaleSuccessSuppressed: shows only the case where the stale download's fetch succeeds, so the first checkpoint stops it. The later checkpoints are covered by `Downloads.ImageCache.FetchAndStore`.
