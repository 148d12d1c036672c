/** `ImageUtils` without its cache: where a location's bytes come from (`GetDataAsync`), how an
    embedded-resource path names its assembly (`AssemblyFromPath`), and the argument guards of the
    texture and sprite loaders. */
module ImageUtils {
  import opened Types
  import opened Text
  import opened Surfaces
  import opened AnimatedImages

  /** An embedded resource: the name of the assembly that holds it and the resource's path. */
  datatype ResourceLocator = ResourceLocator(assemblyName: string, path: string)

  /** The message `Could not process resource path …` thrown for a path with two or more ':'. */
  function BadResourcePath(inputPath: string): Exception
  {
    Thrown(Some("Could not process resource path " + inputPath))
  }

  /** `AssemblyFromPath`: a path without ':' names its assembly by the text before its first '.'
      (no '.' makes `Substring` throw); `assembly:path` names both; more ':' are refused. */
  function AssemblyFromPath(inputPath: string): (r: Result<ResourceLocator, Exception>)
    ensures ':' !in inputPath ==>
      var dot := IndexOf(inputPath, '.');
      r == if dot < 0 then Err(ArgumentOutOfRange("length"))
           else Ok(ResourceLocator(inputPath[..dot], inputPath))
    ensures ':' in inputPath ==>
      var colon := IndexOf(inputPath, ':');
      r == if ':' in inputPath[colon + 1..] then Err(BadResourcePath(inputPath))
           else Ok(ResourceLocator(inputPath[..colon], inputPath[colon + 1..]))
  {
    SplitAtColons(inputPath);
    var parameters := Split(inputPath, ':');
    if |parameters| == 1 then
      var path := parameters[0];
      var dot := IndexOf(path, '.');
      if dot < 0 then Err(ArgumentOutOfRange("length"))
      else Ok(ResourceLocator(path[..dot], path))
    else if |parameters| == 2 then
      Ok(ResourceLocator(parameters[0], parameters[1]))
    else
      Err(BadResourcePath(inputPath))
  }

  /** Splitting on ':' gives the whole text when there is no ':', the two sides of the ':' when
      there is one, and three or more pieces otherwise. */
  lemma SplitAtColons(s: string)
    ensures ':' !in s ==> Split(s, ':') == [s]
    ensures ':' in s ==>
      var k := IndexOf(s, ':');
      if ':' in s[k + 1..] then |Split(s, ':')| >= 3 else Split(s, ':') == [s[..k], s[k + 1..]]
  {
    SplitFirst(s, ':');
    if ':' in s {
      var k := IndexOf(s, ':');
      SplitFirst(s[k + 1..], ':');
    }
  }

  /** `assembly:path` is read back as that assembly and path whenever neither holds a ':'. */
  lemma AssemblyFromPathReadsLocator(assemblyName: string, path: string)
    requires ':' !in assemblyName && ':' !in path
    ensures AssemblyFromPath(assemblyName + ":" + path) == Ok(ResourceLocator(assemblyName, path))
  {
    var s := assemblyName + ":" + path;
    assert s[..|assemblyName|] == assemblyName;
    IndexOfIsFirst(s, ':', |assemblyName|);
    assert s[|assemblyName| + 1..] == path;
    SplitFirst(s, ':');
    SplitWithoutSeparator(path, ':');
  }

  /** Where `GetDataAsync` reads a location from. */
  datatype DataSource = Web(url: string) | LocalFile(path: string) | Embedded(locator: ResourceLocator)

  /** A location with an `http://` or `https://` prefix in any letter case. */
  predicate IsWebLocation(location: string)
  {
    StartsWithIgnoreCase(location, "http://") || StartsWithIgnoreCase(location, "https://")
  }

  /** The branches of `GetDataAsync`: the web first, then an existing file, then an embedded
      resource, whose path may itself be refused by `AssemblyFromPath`. */
  function ClassifyLocation(location: string, fileExists: string -> bool): (r: Result<DataSource, Exception>)
    ensures (r.Ok? && r.value.Web?) <==> IsWebLocation(location)
    ensures (r.Ok? && r.value.LocalFile?) <==> !IsWebLocation(location) && fileExists(location)
    ensures r.Ok? && r.value.Web? ==> r.value.url == location
    ensures r.Ok? && r.value.LocalFile? ==> r.value.path == location
    ensures !IsWebLocation(location) && !fileExists(location) ==>
      match AssemblyFromPath(location)
      case Ok(locator) => r == Ok(Embedded(locator))
      case Err(e) => r == Err(e)
  {
    if IsWebLocation(location) then Ok(Web(location))
    else if fileExists(location) then Ok(LocalFile(location))
    else
      match AssemblyFromPath(location)
      case Ok(locator) => Ok(Embedded(locator))
      case Err(e) => Err(e)
  }

  /** A web location is never looked up on disk: the file system cannot change its class. */
  lemma WebLocationIgnoresFiles(location: string, exists1: string -> bool, exists2: string -> bool)
    requires IsWebLocation(location)
    ensures ClassifyLocation(location, exists1) == ClassifyLocation(location, exists2) == Ok(Web(location))
  {
  }

  /** A web address is recognised whatever the case of its scheme. */
  lemma UpperCaseSchemeIsWeb(fileExists: string -> bool)
    ensures ClassifyLocation("HTTPS://cdn.example/a.gif", fileExists) == Ok(Web("HTTPS://cdn.example/a.gif"))
  {
    assert StartsWithIgnoreCase("HTTPS://cdn.example/a.gif", "https://");
  }

  /** `OrdinalIgnoreCase` upper-cases the long s (U+017F) to 'S', so a location spelled with it
      in the scheme is still fetched from the web. */
  lemma LongSSchemeIsWeb(fileExists: string -> bool)
    ensures ClassifyLocation("http\U{17F}://host/a.png", fileExists) == Ok(Web("http\U{17F}://host/a.png"))
  {
    assert StartsWithIgnoreCase("http\U{17F}://host/a.png", "https://");
  }

  /** A bare resource path names the assembly by its first dotted segment. */
  lemma BareResourcePath(fileExists: string -> bool)
    requires !fileExists("Mod.Resources.icon.png")
    ensures ClassifyLocation("Mod.Resources.icon.png", fileExists) ==
      Ok(Embedded(ResourceLocator("Mod", "Mod.Resources.icon.png")))
  {
    var resource := "Mod.Resources.icon.png";
    assert !IsWebLocation(resource) by {
      assert ToUpperOrdinal(resource[0]) != ToUpperOrdinal('h');
    }
    assert ':' !in resource;
    assert resource[..3] == "Mod" && resource[3] == '.';
    IndexOfIsFirst(resource, '.', 3);
  }

  /** A qualified resource path names the assembly before the ':'. */
  lemma QualifiedResourcePath(fileExists: string -> bool)
    requires !fileExists("Mod:Images.icon.png")
    ensures ClassifyLocation("Mod:Images.icon.png", fileExists) ==
      Ok(Embedded(ResourceLocator("Mod", "Images.icon.png")))
  {
    var qualified := "Mod:Images.icon.png";
    assert !IsWebLocation(qualified) by {
      assert ToUpperOrdinal(qualified[0]) != ToUpperOrdinal('h');
    }
    assert qualified == "Mod" + ":" + "Images.icon.png";
    AssemblyFromPathReadsLocator("Mod", "Images.icon.png");
  }

  /** The readers behind `GetDataAsync` and the decoders behind the loaders: I/O and foreign
      libraries, given to the model as functions. */
  datatype Host = Host(
    fileExists: string -> bool,                           // File.Exists
    readWeb: string -> Result<Bytes, Exception>,          // GetWebDataAsync (UnityWebRequest)
    readFile: string -> Result<Bytes, Exception>,         // File.OpenRead + CopyToAsync
    readResource: ResourceLocator -> Result<Bytes, Exception>, // Assembly.Load + GetResourceAsync
    loadGif: Bytes -> Option<GifImage>,                   // GIFLoader.Load, a throw as None
    decodeBitmap: Bytes -> Option<Bitmap>)                // new Bitmap(stream), flipped and locked

  /** A decoded raster image already turned upside down for Unity (bottom row first), as
      `LockBits` exposes it: one colour per pixel. */
  datatype DecodedBitmap = DecodedBitmap(width: nat, height: nat, pixels: seq<Color32>)
  type Bitmap = b: DecodedBitmap | |b.pixels| == b.width * b.height witness DecodedBitmap(0, 0, [])

  /** `GetDataAsync(location)`: the bytes from the reader its class selects. */
  function GetData(location: string, host: Host): (r: Result<Bytes, Exception>)
    ensures IsWebLocation(location) ==> r == host.readWeb(location)
    ensures !IsWebLocation(location) && host.fileExists(location) ==> r == host.readFile(location)
    ensures !IsWebLocation(location) && !host.fileExists(location) ==>
      match AssemblyFromPath(location)
      case Ok(locator) => r == host.readResource(locator)
      case Err(e) => r == Err(e)
  {
    match ClassifyLocation(location, host.fileExists)
    case Ok(Web(url)) => host.readWeb(url)
    case Ok(LocalFile(path)) => host.readFile(path)
    case Ok(Embedded(locator)) => host.readResource(locator)
    case Err(e) => Err(e)
  }

  /** `LoadImageAsync(Stream)`: refuses a null stream, lets the bitmap decoder's error through,
      and otherwise uploads the bitmap's bytes into a new `BGRA32` texture of its size. */
  method LoadImageFromStream(stream: Option<Bytes>, decodeBitmap: Bytes -> Option<Bitmap>)
    returns (r: Result<Texture, Exception>)
    ensures stream.None? ==> r == Err(ArgumentNull("stream"))
    ensures stream.Some? && decodeBitmap(stream.value).None? ==> r == Err(InvalidImage)
    ensures stream.Some? && decodeBitmap(stream.value).Some? ==>
      var bitmap := decodeBitmap(stream.value).value;
      r.Ok? && fresh(r.value) && r.value.Valid() &&
      r.value.width == bitmap.width && r.value.height == bitmap.height && r.value.pixels == bitmap.pixels
  {
    if stream.None? {
      return Err(ArgumentNull("stream"));
    }
    var decoded := decodeBitmap(stream.value);
    if decoded.None? {
      return Err(InvalidImage);
    }
    var bitmap := decoded.value;
    var data := ArgbMemory(bitmap.pixels);
    Bgra32ReadsArgbMemory(bitmap.pixels);
    var texture := new Texture(bitmap.width, bitmap.height, DecodeBgra32(data));
    r := Ok(texture);
  }

  /** `LoadImageAsync(byte[])`: refuses a null array, otherwise decodes it as a stream. */
  method LoadImageFromBytes(data: Option<Bytes>, decodeBitmap: Bytes -> Option<Bitmap>)
    returns (r: Result<Texture, Exception>)
    ensures data.None? ==> r == Err(ArgumentNull("data"))
    ensures data.Some? && decodeBitmap(data.value).None? ==> r == Err(InvalidImage)
    ensures data.Some? && decodeBitmap(data.value).Some? ==>
      var bitmap := decodeBitmap(data.value).value;
      r.Ok? && fresh(r.value) && r.value.Valid() && r.value.pixels == bitmap.pixels &&
      r.value.width == bitmap.width && r.value.height == bitmap.height
  {
    if data.None? {
      return Err(ArgumentNull("data"));
    }
    r := LoadImageFromStream(Some(data.value), decodeBitmap);
  }

  /** `LoadImageAsync(string path)`: refuses a null or empty path, passes on the error of opening
      the file, and otherwise decodes the file's bytes as a stream. */
  method LoadImageFromPath(path: Option<string>, openRead: string -> Result<Bytes, Exception>,
                           decodeBitmap: Bytes -> Option<Bitmap>)
    returns (r: Result<Texture, Exception>)
    ensures path.None? || path.value == "" ==> r == Err(ArgumentNull("path"))
    ensures path.Some? && path.value != "" && openRead(path.value).Err? ==> r == Err(openRead(path.value).error)
    ensures path.Some? && path.value != "" && openRead(path.value).Ok? ==>
      var bytes := openRead(path.value).value;
      (decodeBitmap(bytes).None? ==> r == Err(InvalidImage)) &&
      (decodeBitmap(bytes).Some? ==>
        var bitmap := decodeBitmap(bytes).value;
        r.Ok? && fresh(r.value) && r.value.Valid() && r.value.pixels == bitmap.pixels &&
        r.value.width == bitmap.width && r.value.height == bitmap.height)
  {
    if path.None? || path.value == "" {
      return Err(ArgumentNull("path"));
    }
    var file := openRead(path.value);
    if file.Err? {
      return Err(file.error);
    }
    r := LoadImageFromStream(Some(file.value), decodeBitmap);
  }

  /** `LoadSpriteFromTexture`: null for a null texture, otherwise a new sprite over the whole
      texture carrying the texture's name. */
  method LoadSpriteFromTexture(texture: Texture?) returns (sprite: Sprite?)
    ensures texture == null ==> sprite == null
    ensures texture != null ==> sprite != null && fresh(sprite) && sprite.texture == texture && sprite.name == texture.name
  {
    if texture == null {
      return null;
    }
    sprite := new Sprite(texture);
    sprite.name := texture.name;
  }

  /** `LoadSpriteAsync(byte[])`: a sprite over the texture decoded from the bytes; a decoding
      error is thrown on to the caller. */
  method LoadSpriteAsync(data: Bytes, decodeBitmap: Bytes -> Option<Bitmap>) returns (r: Result<Sprite, Exception>)
    ensures decodeBitmap(data).None? ==> r == Err(InvalidImage)
    ensures decodeBitmap(data).Some? ==>
      var bitmap := decodeBitmap(data).value;
      r.Ok? && fresh(r.value) && fresh(r.value.texture) && r.value.texture.Valid() &&
      r.value.texture.pixels == bitmap.pixels &&
      r.value.texture.width == bitmap.width && r.value.texture.height == bitmap.height &&
      r.value.name == r.value.texture.name
  {
    var texture := LoadImageFromBytes(Some(data), decodeBitmap);
    if texture.Err? {
      return Err(texture.error);
    }
    var sprite := LoadSpriteFromTexture(texture.value);
    r := Ok(sprite);
  }
}
