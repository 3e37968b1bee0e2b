/**
  The resize worker (api/cmd/resize/main.go): on a "blob created" event for an
  uploaded image, it locates the blob from the event URL's path, reads its
  bytes, tags and metadata, resizes it, records the new size and dimensions in
  the metadata and the public URL in the tags, and saves the result under the
  same path in the images container.

  The URL parser is a model of the path Go's net/url.Parse extracts. The
  storage reads and the save can fail (`Fault`); the image library is the
  codec of module Utils.
*/
module Resize {
  import opened Wrappers
  import opened Text
  import opened Models
  import opened Store
  import opened Utils

  // ---------------------------------------------------------------------------
  // The path of a URL (net/url.Parse)
  // ---------------------------------------------------------------------------

  predicate IsLetter(c: char) { 'a' <= c <= 'z' || 'A' <= c <= 'Z' }

  /** ASCII control characters, which Parse rejects anywhere before the
      fragment. */
  predicate IsControl(c: char) { c as int < 0x20 || c as int == 0x7f }

  predicate StartsWith(s: string, prefix: string)
  {
    |prefix| <= |s| && s[..|prefix|] == prefix
  }

  /** The outcome of Go's getScheme: no scheme (the whole string is the
      rest), a scheme and the rest after its ':', or a ':' in first position
      ("missing protocol scheme"). */
  datatype SchemeScan = NoScheme | Scheme(scheme: string, rest: string) | MissingScheme

  /** getScheme's scan from index i: letters continue; digits, '+', '-' and
      '.' continue except in first position; ':' ends the scheme; anything
      else means there is no scheme. */
  function ScanScheme(s: string, i: nat): SchemeScan
    decreases |s| - i
  {
    if i >= |s| then NoScheme
    else
      var c := s[i];
      if IsLetter(c) then ScanScheme(s, i + 1)
      else if IsDigit(c) || c == '+' || c == '-' || c == '.' then
        if i == 0 then NoScheme else ScanScheme(s, i + 1)
      else if c == ':' then
        if i == 0 then MissingScheme else Scheme(s[..i], s[i + 1..])
      else NoScheme
  }

  /** The path part of what follows the scheme: the query is cut off; with a
      scheme, a rest not starting with '/' is opaque and has an empty path;
      without one, a ':' in the first segment is an error; an authority
      introduced by "//" is skipped up to the next '/'. */
  function PathAfterScheme(hasScheme: bool, afterScheme: string): Option<string>
  {
    var rest := Before(afterScheme, '?');
    if !StartsWith(rest, "/") then
      if hasScheme then Some("")
      else if ':' in Before(rest, '/') then None
      else Some(rest)
    else if (hasScheme || !StartsWith(rest, "///")) && StartsWith(rest, "//") then
      var authority := rest[2..];
      Some(authority[|Before(authority, '/')|..])
    else Some(rest)
  }

  /** url.Parse(raw).Path, or None when Parse returns an error. */
  function UrlPath(raw: string): Option<string>
  {
    var u := Before(raw, '#');
    if exists i :: 0 <= i < |u| && IsControl(u[i]) then None
    else if u == "*" then Some("*")
    else
      match ScanScheme(u, 0)
      case MissingScheme => None
      case NoScheme => PathAfterScheme(false, u)
      case Scheme(_, rest) => PathAfterScheme(true, rest)
  }

  /** A scheme made of letters ends at the first ':'. */
  lemma {:induction false} ScanLetters(s: string, i: nat, k: nat)
    requires 0 < k < |s| && i <= k
    requires forall j :: i <= j < k ==> IsLetter(s[j])
    requires s[k] == ':'
    ensures ScanScheme(s, i) == Scheme(s[..k], s[k + 1..])
    decreases k - i
  {
    if i < k {
      ScanLetters(s, i + 1, k);
    }
  }

  // ---------------------------------------------------------------------------
  // Locating the blob
  // ---------------------------------------------------------------------------

  /** Where an event points: the container, collection and album segments,
      and the blob path (the last three segments). */
  datatype Location = Location(container: string, collection: string, album: string, blobPath: string)

  /** The path split on '/': the blob path is the last three segments joined
      by '/', the container the fourth from last. Fewer than four segments is
      an index out of range (None). */
  function LocateBlob(path: string): (r: Option<Location>)
    ensures r.Some? <==> |Split(path, '/')| >= 4
  {
    var p := Split(path, '/');
    var n := |p|;
    if n < 4 then None
    else Some(Location(p[n - 4], p[n - 3], p[n - 2], Join([p[n - 3], p[n - 2], p[n - 1]], '/')))
  }

  /** The location's segments are whole segments of the path: none holds a
      '/', the blob path splits back into collection, album and file name. */
  lemma LocationSegments(path: string)
    requires LocateBlob(path).Some?
    ensures var loc := LocateBlob(path).value;
      var p := Split(path, '/');
      && '/' !in loc.container
      && Split(loc.blobPath, '/') == [loc.collection, loc.album, p[|p| - 1]]
      && loc.container == p[|p| - 4]
  {
    var p := Split(path, '/');
    var n := |p|;
    var parts := [p[n - 3], p[n - 2], p[n - 1]];
    assert '/' !in p[n - 4] && '/' !in p[n - 3] && '/' !in p[n - 2] && '/' !in p[n - 1];
    assert LocateBlob(path) == Some(Location(p[n - 4], p[n - 3], p[n - 2], Join(parts, '/')));
    SplitJoin(parts, '/');
  }

  predicate Plain(s: string)
  {
    '?' !in s && '#' !in s && forall i :: 0 <= i < |s| ==> !IsControl(s[i])
  }

  lemma PlainConcat(a: string, b: string)
    requires Plain(a) && Plain(b)
    ensures Plain(a + b)
  {
    forall i | 0 <= i < |a + b|
      ensures (a + b)[i] != '?' && (a + b)[i] != '#' && !IsControl((a + b)[i])
    {
      if i >= |a| {
        assert (a + b)[i] == b[i - |a|];
      } else {
        assert (a + b)[i] == a[i];
      }
    }
  }

  /** A plain URL with a scheme has the path of what follows the scheme. */
  lemma UrlPathOfScheme(raw: string, scheme: string, rest: string)
    requires Plain(raw) && raw != "*"
    requires ScanScheme(raw, 0) == Scheme(scheme, rest)
    ensures UrlPath(raw) == PathAfterScheme(true, rest)
  {
    BeforeWithout(raw, '#');
    assert !exists i :: 0 <= i < |raw| && IsControl(raw[i]);
  }

  /** After the scheme, "//host/path" has the path "/path". */
  lemma AuthorityPath(host: string, path: string)
    requires '?' !in host && '/' !in host && '?' !in path
    requires |path| > 0 && path[0] == '/'
    ensures PathAfterScheme(true, "//" + host + path) == Some(path)
  {
    var rest := "//" + host + path;
    assert '?' !in rest by {
      assert rest == "//" + (host + path);
    }
    BeforeWithout(rest, '?');
    assert StartsWith(rest, "/") && StartsWith(rest, "//");
    assert rest[2..] == host + [path[0]] + path[1..];
    BeforeSep(host, '/', path[1..]);
    assert (host + path)[|host|..] == path;
  }

  /** An https URL whose host has no '/' and whose path starts with '/' has
      that path, when neither holds '?', '#' or a control character. */
  lemma HttpsUrlPath(host: string, path: string)
    requires Plain(host) && '/' !in host
    requires Plain(path) && |path| > 0 && path[0] == '/'
    ensures UrlPath("https://" + host + path) == Some(path)
  {
    var rest := "//" + host + path;
    var raw := "https:" + rest;
    assert raw == "https://" + host + path;
    assert Plain("https:") && Plain("//");
    PlainConcat("//", host);
    PlainConcat("//" + host, path);
    PlainConcat("https:", rest);
    ScanLetters(raw, 0, 5);
    assert raw[..5] == "https" && raw[6..] == rest;
    UrlPathOfScheme(raw, "https", rest);
    AuthorityPath(host, path);
  }

  /** A path "/container/collection/album/file" of '/'-free segments locates
      that blob. */
  lemma LocateFourSegments(container: string, collection: string, album: string, file: string)
    requires '/' !in container && '/' !in collection && '/' !in album && '/' !in file
    ensures LocateBlob("/" + Join([container, collection, album, file], '/'))
      == Some(Location(container, collection, album, Join([collection, album, file], '/')))
  {
    var parts := ["", container, collection, album, file];
    assert parts[1..] == [container, collection, album, file];
    assert Join(parts, '/') == "/" + Join([container, collection, album, file], '/');
    SplitJoin(parts, '/');
  }

  /** The URL of a blob "https://host/container/collection/album/file", with
      no '/', '?', '#' or control character in its parts, locates exactly
      that blob. */
  lemma EventUrlLocates(host: string, container: string, collection: string, album: string, file: string)
    requires Plain(host) && Plain(container) && Plain(collection) && Plain(album) && Plain(file)
    requires '/' !in host && '/' !in container && '/' !in collection && '/' !in album && '/' !in file
    ensures var path := "/" + Join([container, collection, album, file], '/');
      && UrlPath("https://" + host + path) == Some(path)
      && LocateBlob(path) == Some(Location(container, collection, album, Join([collection, album, file], '/')))
  {
    var parts := ["", container, collection, album, file];
    assert parts[1..] == [container, collection, album, file];
    var path := Join(parts, '/');
    assert path == "/" + Join([container, collection, album, file], '/');
    forall i | 0 <= i < |parts|
      ensures Plain(parts[i])
    {
    }
    PlainJoin(parts);
    HttpsUrlPath(host, path);
    LocateFourSegments(container, collection, album, file);
  }

  /** Joining plain parts with '/' gives a plain string. */
  lemma {:induction false} PlainJoin(parts: seq<string>)
    requires forall i :: 0 <= i < |parts| ==> Plain(parts[i])
    ensures Plain(Join(parts, '/'))
  {
    if |parts| > 1 {
      PlainJoin(parts[1..]);
      var head := parts[0] + "/";
      var tail := Join(parts[1..], '/');
      forall j | 0 <= j < |head + tail|
        ensures (head + tail)[j] != '?' && (head + tail)[j] != '#' && !IsControl((head + tail)[j])
      {
        if j < |parts[0]| {
          assert (head + tail)[j] == parts[0][j];
        } else if j > |parts[0]| {
          assert (head + tail)[j] == tail[j - |head|];
        }
      }
      assert Join(parts, '/') == head + tail;
    }
  }

  // ---------------------------------------------------------------------------
  // Configuration
  // ---------------------------------------------------------------------------

  /** MAX_IMAGE_HEIGHT and MAX_IMAGE_WIDTH through strconv.Atoi, in the order
      (maxHeight, maxWidth) ResizeImage takes them. A conversion error is
      only logged and leaves Atoi's value. */
  function ResizeBounds(env: map<string, string>): (int, int)
  {
    (Atoi(GetEnvValue(env, "MAX_IMAGE_HEIGHT", "1200")), Atoi(GetEnvValue(env, "MAX_IMAGE_WIDTH", "1600")))
  }

  /** IMAGES_CONTAINER_NAME, "images" by default. */
  function ImagesContainerName(env: map<string, string>): string
  {
    GetEnvValue(env, "IMAGES_CONTAINER_NAME", "images")
  }

  /** Unset variables give height 1200, width 1600 and the images container.
      A bound outside Atoi's grammar becomes 0, unless the digits before its
      first non-digit already pass 2^64 - 1: the range error then comes first
      and the bound is MaxInt64 or MinInt64. */
  lemma ConfigurationDefaults(env: map<string, string>)
    ensures "MAX_IMAGE_HEIGHT" !in env ==> ResizeBounds(env).0 == 1200
    ensures "MAX_IMAGE_WIDTH" !in env ==> ResizeBounds(env).1 == 1600
    ensures "IMAGES_CONTAINER_NAME" !in env ==> ImagesContainerName(env) == "images"
    ensures "MAX_IMAGE_HEIGHT" in env && ParseDecimal(env["MAX_IMAGE_HEIGHT"]).None? ==>
      var v := env["MAX_IMAGE_HEIGHT"];
      ResizeBounds(env).0 == if LeadingOverflow(v, 0xffff_ffff_ffff_ffff) then (if Negative(v) then MinInt64 else MaxInt64) else 0
    ensures "MAX_IMAGE_WIDTH" in env && ParseDecimal(env["MAX_IMAGE_WIDTH"]).None? ==>
      var v := env["MAX_IMAGE_WIDTH"];
      ResizeBounds(env).1 == if LeadingOverflow(v, 0xffff_ffff_ffff_ffff) then (if Negative(v) then MinInt64 else MaxInt64) else 0
  {
    assert DigitsValue("1200") == 1200 by {
      assert "1200"[..3] == "120" && "120"[..2] == "12" && "12"[..1] == "1";
    }
    assert DigitsValue("1600") == 1600 by {
      assert "1600"[..3] == "160" && "160"[..2] == "16" && "16"[..1] == "1";
    }
    if "MAX_IMAGE_HEIGHT" !in env {
      ParseIntInGrammar("1200", MaxInt64);
    } else if ParseDecimal(env["MAX_IMAGE_HEIGHT"]).None? {
      ParseIntOutsideGrammar(env["MAX_IMAGE_HEIGHT"], MaxInt64);
    }
    if "MAX_IMAGE_WIDTH" !in env {
      ParseIntInGrammar("1600", MaxInt64);
    } else if ParseDecimal(env["MAX_IMAGE_WIDTH"]).None? {
      ParseIntOutsideGrammar(env["MAX_IMAGE_WIDTH"], MaxInt64);
    }
  }

  // ---------------------------------------------------------------------------
  // The handler
  // ---------------------------------------------------------------------------

  /** The storage operations that can fail: reading the stream, the tags or
      the metadata of the source, and saving the result. */
  datatype Fault = StreamFault | TagsFault | MetadataFault | SaveFault

  /** The errors the handler returns. */
  datatype HandlerError = StreamError | TagsError | MetadataError | ResizeFailed(cause: ResizeError) | SaveError

  /** The ways the handler ends without returning: a nil URL after a parse
      error, a path with too few segments, a panic inside ResizeImage (its
      DivideByZero), and log.Fatalln when the resized bytes do not decode. */
  datatype Crash = UrlParseNil | PathIndexOutOfRange | ResizePanic(panic: ResizeError) | DecodeConfigFatal

  datatype HandlerResult = Done | Failed(error: HandlerError) | Crashed(crash: Crash)

  /** The object the handler saves: the resized bytes, the source's tags with
      Url set, the source's metadata with Size, Height and Width set, and no
      content type. */
  function ResizedWrite(env: map<string, string>, clientUrl: string, loc: Location, source: StoredBlob,
                        imgBytes: Bytes, img: Dims): Write
  {
    var images := ImagesContainerName(env);
    Write(
      BlobKey(images, loc.blobPath),
      StoredBlob(
        imgBytes,
        source.tags["Url" := Join([clientUrl, images, loc.blobPath], '/')],
        source.metadata["Size" := Decimal(|imgBytes|)]["Height" := Decimal(img.height)]["Width" := Decimal(img.width)],
        None))
  }

  /** The blob an event's URL points to: Parse's path split on '/', or the
      crash on the way there. */
  function LocateEvent(url: string): Result<Location, Crash>
  {
    match UrlPath(url)
    case None => Failure(UrlParseNil)
    case Some(path) =>
      match LocateBlob(path)
      case None => Failure(PathIndexOutOfRange)
      case Some(loc) => Success(loc)
  }

  /** The rest of a run once the blob is located: read the source's bytes,
      tags and metadata, resize, read the result's dimensions and save. */
  function ResizeAt(objects: map<BlobKey, StoredBlob>, env: map<string, string>, clientUrl: string,
                    codec: Codec, faults: set<Fault>, contentType: string, loc: Location): (HandlerResult, Option<Write>)
  {
    var key := BlobKey(loc.container, loc.blobPath);
    if key !in objects || StreamFault in faults then (Failed(StreamError), None)
    else if TagsFault in faults then (Failed(TagsError), None)
    else if MetadataFault in faults then (Failed(MetadataError), None)
    else
      var source := objects[key];
      var (maxHeight, maxWidth) := ResizeBounds(env);
      match ResizeImage(codec, source.content, contentType, maxHeight, maxWidth)
      case Failure(e) => (if e == DivideByZero then Crashed(ResizePanic(e)) else Failed(ResizeFailed(e)), None)
      case Success(imgBytes) =>
        match codec.decodeConfig(imgBytes)
        case None => (Crashed(DecodeConfigFatal), None)
        case Some(img) =>
          if SaveFault in faults then (Failed(SaveError), None)
          else (Done, Some(ResizedWrite(env, clientUrl, loc, source, imgBytes, img)))
  }

  /** One run of ResizeHandler on the store's objects: how it ends, and the
      object it saves, if any. */
  function ResizeStep(objects: map<BlobKey, StoredBlob>, env: map<string, string>, clientUrl: string,
                      codec: Codec, faults: set<Fault>, evt: Event): (HandlerResult, Option<Write>)
  {
    match LocateEvent(evt.data.url)
    case Failure(crash) => (Crashed(crash), None)
    case Success(loc) => ResizeAt(objects, env, clientUrl, codec, faults, evt.data.contentType, loc)
  }

  /** The objects after a run that saved `write`, if it saved anything. */
  function AfterStep(objects: map<BlobKey, StoredBlob>, write: Option<Write>): map<BlobKey, StoredBlob>
  {
    if write.Some? then objects[write.value.key := write.value.blob] else objects
  }

  /** ResizeHandler: one event, at most one save. */
  method ResizeHandler(store: BlobStore, env: map<string, string>, clientUrl: string, codec: Codec,
                       faults: set<Fault>, evt: Event) returns (result: HandlerResult)
    modifies store
    ensures result == ResizeStep(old(store.objects), env, clientUrl, codec, faults, evt).0
    ensures store.objects == AfterStep(old(store.objects), ResizeStep(old(store.objects), env, clientUrl, codec, faults, evt).1)
  {
    var u := UrlPath(evt.data.url);
    if u.None? {
      assert LocateEvent(evt.data.url) == Failure(UrlParseNil);
      return Crashed(UrlParseNil);
    }
    var path := Split(u.value, '/');
    if |path| < 4 {
      assert LocateEvent(evt.data.url) == Failure(PathIndexOutOfRange);
      return Crashed(PathIndexOutOfRange);
    }
    var n := |path|;
    var blobPath := Join([path[n - 3], path[n - 2], path[n - 1]], '/');
    var container := path[n - 4];
    var collection := path[n - 3];
    var album := path[n - 2];
    var loc := Location(container, collection, album, blobPath);
    assert LocateEvent(evt.data.url) == Success(loc);
    LocationSegments(u.value);
    result := ResizeLocated(store, env, clientUrl, codec, faults, evt.data.contentType, loc);
  }

  /** The handler from reading the located blob to saving the result: the
      tags and metadata read from the source are updated in place and saved
      with the resized bytes. */
  method ResizeLocated(store: BlobStore, env: map<string, string>, clientUrl: string, codec: Codec,
                       faults: set<Fault>, contentType: string, loc: Location) returns (result: HandlerResult)
    requires |Split(loc.blobPath, '/')| >= 3
    modifies store
    ensures result == ResizeAt(old(store.objects), env, clientUrl, codec, faults, contentType, loc).0
    ensures store.objects == AfterStep(old(store.objects), ResizeAt(old(store.objects), env, clientUrl, codec, faults, contentType, loc).1)
  {
    var mih := Atoi(GetEnvValue(env, "MAX_IMAGE_HEIGHT", "1200"));
    var miw := Atoi(GetEnvValue(env, "MAX_IMAGE_WIDTH", "1600"));
    var imagesContainerName := GetEnvValue(env, "IMAGES_CONTAINER_NAME", "images");

    var key := BlobKey(loc.container, loc.blobPath);
    if key !in store.objects || StreamFault in faults {
      return Failed(StreamError);
    }
    var blobStream := store.objects[key].content;
    if TagsFault in faults {
      return Failed(TagsError);
    }
    var tags := store.objects[key].tags;
    if MetadataFault in faults {
      return Failed(MetadataError);
    }
    var metadata := store.objects[key].metadata;

    var resized := ResizeImage(codec, blobStream, contentType, mih, miw);
    if resized.Failure? {
      if resized.error == DivideByZero {
        return Crashed(ResizePanic(DivideByZero));
      }
      return Failed(ResizeFailed(resized.error));
    }
    var imgBytes := resized.value;
    var img := codec.decodeConfig(imgBytes);
    if img.None? {
      return Crashed(DecodeConfigFatal);
    }

    metadata := metadata["Size" := Decimal(|imgBytes|)];
    metadata := metadata["Height" := Decimal(img.value.height)];
    metadata := metadata["Width" := Decimal(img.value.width)];

    var (blobName, _) := GetBlobNameAndPrefix(loc.blobPath);

    tags := tags["Url" := Join([clientUrl, imagesContainerName, loc.blobPath], '/')];

    if SaveFault in faults {
      return Failed(SaveError);
    }
    store.Upload(Write(BlobKey(imagesContainerName, loc.blobPath), StoredBlob(imgBytes, tags, metadata, None)));
    return Done;
  }

  // ---------------------------------------------------------------------------
  // Properties of a run
  // ---------------------------------------------------------------------------

  /** Once the blob is located, a run saves exactly when it ends with Done,
      and saves under the blob path in the images container. */
  lemma ResizeAtSavesIffDone(objects: map<BlobKey, StoredBlob>, env: map<string, string>, clientUrl: string,
                             codec: Codec, faults: set<Fault>, contentType: string, loc: Location)
    ensures var (result, write) := ResizeAt(objects, env, clientUrl, codec, faults, contentType, loc);
      && (write.Some? <==> result == Done)
      && (write.Some? ==> write.value.key == BlobKey(ImagesContainerName(env), loc.blobPath))
      && (SaveFault in faults ==> write.None?)
  {
  }

  /** A run saves an object exactly when it ends with Done; the object goes
      under the located blob path in the images container; a failing save
      saves nothing. */
  lemma ResizeSavesIffDone(objects: map<BlobKey, StoredBlob>, env: map<string, string>, clientUrl: string,
                           codec: Codec, faults: set<Fault>, evt: Event)
    ensures var (result, write) := ResizeStep(objects, env, clientUrl, codec, faults, evt);
      && (write.Some? <==> result == Done)
      && (write.Some? ==> LocateEvent(evt.data.url).Success?
                          && write.value.key == BlobKey(ImagesContainerName(env), LocateEvent(evt.data.url).value.blobPath))
      && (SaveFault in faults ==> write.None?)
  {
    if LocateEvent(evt.data.url).Success? {
      ResizeAtSavesIffDone(objects, env, clientUrl, codec, faults, evt.data.contentType, LocateEvent(evt.data.url).value);
    }
  }

  /** Nothing else changes: every object other than the one saved is as it
      was, no object disappears, and a run that does not end with Done leaves
      the store as it was. */
  lemma ResizeChangesOneObject(objects: map<BlobKey, StoredBlob>, env: map<string, string>, clientUrl: string,
                               codec: Codec, faults: set<Fault>, evt: Event)
    ensures var (result, write) := ResizeStep(objects, env, clientUrl, codec, faults, evt);
      var after := AfterStep(objects, write);
      && (result != Done ==> after == objects)
      && objects.Keys <= after.Keys
      && (write.Some? ==> after.Keys == objects.Keys + {write.value.key})
      && forall k :: k in objects && (write.None? || k != write.value.key) ==> after[k] == objects[k]
  {
    ResizeSavesIffDone(objects, env, clientUrl, codec, faults, evt);
  }

  /** A located run that ends with Done read the source, resized it, decoded
      the result's size and saved ResizedWrite of those. */
  lemma ResizeAtDone(objects: map<BlobKey, StoredBlob>, env: map<string, string>, clientUrl: string,
                     codec: Codec, faults: set<Fault>, contentType: string, loc: Location)
    requires ResizeAt(objects, env, clientUrl, codec, faults, contentType, loc).0 == Done
    ensures var key := BlobKey(loc.container, loc.blobPath);
      && key in objects
      && var resized := ResizeImage(codec, objects[key].content, contentType, ResizeBounds(env).0, ResizeBounds(env).1);
      && resized.Success?
      && codec.decodeConfig(resized.value).Some?
      && ResizeAt(objects, env, clientUrl, codec, faults, contentType, loc).1
           == Some(ResizedWrite(env, clientUrl, loc, objects[key], resized.value, codec.decodeConfig(resized.value).value))
  {
  }

  /** A run that ends with Done located the blob, read it, resized it,
      decoded the result's size and saved ResizedWrite of those. */
  lemma DoneWrite(objects: map<BlobKey, StoredBlob>, env: map<string, string>, clientUrl: string,
                  codec: Codec, faults: set<Fault>, evt: Event)
    requires ResizeStep(objects, env, clientUrl, codec, faults, evt).0 == Done
    ensures LocateEvent(evt.data.url).Success?
    ensures var loc := LocateEvent(evt.data.url).value;
      var key := BlobKey(loc.container, loc.blobPath);
      && key in objects
      && var resized := ResizeImage(codec, objects[key].content, evt.data.contentType, ResizeBounds(env).0, ResizeBounds(env).1);
      && resized.Success?
      && codec.decodeConfig(resized.value).Some?
      && ResizeStep(objects, env, clientUrl, codec, faults, evt).1
           == Some(ResizedWrite(env, clientUrl, loc, objects[key], resized.value, codec.decodeConfig(resized.value).value))
  {
    ResizeAtDone(objects, env, clientUrl, codec, faults, evt.data.contentType, LocateEvent(evt.data.url).value);
  }

  /** Where ResizedWrite saves and with what tags: the blob path in the
      images container, the resized bytes, no content type, and the source's
      tags with Url added and every other tag kept. */
  lemma ResizedWriteTags(env: map<string, string>, clientUrl: string, loc: Location, source: StoredBlob,
                         imgBytes: Bytes, img: Dims)
    ensures var w := ResizedWrite(env, clientUrl, loc, source, imgBytes, img);
      && w.key == BlobKey(ImagesContainerName(env), loc.blobPath)
      && w.blob.content == imgBytes
      && w.blob.contentType == None
      && w.blob.tags.Keys == source.tags.Keys + {"Url"}
      && w.blob.tags["Url"] == Join([clientUrl, ImagesContainerName(env), loc.blobPath], '/')
      && (forall k :: k in source.tags && k != "Url" ==> w.blob.tags[k] == source.tags[k])
  {
  }

  /** The metadata ResizedWrite saves: the source's metadata with Size,
      Height and Width set and every other entry kept; Size is the length of
      the saved bytes. */
  lemma ResizedWriteMetadata(env: map<string, string>, clientUrl: string, loc: Location, source: StoredBlob,
                             imgBytes: Bytes, img: Dims)
    ensures var m := ResizedWrite(env, clientUrl, loc, source, imgBytes, img).blob.metadata;
      && m.Keys == source.metadata.Keys + {"Size", "Height", "Width"}
      && (forall k :: k in source.metadata && k != "Size" && k != "Height" && k != "Width" ==> m[k] == source.metadata[k])
      && m["Size"] == Decimal(|imgBytes|)
      && m["Height"] == Decimal(img.height)
      && m["Width"] == Decimal(img.width)
  {
    SetSizeEntries(source.metadata, Decimal(|imgBytes|), Decimal(img.height), Decimal(img.width));
  }

  lemma SetSizeEntries(m: StringMap, size: string, height: string, width: string)
    ensures var r := m["Size" := size]["Height" := height]["Width" := width];
      && r.Keys == m.Keys + {"Size", "Height", "Width"}
      && (forall k :: k in m && k != "Size" && k != "Height" && k != "Width" ==> r[k] == m[k])
      && r["Size"] == size && r["Height"] == height && r["Width"] == width
  {
  }

  /** What a successful run saves, compared with the source object: the
      object at the located path is written to the images container with the
      shape ResizedWriteTags and ResizedWriteMetadata describe, and the Height and Width it records
      are what DecodeConfig reads from the saved bytes. */
  lemma ResizedObject(objects: map<BlobKey, StoredBlob>, env: map<string, string>, clientUrl: string,
                      codec: Codec, faults: set<Fault>, evt: Event)
    requires ResizeStep(objects, env, clientUrl, codec, faults, evt).0 == Done
    ensures LocateEvent(evt.data.url).Success?
    ensures ResizeStep(objects, env, clientUrl, codec, faults, evt).1.Some?
    ensures var loc := LocateEvent(evt.data.url).value;
      BlobKey(loc.container, loc.blobPath) in objects
    ensures var loc := LocateEvent(evt.data.url).value;
      var w := ResizeStep(objects, env, clientUrl, codec, faults, evt).1.value;
      && w.key == BlobKey(ImagesContainerName(env), loc.blobPath)
      && codec.decodeConfig(w.blob.content).Some?
      && w == ResizedWrite(env, clientUrl, loc, objects[BlobKey(loc.container, loc.blobPath)], w.blob.content,
                           codec.decodeConfig(w.blob.content).value)
  {
    DoneWrite(objects, env, clientUrl, codec, faults, evt);
  }

  /** With a faithful codec and a content type the format switch handles,
      the saved image has exactly the canvas size of the resize rule applied
      to the source's dimensions and the configured bounds. */
  lemma ResizedDimensions(objects: map<BlobKey, StoredBlob>, env: map<string, string>, clientUrl: string,
                          codec: Codec, faults: set<Fault>, evt: Event)
    requires Faithful(codec)
    requires FormatOf(evt.data.contentType).Some?
    requires ResizeStep(objects, env, clientUrl, codec, faults, evt).0 == Done
    ensures LocateEvent(evt.data.url).Success?
    ensures ResizeStep(objects, env, clientUrl, codec, faults, evt).1.Some?
    ensures var loc := LocateEvent(evt.data.url).value;
      BlobKey(loc.container, loc.blobPath) in objects
    ensures var loc := LocateEvent(evt.data.url).value;
      var source := objects[BlobKey(loc.container, loc.blobPath)];
      var w := ResizeStep(objects, env, clientUrl, codec, faults, evt).1.value;
      && codec.decode(source.content).Some?
      && var src := codec.decode(source.content).value;
      && (IsPortrait(src) || src.width > 0)
      && codec.decodeConfig(w.blob.content) == Some(RectDims(TargetSize(src, ResizeBounds(env).0, ResizeBounds(env).1)))
  {
    DoneWrite(objects, env, clientUrl, codec, faults, evt);
    var loc := LocateEvent(evt.data.url).value;
    var source := objects[BlobKey(loc.container, loc.blobPath)];
    ResizeImageOutcome(codec, source.content, evt.data.contentType, ResizeBounds(env).0, ResizeBounds(env).1);
  }

  /** A content type outside image/jpeg, image/png and image/gif never gives
      a saved image when empty bytes do not decode: ResizeImage returns empty
      bytes, and DecodeConfig on them ends the process. */
  lemma UnsupportedFormatNeverSaves(objects: map<BlobKey, StoredBlob>, env: map<string, string>, clientUrl: string,
                                    codec: Codec, faults: set<Fault>, evt: Event)
    requires FormatOf(evt.data.contentType).None?
    requires codec.decodeConfig([]) == None
    ensures ResizeStep(objects, env, clientUrl, codec, faults, evt).1 == None
    ensures ResizeStep(objects, env, clientUrl, codec, faults, evt).0 != Done
  {
    if ResizeStep(objects, env, clientUrl, codec, faults, evt).0 == Done {
      DoneWrite(objects, env, clientUrl, codec, faults, evt);
      assert false;
    }
    ResizeSavesIffDone(objects, env, clientUrl, codec, faults, evt);
  }

  /** A located run reads nothing but the source object: two stores that
      agree on it give the same run. */
  lemma ResizeAtReadsSource(objects: map<BlobKey, StoredBlob>, other: map<BlobKey, StoredBlob>,
                            env: map<string, string>, clientUrl: string, codec: Codec, faults: set<Fault>,
                            contentType: string, loc: Location)
    requires var key := BlobKey(loc.container, loc.blobPath);
      (key in objects <==> key in other) && (key in objects ==> objects[key] == other[key])
    ensures ResizeAt(objects, env, clientUrl, codec, faults, contentType, loc)
      == ResizeAt(other, env, clientUrl, codec, faults, contentType, loc)
  {
  }

  /** Redelivery of the same event after a successful run saves the same
      object again and leaves the store as the first run left it, as long as
      the source is not itself in the images container. */
  lemma ResizeRedelivery(objects: map<BlobKey, StoredBlob>, env: map<string, string>, clientUrl: string,
                         codec: Codec, faults: set<Fault>, evt: Event)
    requires ResizeStep(objects, env, clientUrl, codec, faults, evt).0 == Done
    requires LocateEvent(evt.data.url).Success?
    requires LocateEvent(evt.data.url).value.container != ImagesContainerName(env)
    ensures var once := AfterStep(objects, ResizeStep(objects, env, clientUrl, codec, faults, evt).1);
      && ResizeStep(once, env, clientUrl, codec, faults, evt) == ResizeStep(objects, env, clientUrl, codec, faults, evt)
      && AfterStep(once, ResizeStep(once, env, clientUrl, codec, faults, evt).1) == once
  {
    var loc := LocateEvent(evt.data.url).value;
    ResizeAtSavesIffDone(objects, env, clientUrl, codec, faults, evt.data.contentType, loc);
    var w := ResizeAt(objects, env, clientUrl, codec, faults, evt.data.contentType, loc).1.value;
    var once := objects[w.key := w.blob];
    assert BlobKey(loc.container, loc.blobPath) != w.key;
    ResizeAtReadsSource(objects, once, env, clientUrl, codec, faults, evt.data.contentType, loc);
    assert once[w.key := w.blob] == once;
  }
}
