/**
  The shared helpers of api/internal/utils/utils.go: the resize rule and its
  format switch, blob path splitting, the collection-to-albums grouping of the
  tag listing, bearer-token extraction and environment lookup.
*/
module Utils {
  import opened Wrappers
  import opened Text
  import opened Models

  // ---------------------------------------------------------------------------
  // Image codecs (foreign)
  // ---------------------------------------------------------------------------

  /** The image libraries, seen only through what the service uses of them.
      `decode` is image.Decode (the bounds of the decoded image, None on a
      decode error); `encode` decodes the source in the given format, scales it
      into a canvas of the given size and encodes it (None on an encoder
      error); `decodeConfig` is image.DecodeConfig. */
  datatype Codec = Codec(
    decode: Bytes -> Option<Dims>,
    encode: (ImageFormat, Bytes, Dims) -> Option<Bytes>,
    decodeConfig: Bytes -> Option<Dims>)

  /** A codec whose encoder writes images that read back with the size they
      were encoded at. */
  ghost predicate Faithful(codec: Codec)
  {
    forall f, b, d :: codec.encode(f, b, d).Some? ==> codec.decodeConfig(codec.encode(f, b, d).value) == Some(d)
  }

  // ---------------------------------------------------------------------------
  // The resize rule
  // ---------------------------------------------------------------------------

  /** A target size as computed, before image.Rect normalises it. */
  datatype Size = Size(width: int, height: int)

  predicate IsPortrait(d: Dims) { d.height > d.width }

  /** Go's integer division, which truncates toward zero, for a positive
      divisor. */
  function Quot(a: int, b: int): int
    requires b > 0
  {
    if a >= 0 then a / b else -((-a) / b)
  }

  /** Go's 64-bit int arithmetic: a result outside [MinInt64, MaxInt64]
      wraps around to the one value in that range congruent to it modulo
      2^64. */
  function Wrap64(x: int): (r: int)
    ensures MinInt64 <= r <= MaxInt64
    ensures (r - x) % 0x1_0000_0000_0000_0000 == 0
  {
    if MinInt64 <= x <= MaxInt64 then x else (x - MinInt64) % 0x1_0000_0000_0000_0000 + MinInt64
  }

  predicate FitsInt64(x: int) { MinInt64 <= x <= MaxInt64 }

  /** The canvas size of ResizeImage: a portrait image gets height maxHeight
      and width maxHeight*width/height; a landscape or square one gets width
      maxWidth and height maxWidth*height/width. The products are 64-bit and
      wrap around. The landscape branch divides by the width, which must not
      be zero. */
  function TargetSize(src: Dims, maxHeight: int, maxWidth: int): Size
    requires IsPortrait(src) || src.width > 0
  {
    if IsPortrait(src) then Size(Quot(Wrap64(maxHeight * src.width), src.height), maxHeight)
    else Size(maxWidth, Quot(Wrap64(maxWidth * src.height), src.width))
  }

  /** image.Rect(0, 0, w, h) swaps coordinates as needed, so the canvas is
      |w| by |h|. */
  function RectDims(s: Size): (d: Dims)
    ensures s.width >= 0 ==> d.width == s.width
    ensures s.height >= 0 ==> d.height == s.height
  {
    Dims(if s.width < 0 then -s.width else s.width, if s.height < 0 then -s.height else s.height)
  }

  /** Truncated division by a positive divisor, on a non-negative dividend, is
      the largest q with q*b <= a. */
  lemma QuotBounds(a: int, b: int)
    requires a >= 0 && b > 0
    ensures Quot(a, b) >= 0
    ensures Quot(a, b) * b <= a < (Quot(a, b) + 1) * b
  {
    var q := a / b;
    assert a == q * b + a % b;
  }

  /** A positive factor can be cancelled from a strict inequality. */
  lemma CancelFactor(a: int, b: int, c: int)
    requires c > 0 && a * c < b * c
    ensures a < b
  {
  }

  lemma ProductBelow(a: int, b: int, c: int)
    requires a >= 0 && 0 <= b <= c
    ensures 0 <= a * b <= a * c
  {
  }

  lemma QuotOfMultiple(k: int, x: int)
    requires k > 0 && x >= 0
    ensures Quot(k * x, k) == x
  {
    QuotBounds(k * x, k);
    var q := Quot(k * x, k);
    CancelFactor(q, x + 1, k);
    CancelFactor(x, q + 1, k);
  }

  /** Portrait rule: the height becomes exactly maxHeight, and the width is
      maxHeight*width/height rounded down, so the aspect ratio is kept up to
      the truncation and the width stays within maxHeight. */
  lemma PortraitRule(src: Dims, maxHeight: int, maxWidth: int)
    requires IsPortrait(src) && maxHeight >= 0 && FitsInt64(maxHeight * src.width)
    ensures var r := TargetSize(src, maxHeight, maxWidth);
      && r.height == maxHeight
      && 0 <= r.width <= maxHeight
      && r.width * src.height <= maxHeight * src.width < (r.width + 1) * src.height
  {
    var r := TargetSize(src, maxHeight, maxWidth);
    QuotBounds(maxHeight * src.width, src.height);
    assert maxHeight * src.width <= maxHeight * src.height;
    CancelFactor(r.width, maxHeight + 1, src.height);
  }

  /** Landscape or square rule: the width becomes exactly maxWidth, and the
      height is maxWidth*height/width rounded down, within maxWidth. The
      height is not checked against maxHeight, and small images are enlarged. */
  lemma LandscapeRule(src: Dims, maxHeight: int, maxWidth: int)
    requires !IsPortrait(src) && src.width > 0 && maxWidth >= 0 && FitsInt64(maxWidth * src.height)
    ensures var r := TargetSize(src, maxHeight, maxWidth);
      && r.width == maxWidth
      && 0 <= r.height <= maxWidth
      && r.height * src.width <= maxWidth * src.height < (r.height + 1) * src.width
  {
    var r := TargetSize(src, maxHeight, maxWidth);
    QuotBounds(maxWidth * src.height, src.width);
    assert maxWidth * src.height <= maxWidth * src.width;
    CancelFactor(r.height, maxWidth + 1, src.width);
  }

  /** Resizing an already resized image with the same positive bounds keeps
      its orientation and gives the same size again, when the products of
      both runs fit in 64 bits (the squares of the bounds bound those of the
      second run). */
  lemma ResizeIdempotent(src: Dims, maxHeight: int, maxWidth: int)
    requires IsPortrait(src) || src.width > 0
    requires maxHeight > 0 && maxWidth > 0
    requires FitsInt64(maxHeight * src.width) && FitsInt64(maxWidth * src.height)
    requires FitsInt64(maxHeight * maxHeight) && FitsInt64(maxWidth * maxWidth)
    ensures var once := RectDims(TargetSize(src, maxHeight, maxWidth));
      && IsPortrait(once) == IsPortrait(src)
      && (IsPortrait(once) || once.width > 0)
      && TargetSize(once, maxHeight, maxWidth) == TargetSize(src, maxHeight, maxWidth)
  {
    if IsPortrait(src) {
      PortraitIdempotent(src, maxHeight, maxWidth);
    } else {
      LandscapeIdempotent(src, maxHeight, maxWidth);
    }
  }

  lemma PortraitIdempotent(src: Dims, maxHeight: int, maxWidth: int)
    requires IsPortrait(src) && maxHeight > 0
    requires FitsInt64(maxHeight * src.width) && FitsInt64(maxHeight * maxHeight)
    ensures var r := TargetSize(src, maxHeight, maxWidth);
      && 0 <= r.width < maxHeight == r.height
      && TargetSize(Dims(r.width, r.height), maxHeight, maxWidth) == r
  {
    var r := TargetSize(src, maxHeight, maxWidth);
    var w := r.width;
    var product := maxHeight * src.width;
    QuotBounds(product, src.height);
    assert w * src.height <= product;
    assert product < maxHeight * src.height;
    CancelFactor(w, maxHeight, src.height);
    ProductBelow(maxHeight, w, maxHeight);
    QuotOfMultiple(maxHeight, w);
  }

  lemma LandscapeIdempotent(src: Dims, maxHeight: int, maxWidth: int)
    requires !IsPortrait(src) && src.width > 0 && maxWidth > 0
    requires FitsInt64(maxWidth * src.height) && FitsInt64(maxWidth * maxWidth)
    ensures var r := TargetSize(src, maxHeight, maxWidth);
      && 0 <= r.height <= maxWidth == r.width
      && TargetSize(Dims(r.width, r.height), maxHeight, maxWidth) == r
  {
    var r := TargetSize(src, maxHeight, maxWidth);
    LandscapeRule(src, maxHeight, maxWidth);
    ProductBelow(maxWidth, r.height, maxWidth);
    QuotOfMultiple(maxWidth, r.height);
  }

  /** The portrait case of utils_test.go: a 100x200 image with bounds
      (100, 50) comes out 50 wide and 100 high. */
  lemma PortraitTestCase()
    ensures TargetSize(Dims(100, 200), 100, 50) == Size(50, 100)
  {
  }

  /** With a bound near MaxInt64 the product wraps: a 2x3 portrait image
      under maxHeight = MaxInt64 gets the product -2 and width 0. */
  lemma PortraitProductWraps()
    ensures TargetSize(Dims(2, 3), MaxInt64, 1600) == Size(0, MaxInt64)
  {
  }

  /** A landscape image taller than maxHeight keeps that height, and a small
      square is enlarged to maxWidth by maxWidth. */
  lemma LandscapeIgnoresMaxHeight()
    ensures TargetSize(Dims(1600, 1300), 1200, 1600) == Size(1600, 1300)
    ensures TargetSize(Dims(10, 10), 1200, 1600) == Size(1600, 1600)
  {
  }

  // ---------------------------------------------------------------------------
  // ResizeImage
  // ---------------------------------------------------------------------------

  /** The content types ResizeImage re-encodes, and their formats. */
  function ContentTypeOf(f: ImageFormat): string
  {
    match f
    case Jpeg => "image/jpeg"
    case Png => "image/png"
    case Gif => "image/gif"
  }

  /** The case of the format switch a content type selects; None when it
      matches no case. */
  function FormatOf(contentType: string): (r: Option<ImageFormat>)
    ensures r.Some? ==> ContentTypeOf(r.value) == contentType
    ensures r.None? ==> forall f :: ContentTypeOf(f) != contentType
  {
    if contentType == "image/jpeg" then Some(Jpeg)
    else if contentType == "image/png" then Some(Png)
    else if contentType == "image/gif" then Some(Gif)
    else None
  }

  /** DivideByZero is the run-time panic of the landscape branch on an image
      whose width and height are both zero. */
  datatype ResizeError = DecodeError | EncodeError | DivideByZero

  /** ResizeImage(imgBytes, imageFormat, blobName, maxHeight, maxWidth): the
      re-encoded bytes, or empty bytes when the content type matches no case
      of the format switch. */
  function ResizeImage(codec: Codec, imgBytes: Bytes, imageFormat: string, maxHeight: int, maxWidth: int): Result<Bytes, ResizeError>
  {
    match codec.decode(imgBytes)
    case None => Failure(DecodeError)
    case Some(src) =>
      if !IsPortrait(src) && src.width == 0 then Failure(DivideByZero)
      else
        match FormatOf(imageFormat)
        case None => Success([])
        case Some(f) =>
          match codec.encode(f, imgBytes, RectDims(TargetSize(src, maxHeight, maxWidth)))
          case None => Failure(EncodeError)
          case Some(out) => Success(out)
  }

  /** What ResizeImage yields: a decode failure is returned as an error; a
      content type outside image/jpeg, image/png and image/gif gives empty
      bytes and no error; otherwise, with a faithful codec, the result reads
      back with exactly the canvas size of the resize rule. */
  lemma ResizeImageOutcome(codec: Codec, imgBytes: Bytes, imageFormat: string, maxHeight: int, maxWidth: int)
    requires Faithful(codec)
    ensures var r := ResizeImage(codec, imgBytes, imageFormat, maxHeight, maxWidth);
      && (codec.decode(imgBytes).None? ==> r == Failure(DecodeError))
      && (codec.decode(imgBytes).Some? && !IsPortrait(codec.decode(imgBytes).value) && codec.decode(imgBytes).value.width == 0 ==>
            r == Failure(DivideByZero))
      && (codec.decode(imgBytes).Some? && FormatOf(imageFormat).None? ==>
            var src := codec.decode(imgBytes).value;
            (IsPortrait(src) || src.width > 0) ==> r == Success([]))
      && (r.Success? && FormatOf(imageFormat).Some? ==>
            var src := codec.decode(imgBytes).value;
            && (IsPortrait(src) || src.width > 0)
            && codec.decodeConfig(r.value) == Some(RectDims(TargetSize(src, maxHeight, maxWidth))))
  {
    var r := ResizeImage(codec, imgBytes, imageFormat, maxHeight, maxWidth);
    if r.Success? && FormatOf(imageFormat).Some? {
      var src := codec.decode(imgBytes).value;
      var d := RectDims(TargetSize(src, maxHeight, maxWidth));
      assert codec.encode(FormatOf(imageFormat).value, imgBytes, d).Some?;
    }
  }

  // ---------------------------------------------------------------------------
  // Blob paths
  // ---------------------------------------------------------------------------

  /** GetBlobNameAndPrefix: the last '/'-separated segment of a blob path, and
      its last three segments joined by '/'. Fewer than three segments is an
      index out of range, which no caller produces. */
  function GetBlobNameAndPrefix(blobPath: string): (string, string)
    requires |Split(blobPath, '/')| >= 3
  {
    var parts := Split(blobPath, '/');
    var n := |parts|;
    (parts[n - 1], Join(parts[n - 3..], '/'))
  }

  /** The name is a single segment, the prefix is the path's own tail made of
      exactly three segments, and it ends with the name. */
  lemma BlobNameAndPrefixShape(blobPath: string)
    requires |Split(blobPath, '/')| >= 3
    ensures var (name, prefix) := GetBlobNameAndPrefix(blobPath);
      && '/' !in name
      && Split(prefix, '/') == Split(blobPath, '/')[|Split(blobPath, '/')| - 3..]
      && Split(prefix, '/')[2] == name
      && |prefix| <= |blobPath| && blobPath[|blobPath| - |prefix|..] == prefix
  {
    var parts := Split(blobPath, '/');
    var n := |parts|;
    var prefix := Join(parts[n - 3..], '/');
    JoinSplit(blobPath, '/');
    SplitJoin(parts[n - 3..], '/');
    if n > 3 {
      JoinAt(parts, '/', n - 3);
      var front := Join(parts[..n - 3], '/') + ['/'];
      assert blobPath == front + prefix;
      assert blobPath[|front|..] == prefix;
    } else {
      assert parts[n - 3..] == parts;
    }
  }

  /** For a path "collection/album/file" of three segments, the name is the
      file and the prefix is the whole path. */
  lemma BlobNameAndPrefixOfPath(collection: string, album: string, file: string)
    requires '/' !in collection && '/' !in album && '/' !in file
    ensures |Split(Join([collection, album, file], '/'), '/')| == 3
    ensures GetBlobNameAndPrefix(Join([collection, album, file], '/')) == (file, Join([collection, album, file], '/'))
  {
    SplitJoin([collection, album, file], '/');
  }

  // ---------------------------------------------------------------------------
  // Contains and the tag listing
  // ---------------------------------------------------------------------------

  /** Contains(s, str): whether str occurs in s, stopping at the first hit. */
  method Contains(s: seq<string>, str: string) returns (found: bool)
    ensures found <==> str in s
  {
    var i := 0;
    while i < |s|
      invariant 0 <= i <= |s|
      invariant str !in s[..i]
    {
      if s[i] == str {
        return true;
      }
      i := i + 1;
    }
    return false;
  }

  /** The value a loop over a tag set assigning `v = value` for every tag
      with the given key ends with: the last such value, or "" when no tag has
      the key. */
  function TagValue(tags: seq<Tag>, key: string): string
  {
    if |tags| == 0 then ""
    else if tags[|tags| - 1].key == key then tags[|tags| - 1].value
    else TagValue(tags[..|tags| - 1], key)
  }

  /** A tag set turned into a map by assigning every entry in order
      (utils.go:197-200, photo/main.go:363-366). */
  function TagMapOf(tags: seq<Tag>): map<string, string>
  {
    if |tags| == 0 then map[]
    else TagMapOf(tags[..|tags| - 1])[tags[|tags| - 1].key := tags[|tags| - 1].value]
  }

  /** The map holds every key of the tag set and no other, and looking a key
      up gives the same value as the listing's scan for that key. */
  lemma {:induction false} TagMapOfAgrees(tags: seq<Tag>, key: string)
    ensures key in TagMapOf(tags) <==> exists i :: 0 <= i < |tags| && tags[i].key == key
    ensures Lookup(TagMapOf(tags), key) == TagValue(tags, key)
  {
    if |tags| > 0 {
      var init := tags[..|tags| - 1];
      TagMapOfAgrees(init, key);
      if key in TagMapOf(init) {
        var i :| 0 <= i < |init| && init[i].key == key;
        assert tags[i].key == key;
      }
      if exists i :: 0 <= i < |tags| && tags[i].key == key {
        var i :| 0 <= i < |tags| && tags[i].key == key;
        if i < |init| {
          assert init[i].key == key;
        }
      }
    }
  }

  /** A blob as the flat listing returns it: its name and its tag set. */
  datatype BlobItem = BlobItem(name: string, tags: seq<Tag>)

  /** One page of the listing, or the error NextPage returned. */
  datatype Page = Page(items: seq<BlobItem>) | PageError

  /** The blobs seen before the first page error: listing stops there. */
  function ListedItems(pages: seq<Page>): seq<BlobItem>
  {
    if |pages| == 0 || pages[0].PageError? then []
    else pages[0].items + ListedItems(pages[1..])
  }

  /** The (collection, album) a blob contributes; a missing tag reads "". */
  function CollectionAlbum(item: BlobItem): (string, string)
  {
    (TagValue(item.tags, "Collection"), TagValue(item.tags, "Album"))
  }

  /** The (collection, album) pair of every blob, in listing order. */
  function ItemPairs(items: seq<BlobItem>): (pairs: seq<(string, string)>)
    ensures |pairs| == |items|
  {
    if |items| == 0 then []
    else ItemPairs(items[..|items| - 1]) + [CollectionAlbum(items[|items| - 1])]
  }

  /** The map the grouping loop builds from (collection, album) pairs in
      order: an album is appended to its collection's list unless the list
      already holds it. */
  function GroupAlbums(pairs: seq<(string, string)>): map<string, seq<string>>
  {
    if |pairs| == 0 then map[] else AddAlbum(GroupAlbums(pairs[..|pairs| - 1]), pairs[|pairs| - 1])
  }

  /** One step of the grouping loop. */
  function AddAlbum(m: map<string, seq<string>>, pair: (string, string)): map<string, seq<string>>
  {
    var (collection, album) := pair;
    var current := if collection in m then m[collection] else [];
    if album in current then m else m[collection := current + [album]]
  }

  /** The albums of one collection, in order, repeats included. */
  function AlbumsOf(pairs: seq<(string, string)>, collection: string): seq<string>
  {
    if |pairs| == 0 then []
    else
      var rest := AlbumsOf(pairs[..|pairs| - 1], collection);
      if pairs[|pairs| - 1].0 == collection then rest + [pairs[|pairs| - 1].1] else rest
  }

  /** The first occurrence of every element, in order of first occurrence. */
  function Dedup(s: seq<string>): seq<string>
  {
    if |s| == 0 then []
    else
      var d := Dedup(s[..|s| - 1]);
      if s[|s| - 1] in d then d else d + [s[|s| - 1]]
  }

  predicate NoDuplicates(s: seq<string>)
  {
    forall i, j :: 0 <= i < j < |s| ==> s[i] != s[j]
  }

  /** Index of the first occurrence of x in s. */
  function FirstIndex(s: seq<string>, x: string): (k: nat)
    requires x in s
    ensures k < |s| && s[k] == x && x !in s[..k]
  {
    if s[0] == x then 0
    else
      assert x in s[1..];
      var k := FirstIndex(s[1..], x);
      assert s[..k + 1] == [s[0]] + s[1..][..k];
      k + 1
  }

  /** Appending an element does not move the first occurrence of an element
      already present. */
  lemma {:induction false} FirstIndexAppend(s: seq<string>, x: string, y: string)
    requires y in s
    ensures FirstIndex(s + [x], y) == FirstIndex(s, y)
  {
    if s[0] != y {
      assert (s + [x])[1..] == s[1..] + [x];
      FirstIndexAppend(s[1..], x, y);
    }
  }

  /** Dedup keeps exactly the elements of s, once each, ordered by where
      they first occur in s. */
  lemma {:induction false} DedupSpec(s: seq<string>)
    ensures forall x :: x in Dedup(s) <==> x in s
    ensures NoDuplicates(Dedup(s))
    ensures forall i, j :: 0 <= i < j < |Dedup(s)| ==> FirstIndex(s, Dedup(s)[i]) < FirstIndex(s, Dedup(s)[j])
  {
    if |s| > 0 {
      var init := s[..|s| - 1];
      var x := s[|s| - 1];
      DedupSpec(init);
      var d := Dedup(init);
      assert s == init + [x];
      forall y | y in init
        ensures FirstIndex(s, y) == FirstIndex(init, y)
      {
        FirstIndexAppend(init, x, y);
      }
      if x !in d {
        assert x !in init;
        assert FirstIndex(s, x) == |s| - 1;
        forall i, j | 0 <= i < j < |d + [x]|
          ensures FirstIndex(s, (d + [x])[i]) < FirstIndex(s, (d + [x])[j])
        {
          assert (d + [x])[i] == d[i];
          if j < |d| {
            assert (d + [x])[j] == d[j];
          } else {
            assert d[i] in init;
          }
        }
      }
    }
  }

  /** The grouping loop's map, said without the loop: its keys are the
      collections seen, and each collection's list is that collection's albums
      with repeats removed, in order of first appearance. */
  lemma {:induction false} GroupAlbumsSpec(pairs: seq<(string, string)>, collection: string)
    ensures collection in GroupAlbums(pairs) <==> AlbumsOf(pairs, collection) != []
    ensures collection in GroupAlbums(pairs) ==> GroupAlbums(pairs)[collection] == Dedup(AlbumsOf(pairs, collection))
  {
    if |pairs| > 0 {
      var init := pairs[..|pairs| - 1];
      GroupAlbumsSpec(init, collection);
      var m := GroupAlbums(init);
      var (c, a) := pairs[|pairs| - 1];
      if c == collection {
        var current := if c in m then m[c] else [];
        assert current == Dedup(AlbumsOf(init, collection));
        assert AlbumsOf(pairs, collection) == AlbumsOf(init, collection) + [a];
        assert AlbumsOf(pairs, collection)[..|AlbumsOf(pairs, collection)| - 1] == AlbumsOf(init, collection);
      }
    }
  }

  /** The whole listing: each collection maps to its albums without repeats
      in order of first appearance, and albums are never lost. */
  lemma GroupAlbumsNoDuplicates(pairs: seq<(string, string)>, collection: string)
    requires collection in GroupAlbums(pairs)
    ensures NoDuplicates(GroupAlbums(pairs)[collection])
    ensures forall a :: a in GroupAlbums(pairs)[collection] <==> a in AlbumsOf(pairs, collection)
  {
    GroupAlbumsSpec(pairs, collection);
    DedupSpec(AlbumsOf(pairs, collection));
  }

  lemma TagValueStep(tags: seq<Tag>, k: nat, key: string)
    requires k < |tags|
    ensures TagValue(tags[..k + 1], key) == if tags[k].key == key then tags[k].value else TagValue(tags[..k], key)
  {
    assert tags[..k + 1][..k] == tags[..k];
  }

  /** The listing seen from page p on: nothing at a page error or past the
      end, otherwise that page's blobs followed by the rest. */
  lemma ListedItemsAt(pages: seq<Page>, p: nat)
    requires p <= |pages|
    ensures p == |pages| || pages[p].PageError? ==> ListedItems(pages[p..]) == []
    ensures p < |pages| && pages[p].Page? ==>
      ListedItems(pages[p..]) == pages[p].items + ListedItems(pages[p + 1..])
  {
    if p < |pages| {
      assert pages[p..][0] == pages[p];
      assert pages[p..][1..] == pages[p + 1..];
    }
  }

  /** One more blob: the grouping is the previous one with that blob's
      pair added. */
  lemma GroupAlbumsStep(seen: seq<BlobItem>, item: BlobItem)
    ensures GroupAlbums(ItemPairs(seen + [item])) == AddAlbum(GroupAlbums(ItemPairs(seen)), CollectionAlbum(item))
  {
    assert (seen + [item])[..|seen|] == seen;
  }

  /** The tag scan for one blob: the last Collection and Album values, or ""
      when a tag is missing. */
  method ScanTags(tags: seq<Tag>) returns (collection: string, album: string)
    ensures collection == TagValue(tags, "Collection")
    ensures album == TagValue(tags, "Album")
  {
    album := "";
    collection := "";
    for k := 0 to |tags|
      invariant collection == TagValue(tags[..k], "Collection")
      invariant album == TagValue(tags[..k], "Album")
    {
      TagValueStep(tags, k, "Collection");
      TagValueStep(tags, k, "Album");
      if tags[k].key == "Collection" {
        collection := tags[k].value;
      }
      if tags[k].key == "Album" {
        album := tags[k].value;
      }
    }
    assert tags[..|tags|] == tags;
  }

  lemma TakeOneMore(seen: seq<BlobItem>, items: seq<BlobItem>, j: nat)
    requires j < |items|
    ensures seen + items[..j + 1] == (seen + items[..j]) + [items[j]]
  {
    assert items[..j + 1] == items[..j] + [items[j]];
  }

  /** The body of the blob loop: scan the blob's tags, then append its album
      to its collection's list unless Contains finds it there. */
  method AddBlob(blobTagMap: map<string, seq<string>>, item: BlobItem) returns (grouped: map<string, seq<string>>)
    ensures grouped == AddAlbum(blobTagMap, CollectionAlbum(item))
  {
    var collection, album := ScanTags(item.tags);
    var current := if collection in blobTagMap then blobTagMap[collection] else [];
    var present := Contains(current, album);
    grouped := blobTagMap;
    if !present {
      grouped := grouped[collection := current + [album]];
    }
  }

  /** The blobs of one page, added to the map in order. */
  method GroupPage(blobTagMap: map<string, seq<string>>, ghost seen: seq<BlobItem>, items: seq<BlobItem>)
    returns (grouped: map<string, seq<string>>)
    requires blobTagMap == GroupAlbums(ItemPairs(seen))
    ensures grouped == GroupAlbums(ItemPairs(seen + items))
  {
    grouped := blobTagMap;
    ghost var acc := seen;
    for j := 0 to |items|
      invariant acc == seen + items[..j]
      invariant grouped == GroupAlbums(ItemPairs(acc))
    {
      TakeOneMore(seen, items, j);
      GroupAlbumsStep(acc, items[j]);
      grouped := AddBlob(grouped, items[j]);
      acc := acc + [items[j]];
    }
    assert items[..|items|] == items;
  }

  /** GetBlobTagList's loops over the pages, the blobs of each page and the
      tags of each blob. A page error ends the listing and the map built so
      far is returned (the Go function's error is then still nil). */
  method GetBlobTagList(pages: seq<Page>) returns (blobTagMap: map<string, seq<string>>)
    ensures blobTagMap == GroupAlbums(ItemPairs(ListedItems(pages)))
  {
    blobTagMap := map[];
    ghost var seen: seq<BlobItem> := [];
    var p := 0;
    while p < |pages|
      invariant 0 <= p <= |pages|
      invariant ListedItems(pages) == seen + ListedItems(pages[p..])
      invariant blobTagMap == GroupAlbums(ItemPairs(seen))
    {
      ListedItemsAt(pages, p);
      if pages[p].PageError? {
        break;
      }
      assert seen + ListedItems(pages[p..]) == (seen + pages[p].items) + ListedItems(pages[p + 1..]);
      blobTagMap := GroupPage(blobTagMap, seen, pages[p].items);
      seen := seen + pages[p].items;
      p := p + 1;
    }
    ListedItemsAt(pages, p);
    assert seen + [] == seen;
  }

  // ---------------------------------------------------------------------------
  // Bearer token and environment
  // ---------------------------------------------------------------------------

  /** Splitting yields one piece exactly when the separator is absent. */
  lemma SplitOnePiece(s: string, sep: char)
    ensures |Split(s, sep)| == 1 <==> sep !in s
  {
    if sep in s {
      var a := Before(s, sep);
      assert s == a + [sep] + s[|a| + 1..];
      SplitAtFirstSep(a, sep, s[|a| + 1..]);
    } else {
      SplitWithoutSep(s, sep);
    }
  }

  datatype TokenError = NoAccessToken | IndexOutOfRange

  /** extractToken on the Authorization header's value ("" when absent): no
      header is an error; otherwise the second space-separated field, and a
      header without a space is an index out of range. */
  function ExtractToken(authorization: string): (r: Result<string, TokenError>)
    ensures r == Failure(NoAccessToken) <==> authorization == ""
    ensures r == Failure(IndexOutOfRange) <==> authorization != "" && ' ' !in authorization
    ensures r.Success? ==> ' ' !in r.value
  {
    SplitOnePiece(authorization, ' ');
    if authorization == "" then Failure(NoAccessToken)
    else
      var fields := Split(authorization, ' ');
      if |fields| < 2 then Failure(IndexOutOfRange) else Success(fields[1])
  }

  /** "<scheme> <token>", followed by any further space-separated fields,
      yields the token. */
  lemma ExtractTokenOfHeader(scheme: string, token: string, extra: seq<string>)
    requires ' ' !in scheme && ' ' !in token
    requires forall i :: 0 <= i < |extra| ==> ' ' !in extra[i]
    ensures ExtractToken(Join([scheme, token] + extra, ' ')) == Success(token)
  {
    var fields := [scheme, token] + extra;
    var header := Join(fields, ' ');
    forall i | 0 <= i < |fields|
      ensures ' ' !in fields[i]
    {
      if i >= 2 {
        assert fields[i] == extra[i - 2];
      }
    }
    SplitJoin(fields, ' ');
    var split := Split(header, ' ');
    assert split == fields;
    assert |split| >= 2 && split[1] == token;
    SplitOnePiece(header, ' ');
    assert header != "";
  }

  /** GetEnvValue(key, fallback) over the process environment: the value of
      a set variable, even an empty one, and the fallback only when the
      variable is unset. */
  function GetEnvValue(env: map<string, string>, key: string, fallback: string): (r: string)
    ensures key in env ==> r == env[key]
    ensures key !in env ==> r == fallback
  {
    if key in env then env[key] else fallback
  }

  /** The two cases of utils_test.go's environment test. */
  lemma EnvValueTestCases(env: map<string, string>)
    requires "TEST_ENV_VAR" in env && env["TEST_ENV_VAR"] == "test_value"
    requires "NON_EXISTENT_ENV_VAR" !in env
    ensures GetEnvValue(env, "TEST_ENV_VAR", "default_value") == "test_value"
    ensures GetEnvValue(env, "NON_EXISTENT_ENV_VAR", "default_value") == "default_value"
  {
  }
}
