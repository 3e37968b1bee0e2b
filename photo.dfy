/**
  The photo API's handlers (api/cmd/photo/main.go): the upload of a batch of
  files into the uploads container, the three tag-filter queries of the
  listing endpoints, the assembly of query results into Blob records, and
  the hydration of those records into Photo records.

  The storage service is the BlobStore of module Store. Its tag-filter query
  (FilterBlobs) is a function handed to the handlers, and the image library's
  DecodeConfig is the codec of module Utils.
*/
module PhotoApi {
  import opened Wrappers
  import opened Text
  import opened Models
  import opened Store
  import opened Utils

  const UploadsContainer: string := "uploads"
  const ImagesContainer: string := "images"

  // ---------------------------------------------------------------------------
  // Filter queries
  // ---------------------------------------------------------------------------

  /** The query of the album listing: the images of one collection and album.
      The values are interpolated as they are, without escaping. */
  function AlbumPhotosQuery(collection: string, album: string): string
  {
    "@container='" + ImagesContainer + "' and Collection='" + collection + "' and Album='" + album + "'"
  }

  /** The query of the collection listing: every collection's cover image. */
  function CollectionsQuery(): string
  {
    "@container='" + ImagesContainer + "' and CollectionImage='true'"
  }

  /** The query of a collection's album listing: the cover image of each of
      its albums. */
  function CollectionAlbumsQuery(collection: string): string
  {
    "@container='" + ImagesContainer + "' and Collection='" + collection + "' and AlbumImage='true'"
  }

  /** Two strings of the form x + "'" + y with a quote-free x are equal only
      when their parts are. */
  lemma QuoteCut(x1: string, y1: string, x2: string, y2: string)
    requires '\'' !in x1 && '\'' !in x2
    requires x1 + "'" + y1 == x2 + "'" + y2
    ensures x1 == x2 && y1 == y2
  {
    BeforeSep(x1, '\'', y1);
    BeforeSep(x2, '\'', y2);
    var s := x1 + "'" + y1;
    assert y1 == s[|x1| + 1..];
    assert y2 == s[|x2| + 1..];
  }

  /** Stripping a common prefix and suffix. */
  lemma StripAround(p: string, x1: string, x2: string, q: string)
    requires p + x1 + q == p + x2 + q
    ensures x1 == x2
  {
    var s := p + x1 + q;
    assert x1 == s[|p|..|s| - |q|];
    assert x2 == s[|p|..|s| - |q|];
  }

  /** The album listing's query regrouped around its collection: a fixed
      prefix, the collection, a quote and the album clause. */
  lemma AlbumPhotosQueryParts(c: string, a: string)
    ensures AlbumPhotosQuery(c, a)
      == ("@container='" + ImagesContainer + "' and Collection='") + (c + "'" + (" and Album='" + a + "'")) + ""
  {
    var p := "@container='" + ImagesContainer + "' and Collection='";
    assert "' and Album='" == "'" + " and Album='";
    assert AlbumPhotosQuery(c, a) == p + c + "' and Album='" + a + "'";
  }

  /** The album listing's query determines its collection and album as long
      as the collection holds no quote. */
  lemma AlbumPhotosQueryInjective(c1: string, a1: string, c2: string, a2: string)
    requires '\'' !in c1 && '\'' !in c2
    requires AlbumPhotosQuery(c1, a1) == AlbumPhotosQuery(c2, a2)
    ensures c1 == c2 && a1 == a2
  {
    var p := "@container='" + ImagesContainer + "' and Collection='";
    var r1 := " and Album='" + a1 + "'";
    var r2 := " and Album='" + a2 + "'";
    AlbumPhotosQueryParts(c1, a1);
    AlbumPhotosQueryParts(c2, a2);
    StripAround(p, c1 + "'" + r1, c2 + "'" + r2, "");
    QuoteCut(c1, r1, c2, r2);
    StripAround(" and Album='", a1, a2, "'");
  }

  /** A quote in the collection lets one value spill into the next clause:
      two different requests produce the same query. */
  lemma AlbumPhotosQueryInjection()
    ensures AlbumPhotosQuery("a' and Album='b", "c") == AlbumPhotosQuery("a", "b' and Album='c")
  {
  }

  /** A collection's album query determines the collection, quotes or not. */
  lemma CollectionAlbumsQueryInjective(c1: string, c2: string)
    requires CollectionAlbumsQuery(c1) == CollectionAlbumsQuery(c2)
    ensures c1 == c2
  {
    StripAround("@container='" + ImagesContainer + "' and Collection='", c1, c2, "' and AlbumImage='true'");
  }

  // ---------------------------------------------------------------------------
  // Upload
  // ---------------------------------------------------------------------------

  /** One file of the multipart form: its name, its declared size and its
      bytes. */
  datatype UploadFile = UploadFile(filename: string, size: int, content: Bytes)

  /** The form fields the upload handler reads. `metadata` is the decoded
      "metadata" JSON field: one MetaData per file, by position. */
  datatype UploadForm = UploadForm(
    collection: string,
    album: string,
    collectionImage: string,
    albumImage: string,
    metadata: seq<MetaData>,
    files: seq<UploadFile>)

  /** The tags an uploaded file is stored with. */
  function UploadTags(collection: string, album: string, filename: string, description: string,
                      collectionImage: string, albumImage: string): StringMap
  {
    var tags := map["Name" := Join([collection, album, filename], '/'), "Description" := description,
                    "Collection" := collection, "Album" := album];
    var tags := if filename == collectionImage then tags["CollectionImage" := "true"] else tags;
    if filename == albumImage then tags["AlbumImage" := "true"] else tags
  }

  /** The tag set holds exactly Name, Description, Collection and Album, plus
      a cover flag exactly when the file is named as that cover; a cover flag
      is only ever "true", never "false". */
  lemma UploadTagsShape(collection: string, album: string, filename: string, description: string,
                        collectionImage: string, albumImage: string)
    ensures var tags := UploadTags(collection, album, filename, description, collectionImage, albumImage);
      && tags.Keys == {"Name", "Description", "Collection", "Album"}
           + (if filename == collectionImage then {"CollectionImage"} else {})
           + (if filename == albumImage then {"AlbumImage"} else {})
      && tags["Name"] == Join([collection, album, filename], '/')
      && tags["Description"] == description
      && tags["Collection"] == collection
      && tags["Album"] == album
      && ("CollectionImage" in tags <==> filename == collectionImage)
      && ("AlbumImage" in tags <==> filename == albumImage)
      && (forall k :: k in tags && k != "Name" && k != "Description" && k != "Collection" && k != "Album" ==> tags[k] == "true")
  {
  }

  /** The Name tag is the object's path: for '/'-free parts it splits back
      into collection, album and file name, and GetBlobNameAndPrefix recovers
      the file name and the whole path. */
  lemma UploadNameRoundTrip(collection: string, album: string, filename: string, description: string,
                            collectionImage: string, albumImage: string)
    requires '/' !in collection && '/' !in album && '/' !in filename
    ensures var name := UploadTags(collection, album, filename, description, collectionImage, albumImage)["Name"];
      && Split(name, '/') == [collection, album, filename]
      && GetBlobNameAndPrefix(name) == (filename, name)
  {
    var name := Join([collection, album, filename], '/');
    assert UploadTags(collection, album, filename, description, collectionImage, albumImage)["Name"] == name;
    SplitJoin([collection, album, filename], '/');
    BlobNameAndPrefixOfPath(collection, album, filename);
  }

  /** The metadata an uploaded file is stored with: its dimensions as read by
      DecodeConfig and its declared size, in decimal. */
  function UploadMetadata(dims: Dims, size: int): StringMap
  {
    map["Height" := Decimal(dims.height), "Width" := Decimal(dims.width), "Size" := Decimal(size)]
  }

  /** How an upload request ends. MetadataIndexOutOfRange is the panic of
      md[i] when the metadata list is shorter than the file list;
      DecodeConfigFatal is log.Fatalln ending the process when a file is not
      a decodable image. */
  datatype UploadOutcome = Completed | RejectedUndefined | MetadataIndexOutOfRange | DecodeConfigFatal

  predicate Undefined(form: UploadForm)
  {
    form.collection == "undefined" || form.album == "undefined"
  }

  /** The object the i-th file is saved as. */
  function FileWrite(form: UploadForm, i: nat, dims: Dims): Write
    requires i < |form.files| && i < |form.metadata|
  {
    var f := form.files[i];
    Write(
      BlobKey(UploadsContainer, Join([form.collection, form.album, f.filename], '/')),
      StoredBlob(
        f.content,
        UploadTags(form.collection, form.album, f.filename, form.metadata[i].description,
                   form.collectionImage, form.albumImage),
        UploadMetadata(dims, f.size),
        Some(form.metadata[i].contentType)))
  }

  /** The uploads performed from the i-th file on, and how the request ends.
      A save whose index is in `saveFaults` fails; the failure is only logged
      and the loop goes on. */
  function UploadFrom(form: UploadForm, codec: Codec, saveFaults: set<nat>, i: nat): (seq<Write>, UploadOutcome)
    decreases |form.files| - i
  {
    if i >= |form.files| then ([], Completed)
    else if Undefined(form) then ([], RejectedUndefined)
    else if i >= |form.metadata| then ([], MetadataIndexOutOfRange)
    else
      match codec.decodeConfig(form.files[i].content)
      case None => ([], DecodeConfigFatal)
      case Some(dims) =>
        var (rest, outcome) := UploadFrom(form, codec, saveFaults, i + 1);
        (if i in saveFaults then rest else [FileWrite(form, i, dims)] + rest, outcome)
  }

  /** The body of uploadPhotoHandler's loop for the i-th file, once its
      dimensions are known: the tags and the metadata are built entry by
      entry and the file is saved under collection/album/filename. */
  method FileUpload(form: UploadForm, i: nat, dims: Dims) returns (w: Write)
    requires i < |form.files| && i < |form.metadata|
    ensures w == FileWrite(form, i, dims)
  {
    var f := form.files[i];
    var fileNameWithPrefix := Join([form.collection, form.album, f.filename], '/');
    var tags: StringMap := map[];
    tags := tags["Name" := fileNameWithPrefix];
    tags := tags["Description" := form.metadata[i].description];
    tags := tags["Collection" := form.collection];
    tags := tags["Album" := form.album];
    if f.filename == form.collectionImage {
      tags := tags["CollectionImage" := "true"];
    }
    if f.filename == form.albumImage {
      tags := tags["AlbumImage" := "true"];
    }
    var metadata: StringMap := map[];
    metadata := metadata["Height" := Decimal(dims.height)];
    metadata := metadata["Width" := Decimal(dims.width)];
    metadata := metadata["Size" := Decimal(f.size)];
    w := Write(BlobKey(UploadsContainer, fileNameWithPrefix),
               StoredBlob(f.content, tags, metadata, Some(form.metadata[i].contentType)));
  }

  /** uploadPhotoHandler's loop over the files of the form. */
  method UploadPhotos(store: BlobStore, form: UploadForm, codec: Codec, saveFaults: set<nat>) returns (outcome: UploadOutcome)
    modifies store
    ensures outcome == UploadFrom(form, codec, saveFaults, 0).1
    ensures store.objects == ApplyWrites(old(store.objects), UploadFrom(form, codec, saveFaults, 0).0)
  {
    ghost var done: seq<Write> := [];
    var i := 0;
    while i < |form.files|
      invariant 0 <= i <= |form.files|
      invariant store.objects == ApplyWrites(old(store.objects), done)
      invariant UploadFrom(form, codec, saveFaults, 0).1 == UploadFrom(form, codec, saveFaults, i).1
      invariant UploadFrom(form, codec, saveFaults, 0).0 == done + UploadFrom(form, codec, saveFaults, i).0
    {
      var f := form.files[i];
      if form.collection == "undefined" || form.album == "undefined" {
        assert done + [] == done;
        return RejectedUndefined;
      }
      if i >= |form.metadata| {
        assert done + [] == done;
        return MetadataIndexOutOfRange;
      }
      var config := codec.decodeConfig(f.content);
      if config.None? {
        assert done + [] == done;
        return DecodeConfigFatal;
      }
      if i !in saveFaults {
        var w := FileUpload(form, i, config.value);
        store.Upload(w);
        assert (done + [w])[..|done|] == done;
        done := done + [w];
      }
      i := i + 1;
    }
    assert done + [] == done;
    return Completed;
  }

  /** A collection or album named "undefined" stops the request before any
      file is saved; with at least one file it is rejected. */
  lemma UndefinedUploadsNothing(form: UploadForm, codec: Codec, saveFaults: set<nat>)
    requires Undefined(form)
    ensures UploadFrom(form, codec, saveFaults, 0).0 == []
    ensures UploadFrom(form, codec, saveFaults, 0).1 == RejectedUndefined <==> |form.files| > 0
  {
  }

  /** Uploads only ever write to the uploads container, under the path
      collection/album/filename of one of the form's files. */
  lemma {:induction false} UploadsStayInUploads(form: UploadForm, codec: Codec, saveFaults: set<nat>, i: nat)
    ensures forall w :: w in UploadFrom(form, codec, saveFaults, i).0 ==>
      && w.key.container == UploadsContainer
      && exists j :: i <= j < |form.files| && w.key.path == Join([form.collection, form.album, form.files[j].filename], '/')
    decreases |form.files| - i
  {
    if i < |form.files| && !Undefined(form) && i < |form.metadata| && codec.decodeConfig(form.files[i].content).Some? {
      UploadsStayInUploads(form, codec, saveFaults, i + 1);
    }
  }

  /** The request completes exactly when there is nothing to upload, or the
      names are defined, every file has its metadata entry and every file
      decodes. */
  lemma {:induction false} UploadCompletes(form: UploadForm, codec: Codec, saveFaults: set<nat>, i: nat)
    ensures UploadFrom(form, codec, saveFaults, i).1 == Completed <==>
      i >= |form.files| ||
      (&& !Undefined(form)
       && |form.metadata| >= |form.files|
       && forall j :: i <= j < |form.files| ==> codec.decodeConfig(form.files[j].content).Some?)
    decreases |form.files| - i
  {
    if i < |form.files| && !Undefined(form) && i < |form.metadata| && codec.decodeConfig(form.files[i].content).Some? {
      UploadCompletes(form, codec, saveFaults, i + 1);
    }
  }

  /** Without save failures, a request that completes from the i-th file on
      writes the i-th file first, followed by the writes from the next file
      on. */
  lemma UploadFileThenRest(form: UploadForm, codec: Codec, i: nat)
    requires i < |form.files|
    requires UploadFrom(form, codec, {}, i).1 == Completed
    ensures i < |form.metadata| && codec.decodeConfig(form.files[i].content).Some?
    ensures UploadFrom(form, codec, {}, i + 1).1 == Completed
    ensures UploadFrom(form, codec, {}, i).0 ==
      [FileWrite(form, i, codec.decodeConfig(form.files[i].content).value)] + UploadFrom(form, codec, {}, i + 1).0
  {
  }

  /** Without save failures, a completed request writes one object per file:
      as many writes as files from the i-th on. */
  lemma {:induction false} UploadWriteCount(form: UploadForm, codec: Codec, i: nat)
    requires i <= |form.files|
    requires UploadFrom(form, codec, {}, i).1 == Completed
    ensures |UploadFrom(form, codec, {}, i).0| == |form.files| - i
    decreases |form.files| - i
  {
    if i < |form.files| {
      UploadFileThenRest(form, codec, i);
      UploadWriteCount(form, codec, i + 1);
      var head := FileWrite(form, i, codec.decodeConfig(form.files[i].content).value);
      var rest := UploadFrom(form, codec, {}, i + 1).0;
      assert |[head] + rest| == 1 + |rest|;
    }
  }

  /** Without save failures, a completed request writes the files in order:
      the file at index j is the (j-i)-th write from the i-th file on, as
      FileWrite describes it. */
  lemma {:induction false} UploadWritesEveryFile(form: UploadForm, codec: Codec, i: nat, j: nat)
    requires i <= j < |form.files|
    requires UploadFrom(form, codec, {}, i).1 == Completed
    ensures |UploadFrom(form, codec, {}, i).0| == |form.files| - i
    ensures j < |form.metadata| && codec.decodeConfig(form.files[j].content).Some?
    ensures UploadFrom(form, codec, {}, i).0[j - i] == FileWrite(form, j, codec.decodeConfig(form.files[j].content).value)
    decreases j - i
  {
    UploadWriteCount(form, codec, i);
    UploadFileThenRest(form, codec, i);
    var head := FileWrite(form, i, codec.decodeConfig(form.files[i].content).value);
    var rest := UploadFrom(form, codec, {}, i + 1).0;
    if i < j {
      UploadWritesEveryFile(form, codec, i + 1, j);
      assert ([head] + rest)[j - i] == rest[j - (i + 1)];
    }
  }

  /** What an upload stores reads back: the dimensions parse back from the
      Height and Width metadata, and the size from Size. */
  lemma UploadMetadataReadsBack(dims: Dims, size: int)
    requires dims.width <= MaxInt32 && dims.height <= MaxInt32
    requires MinInt64 <= size <= MaxInt64
    ensures var m := UploadMetadata(dims, size);
      && ParseInt32(Lookup(m, "Width")) == dims.width
      && ParseInt32(Lookup(m, "Height")) == dims.height
      && Atoi(Lookup(m, "Size")) == size
  {
    ParseInt32RoundTrip(dims.width);
    ParseInt32RoundTrip(dims.height);
    AtoiRoundTrip(size);
  }

  // ---------------------------------------------------------------------------
  // Query results
  // ---------------------------------------------------------------------------

  /** One blob of a FilterBlobs answer: its name, its container and the tags
      that matched. */
  datatype FilterItem = FilterItem(name: string, containerName: string, tags: seq<Tag>)

  /** The storage reads of a listing that fail, by the object they read:
      GetBlobMetadata of a key in `metadata`, GetBlobTags of a key in
      `tags`. Reading an object that does not exist fails as well. */
  datatype ReadFaults = ReadFaults(metadata: set<BlobKey>, tags: set<BlobKey>)

  /** GetBlobMetadata: the stored object's metadata, or a nil map (read as
      empty) when the read fails; the error is only logged. */
  function StoredMetadata(objects: map<BlobKey, StoredBlob>, faults: ReadFaults, container: string, name: string): StringMap
  {
    var key := BlobKey(container, name);
    if key in objects && key !in faults.metadata then objects[key].metadata else map[]
  }

  /** The Blob record queryBlobsByTags makes of one filter result. Its path
      always names the images container; its metadata is read from the
      result's own container. */
  function BlobOf(objects: map<BlobKey, StoredBlob>, faults: ReadFaults, storageUrl: string, item: FilterItem): Blob
  {
    Blob(item.name, Join([storageUrl, ImagesContainer, item.name], '/'), TagMapOf(item.tags),
         StoredMetadata(objects, faults, item.containerName, item.name))
  }

  /** A Blob's tag map agrees with the tag set it came from: a key maps to
      the last value given for it, and a missing key reads "". */
  lemma BlobOfTags(objects: map<BlobKey, StoredBlob>, faults: ReadFaults, storageUrl: string, item: FilterItem, key: string)
    ensures Lookup(BlobOf(objects, faults, storageUrl, item).tags, key) == TagValue(item.tags, key)
    ensures key in BlobOf(objects, faults, storageUrl, item).tags <==> exists i :: 0 <= i < |item.tags| && item.tags[i].key == key
  {
    TagMapOfAgrees(item.tags, key);
  }

  /** A Blob's path is the storage URL, the images container and the name,
      '/'-separated, whatever container the result came from; its segments
      are those of the URL, the container, then those of the name. */
  lemma BlobOfPath(objects: map<BlobKey, StoredBlob>, faults: ReadFaults, storageUrl: string, item: FilterItem)
    ensures BlobOf(objects, faults, storageUrl, item).path == storageUrl + "/" + ImagesContainer + "/" + item.name
    ensures Split(BlobOf(objects, faults, storageUrl, item).path, '/') ==
      Split(storageUrl, '/') + [ImagesContainer] + Split(item.name, '/')
  {
    SplitJoinThree(storageUrl, ImagesContainer, item.name, '/');
  }

  /** For the service's storage URL "https://<account>" and an image named
      "collection/album/file", the path has seven segments, the last three
      being the name's. */
  lemma BlobOfAccountPath(objects: map<BlobKey, StoredBlob>, faults: ReadFaults, account: string,
                          collection: string, album: string, file: string, item: FilterItem)
    requires '/' !in account && '/' !in collection && '/' !in album && '/' !in file
    requires item.name == Join([collection, album, file], '/')
    ensures Split(BlobOf(objects, faults, "https://" + account, item).path, '/') ==
      ["https:", "", account, ImagesContainer, collection, album, file]
  {
    BlobOfPath(objects, faults, "https://" + account, item);
    assert "https://" + account == "https:" + "//" + account;
    SplitStorageUrl("https:", account);
    SplitJoin([collection, album, file], '/');
  }

  /** The storage URL "<scheme>//<account>" splits on '/' into the scheme,
      an empty segment and the account. */
  lemma SplitStorageUrl(scheme: string, account: string)
    requires '/' !in scheme && '/' !in account
    ensures Split(scheme + "//" + account, '/') == [scheme, "", account]
  {
    assert scheme + "//" + account == scheme + ['/'] + ("" + ['/'] + account);
    SplitConcat(scheme, '/', "" + ['/'] + account);
    SplitConcat("", '/', account);
    SplitWithoutSep(scheme, '/');
    SplitWithoutSep(account, '/');
  }

  /** queryBlobsByTags on the answer of FilterBlobs: a filter error is
      returned with no list; otherwise one Blob per result, in order. A
      metadata read error does not drop the blob. */
  method QueryBlobsByTags(store: BlobStore, faults: ReadFaults, storageUrl: string, response: Result<seq<FilterItem>, string>)
    returns (r: Result<seq<Blob>, string>)
    ensures response.Failure? ==> r == Failure(response.error)
    ensures response.Success? ==>
      && r.Success?
      && |r.value| == |response.value|
      && forall i :: 0 <= i < |r.value| ==> r.value[i] == BlobOf(store.objects, faults, storageUrl, response.value[i])
  {
    if response.Failure? {
      return Failure(response.error);
    }
    var items := response.value;
    var blobs: seq<Blob> := [];
    for i := 0 to |items|
      invariant |blobs| == i
      invariant forall j :: 0 <= j < i ==> blobs[j] == BlobOf(store.objects, faults, storageUrl, items[j])
    {
      var item := items[i];
      var blobPath := Join([storageUrl, ImagesContainer, item.name], '/');
      var t: StringMap := map[];
      for k := 0 to |item.tags|
        invariant t == TagMapOf(item.tags[..k])
      {
        assert item.tags[..k + 1][..k] == item.tags[..k];
        t := t[item.tags[k].key := item.tags[k].value];
      }
      assert item.tags[..|item.tags|] == item.tags;
      var md := StoredMetadata(store.objects, faults, item.containerName, item.name);
      blobs := blobs + [Blob(item.name, blobPath, t, md)];
    }
    return Success(blobs);
  }

  // ---------------------------------------------------------------------------
  // Hydration
  // ---------------------------------------------------------------------------

  /** The Photo a listing endpoint makes of a Blob, with the album and
      collection taken from `tags`. Width and Height are ParseInt(…, 10, 32)
      of the metadata, whose error is only logged: a missing one becomes 0.
      Description is never set. */
  function PhotoOf(blob: Blob, tags: StringMap): Photo
  {
    Photo(
      blob.path,
      blob.name,
      ParseInt32(Lookup(blob.metadata, "Width")),
      ParseInt32(Lookup(blob.metadata, "Height")),
      Lookup(tags, "Album"),
      Lookup(tags, "Collection"),
      "")
  }

  /** GetBlobTags on the images container: the stored object's tags, or a nil
      map (read as empty) when the read fails; the error is only logged. */
  function StoredTags(objects: map<BlobKey, StoredBlob>, faults: ReadFaults, name: string): StringMap
  {
    var key := BlobKey(ImagesContainer, name);
    if key in objects && key !in faults.tags then objects[key].tags else map[]
  }

  /** The album listing's loop: each Blob gives one Photo, with the album and
      collection from the Blob's own tags. */
  method PhotosFromBlobTags(filtered: seq<Blob>) returns (photos: seq<Photo>)
    ensures |photos| == |filtered|
    ensures forall i :: 0 <= i < |filtered| ==> photos[i] == PhotoOf(filtered[i], filtered[i].tags)
  {
    photos := [];
    for i := 0 to |filtered|
      invariant |photos| == i
      invariant forall j :: 0 <= j < i ==> photos[j] == PhotoOf(filtered[j], filtered[j].tags)
    {
      var r := filtered[i];
      var width := ParseInt32(Lookup(r.metadata, "Width"));
      var height := ParseInt32(Lookup(r.metadata, "Height"));
      var photo := Photo(r.path, r.name, width, height, Lookup(r.tags, "Album"), Lookup(r.tags, "Collection"), "");
      photos := photos + [photo];
    }
  }

  /** The loop of the collection and album listings: each Blob gives one
      Photo, with the album and collection from the tags stored on the image
      of that name. */
  method PhotosFromStoredTags(store: BlobStore, faults: ReadFaults, filtered: seq<Blob>) returns (photos: seq<Photo>)
    ensures |photos| == |filtered|
    ensures forall i :: 0 <= i < |filtered| ==> photos[i] == PhotoOf(filtered[i], StoredTags(store.objects, faults, filtered[i].name))
  {
    photos := [];
    for i := 0 to |filtered|
      invariant |photos| == i
      invariant forall j :: 0 <= j < i ==> photos[j] == PhotoOf(filtered[j], StoredTags(store.objects, faults, filtered[j].name))
    {
      var r := filtered[i];
      var width := ParseInt32(Lookup(r.metadata, "Width"));
      var height := ParseInt32(Lookup(r.metadata, "Height"));
      var tags := StoredTags(store.objects, faults, r.name);
      var photo := Photo(r.path, r.name, width, height, Lookup(tags, "Album"), Lookup(tags, "Collection"), "");
      photos := photos + [photo];
    }
  }

  /** The Blobs a handler goes on with: the query's list, or none after a
      query error (the error is only logged). */
  function Filtered(r: Result<seq<Blob>, string>): seq<Blob>
  {
    if r.Success? then r.value else []
  }

  /** albumPhotosHandler: query the images of one collection and album, and
      list them as Photos. A failed query gives an empty list. */
  method AlbumPhotosHandler(store: BlobStore, faults: ReadFaults, storageUrl: string, filterBlobs: string -> Result<seq<FilterItem>, string>,
                            collection: string, album: string) returns (photos: seq<Photo>)
    ensures var response := filterBlobs(AlbumPhotosQuery(collection, album));
      && (response.Failure? ==> photos == [])
      && (response.Success? ==>
            && |photos| == |response.value|
            && forall i :: 0 <= i < |photos| ==>
                 photos[i] == PhotoOf(BlobOf(store.objects, faults, storageUrl, response.value[i]), TagMapOf(response.value[i].tags)))
  {
    var query := AlbumPhotosQuery(collection, album);
    var result := QueryBlobsByTags(store, faults, storageUrl, filterBlobs(query));
    photos := PhotosFromBlobTags(Filtered(result));
  }

  /** collectionsHandler: query every collection's cover image and list them
      as Photos, with album and collection from the stored tags. */
  method CollectionsHandler(store: BlobStore, faults: ReadFaults, storageUrl: string, filterBlobs: string -> Result<seq<FilterItem>, string>)
    returns (photos: seq<Photo>)
    ensures var response := filterBlobs(CollectionsQuery());
      && (response.Failure? ==> photos == [])
      && (response.Success? ==>
            && |photos| == |response.value|
            && forall i :: 0 <= i < |photos| ==>
                 photos[i] == PhotoOf(BlobOf(store.objects, faults, storageUrl, response.value[i]),
                                      StoredTags(store.objects, faults, response.value[i].name)))
  {
    var query := CollectionsQuery();
    var result := QueryBlobsByTags(store, faults, storageUrl, filterBlobs(query));
    photos := PhotosFromStoredTags(store, faults, Filtered(result));
  }

  /** collectionAlbums: query the album cover images of one collection and
      list them as Photos, with album and collection from the stored tags. */
  method CollectionAlbumsHandler(store: BlobStore, faults: ReadFaults, storageUrl: string, filterBlobs: string -> Result<seq<FilterItem>, string>,
                                 collection: string) returns (photos: seq<Photo>)
    ensures var response := filterBlobs(CollectionAlbumsQuery(collection));
      && (response.Failure? ==> photos == [])
      && (response.Success? ==>
            && |photos| == |response.value|
            && forall i :: 0 <= i < |photos| ==>
                 photos[i] == PhotoOf(BlobOf(store.objects, faults, storageUrl, response.value[i]),
                                      StoredTags(store.objects, faults, response.value[i].name)))
  {
    var query := CollectionAlbumsQuery(collection);
    var result := QueryBlobsByTags(store, faults, storageUrl, filterBlobs(query));
    photos := PhotosFromStoredTags(store, faults, Filtered(result));
  }

  /** A failed read of an existing object does not drop it from a listing:
      a failed metadata read leaves its Blob without metadata, so its Photo
      has 0 width and height; a failed tag read in a cover listing leaves
      its Photo with an empty album and collection. */
  lemma ReadFaultDefaults(objects: map<BlobKey, StoredBlob>, faults: ReadFaults, storageUrl: string,
                          item: FilterItem, tags: StringMap)
    ensures BlobKey(item.containerName, item.name) in faults.metadata ==>
      var blob := BlobOf(objects, faults, storageUrl, item);
      blob.metadata == map[] && PhotoOf(blob, tags).width == 0 && PhotoOf(blob, tags).height == 0
    ensures BlobKey(ImagesContainer, item.name) in faults.tags ==>
      var blob := BlobOf(objects, faults, storageUrl, item);
      PhotoOf(blob, StoredTags(objects, faults, blob.name)).album == ""
      && PhotoOf(blob, StoredTags(objects, faults, blob.name)).collection == ""
  {
    assert ParseDecimal("").None?;
    ParseIntOutsideGrammar("", MaxInt32);
  }

  /** A missing dimension hydrates to 0, and so does one outside
      ParseInt's grammar, unless the digits before its first non-digit
      already pass 2^32 - 1: the range error then comes first and the
      dimension is the bound on the side of its sign. */
  lemma PhotoDimensionDefaults(blob: Blob, tags: StringMap)
    ensures "Width" !in blob.metadata ==> PhotoOf(blob, tags).width == 0
    ensures "Height" !in blob.metadata ==> PhotoOf(blob, tags).height == 0
    ensures var w := Lookup(blob.metadata, "Width");
      ParseDecimal(w).None? ==>
        PhotoOf(blob, tags).width == if LeadingOverflow(w, 0xffff_ffff) then (if Negative(w) then MinInt32 else MaxInt32) else 0
    ensures var h := Lookup(blob.metadata, "Height");
      ParseDecimal(h).None? ==>
        PhotoOf(blob, tags).height == if LeadingOverflow(h, 0xffff_ffff) then (if Negative(h) then MinInt32 else MaxInt32) else 0
  {
    var w := Lookup(blob.metadata, "Width");
    var h := Lookup(blob.metadata, "Height");
    if ParseDecimal(w).None? {
      ParseIntOutsideGrammar(w, MaxInt32);
    }
    if ParseDecimal(h).None? {
      ParseIntOutsideGrammar(h, MaxInt32);
    }
  }

  /** An object stored by an upload hydrates to the dimensions DecodeConfig
      read and to the collection and album it was uploaded under. */
  lemma UploadedPhoto(dims: Dims, size: int, blob: Blob, collection: string, album: string, filename: string,
                      description: string, collectionImage: string, albumImage: string)
    requires dims.width <= MaxInt32 && dims.height <= MaxInt32 && MinInt64 <= size <= MaxInt64
    requires blob.metadata == UploadMetadata(dims, size)
    ensures var photo := PhotoOf(blob, UploadTags(collection, album, filename, description, collectionImage, albumImage));
      && photo.width == dims.width && photo.height == dims.height
      && photo.collection == collection && photo.album == album
  {
    UploadMetadataReadsBack(dims, size);
    UploadTagsShape(collection, album, filename, description, collectionImage, albumImage);
  }
}
