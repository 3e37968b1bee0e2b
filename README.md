# photo-api core, modelled in Dafny

This project models the logic at the centre of the photo-api service, a Go
backend that stores photos in Azure Blob Storage.

The **photo service** (`api/cmd/photo/main.go`) has the following parts:

- It accepts multipart uploads. For each file it builds the tag set (`Name`,
  `Description`, `Collection`, `Album`, and optionally `CollectionImage` or
  `AlbumImage`) and the metadata (`Height`, `Width`, `Size`). It saves the file
  to the `uploads` container under `collection/album/filename`.
- A collection or album named `"undefined"` stops the request.
- Three listing endpoints send a blob-tag filter query to storage.
  `queryBlobsByTags` turns each result into a `Blob` record. Each endpoint then
  turns the `Blob` records into `Photo` records through
  `strconv.ParseInt(…, 10, 32)`: a missing `Width` or `Height` reads as 0,
  and so does a malformed one, unless its leading digits already overflow.

The **resize worker** (`api/cmd/resize/main.go`, `ResizeHandler`) handles one
"blob created" event:

1. It parses the event URL, and from its path takes the container, the
   collection, the album and the blob path (the last three segments).
2. It reads the source blob's bytes, tags and metadata.
3. It resizes the image by the rule in `ResizeImage`.
4. It records the new `Size`, `Height` and `Width` in the metadata and a `Url`
   tag.
5. It saves exactly one object, under the same blob path in the images
   container.

The **shared helpers** (`api/internal/utils/utils.go`) are:

- the dimension rule and format switch of `ResizeImage`;
- `GetBlobNameAndPrefix`;
- `Contains`;
- the collection → albums grouping of `GetBlobTagList`, which is
  de-duplicated and keeps first-seen order;
- `extractToken`;
- `GetEnvValue`.

The records of `api/internal/models/models.go` (`MetaData`, `Blob`, `Photo`,
`Event`) are datatypes in module `Models`.

Modules:

- `Wrappers`: `Option` and `Result`.
- `Text`: the Go library behaviour the core relies on:
  - `strings.Split`, where the empty string splits to one empty piece;
  - `fmt.Sprintf("%s/%s/%s")` as `Join`;
  - `fmt.Sprint` and `strconv.Itoa` as `Decimal`;
  - `strconv.ParseInt` and `strconv.Atoi`, which read the digits left to
    right: a range error (the digits so far pass 2^bitSize − 1) gives the
    bound on the side of the sign and is raised before any later byte is
    read; a syntax error gives 0.
- `Models`: the records.
- `Store`: the blob store, a class holding a map from (container, path) to
  (bytes, tags, metadata, content type). Every save goes through
  `BlobStore.Upload`.
- `Utils`: `utils.go`.
- `PhotoApi`: `cmd/photo/main.go`.
- `Resize`: `cmd/resize/main.go`, including a model of the path that
  `net/url.Parse` extracts.

Other parts become explicit values in the model:

- **The image codecs** are a `Codec` value of three functions: decode, scale
  and encode, and `DecodeConfig`. `Faithful(codec)` states that an encoded
  image reads back at the size it was encoded at.
- **Storage read and save failures** are explicit fault sets: `Fault` in the
  resize worker, `ReadFaults` (the objects whose metadata or tag read fails)
  in the listings, `saveFaults` in uploads, and a `Result` for FilterBlobs.
- **Panics and `log.Fatalln`** are outcome values (`Crashed(...)`,
  `MetadataIndexOutOfRange`, `DecodeConfigFatal`). They are not
  preconditions, because the triggering input is external.
- **The environment** is a map.
- **The storage client's URL** and **the FilterBlobs answer** are parameters.

## Model

| member | source | states |
|---|---|---|
| Text.Split | api/internal/utils/utils.go:378 | strings.Split gives at least one piece, and no piece contains the separator |
| Text.JoinSplit | api/internal/utils/utils.go:378-384 | joining the pieces of a split with the separator gives back the original string |
| Text.SplitJoin | api/internal/utils/utils.go:384 | splitting a '/'-join of separator-free pieces gives back exactly those pieces |
| Text.DecimalRoundTrip | api/cmd/photo/main.go:223-225 | a number printed by fmt.Sprint / strconv.Itoa parses back to the same number |
| Text.ParseIntValue | api/cmd/photo/main.go:109-117 | strconv.ParseInt's value always lies in the bit size's signed range |
| Text.ScanUintLeading | api/cmd/photo/main.go:109 | ParseUint's left-to-right loop is a range error exactly when the leading digits pass 2^bitSize − 1; otherwise their value when they are the whole string, and a syntax error when a non-digit follows them |
| Text.ParseIntInGrammar | api/cmd/photo/main.go:109-117 | for an optional sign followed by digits, ParseInt gives the number clamped to the signed range |
| Text.ParseIntOutsideGrammar | api/cmd/photo/main.go:109-117 | any other string gives 0, unless the digits before its first non-digit already pass 2^bitSize − 1, when it gives the bound on the side of its sign |
| Text.ParseInt32LeadingOverflow | api/cmd/photo/main.go:109-117 | "4294967296x" gives MaxInt32 and "-4294967296x" MinInt32: the range error comes before the bad byte |
| Text.ParseInt32LateSyntaxError | api/cmd/photo/main.go:109-117 | "2147483648x" and "12x" give 0: the early range check is against 2^32 − 1, not the signed bound |
| Text.SplitConcat | api/cmd/photo/main.go:360 | splitting a + "/" + b gives the pieces of a followed by the pieces of b |
| Text.SplitJoinThree | api/cmd/photo/main.go:360 | fmt.Sprintf("%s/%s/%s", a, b, c) is a/b/c, and it splits into a's pieces, b, then c's pieces when b holds no '/' |
| Text.ParseInt32RoundTrip | api/cmd/photo/main.go:109-123 | any 32-bit value printed in decimal reads back through ParseInt(s, 10, 32) unchanged |
| Text.AtoiRoundTrip | api/cmd/resize/main.go:85-92 | any 64-bit value printed in decimal reads back through Atoi unchanged |
| Text.Before | api/cmd/resize/main.go:114 | the text before the first occurrence of a character: a prefix without that character; shorter than the string exactly when the character occurs, and then followed by it |
| Store.BlobStore.Upload | api/internal/utils/utils.go:339-374 | a save replaces the object at its (container, path) key; every other object is unchanged |
| Store.ApplyWritesElsewhere | api/cmd/photo/main.go:227-237 | after a series of saves, an object that no save addresses is unchanged, or still absent |
| Store.ApplyWritesLast | api/cmd/photo/main.go:227-237 | after a series of saves, an addressed object holds what the last save to it wrote |
| Utils.Wrap64 | api/internal/utils/utils.go:90-94 | a 64-bit int result lies in [MinInt64, MaxInt64] and is congruent to the exact value modulo 2^64 |
| Utils.TargetSize | api/internal/utils/utils.go:86-97 | the canvas size of ResizeImage: the portrait and landscape branches with 64-bit products and truncating division; its properties are stated by PortraitRule, LandscapeRule, ResizeIdempotent and PortraitProductWraps |
| Utils.RectDims | api/internal/utils/utils.go:89-97 | image.Rect keeps non-negative width and height as given |
| Utils.PortraitRule | api/internal/utils/utils.go:89-92 | when height > width and maxHeight·width fits in 64 bits: the new height is exactly maxHeight; the new width lies in [0, maxHeight]; newWidth·height ≤ maxHeight·width < (newWidth+1)·height, so the aspect ratio is kept up to truncation |
| Utils.LandscapeRule | api/internal/utils/utils.go:93-97 | when height ≤ width, width > 0 and maxWidth·height fits in 64 bits: the new width is exactly maxWidth; the new height lies in [0, maxWidth]; the symmetric truncation bound holds; maxHeight plays no part |
| Utils.ResizeIdempotent | api/internal/utils/utils.go:86-97 | resizing an already resized image with the same positive bounds keeps the orientation and gives the same size again, when no product of either run wraps |
| Utils.PortraitIdempotent | api/internal/utils/utils.go:89-92 | when the products fit in 64 bits, a portrait result is strictly narrower than maxHeight, so it stays portrait and maps to itself |
| Utils.LandscapeIdempotent | api/internal/utils/utils.go:93-97 | when the products fit in 64 bits, a landscape result has height ≤ width = maxWidth, so it stays landscape and maps to itself |
| Utils.PortraitTestCase | api/internal/utils/utils_test.go:37-44 | 100×200 with bounds (100, 50) gives 50×100 |
| Utils.PortraitProductWraps | api/internal/utils/utils.go:89-92 | under maxHeight = MaxInt64 a 2×3 image's product wraps to −2 and the new width is 0 |
| Utils.LandscapeIgnoresMaxHeight | api/internal/utils/utils.go:93-97 | a landscape result can exceed maxHeight (1600×1300 stays 1600×1300 under 1200); a small square is enlarged to maxWidth×maxWidth |
| Utils.FormatOf | api/internal/utils/utils.go:100-128 | exactly image/jpeg, image/png and image/gif select a format, each with its own content type; any other type selects none |
| Utils.ResizeImage | api/internal/utils/utils.go:77-129 | decode, the size rule, the division panic of a 0×0 image and the format switch; its outcomes are stated by ResizeImageOutcome |
| Utils.ResizeImageOutcome | api/internal/utils/utils.go:77-129 | a decode failure is returned as the error; a decoded 0×0 image is the division panic; a decodable image with an unsupported content type gives Success of empty bytes, so no error; otherwise, with a faithful codec, the result reads back at exactly the resize rule's canvas size |
| Utils.GetBlobNameAndPrefix | api/internal/utils/utils.go:377-387 | the last segment and the last three segments of a blob path; stated by BlobNameAndPrefixShape and BlobNameAndPrefixOfPath |
| Utils.BlobNameAndPrefixShape | api/internal/utils/utils.go:377-387 | the name is a single segment; the prefix splits into the path's last three segments, the third being the name; the prefix is a suffix of the path |
| Utils.BlobNameAndPrefixOfPath | api/internal/utils/utils.go:377-387 | for "collection/album/file", the name is the file and the prefix is the whole path |
| Utils.Contains | api/internal/utils/utils.go:389-396 | true exactly when the string is in the slice |
| Utils.TagMapOfAgrees | api/internal/utils/utils.go:198-200 | the map built from a tag set has exactly the set's keys, and each maps to the last value given for it; a missing key reads "" |
| Utils.DedupSpec | api/internal/utils/utils.go:266-268 | de-duplication keeps exactly the elements, without duplicates, in first-seen order |
| Utils.GroupAlbumsSpec | api/internal/utils/utils.go:244-271 | a collection is a key exactly when some listed blob has it, and its albums are the de-duplicated albums of its blobs, in listing order |
| Utils.GroupAlbumsNoDuplicates | api/internal/utils/utils.go:266-268 | each collection's album list has no duplicates and holds exactly the albums seen with it |
| Utils.GroupAlbumsStep | api/internal/utils/utils.go:251-269 | one more blob appends its album to its collection's list unless the album is already there |
| Utils.ListedItemsAt | api/internal/utils/utils.go:244-249 | a page error ends the listing: nothing after it is listed |
| Utils.ScanTags | api/internal/utils/utils.go:252-264 | the collection and album are the last Collection and Album tag values, or "" when the tag is absent |
| Utils.AddBlob | api/internal/utils/utils.go:266-268 | the map gains the blob's album under its collection exactly when the album is not yet listed there |
| Utils.GroupPage | api/internal/utils/utils.go:251-269 | grouping one page's blobs continues the grouping of everything listed before it |
| Utils.GetBlobTagList | api/internal/utils/utils.go:232-271 | the result is the grouping of every blob listed before the first page error |
| Utils.SplitOnePiece | api/internal/utils/utils.go:415 | a split has a single piece exactly when the separator does not occur |
| Utils.ExtractToken | api/internal/utils/utils.go:409-417 | an empty header is the "no access token" error; a header without a space is the index-out-of-range panic; otherwise the token, which holds no space |
| Utils.ExtractTokenOfHeader | api/internal/utils/utils.go:409-417 | "scheme token ..." yields token |
| Utils.GetEnvValue | api/internal/utils/utils.go:150-155 | a set variable's value, even an empty one; otherwise the fallback |
| Utils.EnvValueTestCases | api/internal/utils/utils_test.go:104-105 | a set TEST_ENV_VAR gives its value; an unset variable gives the default |
| PhotoApi.AlbumPhotosQuery | api/cmd/photo/main.go:99 | the album listing's filter query with collection and album interpolated unescaped; stated by AlbumPhotosQueryInjective and AlbumPhotosQueryInjection |
| PhotoApi.CollectionsQuery | api/cmd/photo/main.go:247 | the collection listing's query for images with CollectionImage='true' |
| PhotoApi.CollectionAlbumsQuery | api/cmd/photo/main.go:300 | the album-cover query of one collection; stated by CollectionAlbumsQueryInjective |
| PhotoApi.AlbumPhotosQueryInjective | api/cmd/photo/main.go:99 | the album query determines collection and album whenever the collection holds no quote |
| PhotoApi.AlbumPhotosQueryInjection | api/cmd/photo/main.go:99 | values are interpolated unescaped: two different (collection, album) requests give the same query |
| PhotoApi.CollectionAlbumsQueryInjective | api/cmd/photo/main.go:300 | the albums query determines the collection |
| PhotoApi.UploadTags | api/cmd/photo/main.go:188-205 | the tag set of one uploaded file; stated by UploadTagsShape and UploadNameRoundTrip |
| PhotoApi.UploadMetadata | api/cmd/photo/main.go:222-225 | the metadata of one uploaded file; stated by UploadMetadataReadsBack |
| PhotoApi.FileWrite | api/cmd/photo/main.go:188-237 | the save of file i: uploads/collection/album/filename with its tags, metadata and content type; FileUpload is proved equal to it |
| PhotoApi.UploadFrom | api/cmd/photo/main.go:180-238 | the upload loop from file i on: its saves and how it ends; stated by the Upload lemmas below |
| PhotoApi.UploadTagsShape | api/cmd/photo/main.go:188-205 | the tags are exactly Name = collection/album/filename, Description, Collection and Album, plus CollectionImage or AlbumImage exactly when the file is named as that cover; a cover flag is only ever "true" |
| PhotoApi.UploadNameRoundTrip | api/cmd/photo/main.go:188-194 | for '/'-free parts, the Name tag splits back into collection, album and file name, and GetBlobNameAndPrefix recovers the file name and the path |
| PhotoApi.FileUpload | api/cmd/photo/main.go:188-237 | the tags and metadata built entry by entry, and the save, are the file's write as FileWrite defines it |
| PhotoApi.UploadPhotos | api/cmd/photo/main.go:180-238 | the loop ends as UploadFrom says; the store afterwards is the old store with UploadFrom's writes applied in order, and nothing else changes |
| PhotoApi.UndefinedUploadsNothing | api/cmd/photo/main.go:180-186 | an "undefined" collection or album saves nothing, and with at least one file it is rejected |
| PhotoApi.UploadsStayInUploads | api/cmd/photo/main.go:227-237 | every save goes to the uploads container, under collection/album/filename of one of the form's files |
| PhotoApi.UploadCompletes | api/cmd/photo/main.go:180-238 | a request completes exactly when there are no files, or the names are defined, every file has a metadata entry and every file decodes |
| PhotoApi.UploadFileThenRest | api/cmd/photo/main.go:180-238 | without save failures, a completed request saves the current file first, then the rest |
| PhotoApi.UploadWriteCount | api/cmd/photo/main.go:180-238 | without save failures, a completed request makes one save per file |
| PhotoApi.UploadWritesEveryFile | api/cmd/photo/main.go:180-238 | without save failures, the j-th save of a completed request is file j, with its decoded dimensions, its metadata entry's description and content type |
| PhotoApi.UploadMetadataReadsBack | api/cmd/photo/main.go:222-225 | the Height, Width and Size stored by an upload parse back to the decoded dimensions and the declared size |
| PhotoApi.BlobOfTags | api/cmd/photo/main.go:363-366 | a Blob's Tags map has exactly the result's tag keys, each with the last value given for it |
| PhotoApi.BlobOf | api/cmd/photo/main.go:358-380 | the Blob record made of one filter result; stated by BlobOfTags, BlobOfPath and ReadFaultDefaults |
| PhotoApi.BlobOfPath | api/cmd/photo/main.go:360-376 | for any storage URL and name, a Blob's Path is storageUrl + "/images/" + name, whatever container the result came from, and it splits into the URL's segments, "images", then the name's segments |
| PhotoApi.SplitStorageUrl | api/cmd/photo/main.go:49 | the storage URL "https://<account>" splits into "https:", "" and the account |
| PhotoApi.BlobOfAccountPath | api/cmd/photo/main.go:360-376 | for the service's URL and an image named collection/album/file, the path splits into "https:", "", the account, "images", collection, album and file |
| PhotoApi.QueryBlobsByTags | api/cmd/photo/main.go:343-384 | a filter error gives no list; otherwise one Blob per result, in order, each with path, tag map and metadata read from the store; a failed metadata read, of an existing object or a missing one, keeps the blob with empty metadata |
| PhotoApi.ReadFaultDefaults | api/cmd/photo/main.go:368-371 | a failed metadata read of any object gives its Blob no metadata and its Photo 0 width and height; a failed tag read in a cover listing gives its Photo an empty album and collection |
| PhotoApi.PhotoOf | api/cmd/photo/main.go:109-126 | the Photo of one Blob: ParseInt(…, 10, 32) of Width and Height, album and collection from the given tags, no Description; stated by PhotoDimensionDefaults and UploadedPhoto |
| PhotoApi.PhotosFromBlobTags | api/cmd/photo/main.go:105-129 | one Photo per Blob, in order, with album and collection from the Blob's own tags |
| PhotoApi.PhotosFromStoredTags | api/cmd/photo/main.go:253-282 | one Photo per Blob, in order, with album and collection from the tags stored on the image of that name |
| PhotoApi.AlbumPhotosHandler | api/cmd/photo/main.go:84-135 | the album listing: a failed query gives an empty list, otherwise one Photo per filter result, in order |
| PhotoApi.CollectionsHandler | api/cmd/photo/main.go:242-288 | the collection listing: a failed query gives an empty list, otherwise one Photo per cover image, in order |
| PhotoApi.CollectionAlbumsHandler | api/cmd/photo/main.go:290-341 | a collection's album listing: a failed query gives an empty list, otherwise one Photo per album cover, in order |
| PhotoApi.PhotoDimensionDefaults | api/cmd/photo/main.go:109-123 | a missing Width or Height hydrates to 0; one outside ParseInt's grammar hydrates to 0 unless its leading digits pass 2^32 − 1, and then to the bound on the side of its sign |
| PhotoApi.UploadedPhoto | api/cmd/photo/main.go:119-126 | an uploaded object hydrates to the dimensions DecodeConfig read and to its collection and album |
| Resize.UrlPath | api/cmd/resize/main.go:114 | the path net/url.Parse extracts, None on a parse error; stated by UrlPathOfScheme, AuthorityPath and HttpsUrlPath |
| Resize.LocateBlob | api/cmd/resize/main.go:119-123 | a location exists exactly when the path has at least four segments; blobPath is the last three joined by '/', the container is the fourth from last, then collection and album |
| Resize.LocationSegments | api/cmd/resize/main.go:119-123 | the container holds no '/', and the blob path splits back into collection, album and the last segment |
| Resize.UrlPathOfScheme | api/cmd/resize/main.go:114 | a URL with a scheme and no query, fragment or control character has the path of what follows the scheme |
| Resize.AuthorityPath | api/cmd/resize/main.go:114 | after the scheme, "//host/path" has the path "/path" |
| Resize.HttpsUrlPath | api/cmd/resize/main.go:114 | "https://host/path" has the path "/path" |
| Resize.LocateFourSegments | api/cmd/resize/main.go:119-123 | "/container/collection/album/file" locates exactly that blob |
| Resize.EventUrlLocates | api/cmd/resize/main.go:114-123 | a blob URL "https://host/container/collection/album/file" locates exactly that blob |
| Resize.ResizeBounds | api/cmd/resize/main.go:85-92 | MAX_IMAGE_HEIGHT and MAX_IMAGE_WIDTH through Atoi, with conversion errors only logged; stated by ConfigurationDefaults |
| Resize.ConfigurationDefaults | api/cmd/resize/main.go:85-92 | unset bounds default to height 1200 and width 1600; a bound outside Atoi's grammar becomes 0 unless its leading digits pass 2^64 − 1, and then MaxInt64 or MinInt64; the images container defaults to "images" |
| Resize.LocateEvent | api/cmd/resize/main.go:114-123 | the blob an event URL points to, or the crash on the way: a nil URL or too few path segments; stated by EventUrlLocates |
| Resize.ResizeAt | api/cmd/resize/main.go:127-190 | a run from the located blob on: the reads, the resize, DecodeConfig and the save; stated by the ResizeAt lemmas below |
| Resize.ResizeStep | api/cmd/resize/main.go:83-191 | a whole run: LocateEvent then ResizeAt; stated by ResizeSavesIffDone, ResizeChangesOneObject, DoneWrite and ResizeRedelivery |
| Resize.ResizedWrite | api/cmd/resize/main.go:169-184 | the object a run saves; stated by ResizedWriteTags, ResizedWriteMetadata and ResizedObject |
| Resize.ResizeHandler | api/cmd/resize/main.go:83-191 | the run ends as ResizeStep says; the store afterwards is the old store plus ResizeStep's single write, if any |
| Resize.ResizeLocated | api/cmd/resize/main.go:125-190 | from the located blob on, the run ends as ResizeAt says, and the store changes by its write only |
| Resize.ResizeAtSavesIffDone | api/cmd/resize/main.go:127-188 | once located, a run saves exactly when it ends with Done, and saves under the blob path in the images container; a failing save saves nothing |
| Resize.ResizeSavesIffDone | api/cmd/resize/main.go:83-191 | a run saves exactly when it ends with Done; the one object saved is images/blobPath; a failing save saves nothing |
| Resize.ResizeChangesOneObject | api/cmd/resize/main.go:184 | nothing else changes: no object disappears, only the saved key is added or changed, and a run that does not end with Done leaves the store as it was |
| Resize.ResizeAtDone | api/cmd/resize/main.go:127-188 | a located run ending with Done read the source, resized it, decoded the result's size and saved ResizedWrite of those |
| Resize.DoneWrite | api/cmd/resize/main.go:114-188 | a run ending with Done located the blob, and the conclusions of ResizeAtDone hold |
| Resize.ResizedWriteTags | api/cmd/resize/main.go:179-184 | the object goes to images/blobPath with the resized bytes; the only tag change is Url = clientUrl/images/blobPath, and every other tag is carried over |
| Resize.ResizedWriteMetadata | api/cmd/resize/main.go:169-173 | the metadata gains Size (the resized byte length), Height and Width, and every other entry is unchanged |
| Resize.ResizedObject | api/cmd/resize/main.go:159-184 | a successful run saves the source at the located path, reshaped as above, and the Height and Width it records are what DecodeConfig reads from the saved bytes |
| Resize.ResizedDimensions | api/cmd/resize/main.go:153-162 | with a faithful codec and a supported content type, the saved image has exactly the resize rule's size for the source and the configured bounds, in (maxHeight, maxWidth) order |
| Resize.UnsupportedFormatNeverSaves | api/cmd/resize/main.go:153-162 | an unsupported content type never saves: ResizeImage gives empty bytes, and DecodeConfig on them ends the process |
| Resize.ResizeAtReadsSource | api/cmd/resize/main.go:127-146 | a located run reads nothing but the source object |
| Resize.ResizeRedelivery | api/cmd/resize/main.go:127-190 | redelivering a successful event saves the same object again and leaves the store as the first run left it, when the source is outside the images container |

## Left out

- Azure credential and client construction, the SDK calls, pagers and HTTP plumbing (`api/internal/utils/utils.go:32-75,157-374`, the request parsing of `api/cmd/photo/main.go`). The store is an in-memory map. Storage failures are parameters: `Fault` in the resize worker, `ReadFaults` in the listings, `saveFaults` in uploads, and `Result` for FilterBlobs.
- Pixel scaling, JPEG/PNG/GIF decoding and encoding, and `image.DecodeConfig`. These are the foreign `Codec`.
- Utils.ResizeImage: the nil-image panic is not modelled. It happens when `image.Decode` succeeds but the format-specific decoder in the switch fails, leaving `src` nil before `Scale`. The model folds that case into the encoder's outcome.
- `ConvertToEvent`'s base64 and JSON decoding. The event is an already-decoded `Event` record. Its decode error, which is only logged and leaves a zero event, is not modelled.
- `VerifyToken` (JWT/JWKS verification with a background refresh), `RoundFloat` (floating point), `DumpEnv`, logging, CORS, routing and the `main` functions.
- `api/cmd/face/` and `api/internal/exif/exif.go`: wrappers over recognition and EXIF libraries, plus local file I/O.
- `StripInvalidTagCharacters`: the tests at `api/internal/utils/utils_test.go:118-139` exercise it, but no implementation exists. `GetBlobDirectories` is not part of this model.
- The resize tests at `api/internal/utils/utils_test.go:47-90` expect sizes the code does not produce; the model follows the code, and only the portrait case at lines 37-44 agrees with it. `api/cmd/photo/main_test.go` expects a handler signature that does not exist.
- Clearing a previous cover image, soft delete and PUT/update: the source has only TODO comments for these.
- The upload form:
  - JSON decoding of the `metadata` field. Its error is only logged and leaves an empty list, which then shows up as `MetadataIndexOutOfRange` at the first file.
  - Panics on missing form fields.
  - File open and copy errors, which are only logged.
- Utils.GetBlobNameAndPrefix: it requires at least three segments, where the source would panic on index out of range. Its one caller (`api/cmd/resize/main.go:175`) passes a path of three segments.
- Resize.ResizeLocated: it requires a blob path of at least three segments, for the same reason. `LocateBlob` always produces one.
- Resize.UrlPath models the path that `net/url.Parse` extracts, with these omissions:
  - percent-decoding of the path (an escaped path reads as written);
  - errors from invalid escapes;
  - errors from the host/authority part (ports, IPv6 brackets, userinfo).
- Utils.PortraitRule: it states the rule only where maxHeight·width fits in 64 bits. TargetSize itself wraps, and PortraitProductWraps shows a case where the rule's bound fails.
- Utils.LandscapeRule: it states the rule only where maxWidth·height fits in 64 bits, for the same reason.
- Utils.ResizeIdempotent: it also asks that the squares of the bounds fit in 64 bits, which bound the products of the second run.
- Utils.PortraitIdempotent: the same 64-bit conditions as ResizeIdempotent, for the portrait branch.
- Utils.LandscapeIdempotent: the same 64-bit conditions as ResizeIdempotent, for the landscape branch.
- Text.Atoi: it is ParseInt(s, 10, 64) for every input. Go's fast path for strings shorter than 19 bytes gives the same results.
- PhotoApi.FileUpload: `int(f.Size)` is taken as an unbounded integer, with no 64-bit wrap-around. Sizes beyond 2^63 cannot occur in a multipart upload.
- Models.Photo has no DateTaken: no code path sets it.
- Where the behaviour is unexpected, the model follows the code:
  - An unsupported content type gives empty bytes and a nil error from `ResizeImage`; the resize worker then hits `log.Fatalln` in `DecodeConfig` (`Crashed(DecodeConfigFatal)`).
  - The landscape branch never checks the height against `maxHeight`, and enlarges small images.
  - A cover flag is never written as `"false"`.
  - `Photo.Description` is never set by any listing endpoint.
  - The photo service passes its credential where the helpers it calls take a client: `GetBlobTagList` (`api/cmd/photo/main.go:73`), `SaveBlobStreamWithTagsMetadataAndContentType` (227-228), `GetBlobTags` (267, 320) and `GetBlobMetadata` (368). The model gives these calls the store's objects.
