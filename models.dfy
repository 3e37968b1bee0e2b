/**
  The records the photo service passes around (api/internal/models/models.go),
  and the shapes shared by the other modules: a blob tag, image dimensions and
  the image formats the resizer re-encodes.
*/
module Models {
  import opened Text

  type Bytes = seq<bv8>

  /** A tag or metadata set: a string-keyed string map. A missing key reads as
      "" (a Go map lookup on a missing key, or on a nil map). */
  type StringMap = map<string, string>

  function Lookup(m: StringMap, key: string): string
  {
    if key in m then m[key] else ""
  }

  /** A 32-bit signed integer, as Photo's Width and Height. */
  type Int32 = x: int | MinInt32 <= x <= MaxInt32

  /** One entry of a blob's tag set as the store lists it (BlobTagSet). */
  datatype Tag = Tag(key: string, value: string)

  /** Per-file intent sent with an upload (models.MetaData); `contentType` is
      the JSON field "type". */
  datatype MetaData = MetaData(
    description: string,
    name: string,
    collection: string,
    album: string,
    contentType: string)

  /** A query result: blob name, its public path, its tags and its metadata
      (models.Blob). */
  datatype Blob = Blob(name: string, path: string, tags: StringMap, metadata: StringMap)

  /** A photo as the listing endpoints return it (models.Photo). DateTaken is
      never set by the handlers modelled here and is left out. */
  datatype Photo = Photo(
    src: string,
    name: string,
    width: Int32,
    height: Int32,
    album: string,
    collection: string,
    description: string)

  /** The `Data` part of a storage event (models.Event). */
  datatype EventData = EventData(
    api: string,
    clientRequestId: string,
    requestId: string,
    eTag: string,
    contentType: string,
    contentLength: Int32,
    blobType: string,
    url: string,
    sequencer: string,
    batchId: string)

  /** A storage "blob created" event, already decoded from its base64 JSON
      payload (models.Event). */
  datatype Event = Event(
    topic: string,
    subject: string,
    eventType: string,
    id: string,
    dataVersion: string,
    metadataVersion: string,
    eventTime: string,
    data: EventData)

  /** Width and height of an image, as image.Bounds().Dx() and Dy(). */
  datatype Dims = Dims(width: nat, height: nat)

  /** The formats ResizeImage re-encodes. */
  datatype ImageFormat = Jpeg | Png | Gif
}
