/**
  The blob store the service talks to, reduced to what the service observes:
  objects addressed by container and path, each holding its bytes, its tag
  set (queryable), its metadata (not queryable) and, when the writer set one,
  a content type. An upload replaces the whole object.
*/
module Store {
  import opened Wrappers
  import opened Models

  datatype BlobKey = BlobKey(container: string, path: string)

  datatype StoredBlob = StoredBlob(
    content: Bytes,
    tags: StringMap,
    metadata: StringMap,
    contentType: Option<string>)

  /** One upload: the object stored under `key` becomes `blob`. */
  datatype Write = Write(key: BlobKey, blob: StoredBlob)

  /** The objects after a sequence of uploads performed in order. */
  function ApplyWrites(objects: map<BlobKey, StoredBlob>, writes: seq<Write>): map<BlobKey, StoredBlob>
  {
    if |writes| == 0 then objects
    else
      var last := writes[|writes| - 1];
      ApplyWrites(objects, writes[..|writes| - 1])[last.key := last.blob]
  }

  /** An object no upload addresses is exactly as it was: present with the
      same contents, or still absent. */
  lemma {:induction false} ApplyWritesElsewhere(objects: map<BlobKey, StoredBlob>, writes: seq<Write>, key: BlobKey)
    requires forall i :: 0 <= i < |writes| ==> writes[i].key != key
    ensures key in ApplyWrites(objects, writes) <==> key in objects
    ensures key in objects ==> ApplyWrites(objects, writes)[key] == objects[key]
  {
    if |writes| > 0 {
      ApplyWritesElsewhere(objects, writes[..|writes| - 1], key);
    }
  }

  /** After a sequence of uploads, an addressed object holds what the last
      upload to it wrote. */
  lemma {:induction false} ApplyWritesLast(objects: map<BlobKey, StoredBlob>, writes: seq<Write>, i: nat)
    requires i < |writes|
    requires forall j :: i < j < |writes| ==> writes[j].key != writes[i].key
    ensures writes[i].key in ApplyWrites(objects, writes)
    ensures ApplyWrites(objects, writes)[writes[i].key] == writes[i].blob
  {
    if i < |writes| - 1 {
      ApplyWritesLast(objects, writes[..|writes| - 1], i);
    }
  }

  class BlobStore {
    var objects: map<BlobKey, StoredBlob>

    constructor (initial: map<BlobKey, StoredBlob>)
      ensures objects == initial
    {
      objects := initial;
    }

    /** UploadStream with tags, metadata and (optionally) a content type. */
    method Upload(w: Write)
      modifies this
      ensures objects == old(objects)[w.key := w.blob]
    {
      objects := objects[w.key := w.blob];
    }
  }
}
