/**
 * `POST /upload`: store an uploaded file under a fresh id in `data/uploads`, read its text
 * (OCR for images), embed its description, text and tags together, and index it in the
 * collection under the same id; any failure becomes an HTTP 500.
 */
module MediaRoute {
  import opened Wrappers
  import opened Text
  import opened Base64
  import opened Stores
  import opened FileSystem
  import opened ApiSchemas
  import opened SearchRoute

  const UploadDir: Path := "data/uploads"
  const UploadMessage: string := "Media uploaded and indexed successfully"
  const UploadErrorPrefix: string := "Error processing upload: "

  // ---------------------------------------------------------------------------
  // os.path.splitext and str.lower
  // ---------------------------------------------------------------------------

  /** `p.rfind(c)`: the last index holding `c`, or -1. */
  function RFind(p: string, c: char): (r: int)
    ensures -1 <= r < |p|
    ensures 0 <= r ==> p[r] == c
    ensures forall k :: r < k < |p| ==> p[k] != c
    decreases |p|
  {
    if p == [] then -1 else if p[|p| - 1] == c then |p| - 1 else RFind(p[..|p| - 1], c)
  }

  /** POSIX `os.path.splitext(p)`: the extension starts at the last '.' of the last path
      component, unless that component has only dots before it. */
  function SplitExt(p: string): (string, string)
  {
    var sepIndex := RFind(p, '/');
    var dotIndex := RFind(p, '.');
    if sepIndex < dotIndex && exists k :: sepIndex + 1 <= k < dotIndex && p[k] != '.' then (p[..dotIndex], p[dotIndex..])
    else (p, "")
  }

  /** The two parts make up the path again; a non-empty extension is one '.' followed by no
      further '.' or '/', and is preceded by something other than dots in its component. */
  lemma {:induction false} SplitExtParts(p: string)
    ensures SplitExt(p).0 + SplitExt(p).1 == p
    ensures var ext := SplitExt(p).1;
            ext == [] || (ext[0] == '.' && '.' !in ext[1..] && '/' !in ext)
    ensures var ext := SplitExt(p).1;
            ext != [] ==> exists k :: RFind(p, '/') + 1 <= k < |p| - |ext| && p[k] != '.'
  {
    var sepIndex := RFind(p, '/');
    var dotIndex := RFind(p, '.');
    var ext := SplitExt(p).1;
    if ext != [] {
      assert ext == p[dotIndex..];
      forall j | 0 <= j < |ext| ensures ext[j] != '/' && (0 < j ==> ext[j] != '.') {
        assert ext[j] == p[dotIndex + j];
      }
    }
  }

  function LowerChar(c: char): char
  {
    if 'A' <= c <= 'Z' then (c as int + 32) as char else c
  }

  /** `s.lower()` on ASCII letters; every other character is kept. */
  function Lower(s: string): (r: string)
    ensures |r| == |s|
  {
    seq(|s|, i requires 0 <= i < |s| => LowerChar(s[i]))
  }

  /** Lower-casing leaves no ASCII capital, keeps every other character, and is idempotent. */
  lemma {:induction false} LowerShape(s: string)
    ensures forall i :: 0 <= i < |s| ==> !('A' <= Lower(s)[i] <= 'Z')
    ensures forall i :: 0 <= i < |s| && !('A' <= s[i] <= 'Z') ==> Lower(s)[i] == s[i]
    ensures Lower(Lower(s)) == Lower(s)
  {
  }

  /** `os.path.splitext(filename)[1].lower()`. */
  function Extension(filename: string): string
  {
    Lower(SplitExt(filename).1)
  }

  lemma {:induction false} ExtensionShape(filename: string)
    ensures var e := Extension(filename);
            e == [] || (e[0] == '.' && '.' !in e[1..] && '/' !in e)
  {
    SplitExtParts(filename);
    var ext := SplitExt(filename).1;
    var e := Extension(filename);
    forall j | 0 <= j < |e| ensures e[j] == LowerChar(ext[j]) {
    }
  }

  // ---------------------------------------------------------------------------
  // The file path, the text to embed, the stored record
  // ---------------------------------------------------------------------------

  /** `f"data/uploads/{media_id}{file_extension}"`. */
  function UploadPath(mediaId: Id, ext: string): string
  {
    UploadDir + "/" + mediaId + ext
  }

  /** The path is where `open` puts the file, and both the id and the extension can be read
      back from it. */
  lemma {:induction false} UploadPathParts(mediaId: Id, ext: string)
    requires mediaId != [] && mediaId[0] != '/'
    ensures UploadPath(mediaId, ext) == PathJoin(UploadDir, mediaId + ext)
    ensures var p := UploadPath(mediaId, ext);
            && p[..|UploadDir| + 1] == UploadDir + "/"
            && p[|UploadDir| + 1..|UploadDir| + 1 + |mediaId|] == mediaId
            && p[|UploadDir| + 1 + |mediaId|..] == ext
  {
    assert (mediaId + ext)[0] == mediaId[0];
  }

  /** The part of `s` before its first '.'. */
  function UpToDot(s: string): string
    decreases |s|
  {
    if s == [] || s[0] == '.' then [] else [s[0]] + UpToDot(s[1..])
  }

  lemma {:induction false} UpToDotOf(id: string, ext: string)
    requires '.' !in id
    requires ext == [] || ext[0] == '.'
    ensures UpToDot(id + ext) == id
    decreases |id|
  {
    if id != [] {
      assert (id + ext)[0] == id[0] && (id + ext)[1..] == id[1..] + ext;
      UpToDotOf(id[1..], ext);
    }
  }

  /** Ids without a '.' (as uuid4 strings are) never share a path, whatever the file names:
      one upload cannot overwrite another's file. */
  lemma {:induction false} UploadPathInjective(id1: Id, f1: string, id2: Id, f2: string)
    requires '.' !in id1 && '.' !in id2
    requires UploadPath(id1, Extension(f1)) == UploadPath(id2, Extension(f2))
    ensures id1 == id2
  {
    var e1, e2 := Extension(f1), Extension(f2);
    ExtensionShape(f1);
    ExtensionShape(f2);
    assert id1 + e1 == UploadPath(id1, e1)[|UploadDir| + 1..];
    assert id2 + e2 == UploadPath(id2, e2)[|UploadDir| + 1..];
    UpToDotOf(id1, e1);
    UpToDotOf(id2, e2);
  }

  /** The metadata form as parsed from JSON: the keys the route reads, each possibly absent. */
  datatype UploadMetadata = UploadMetadata(description: Option<string>, tags: Option<seq<string>>)

  /** What `json.loads(metadata)` gives: an object, or another JSON value (a list, a string, a
      number, a boolean or `null`), known here by its Python type name. */
  datatype JsonMetadata = JsonObject(fields: UploadMetadata) | JsonOther(typeName: string)

  /** `metadata_dict.get(...)`: only a dict has `get`. */
  function MetadataFields(m: JsonMetadata): (r: Result<UploadMetadata, Exception>)
    ensures r.Success? <==> m.JsonObject?
    ensures m.JsonObject? ==> r.value == m.fields
    ensures m.JsonOther? ==> r.error == AttributeError("'" + m.typeName + "' object has no attribute 'get'")
  {
    match m
    case JsonObject(fields) => Success(fields)
    case JsonOther(t) => Failure(AttributeError("'" + t + "' object has no attribute 'get'"))
  }

  /** `f"{description} {extracted_text} {' '.join(tags)}"` with the defaults `""` and `[]`. */
  function CombinedText(meta: UploadMetadata, extracted: string): string
  {
    meta.description.GetOr("") + " " + extracted + " " + Join(meta.tags.GetOr([]), " ")
  }

  lemma {:induction false} SplitWords(d: string, x: string, tags: seq<string>)
    requires ' ' !in d && ' ' !in x
    requires forall i :: 0 <= i < |tags| ==> ' ' !in tags[i]
    ensures Split(d + " " + x + " " + Join(tags, " "), ' ') == [d, x] + (if tags == [] then [""] else tags)
  {
    var j := Join(tags, [' ']);
    var right := x + [' '] + j;
    var tail := if tags == [] then [""] else tags;
    assert Split(j, ' ') == tail by {
      if tags != [] { SplitJoin(tags, ' '); }
    }
    assert Split(right, ' ') == [x] + tail by {
      SplitAppend(x, j, ' ');
      SplitNoSeparator(x, ' ');
    }
    assert Split(d + [' '] + right, ' ') == [d] + Split(right, ' ') by {
      SplitAppend(d, right, ' ');
      SplitNoSeparator(d, ' ');
    }
    assert d + " " + x + " " + j == d + [' '] + right;
  }

  /** When no part holds a blank, splitting the combined text at blanks gives back the
      description, the extracted text and then the tags (a lone empty piece when there are none). */
  lemma {:induction false} CombinedTextSplits(meta: UploadMetadata, extracted: string)
    requires ' ' !in meta.description.GetOr("") && ' ' !in extracted
    requires forall i :: 0 <= i < |meta.tags.GetOr([])| ==> ' ' !in meta.tags.GetOr([])[i]
    ensures Split(CombinedText(meta, extracted), ' ')
            == [meta.description.GetOr(""), extracted] + (if meta.tags.GetOr([]) == [] then [""] else meta.tags.GetOr([]))
  {
    SplitWords(meta.description.GetOr(""), extracted, meta.tags.GetOr([]));
  }

  /** `process_media_file`: OCR for the image extensions, nothing for anything else. */
  function ProcessMediaFile(content: seq<Byte>, ext: string, ocr: seq<Byte> -> Result<string, Exception>)
    : Result<string, Exception>
  {
    if ext in [".jpg", ".jpeg", ".png"] then ocr(content) else Success("")
  }

  /** What the upload form sends: the name, the declared content type and the bytes. */
  datatype UploadFile = UploadFile(filename: string, contentType: Option<string>, content: seq<Byte>)

  /** The metadata stored with an indexed file. */
  datatype MediaRecord = MediaRecord(filename: string, path: string, fileType: Option<string>,
                                     description: string, tags: seq<string>, extractedText: string)

  function Record(file: UploadFile, path: string, meta: UploadMetadata, extracted: string): MediaRecord
  {
    MediaRecord(file.filename, path, file.contentType, meta.description.GetOr(""), meta.tags.GetOr([]), extracted)
  }

  /** The record as the metadata dict handed to Chroma. */
  function RecordMetadata(r: MediaRecord): Metadata
  {
    map["filename" := MStr(r.filename), "path" := MStr(r.path),
        "file_type" := (if r.fileType.Some? then MStr(r.fileType.value) else MNone),
        "description" := MStr(r.description), "tags" := MStrs(r.tags), "extracted_text" := MStr(r.extractedText)]
  }

  /** Reading a record back out of a metadata dict, as a client of the search route would. */
  function RecordOf(m: Metadata): Option<MediaRecord>
  {
    if "filename" in m && m["filename"].MStr? && "path" in m && m["path"].MStr?
       && "file_type" in m && !m["file_type"].MStrs?
       && "description" in m && m["description"].MStr? && "tags" in m && m["tags"].MStrs?
       && "extracted_text" in m && m["extracted_text"].MStr?
    then Some(MediaRecord(m["filename"].s, m["path"].s,
                          if m["file_type"].MStr? then Some(m["file_type"].s) else None,
                          m["description"].s, m["tags"].items, m["extracted_text"].s))
    else None
  }

  /** The dict holds exactly the six fields, and the record can be read back from it. */
  lemma {:induction false} RecordMetadataRoundTrip(r: MediaRecord)
    ensures RecordMetadata(r).Keys == {"filename", "path", "file_type", "description", "tags", "extracted_text"}
    ensures RecordOf(RecordMetadata(r)) == Some(r)
  {
  }

  // ---------------------------------------------------------------------------
  // The route
  // ---------------------------------------------------------------------------

  datatype IndexedMedia = IndexedMedia(id: string, embedding: Embedding, metadata: Metadata)

  /** A Chroma collection, as the list of entries added to it. `accept(entries, item)` is how
      adding `item` to a collection holding `entries` goes: Chroma may raise, for instance on a
      metadata value it does not store. */
  class MediaCollection {
    const accept: (seq<IndexedMedia>, IndexedMedia) -> Result<(), Exception>
    var entries: seq<IndexedMedia>

    constructor(entries: seq<IndexedMedia>, accept: (seq<IndexedMedia>, IndexedMedia) -> Result<(), Exception>)
      ensures this.entries == entries && this.accept == accept
    {
      this.entries := entries;
      this.accept := accept;
    }

    /** `collection.add(ids=[id], embeddings=[embedding], metadatas=[metadata])`: on success the
        entry follows the earlier ones, and a raise leaves the collection as it was. */
    method Add(id: string, embedding: Embedding, metadata: Metadata) returns (r: Result<(), Exception>)
      modifies this
      ensures r == accept(old(entries), IndexedMedia(id, embedding, metadata))
      ensures r.Success? ==> entries == old(entries) + [IndexedMedia(id, embedding, metadata)]
      ensures r.Failure? ==> entries == old(entries)
    {
      r := accept(entries, IndexedMedia(id, embedding, metadata));
      if r.Success? {
        entries := entries + [IndexedMedia(id, embedding, metadata)];
      }
    }
  }

  /** The response, the disk and the collection after an upload. */
  datatype UploadOutcome = UploadOutcome(response: Result<UploadResponse, HttpError>, fs: FsState, index: seq<IndexedMedia>)

  function Failed(e: Exception, fs: FsState, index: seq<IndexedMedia>): UploadOutcome
  {
    UploadOutcome(Failure(HttpError(InternalServerError, UploadErrorPrefix + Describe(e))), fs, index)
  }

  /** `upload_media` on values: `collectionReady` is how `get_collection` went, `metadata` how
      `json.loads` went, `mediaId` the fresh id, `ocr` and `embed` the services and `accept` how
      the collection takes the new entry. */
  function Upload(collectionReady: Result<(), Exception>, metadata: Result<JsonMetadata, Exception>, mediaId: Id,
                  fs: FsState, index: seq<IndexedMedia>, file: UploadFile,
                  ocr: seq<Byte> -> Result<string, Exception>, embed: string -> Result<Embedding, Exception>,
                  accept: (seq<IndexedMedia>, IndexedMedia) -> Result<(), Exception>): UploadOutcome
  {
    if collectionReady.Failure? then Failed(collectionReady.error, fs, index)
    else if metadata.Failure? then Failed(metadata.error, fs, index)
    else
      var ext := Extension(file.filename);
      var path := UploadPath(mediaId, ext);
      var w := fs.Write(UploadDir, mediaId + ext, Bytes(file.content));
      if w.outcome.Failure? then Failed(w.outcome.error, w.fs, index)
      else
        var extracted := ProcessMediaFile(file.content, ext, ocr);
        if extracted.Failure? then Failed(extracted.error, w.fs, index)
        else
          var fields := MetadataFields(metadata.value);
          if fields.Failure? then Failed(fields.error, w.fs, index)
          else
            var e := embed(CombinedText(fields.value, extracted.value));
            if e.Failure? then Failed(e.error, w.fs, index)
            else
              var item := IndexedMedia(mediaId, e.value, RecordMetadata(Record(file, path, fields.value, extracted.value)));
              var added := accept(index, item);
              if added.Failure? then Failed(added.error, w.fs, index)
              else UploadOutcome(Success(UploadResponse(UploadMessage, mediaId, path)), w.fs, index + [item])
  }

  /** `upload_media(file, metadata, collection_name)`, step by step. */
  method UploadMedia(disk: Disk, collection: MediaCollection, collectionReady: Result<(), Exception>, supply: IdSupply,
                     file: UploadFile, metadata: Result<JsonMetadata, Exception>,
                     ocr: seq<Byte> -> Result<string, Exception>, embed: string -> Result<Embedding, Exception>)
    returns (r: Result<UploadResponse, HttpError>, ghost mediaId: Id)
    modifies disk, collection, supply
    ensures collectionReady.Success? && metadata.Success? ==>
              mediaId !in old(supply.Issued()) && supply.Issued() == old(supply.Issued()) + {mediaId}
    ensures !(collectionReady.Success? && metadata.Success?) ==> supply.Issued() == old(supply.Issued())
    ensures UploadOutcome(r, disk.state, collection.entries)
            == Upload(collectionReady, metadata, mediaId, old(disk.state), old(collection.entries), file, ocr, embed,
                      collection.accept)
  {
    mediaId := "";
    if collectionReady.Failure? {
      return Failure(HttpError(InternalServerError, UploadErrorPrefix + Describe(collectionReady.error))), mediaId;
    }
    if metadata.Failure? {
      return Failure(HttpError(InternalServerError, UploadErrorPrefix + Describe(metadata.error))), mediaId;
    }
    var id := supply.Fresh();
    mediaId := id;
    var fileExtension := Extension(file.filename);
    var filePath := UploadPath(id, fileExtension);
    var written := disk.Write(UploadDir, id + fileExtension, Bytes(file.content));
    if written.Failure? {
      return Failure(HttpError(InternalServerError, UploadErrorPrefix + Describe(written.error))), mediaId;
    }
    var extracted := ProcessMediaFile(file.content, fileExtension, ocr);
    if extracted.Failure? {
      return Failure(HttpError(InternalServerError, UploadErrorPrefix + Describe(extracted.error))), mediaId;
    }
    var fields := MetadataFields(metadata.value);
    if fields.Failure? {
      return Failure(HttpError(InternalServerError, UploadErrorPrefix + Describe(fields.error))), mediaId;
    }
    var embedding := embed(CombinedText(fields.value, extracted.value));
    if embedding.Failure? {
      return Failure(HttpError(InternalServerError, UploadErrorPrefix + Describe(embedding.error))), mediaId;
    }
    var added := collection.Add(id, embedding.value, RecordMetadata(Record(file, filePath, fields.value, extracted.value)));
    if added.Failure? {
      return Failure(HttpError(InternalServerError, UploadErrorPrefix + Describe(added.error))), mediaId;
    }
    return Success(UploadResponse(UploadMessage, id, filePath)), mediaId;
  }

  /** A successful upload adds exactly one entry to the collection, and one id runs through
      it: the entry's id, the stem of the stored file and the id in the response; the file at
      the returned path holds the uploaded bytes. */
  lemma {:induction false} UploadUsesOneId(collectionReady: Result<(), Exception>, metadata: Result<JsonMetadata, Exception>, mediaId: Id,
                        fs: FsState, index: seq<IndexedMedia>, file: UploadFile,
                        ocr: seq<Byte> -> Result<string, Exception>, embed: string -> Result<Embedding, Exception>,
                        accept: (seq<IndexedMedia>, IndexedMedia) -> Result<(), Exception>)
    requires mediaId != [] && mediaId[0] != '/'
    ensures var u := Upload(collectionReady, metadata, mediaId, fs, index, file, ocr, embed, accept);
            u.response.Success? ==>
              && |u.index| == |index| + 1 && u.index[..|index|] == index
              && var entry := u.index[|index|];
                 && entry.id == mediaId && u.response.value.mediaId == mediaId
                 && u.response.value.filePath == UploadPath(mediaId, Extension(file.filename))
                 && RecordOf(entry.metadata).Some?
                 && RecordOf(entry.metadata).value.path == u.response.value.filePath
                 && RecordOf(entry.metadata).value.filename == file.filename
                 && u.response.value.filePath in u.fs.files
                 && u.fs.files[u.response.value.filePath] == Bytes(file.content)
  {
    var u := Upload(collectionReady, metadata, mediaId, fs, index, file, ocr, embed, accept);
    if u.response.Success? {
      var ext := Extension(file.filename);
      UploadPathParts(mediaId, ext);
      var rec := Record(file, UploadPath(mediaId, ext), metadata.value.fields,
                        ProcessMediaFile(file.content, ext, ocr).value);
      RecordMetadataRoundTrip(rec);
    }
  }

  /** Every failure is a 500 whose detail starts with the prefix, and leaves the collection
      as it was; a failure after the write leaves the stored file behind on the disk. */
  lemma {:induction false} UploadFailures(collectionReady: Result<(), Exception>, metadata: Result<JsonMetadata, Exception>, mediaId: Id,
                       fs: FsState, index: seq<IndexedMedia>, file: UploadFile,
                       ocr: seq<Byte> -> Result<string, Exception>, embed: string -> Result<Embedding, Exception>,
                       accept: (seq<IndexedMedia>, IndexedMedia) -> Result<(), Exception>)
    ensures var u := Upload(collectionReady, metadata, mediaId, fs, index, file, ocr, embed, accept);
            u.response.Failure? ==>
              && u.response.error.statusCode == 500
              && |UploadErrorPrefix| <= |u.response.error.detail|
              && u.response.error.detail[..|UploadErrorPrefix|] == UploadErrorPrefix
              && u.index == index
    ensures var u := Upload(collectionReady, metadata, mediaId, fs, index, file, ocr, embed, accept);
            var w := fs.Write(UploadDir, mediaId + Extension(file.filename), Bytes(file.content));
            collectionReady.Success? && metadata.Success? && w.outcome.Success? ==> u.fs == w.fs
    ensures var u := Upload(collectionReady, metadata, mediaId, fs, index, file, ocr, embed, accept);
            collectionReady.Failure? || metadata.Failure? ==> u.fs == fs
  {
  }

  /** JSON metadata that is not an object parses, so the id is drawn, the file is written and
      OCR runs; the route then fails at `metadata_dict.get` and the stored file stays behind. */
  lemma {:induction false} NonObjectMetadataFailsAfterWrite(typeName: string, mediaId: Id,
                       fs: FsState, index: seq<IndexedMedia>, file: UploadFile,
                       ocr: seq<Byte> -> Result<string, Exception>, embed: string -> Result<Embedding, Exception>,
                       accept: (seq<IndexedMedia>, IndexedMedia) -> Result<(), Exception>)
    requires mediaId != [] && mediaId[0] != '/'
    ensures var u := Upload(Success(()), Success(JsonOther(typeName)), mediaId, fs, index, file, ocr, embed, accept);
            var ext := Extension(file.filename);
            var w := fs.Write(UploadDir, mediaId + ext, Bytes(file.content));
            w.outcome.Success? && ProcessMediaFile(file.content, ext, ocr).Success? ==>
              && u.response == Failure(HttpError(InternalServerError,
                                                 UploadErrorPrefix + "'" + typeName + "' object has no attribute 'get'"))
              && u.fs == w.fs && u.index == index
              && UploadPath(mediaId, ext) in u.fs.files && u.fs.files[UploadPath(mediaId, ext)] == Bytes(file.content)
  {
    var ext := Extension(file.filename);
    UploadPathParts(mediaId, ext);
    var m := "'" + typeName + "' object has no attribute 'get'";
    assert UploadErrorPrefix + m == UploadErrorPrefix + "'" + typeName + "' object has no attribute 'get'";
  }
}
