/**
 * Saving the images a search returned as numbered JPEG files, and the inspection report of a
 * multi-vector retriever: the document count, a sample of keys and documents, what can be
 * learnt about the vector store, and one test retrieval, with every failure on the vector
 * store side caught.
 */
module Utils {
  import opened Wrappers
  import opened Text
  import opened Base64
  import opened Stores
  import opened FileSystem
  import opened ChromaDb

  const OutputDir: Path := "outputs"
  const DocDisplayLimit: nat := 100
  const ContentDisplayLimit: nat := 50

  /** A decoded PIL image: its mode (such as "RGB" or "RGBA") and its pixel data. */
  datatype Raster = Raster(mode: string, pixels: seq<Byte>)

  /** PIL, in the two steps `image.save(path, 'JPEG')` separates: `load` is `Image.open` on the
      bytes together with the decoding `save` forces before it opens the output file, and
      `encodeJpeg` is the JPEG encoder it runs on the open file. Each gives its result or the
      error PIL raises. */
  datatype Pil = Pil(load: seq<Byte> -> Result<Raster, Exception>, encodeJpeg: Raster -> Result<seq<Byte>, Exception>)

  // ---------------------------------------------------------------------------
  // Saving result images
  // ---------------------------------------------------------------------------

  /** `f'result_image_{index}.jpg'`. */
  function ResultName(index: nat): string
  {
    "result_image_" + NatToString(index) + ".jpg"
  }

  function OutputPath(index: nat): Path
  {
    PathJoin(OutputDir, ResultName(index))
  }

  /** Distinct indices name distinct files, none of them the output directory itself. */
  lemma {:induction false} OutputPathInjective(i: nat, j: nat)
    ensures OutputPath(i) == OutputPath(j) <==> i == j
    ensures OutputPath(i) != OutputDir
  {
    var a, b := ResultName(i), ResultName(j);
    if a == b {
      var di, dj := NatToString(i), NatToString(j);
      assert |di| == |dj|;
      assert di == a[13..13 + |di|] && dj == b[13..13 + |dj|];
      NatToStringInjective(i, j);
    }
    PathJoinInjective(OutputDir, a, b);
  }

  /** The bytes `save_base64_image` writes for `b64`: `b64decode`, then PIL's decoding and its
      JPEG encoder. */
  function Converted(b64: string, pil: Pil): Result<seq<Byte>, Exception>
  {
    var data :- Decode(b64);
    var image :- pil.load(data);
    pil.encodeJpeg(image)
  }

  /** An image this program encoded itself decodes to the very bytes it was read from, so only
      PIL decides what is written. */
  lemma {:induction false} ConvertedEncoded(data: seq<Byte>, pil: Pil)
    ensures Converted(Encode(data), pil)
            == if pil.load(data).Failure? then Failure(pil.load(data).error) else pil.encodeJpeg(pil.load(data).value)
  {
    DecodeEncode(data);
  }

  /** `save_base64_image(b64, os.path.join(dir, name))` on the disk state. `image.save` decodes,
      then opens the output with "w+b" (creating or truncating it), then encodes; when the
      encoder raises it closes the file and removes it again if it created it. */
  function SaveOne(fs: FsState, b64: string, dir: Path, name: string, pil: Pil): Step
  {
    var data := Decode(b64);
    if data.Failure? then Step(Failure(data.error), fs) else
    var image := pil.load(data.value);
    if image.Failure? then Step(Failure(image.error), fs) else
    var truncated := fs.Write(dir, name, Bytes([]));
    if truncated.outcome.Failure? then truncated else
    var jpeg := pil.encodeJpeg(image.value);
    if jpeg.Failure? then
      Step(Failure(jpeg.error), if fs.Exists(PathJoin(dir, name)) then truncated.fs else truncated.fs.Remove(PathJoin(dir, name)).fs)
    else truncated.fs.Write(dir, name, Bytes(jpeg.value))
  }

  /** Saving one image: it succeeds exactly when the bytes convert and the output path can be
      opened, and then sets exactly that file to the converted bytes. When the encoder raises,
      an output file that was there before is left empty and one that was not is gone again;
      every earlier error leaves the disk as it was. */
  lemma {:induction false} SaveOneEffect(fs: FsState, b64: string, dir: Path, name: string, pil: Pil)
    ensures var r := SaveOne(fs, b64, dir, name, pil);
            var p := PathJoin(dir, name);
            && (r.outcome.Success? <==> Converted(b64, pil).Success? && dir in fs.dirs && p !in fs.dirs)
            && (r.outcome.Success? ==> r.fs == FsState(fs.dirs, fs.files[p := Bytes(Converted(b64, pil).value)]))
            && (Converted(b64, pil).Failure? && dir in fs.dirs && p !in fs.dirs && Decode(b64).Success?
                && pil.load(Decode(b64).value).Success? ==>
                  && r.outcome == Failure(Converted(b64, pil).error)
                  && r.fs == if p in fs.files then FsState(fs.dirs, fs.files[p := Bytes([])]) else fs)
            && (r.outcome.Failure? && r.fs != fs ==> p in fs.files && r.fs == FsState(fs.dirs, fs.files[p := Bytes([])]))
  {
    var p := PathJoin(dir, name);
    if Decode(b64).Success? && pil.load(Decode(b64).value).Success? && dir in fs.dirs && p !in fs.dirs {
      if Converted(b64, pil).Success? {
        assert fs.files[p := Bytes([])][p := Bytes(Converted(b64, pil).value)] == fs.files[p := Bytes(Converted(b64, pil).value)];
      } else if p !in fs.files {
        assert fs.files[p := Bytes([])] - {p} == fs.files;
      }
    }
  }

  method SaveBase64Image(disk: Disk, b64: string, dir: Path, name: string, pil: Pil)
    returns (outcome: Result<(), Exception>)
    modifies disk
    ensures Step(outcome, disk.state) == SaveOne(old(disk.state), b64, dir, name, pil)
  {
    var imageData := Decode(b64);
    if imageData.Failure? {
      return Failure(imageData.error);
    }
    var image := pil.load(imageData.value);
    if image.Failure? {
      return Failure(image.error);
    }
    var path := PathJoin(dir, name);
    var created := !disk.state.Exists(path);
    outcome := disk.Write(dir, name, Bytes([]));
    if outcome.Failure? {
      return;
    }
    var jpeg := pil.encodeJpeg(image.value);
    if jpeg.Failure? {
      if created {
        var removed := disk.Remove(path);
      }
      return Failure(jpeg.error);
    }
    outcome := disk.Write(dir, name, Bytes(jpeg.value));
  }

  /** `save_images_from_results(results)` on the disk state: create `outputs`, then save result
      `i` as `outputs/result_image_{i}.jpg`, stopping at the first error. */
  function SaveAll(fs: FsState, results: seq<string>, pil: Pil): Step
    decreases |results|
  {
    if results == [] then fs.MakeDirs(OutputDir)
    else
      var n := |results| - 1;
      var prev := SaveAll(fs, results[..n], pil);
      if prev.outcome.Failure? then prev else SaveOne(prev.fs, results[n], OutputDir, ResultName(n), pil)
  }

  method SaveImagesFromResults(disk: Disk, results: seq<string>, pil: Pil)
    returns (outcome: Result<(), Exception>)
    modifies disk
    ensures Step(outcome, disk.state) == SaveAll(old(disk.state), results, pil)
  {
    outcome := disk.MakeDirs(OutputDir);
    if outcome.Failure? {
      SaveAllFailureSticks(old(disk.state), results, 0, pil);
      return;
    }
    for i := 0 to |results|
      invariant outcome.Success?
      invariant SaveAll(old(disk.state), results[..i], pil) == Step(outcome, disk.state)
    {
      assert results[..i + 1][..i] == results[..i];
      outcome := SaveBase64Image(disk, results[i], OutputDir, ResultName(i), pil);
      if outcome.Failure? {
        SaveAllFailureSticks(old(disk.state), results, i + 1, pil);
        return;
      }
    }
    assert results[..|results|] == results;
  }

  /** Once a prefix of the results fails, saving all of them fails the same way. */
  lemma {:induction false} SaveAllFailureSticks(fs: FsState, results: seq<string>, k: nat, pil: Pil)
    requires k <= |results|
    requires SaveAll(fs, results[..k], pil).outcome.Failure?
    ensures SaveAll(fs, results, pil) == SaveAll(fs, results[..k], pil)
    decreases |results|
  {
    if k < |results| {
      var n := |results| - 1;
      assert results[..n][..k] == results[..k];
      SaveAllFailureSticks(fs, results[..n], k, pil);
    } else {
      assert results[..k] == results;
    }
  }

  /** The files named after the first `n` indices. */
  ghost function OutputPaths(n: nat): set<Path>
  {
    set i: nat | i < n :: OutputPath(i)
  }

  lemma {:induction false} OutputPathsSnoc(n: nat)
    ensures OutputPaths(n + 1) == OutputPaths(n) + {OutputPath(n)}
  {
    forall p | p in OutputPaths(n + 1) ensures p in OutputPaths(n) + {OutputPath(n)} {
      var i: nat :| i < n + 1 && p == OutputPath(i);
    }
  }

  /** Every result decodes and converts, and no output path is taken by a directory. */
  ghost predicate Savable(fs: FsState, results: seq<string>, pil: Pil)
  {
    forall i :: 0 <= i < |results| ==> Converted(results[i], pil).Success? && OutputPath(i) !in fs.dirs
  }

  lemma {:induction false} SavableSnoc(fs: FsState, results: seq<string>, pil: Pil)
    requires results != []
    ensures var n := |results| - 1;
            Savable(fs, results, pil)
            <==> Savable(fs, results[..n], pil) && Converted(results[n], pil).Success? && OutputPath(n) !in fs.dirs
  {
    var n := |results| - 1;
    if Savable(fs, results, pil) {
      forall i | 0 <= i < n ensures Converted(results[..n][i], pil).Success? && OutputPath(i) !in fs.dirs {
        assert results[..n][i] == results[i];
      }
    }
    if Savable(fs, results[..n], pil) && Converted(results[n], pil).Success? && OutputPath(n) !in fs.dirs {
      forall i | 0 <= i < |results| ensures Converted(results[i], pil).Success? && OutputPath(i) !in fs.dirs {
        if i < n { assert results[..n][i] == results[i]; }
      }
    }
  }

  /** Saving succeeds exactly when no file is named `outputs`, every result decodes and converts,
      and none of the output paths is a directory. */
  lemma {:induction false} SaveAllSucceedsIff(fs: FsState, results: seq<string>, pil: Pil)
    ensures SaveAll(fs, results, pil).outcome.Success? <==> OutputDir !in fs.files && Savable(fs, results, pil)
    decreases |results|
  {
    if results != [] {
      var n := |results| - 1;
      SaveAllSucceedsIff(fs, results[..n], pil);
      SaveAllDirs(fs, results[..n], pil);
      OutputPathInjective(n, n);
      SavableSnoc(fs, results, pil);
    }
  }

  /** A successful save adds the directory `outputs` and no other directory. */
  lemma {:induction false} SaveAllDirs(fs: FsState, results: seq<string>, pil: Pil)
    ensures SaveAll(fs, results, pil).outcome.Success? ==> SaveAll(fs, results, pil).fs.dirs == fs.dirs + {OutputDir}
    decreases |results|
  {
    if results != [] {
      SaveAllDirs(fs, results[..|results| - 1], pil);
    }
  }

  /** A successful save of all results saved all but the last, and then wrote the last one's
      converted bytes to its own output path. */
  lemma {:induction false} SaveAllLast(fs: FsState, results: seq<string>, pil: Pil)
    requires results != [] && SaveAll(fs, results, pil).outcome.Success?
    ensures var n := |results| - 1;
            var prev := SaveAll(fs, results[..n], pil);
            && prev.outcome.Success? && Converted(results[n], pil).Success?
            && SaveAll(fs, results, pil).fs.files == prev.fs.files[OutputPath(n) := Bytes(Converted(results[n], pil).value)]
  {
    var n := |results| - 1;
    SaveOneEffect(SaveAll(fs, results[..n], pil).fs, results[n], OutputDir, ResultName(n), pil);
  }

  /** A successful save writes exactly one file per result, file `i` holding result `i` decoded
      and converted, and leaves every other file as it was. */
  lemma {:induction false} SaveAllWritesOnePerResult(fs: FsState, results: seq<string>, pil: Pil)
    ensures var r := SaveAll(fs, results, pil);
            r.outcome.Success? ==>
              && r.fs.files.Keys == fs.files.Keys + OutputPaths(|results|)
              && (forall i :: 0 <= i < |results| ==>
                    Converted(results[i], pil).Success?
                    && r.fs.files[OutputPath(i)] == Bytes(Converted(results[i], pil).value))
              && (forall p :: p in fs.files && p !in OutputPaths(|results|) ==> r.fs.files[p] == fs.files[p])
    decreases |results|
  {
    var r := SaveAll(fs, results, pil);
    if results != [] && r.outcome.Success? {
      var n := |results| - 1;
      var q := results[..n];
      SaveAllWritesOnePerResult(fs, q, pil);
      SaveAllLast(fs, results, pil);
      OutputPathsSnoc(n);
      forall i | 0 <= i < |results|
        ensures && Converted(results[i], pil).Success? && OutputPath(i) in r.fs.files
                && r.fs.files[OutputPath(i)] == Bytes(Converted(results[i], pil).value)
      {
        if i < n {
          assert q[i] == results[i];
          assert OutputPath(i) in OutputPaths(n);
          OutputPathInjective(i, n);
        }
      }
      forall p | p in fs.files && p !in OutputPaths(n + 1) ensures r.fs.files[p] == fs.files[p] {
        assert p != OutputPath(n);
      }
    }
  }

  // ---------------------------------------------------------------------------
  // Inspecting a retriever
  // ---------------------------------------------------------------------------

  /** What the report finds out about the vector store object: whether it has an `index`
      attribute (and what `len` of it gives), and whether it has a `docstore` attribute and that
      one a `docs` dict (whose values are listed in order). */
  datatype VectorStoreView = VectorStoreView(
    typeName: string,
    index: Option<Result<nat, Exception>>,
    docstore: Option<Option<seq<Document>>>)

  datatype VectorCount = Count(n: nat) | Unknown | CountError

  /** The returned dict, and the shortened texts the report displays. */
  datatype Inspection = Inspection(
    totalDocs: nat,
    sampleKeys: seq<string>,
    sampleDocs: seq<Option<string>>,
    vectorstoreType: string,
    vectorCount: VectorCount,
    sampleVectors: seq<Document>,
    retrievedDocs: seq<string>,
    shown: Shown)

  datatype Shown = Shown(docSummaries: seq<string>, vectorContents: seq<string>, testQuery: Option<string>,
                         retrievedSummaries: seq<string>)

  /** `str(doc)` for what `mget` returns: the stored string, or "None". */
  function DocText(doc: Option<string>): string
  {
    if doc.Some? then doc.value else "None"
  }

  /** The vector count: `len(index)` if there is an index, else `len(docstore.docs)` if there is
      a docstore, else "Unknown"; any exception makes it "Error". */
  function CountVectors(view: VectorStoreView): VectorCount
  {
    if view.index.Some? then
      (if view.index.value.Success? then Count(view.index.value.value) else CountError)
    else if view.docstore.Some? then
      (if view.docstore.value.Some? then Count(|view.docstore.value.value|) else CountError)
    else Unknown
  }

  predicate HasDocs(view: VectorStoreView)
  {
    view.docstore.Some? && view.docstore.value.Some?
  }

  /** `list(docs.values())[:max_display_items]`, or none at all. */
  function SampleVectors(view: VectorStoreView, maxDisplayItems: int): seq<Document>
  {
    if HasDocs(view) then PrefixSlice(view.docstore.value.value, maxDisplayItems) else []
  }

  function ShortenAll(docs: seq<string>, limit: nat): (r: seq<string>)
    ensures |r| == |docs|
    ensures forall i :: 0 <= i < |docs| ==> r[i] == Shorten(docs[i], limit)
  {
    seq(|docs|, i requires 0 <= i < |docs| => Shorten(docs[i], limit))
  }

  function Contents(docs: seq<Document>): (r: seq<string>)
    ensures |r| == |docs|
    ensures forall i :: 0 <= i < |docs| ==> r[i] == docs[i].pageContent
  {
    seq(|docs|, i requires 0 <= i < |docs| => docs[i].pageContent)
  }

  function Min(a: int, b: int): int
  {
    if a < b then a else b
  }

  /** `[retriever.docstore.mget([k])[0] for k in keys]`. */
  function MGetEach(store: OrderedDict, keys: seq<string>): seq<Option<string>>
    decreases |keys|
  {
    if keys == [] then [] else MGetEach(store, keys[..|keys| - 1]) + [store.Get(keys[|keys| - 1])]
  }

  /** `inspect_multi_vector_retriever(retriever, max_display_items)` as a value: `store` is the
      document store, `view` the vector store and `retrieve(q)` the retriever's answer to the
      query `q` with `k=2`. */
  function Inspect(store: OrderedDict, view: VectorStoreView, retrieve: string -> Result<seq<string>, Exception>,
                   maxDisplayItems: int): Inspection
  {
    var sampleKeys := PrefixSlice(store.keys, Min(maxDisplayItems, |store.keys|));
    var sampleDocs := MGetEach(store, sampleKeys);
    var samples := SampleVectors(view, maxDisplayItems);
    var asked := HasDocs(view) && samples != [];
    var answer := if asked then retrieve(samples[0].pageContent) else Success([]);
    var retrieved := if answer.Success? then answer.value else [];
    Inspection(|store.keys|, sampleKeys, sampleDocs, view.typeName, CountVectors(view), samples, retrieved,
               Shown(ShortenAll(seq(|sampleDocs|, i requires 0 <= i < |sampleDocs| => DocText(sampleDocs[i])), DocDisplayLimit),
                     ShortenAll(Contents(samples), ContentDisplayLimit),
                     if asked then Some(Shorten(samples[0].pageContent, ContentDisplayLimit)) else None,
                     ShortenAll(retrieved, DocDisplayLimit)))
  }

  /** The report, built step by step; nothing it does on the vector store side can escape. */
  method InspectMultiVectorRetriever(retriever: Retriever, view: VectorStoreView,
                                     retrieve: string -> Result<seq<string>, Exception>, maxDisplayItems: int)
    returns (r: Inspection)
    ensures r == Inspect(retriever.docstore.store, view, retrieve, maxDisplayItems)
  {
    var store := retriever.docstore.store;
    var allKeys := store.keys;
    var docCount := |allKeys|;
    var sampleKeys := PrefixSlice(allKeys, Min(maxDisplayItems, |allKeys|));
    var sampleDocs: seq<Option<string>> := [];
    var docSummaries: seq<string> := [];
    for i := 0 to |sampleKeys|
      invariant sampleDocs == MGetEach(store, sampleKeys[..i]) && |sampleDocs| == i
      invariant |docSummaries| == i
      invariant forall j :: 0 <= j < i ==> docSummaries[j] == Shorten(DocText(sampleDocs[j]), DocDisplayLimit)
    {
      assert sampleKeys[..i + 1][..i] == sampleKeys[..i];
      var doc := store.Get(sampleKeys[i]);
      sampleDocs := sampleDocs + [doc];
      var docSummary := DocText(doc);
      if |docSummary| > DocDisplayLimit {
        docSummary := docSummary[..DocDisplayLimit] + "...";
      }
      docSummaries := docSummaries + [docSummary];
    }
    assert sampleKeys[..|sampleKeys|] == sampleKeys;

    var vectorCount := CountVectors(view);
    var sampleVectorDocs := SampleVectors(view, maxDisplayItems);

    var retrievedDocs: seq<string> := [];
    var testQuery: Option<string> := None;
    if HasDocs(view) && sampleVectorDocs != [] {
      var query := sampleVectorDocs[0].pageContent;
      testQuery := Some(Shorten(query, ContentDisplayLimit));
      var answer := retrieve(query);
      if answer.Success? {
        retrievedDocs := answer.value;
      }
    }
    r := Inspection(docCount, sampleKeys, sampleDocs, view.typeName, vectorCount, sampleVectorDocs, retrievedDocs,
                    Shown(docSummaries, ShortenAll(Contents(sampleVectorDocs), ContentDisplayLimit), testQuery,
                          ShortenAll(retrievedDocs, DocDisplayLimit)));
  }

  lemma {:induction false} MGetEachShape(store: OrderedDict, keys: seq<string>)
    ensures |MGetEach(store, keys)| == |keys|
    ensures forall i :: 0 <= i < |keys| ==> MGetEach(store, keys)[i] == store.Get(keys[i])
    decreases |keys|
  {
    if keys != [] {
      var n := |keys| - 1;
      MGetEachShape(store, keys[..n]);
      assert forall i :: 0 <= i < n ==> keys[..n][i] == keys[i];
    }
  }

  /** The document-store part of the report: the count of keys, a prefix of the keys in their
      insertion order (as many as asked for, when the limit is not negative), and for each sample
      key the document stored under it, displayed shortened to 100 characters. */
  lemma {:induction false} InspectDocstore(store: OrderedDict, view: VectorStoreView, retrieve: string -> Result<seq<string>, Exception>,
                        maxDisplayItems: int)
    requires store.Valid()
    ensures var r := Inspect(store, view, retrieve, maxDisplayItems);
            && r.totalDocs == |store.keys|
            && r.sampleKeys <= store.keys
            && (0 <= maxDisplayItems ==> |r.sampleKeys| == Min(maxDisplayItems, |store.keys|))
            && |r.sampleDocs| == |r.sampleKeys| && |r.shown.docSummaries| == |r.sampleKeys|
            && forall i :: 0 <= i < |r.sampleKeys| ==>
                 && r.sampleKeys[i] in store.values
                 && r.sampleDocs[i] == Some(store.values[r.sampleKeys[i]])
                 && r.shown.docSummaries[i] == Shorten(store.values[r.sampleKeys[i]], DocDisplayLimit)
  {
    var r := Inspect(store, view, retrieve, maxDisplayItems);
    MGetEachShape(store, r.sampleKeys);
    forall i | 0 <= i < |r.sampleKeys| ensures r.sampleKeys[i] in store.values {
      assert r.sampleKeys[i] == store.keys[i];
    }
  }

  /** The vector-store part never fails: an `index` whose length cannot be taken, or a
      `docstore` without `docs`, gives "Error"; a store with neither gives "Unknown" and no
      samples; a failing test retrieval gives no documents. */
  lemma {:induction false} InspectCatches(store: OrderedDict, view: VectorStoreView, retrieve: string -> Result<seq<string>, Exception>,
                       maxDisplayItems: int)
    ensures var r := Inspect(store, view, retrieve, maxDisplayItems);
            && (view.index.Some? && view.index.value.Failure? ==> r.vectorCount == CountError)
            && (view.index.None? && view.docstore.Some? && view.docstore.value.None? ==> r.vectorCount == CountError)
            && (view.index.None? && view.docstore.None? ==> r.vectorCount == Unknown && r.sampleVectors == [] && r.retrievedDocs == [])
            && (!HasDocs(view) ==> r.retrievedDocs == [] && r.shown.testQuery.None?)
            && (HasDocs(view) && r.sampleVectors != [] && retrieve(r.sampleVectors[0].pageContent).Failure? ==> r.retrievedDocs == [])
  {
  }

  /** The vector samples are the first documents of `docs` in order, each displayed shortened to
      50 characters; the test query is the first sample's text, shown shortened the same way. */
  lemma {:induction false} InspectVectors(store: OrderedDict, view: VectorStoreView, retrieve: string -> Result<seq<string>, Exception>,
                       maxDisplayItems: int)
    requires HasDocs(view) && 0 <= maxDisplayItems
    ensures var r := Inspect(store, view, retrieve, maxDisplayItems);
            var docs := view.docstore.value.value;
            && r.sampleVectors <= docs
            && |r.sampleVectors| == Min(maxDisplayItems, |docs|)
            && (forall i :: 0 <= i < |r.sampleVectors| ==> r.shown.vectorContents[i] == Shorten(docs[i].pageContent, ContentDisplayLimit))
            && (r.sampleVectors != [] ==>
                  r.shown.testQuery == Some(Shorten(docs[0].pageContent, ContentDisplayLimit))
                  && (retrieve(docs[0].pageContent).Success? ==> r.retrievedDocs == retrieve(docs[0].pageContent).value))
  {
    var r := Inspect(store, view, retrieve, maxDisplayItems);
    var docs := view.docstore.value.value;
    assert forall i :: 0 <= i < |r.sampleVectors| ==> r.sampleVectors[i] == docs[i];
  }
}
