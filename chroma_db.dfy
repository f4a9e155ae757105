/**
 * The multi-vector retriever: a document store mapping fresh ids to raw images, and a vector
 * store holding, for every image, its summary and its extracted text, each tagged under
 * "doc_id" with the image's id. Building it, saving it as three artifacts and loading it back.
 */
module ChromaDb {
  import opened Wrappers
  import opened Stores
  import opened FileSystem

  const IdKey: string := "doc_id"
  const SettingsFile: string := "chroma_settings.json"
  const DocstoreFile: string := "docstore.pkl"
  const ParamsFile: string := "params.pkl"
  const ArityMessage: string := "Number of images, summaries, and texts must match"

  /** What a retriever is made of, apart from the vector entries themselves. */
  datatype RetrieverState = RetrieverState(
    collectionName: string,
    store: OrderedDict,
    idKey: string,
    searchKwargs: map<string, int>)

  /** A `MultiVectorRetriever`: the vector store it searches, the document store it returns
      from, the metadata key that links the two, and its default search arguments. */
  class Retriever {
    const vectorstore: VectorStore
    const docstore: DocStore
    const idKey: string
    const searchKwargs: map<string, int>

    constructor(vectorstore: VectorStore, docstore: DocStore, idKey: string, searchKwargs: map<string, int>)
      ensures this.vectorstore == vectorstore && this.docstore == docstore
      ensures this.idKey == idKey && this.searchKwargs == searchKwargs
    {
      this.vectorstore := vectorstore;
      this.docstore := docstore;
      this.idKey := idKey;
      this.searchKwargs := searchKwargs;
    }

    function State(): RetrieverState
      reads this, docstore
    {
      RetrieverState(vectorstore.collectionName, docstore.store, idKey, searchKwargs)
    }
  }

  // ---------------------------------------------------------------------------
  // Build
  // ---------------------------------------------------------------------------

  /** `[Document(page_content=c, metadata={idKey: docIds[i]}) for i, c in enumerate(contents)]`. */
  function Tagged(contents: seq<string>, docIds: seq<Id>, idKey: string): seq<Document>
    requires |docIds| == |contents|
  {
    seq(|contents|, i requires 0 <= i < |contents| => Document(contents[i], map[idKey := docIds[i]]))
  }

  /** The id an index entry points at, if it carries one under `idKey`. */
  function TagOf(e: Document, idKey: string): Option<Id>
  {
    if idKey in e.metadata then Some(e.metadata[idKey]) else None
  }

  /** Every entry carries a tag, and every tag is a key of the document store. */
  ghost predicate TagsResolve(entries: seq<Document>, idKey: string, docs: map<Id, string>)
  {
    forall i :: 0 <= i < |entries| ==> TagOf(entries[i], idKey).Some? && TagOf(entries[i], idKey).value in docs
  }

  /** How many entries are tagged with `id`. */
  function CountTagged(entries: seq<Document>, idKey: string, id: Id): nat
  {
    if entries == [] then 0
    else (if TagOf(entries[0], idKey) == Some(id) then 1 else 0) + CountTagged(entries[1..], idKey, id)
  }

  lemma {:induction false} CountTaggedAppend(a: seq<Document>, b: seq<Document>, idKey: string, id: Id)
    ensures CountTagged(a + b, idKey, id) == CountTagged(a, idKey, id) + CountTagged(b, idKey, id)
  {
    if a != [] {
      assert (a + b)[1..] == a[1..] + b;
      CountTaggedAppend(a[1..], b, idKey, id);
    } else {
      assert a + b == b;
    }
  }

  /** With distinct ids, each id tags exactly one entry of a tagged list, and no other id tags any. */
  lemma {:induction false} CountTaggedDistinct(contents: seq<string>, docIds: seq<Id>, idKey: string, id: Id)
    requires |docIds| == |contents| && Distinct(docIds)
    ensures CountTagged(Tagged(contents, docIds, idKey), idKey, id) == if id in docIds then 1 else 0
    decreases |docIds|
  {
    var t := Tagged(contents, docIds, idKey);
    if docIds != [] {
      assert t[1..] == Tagged(contents[1..], docIds[1..], idKey);
      assert TagOf(t[0], idKey) == Some(docIds[0]);
      CountTaggedDistinct(contents[1..], docIds[1..], idKey, id);
      assert docIds == [docIds[0]] + docIds[1..];
      if id == docIds[0] {
        assert id !in docIds[1..] by {
          forall j | 0 <= j < |docIds[1..]| ensures docIds[1..][j] != id {
            assert docIds[1..][j] == docIds[j + 1];
          }
        }
      }
    }
  }

  /** Entry `i` of the summaries' block and of the texts' block both point at `docIds[i]`. */
  lemma {:induction false} BuildEntriesPaired(summaries: seq<string>, texts: seq<string>, docIds: seq<Id>)
    requires |summaries| == |texts| == |docIds|
    ensures var n := |docIds|;
            var added := Tagged(summaries, docIds, IdKey) + Tagged(texts, docIds, IdKey);
            && |added| == 2 * n
            && (forall i :: 0 <= i < n ==>
                  && added[i].pageContent == summaries[i] && TagOf(added[i], IdKey) == Some(docIds[i])
                  && added[n + i].pageContent == texts[i] && TagOf(added[n + i], IdKey) == Some(docIds[i]))
  {
    var n := |docIds|;
    var s := Tagged(summaries, docIds, IdKey);
    var t := Tagged(texts, docIds, IdKey);
    forall i | 0 <= i < n
      ensures (s + t)[i] == s[i] && (s + t)[n + i] == t[i]
    {
    }
  }

  /** The index a build produces is consistent: the document store maps `docIds[i]` to
      `images[i]` and has no other keys, every tag of the added entries resolves to a stored
      image, and every stored image is tagged by exactly two entries (its summary and its text). */
  lemma {:induction false} BuildIndexConsistent(images: seq<string>, summaries: seq<string>, texts: seq<string>, docIds: seq<Id>)
    requires |images| == |summaries| == |texts| == |docIds| && Distinct(docIds)
    ensures var added := Tagged(summaries, docIds, IdKey) + Tagged(texts, docIds, IdKey);
            var store := PutAll(EmptyDict, Zip(docIds, images));
            && store.Valid() && store.keys == docIds
            && (forall i :: 0 <= i < |docIds| ==> docIds[i] in store.values && store.values[docIds[i]] == images[i])
            && TagsResolve(added, IdKey, store.values)
            && (forall id :: id in store.values ==> CountTagged(added, IdKey, id) == 2)
  {
    var n := |docIds|;
    var s := Tagged(summaries, docIds, IdKey);
    var t := Tagged(texts, docIds, IdKey);
    var added := s + t;
    PutAllZip(docIds, images);
    var store := PutAll(EmptyDict, Zip(docIds, images));
    forall id | id in store.values
      ensures CountTagged(added, IdKey, id) == 2
    {
      CountTaggedAppend(s, t, IdKey, id);
      CountTaggedDistinct(summaries, docIds, IdKey, id);
      CountTaggedDistinct(texts, docIds, IdKey, id);
    }
    forall i | 0 <= i < |added|
      ensures TagOf(added[i], IdKey).Some? && TagOf(added[i], IdKey).value in store.values
    {
      var k := if i < n then i else i - n;
      assert added[i] == (if i < n then s[k] else t[k]);
      assert TagOf(added[i], IdKey) == Some(docIds[k]);
    }
  }

  /** How the two `add_documents` calls of a build go on a vector store that holds `entries`:
      the summaries first, then the texts, the first raise ending the build. */
  datatype IndexRun = IndexRun(out: Result<(), Exception>, entries: seq<Document>)

  function AddBoth(upsert: (seq<Document>, seq<Document>) -> Result<(), Exception>,
                   entries: seq<Document>, first: seq<Document>, second: seq<Document>): IndexRun
  {
    var r1 := upsert(entries, first);
    if r1.Failure? then IndexRun(r1, entries)
    else
      var r2 := upsert(entries + first, second);
      IndexRun(r2, if r2.Success? then entries + first + second else entries + first)
  }

  /** The build's adds succeed exactly when both calls do, and a failure is the first raise.
      Whatever happens, the earlier entries stay in front, and what follows them is nothing, all
      the summaries, or the summaries and then all the texts: a text is never stored unless
      every summary is. */
  lemma {:induction false} AddBothKeepsPrefix(upsert: (seq<Document>, seq<Document>) -> Result<(), Exception>,
                                              entries: seq<Document>, first: seq<Document>, second: seq<Document>)
    ensures var run := AddBoth(upsert, entries, first, second);
            && (run.out.Success? <==> upsert(entries, first).Success? && upsert(entries + first, second).Success?)
            && (run.out.Failure? ==>
                  run.out == (if upsert(entries, first).Failure? then upsert(entries, first) else upsert(entries + first, second)))
            && |entries| <= |run.entries| && run.entries[..|entries|] == entries
            && var added := run.entries[|entries|..];
               && (added == [] || added == first || added == first + second)
               && (run.out.Success? ==> added == first + second)
  {
    var run := AddBoth(upsert, entries, first, second);
    if upsert(entries, first).Failure? {
      assert run.entries[|entries|..] == [];
    } else if upsert(entries + first, second).Failure? {
      assert run.entries[|entries|..] == first;
    } else {
      assert run.entries[|entries|..] == first + second;
    }
  }

  /** `create_multi_vector_retriever`: checks the arity before touching either store, then
      gives every image a fresh id, stores the images under their ids in a new document store,
      and adds the tagged summaries and then the tagged texts to the vector store. A raise of
      either add ends the build with that exception; the document store built so far is
      dropped with the retriever, and the vector store keeps what was added before it. */
  method CreateMultiVectorRetriever(
    vectorstore: VectorStore, supply: IdSupply,
    images: seq<string>, summaries: seq<string>, texts: seq<string>)
    returns (result: Result<Retriever, Exception>, ghost docIds: seq<Id>)
    modifies vectorstore, supply
    ensures !(|images| == |summaries| == |texts|) ==>
              result == Failure(AssertionError(ArityMessage)) && unchanged(vectorstore, supply)
    ensures |images| == |summaries| == |texts| ==>
              && |docIds| == |images| && Distinct(docIds)
              && (forall i :: 0 <= i < |docIds| ==> docIds[i] !in old(supply.Issued()) && docIds[i] in supply.Issued())
              && var run := AddBoth(vectorstore.upsert, old(vectorstore.entries),
                                    Tagged(summaries, docIds, IdKey), Tagged(texts, docIds, IdKey));
                 && vectorstore.entries == run.entries
                 && (run.out.Failure? ==> result == Failure(run.out.error))
                 && (run.out.Success? ==>
                       && result.Success?
                       && fresh(result.value) && fresh(result.value.docstore)
                       && result.value.vectorstore == vectorstore
                       && result.value.idKey == IdKey && result.value.searchKwargs == map[]
                       && result.value.docstore.Valid()
                       && result.value.docstore.store == PutAll(EmptyDict, Zip(docIds, images)))
  {
    // The source builds the store and the retriever twice; the first pair is dropped unused.
    var store := new DocStore();
    var retriever := new Retriever(vectorstore, store, IdKey, map[]);
    store := new DocStore();
    retriever := new Retriever(vectorstore, store, IdKey, map[]);

    if !(|images| == |summaries| == |texts|) {
      return Failure(AssertionError(ArityMessage)), [];
    }

    var ids: seq<Id> := [];
    while |ids| < |images|
      invariant |ids| <= |images|
      invariant Distinct(ids)
      invariant forall i :: 0 <= i < |ids| ==> ids[i] !in old(supply.Issued()) && ids[i] in supply.Issued()
      invariant old(supply.Issued()) <= supply.Issued()
      invariant fresh(store) && store.Valid() && store.store == EmptyDict
      invariant vectorstore.entries == old(vectorstore.entries)
    {
      var id := supply.Fresh();
      ids := ids + [id];
    }
    docIds := ids;

    retriever.docstore.MSet(Zip(ids, images));
    var summaryDocs := Tagged(summaries, ids, IdKey);
    var added := retriever.vectorstore.AddDocuments(summaryDocs);
    if added.Failure? {
      return Failure(added.error), docIds;
    }
    var textDocs := Tagged(texts, ids, IdKey);
    added := retriever.vectorstore.AddDocuments(textDocs);
    if added.Failure? {
      return Failure(added.error), docIds;
    }
    PutAllZip(ids, images);
    return Success(retriever), docIds;
  }

  // ---------------------------------------------------------------------------
  // Save and load
  // ---------------------------------------------------------------------------

  /** `save_multi_vector_retriever` on the disk state: create the directory, then write the
      collection settings, the document store and the parameters, stopping at the first error. */
  function SaveEffect(fs: FsState, base: Path, st: RetrieverState): Step
  {
    var s0 := fs.MakeDirs(base);
    if s0.outcome.Failure? then s0 else
    var s1 := s0.fs.Write(base, SettingsFile, SettingsJson(Some(st.collectionName)));
    if s1.outcome.Failure? then s1 else
    var s2 := s1.fs.Write(base, DocstoreFile, DocstorePickle(st.store));
    if s2.outcome.Failure? then s2 else
    s2.fs.Write(base, ParamsFile, ParamsPickle(Some(st.idKey), Some(st.searchKwargs)))
  }

  method SaveMultiVectorRetriever(retriever: Retriever, disk: Disk, basePath: Path)
    returns (outcome: Result<(), Exception>)
    modifies disk
    ensures Step(outcome, disk.state) == SaveEffect(old(disk.state), basePath, retriever.State())
  {
    outcome := disk.MakeDirs(basePath);
    if outcome.Failure? { return; }
    outcome := disk.Write(basePath, SettingsFile, SettingsJson(Some(retriever.vectorstore.collectionName)));
    if outcome.Failure? { return; }
    outcome := disk.Write(basePath, DocstoreFile, DocstorePickle(retriever.docstore.store));
    if outcome.Failure? { return; }
    var params := ParamsPickle(Some(retriever.idKey), Some(retriever.searchKwargs));
    outcome := disk.Write(basePath, ParamsFile, params);
  }

  /** How constructing the clients goes: `GoogleGenerativeAIEmbeddings(...)`, which needs an API
      key, and `Chroma(...)` over it. */
  datatype Clients = Clients(embeddings: Result<(), Exception>, chroma: Result<(), Exception>) {
    /** Constructing the embedding client and then the Chroma client: the first to raise ends it. */
    function Open(): Result<(), Exception>
    {
      if embeddings.Failure? then embeddings else chroma
    }
  }

  /** Constructing a Chroma client with a persist directory, where `chroma` is how the
      construction itself goes: on success the directory exists afterwards. */
  function OpenPersistent(fs: FsState, dir: Path, chroma: Result<(), Exception>): (r: Step)
    ensures chroma.Failure? ==> r == Step(chroma, fs)
    ensures r.outcome.Success? <==> chroma.Success? && dir !in fs.files && !fs.FileAbove(dir)
    ensures r.outcome.Success? ==> r.fs == FsState(fs.dirs + {dir}, fs.files) && r.fs.Exists(dir)
    ensures r.outcome.Failure? ==> r.fs == fs
  {
    if chroma.Failure? then Step(chroma, fs) else fs.MakeDirs(dir)
  }

  /** `load_multi_vector_retriever` on the disk state: read the settings artifact, construct the
      clients for the collection it names, then read the other two artifacts, and take the
      collection name, the document store, the id key and the search arguments (absent search
      arguments default to `{}`). */
  function LoadState(fs: FsState, base: Path, clients: Clients): Result<RetrieverState, Exception>
  {
    var settings :- fs.Read(PathJoin(base, SettingsFile));
    if !settings.SettingsJson? then Failure(DecodeError(PathJoin(base, SettingsFile)))
    else if settings.collectionName.None? then Failure(KeyError("collection_name"))
    else if clients.Open().Failure? then Failure(clients.Open().error)
    else
      var dump :- fs.Read(PathJoin(base, DocstoreFile));
      if !dump.DocstorePickle? then Failure(DecodeError(PathJoin(base, DocstoreFile)))
      else
        var params :- fs.Read(PathJoin(base, ParamsFile));
        if !params.ParamsPickle? then Failure(DecodeError(PathJoin(base, ParamsFile)))
        else if params.idKey.None? then Failure(KeyError("id_key"))
        else Success(RetrieverState(settings.collectionName.value, dump.store, params.idKey.value,
                                    params.searchKwargs.GetOr(map[])))
  }

  /** Loading reopens the vector store by collection name only, without a persist directory,
      so its entries are whatever Chroma opens by default (`defaultEntries`), not anything the
      saved artifacts record; `upsert` is how later adds to it go. */
  method LoadMultiVectorRetriever(disk: Disk, basePath: Path, clients: Clients, defaultEntries: seq<Document>,
                                  upsert: (seq<Document>, seq<Document>) -> Result<(), Exception>)
    returns (result: Result<Retriever, Exception>)
    ensures LoadState(disk.state, basePath, clients).Failure? ==>
              result == Failure(LoadState(disk.state, basePath, clients).error)
    ensures LoadState(disk.state, basePath, clients).Success? ==>
              && result.Success? && fresh(result.value) && fresh(result.value.vectorstore)
              && result.value.State() == LoadState(disk.state, basePath, clients).value
              && result.value.vectorstore.persistDirectory == None
              && result.value.vectorstore.entries == defaultEntries
              && result.value.vectorstore.upsert == upsert
  {
    var fs := disk.state;
    var settingsPath := PathJoin(basePath, SettingsFile);
    var settings := fs.Read(settingsPath);
    if settings.Failure? { return Failure(settings.error); }
    if !settings.value.SettingsJson? { return Failure(DecodeError(settingsPath)); }
    if settings.value.collectionName.None? { return Failure(KeyError("collection_name")); }
    if clients.embeddings.Failure? { return Failure(clients.embeddings.error); }
    if clients.chroma.Failure? { return Failure(clients.chroma.error); }
    var vectorstore := new VectorStore(settings.value.collectionName.value, None, defaultEntries, upsert);

    var dumpPath := PathJoin(basePath, DocstoreFile);
    var dump := fs.Read(dumpPath);
    if dump.Failure? { return Failure(dump.error); }
    if !dump.value.DocstorePickle? { return Failure(DecodeError(dumpPath)); }
    var docstore := new DocStore();
    docstore.store := dump.value.store;

    var paramsPath := PathJoin(basePath, ParamsFile);
    var params := fs.Read(paramsPath);
    if params.Failure? { return Failure(params.error); }
    if !params.value.ParamsPickle? { return Failure(DecodeError(paramsPath)); }
    if params.value.idKey.None? { return Failure(KeyError("id_key")); }
    var retriever := new Retriever(vectorstore, docstore, params.value.idKey.value,
                                   params.value.searchKwargs.GetOr(map[]));
    return Success(retriever);
  }

  /** The three artifact paths are distinct and differ from the directory itself. */
  lemma {:induction false} ArtifactPathsDistinct(base: Path)
    ensures PathJoin(base, SettingsFile) != PathJoin(base, DocstoreFile)
    ensures PathJoin(base, SettingsFile) != PathJoin(base, ParamsFile)
    ensures PathJoin(base, DocstoreFile) != PathJoin(base, ParamsFile)
    ensures base !in {PathJoin(base, SettingsFile), PathJoin(base, DocstoreFile), PathJoin(base, ParamsFile)}
  {
    PathJoinInjective(base, SettingsFile, DocstoreFile);
    PathJoinInjective(base, SettingsFile, ParamsFile);
    PathJoinInjective(base, DocstoreFile, ParamsFile);
  }

  /** Save succeeds exactly when no file sits at the directory's path or on the way to it and none of the three
      artifact paths is a directory; it then adds the directory and writes exactly the three
      artifacts, leaving every other file as it was. */
  lemma {:induction false} SaveWritesThreeArtifacts(fs: FsState, base: Path, st: RetrieverState)
    ensures var out := SaveEffect(fs, base, st);
            var settings, dump, params := PathJoin(base, SettingsFile), PathJoin(base, DocstoreFile), PathJoin(base, ParamsFile);
            && (out.outcome.Success? <==>
                  base !in fs.files && !fs.FileAbove(base) && settings !in fs.dirs && dump !in fs.dirs && params !in fs.dirs)
            && (out.outcome.Success? ==>
                  && out.fs.dirs == fs.dirs + {base}
                  && out.fs.files.Keys == fs.files.Keys + {settings, dump, params}
                  && out.fs.files[settings] == SettingsJson(Some(st.collectionName))
                  && out.fs.files[dump] == DocstorePickle(st.store)
                  && out.fs.files[params] == ParamsPickle(Some(st.idKey), Some(st.searchKwargs))
                  && (forall p :: p in fs.files && p !in {settings, dump, params} ==> out.fs.files[p] == fs.files[p]))
  {
    ArtifactPathsDistinct(base);
  }

  /** Loading what was just saved gives back the saved collection name, document store, id key
      and search arguments, unless constructing the clients raises. */
  lemma {:induction false} LoadAfterSave(fs: FsState, base: Path, st: RetrieverState, clients: Clients)
    requires SaveEffect(fs, base, st).outcome.Success?
    ensures LoadState(SaveEffect(fs, base, st).fs, base, clients)
            == if clients.Open().Failure? then Failure(clients.Open().error) else Success(st)
  {
    ArtifactPathsDistinct(base);
    SaveWritesThreeArtifacts(fs, base, st);
  }

  /** A load can only succeed when all three artifacts are there. */
  lemma {:induction false} LoadNeedsAllArtifacts(fs: FsState, base: Path, clients: Clients)
    requires LoadState(fs, base, clients).Success?
    ensures clients.Open().Success?
    ensures PathJoin(base, SettingsFile) in fs.files
    ensures PathJoin(base, DocstoreFile) in fs.files
    ensures PathJoin(base, ParamsFile) in fs.files
  {
  }

  /** Save never creates a `config.json` in the collection directory. */
  lemma {:induction false} SaveNeverWritesConfigJson(fs: FsState, base: Path, st: RetrieverState)
    ensures PathJoin(base, "config.json") in SaveEffect(fs, base, st).fs.files <==> PathJoin(base, "config.json") in fs.files
  {
    PathJoinInjective(base, "config.json", SettingsFile);
    PathJoinInjective(base, "config.json", DocstoreFile);
    PathJoinInjective(base, "config.json", ParamsFile);
  }
}
