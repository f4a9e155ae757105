/**
 * `get_multi_vector_retriever`: make sure `<cwd>/chroma_db` exists, then either load the
 * collection saved under `<cwd>/chroma_db/<collection_name>` or build it from the gallery and
 * save it there. Both the code as written and the evidently intended version are modelled.
 */
module MainFlow {
  import opened Wrappers
  import opened Stores
  import opened FileSystem
  import opened ChromaDb
  import opened ImageDataExtractor
  import opened Text

  const ChromaDbDir: string := "chroma_db"
  const ConfigFile: string := "config.json"
  const LoadKwargMessage: string :=
    "load_multi_vector_retriever() got an unexpected keyword argument 'vectorstore_load_func'"
  const SaveKwargMessage: string :=
    "save_multi_vector_retriever() got an unexpected keyword argument 'vectorstore_save_method'"

  function DbDir(cwd: Path): Path
  {
    PathJoin(cwd, ChromaDbDir)
  }

  /** Where the collection is saved, and where a newly built vector store persists. */
  function SavePath(cwd: Path, collectionName: string): Path
  {
    PathJoin(DbDir(cwd), collectionName)
  }

  /** The first step: create `<cwd>/chroma_db` unless something of that name exists. */
  function Prepare(fs: FsState, cwd: Path): Step
  {
    if fs.Exists(DbDir(cwd)) then Step(Success(()), fs) else fs.MakeDirs(DbDir(cwd))
  }

  /** The first step fails only when `chroma_db` is missing and a file stands on the way to it,
      and then changes nothing; otherwise `chroma_db` exists afterwards, only it may have been
      added, and no file changed. */
  lemma {:induction false} PrepareMakesParent(fs: FsState, cwd: Path)
    ensures var prep := Prepare(fs, cwd);
            && (prep.outcome.Failure? <==> !fs.Exists(DbDir(cwd)) && fs.FileAbove(DbDir(cwd)))
            && (prep.outcome.Failure? ==> prep.outcome.error == NotADirectoryError(DbDir(cwd)) && prep.fs == fs)
            && (prep.outcome.Success? ==>
                  && prep.fs.Exists(DbDir(cwd))
                  && prep.fs.files == fs.files
                  && prep.fs.dirs == (if fs.Exists(DbDir(cwd)) then fs.dirs else fs.dirs + {DbDir(cwd)})
                  && (fs.Valid() ==> prep.fs.Valid()))
  {
  }

  /** The test of the code as written: the collection directory and a `config.json` in it. */
  predicate LoadConditionAsWritten(fs: FsState, savePath: Path)
  {
    fs.Exists(savePath) && fs.Exists(PathJoin(savePath, ConfigFile))
  }

  /** The intended test: the collection directory and the settings artifact save writes first. */
  predicate LoadCondition(fs: FsState, savePath: Path)
  {
    fs.Exists(savePath) && fs.Exists(PathJoin(savePath, SettingsFile))
  }

  /** Saving never makes the test of the code as written true: a collection this code saved
      into a directory without `config.json` is never found again. */
  lemma {:induction false} SavedCollectionNotFoundAsWritten(fs: FsState, savePath: Path, st: RetrieverState)
    requires !fs.Exists(PathJoin(savePath, ConfigFile))
    ensures !LoadConditionAsWritten(SaveEffect(fs, savePath, st).fs, savePath)
  {
    SaveNeverWritesConfigJson(fs, savePath, st);
    PathJoinInjective(savePath, ConfigFile, ConfigFile);
    SaveWritesThreeArtifacts(fs, savePath, st);
  }

  /** A successful save makes the intended test true, and loading then gives back what was saved
      unless constructing the clients raises. */
  lemma {:induction false} SavedCollectionIsLoaded(fs: FsState, savePath: Path, st: RetrieverState, clients: Clients)
    requires SaveEffect(fs, savePath, st).outcome.Success?
    ensures LoadCondition(SaveEffect(fs, savePath, st).fs, savePath)
    ensures LoadState(SaveEffect(fs, savePath, st).fs, savePath, clients)
            == if clients.Open().Failure? then Failure(clients.Open().error) else Success(st)
  {
    SaveWritesThreeArtifacts(fs, savePath, st);
    LoadAfterSave(fs, savePath, st, clients);
  }

  /** A successful extraction gives three lists of one length, so the arity check of the build
      never fails on them. */
  lemma {:induction false} ExtractedLockstep(fs: FsState, dir: Path, listing: Result<seq<string>, Exception>,
                          reply: (nat, VisionRequest) -> Result<string, Exception>, sent0: seq<VisionRequest>)
    requires Extract(fs, dir, listing, reply, sent0).out.Success?
    ensures var e := Extract(fs, dir, listing, reply, sent0).out.value;
            |e.images| == |e.summaries| == |e.texts|
  {
    ScanSuccess(fs, dir, Sort(listing.value), reply, sent0);
  }

  /** The code as written. The load call passes keyword arguments `load_multi_vector_retriever`
      does not declare, and so does the save call to `save_multi_vector_retriever`: Python
      rejects each call with a `TypeError` before the callee runs. `listing` is what
      `os.listdir(galleryPath)` returns, `clients` how constructing the embedding client and the
      Chroma client goes, `persisted` what Chroma finds at the persist directory and `upsert`
      how adding to that collection goes. */
  method GetMultiVectorRetrieverAsWritten(
    disk: Disk, cwd: Path, galleryPath: Path, collectionName: string,
    listing: Result<seq<string>, Exception>, chat: ChatModel, supply: IdSupply, clients: Clients,
    persisted: seq<Document>, upsert: (seq<Document>, seq<Document>) -> Result<(), Exception>)
    returns (result: Result<Retriever, Exception>, ghost docIds: seq<Id>)
    modifies disk, chat, supply
    ensures result.Failure?
    ensures var prep := Prepare(old(disk.state), cwd);
            prep.outcome.Failure? ==>
              result == Failure(prep.outcome.error) && disk.state == old(disk.state) && chat.sent == old(chat.sent)
    ensures var prep := Prepare(old(disk.state), cwd);
            var fs1 := prep.fs;
            prep.outcome.Success? && clients.embeddings.Failure? ==>
              result == Failure(clients.embeddings.error) && disk.state == fs1 && chat.sent == old(chat.sent)
    ensures var prep := Prepare(old(disk.state), cwd);
            var fs1 := prep.fs;
            prep.outcome.Success? && clients.embeddings.Success? && LoadConditionAsWritten(fs1, SavePath(cwd, collectionName)) ==>
              result.error == TypeError(LoadKwargMessage) && disk.state == fs1 && chat.sent == old(chat.sent)
    ensures var prep := Prepare(old(disk.state), cwd);
            var fs1 := prep.fs;
            var savePath := SavePath(cwd, collectionName);
            prep.outcome.Success? && clients.embeddings.Success? && !LoadConditionAsWritten(fs1, savePath) ==>
              var run := Extract(fs1, galleryPath, listing, chat.reply, old(chat.sent));
              && chat.sent == run.sent
              && (run.out.Failure? ==> result.error == run.out.error && disk.state == fs1)
              && (run.out.Success? ==>
                    var chromaOpen := OpenPersistent(fs1, savePath, clients.chroma);
                    && disk.state == chromaOpen.fs
                    && (chromaOpen.outcome.Failure? ==> result.error == chromaOpen.outcome.error)
                    && (chromaOpen.outcome.Success? ==>
                          var e := run.out.value;
                          && |docIds| == |e.images| == |e.summaries| == |e.texts| && Distinct(docIds)
                          && var adds := AddBoth(upsert, persisted, Tagged(e.summaries, docIds, IdKey), Tagged(e.texts, docIds, IdKey));
                             result.error == (if adds.out.Failure? then adds.out.error else TypeError(SaveKwargMessage))))
  {
    docIds := [];
    var dbDir := DbDir(cwd);
    if !disk.state.Exists(dbDir) {
      var made := disk.MakeDirs(dbDir);
      if made.Failure? {
        return Failure(made.error), docIds;
      }
    }
    var savePath := PathJoin(dbDir, collectionName);
    if clients.embeddings.Failure? {
      return Failure(clients.embeddings.error), docIds;
    }
    if disk.state.Exists(savePath) && disk.state.Exists(PathJoin(savePath, ConfigFile)) {
      return Failure(TypeError(LoadKwargMessage)), docIds;
    }
    var extracted := ExtractImageDataForRetrieval(disk.state, galleryPath, listing, chat);
    if extracted.Failure? {
      return Failure(extracted.error), docIds;
    }
    ExtractedLockstep(disk.state, galleryPath, listing, chat.reply, old(chat.sent));
    if clients.chroma.Failure? {
      return Failure(clients.chroma.error), docIds;
    }
    var persistDir := disk.MakeDirs(savePath);
    if persistDir.Failure? {
      return Failure(persistDir.error), docIds;
    }
    var vectorstore := new VectorStore(collectionName, Some(savePath), persisted, upsert);
    var created;
    created, docIds := CreateMultiVectorRetriever(
      vectorstore, supply, extracted.value.images, extracted.value.summaries, extracted.value.texts);
    if created.Failure? {
      return Failure(created.error), docIds;
    }
    return Failure(TypeError(SaveKwargMessage)), docIds;
  }

  /** On an empty disk with working directory `/work`, the first step creates `/work/chroma_db`
      and nothing else, and the collection `gallery` is saved under `/work/chroma_db/gallery`. */
  lemma {:induction false} FreshDiskPaths()
    ensures Prepare(FsState({}, map[]), "/work") == Step(Success(()), FsState({"/work/chroma_db"}, map[]))
    ensures SavePath("/work", "gallery") == "/work/chroma_db/gallery"
  {
    assert DbDir("/work") == "/work/chroma_db";
  }

  /** A file named `chroma_db` in the working directory passes the existence test of the first
      step, and then both opening the persistent collection beneath it and saving there fail
      with ENOTDIR. */
  lemma {:induction false} FileInPlaceOfDbDir(st: RetrieverState)
    ensures var fs := FsState({"/work"}, map["/work/chroma_db" := Bytes([])]);
            var savePath := SavePath("/work", "gallery");
            && Prepare(fs, "/work") == Step(Success(()), fs)
            && OpenPersistent(fs, savePath, Success(())).outcome == Failure(NotADirectoryError(savePath))
            && SaveEffect(fs, savePath, st).outcome == Failure(NotADirectoryError(savePath))
  {
    FreshDiskPaths();
    var savePath := "/work/chroma_db/gallery";
    assert savePath[15] == '/' && savePath[..15] == "/work/chroma_db";
  }

  /** The three artifacts' paths in `/work/chroma_db/gallery`. */
  lemma {:induction false} GalleryArtifactPaths()
    ensures PathJoin("/work/chroma_db/gallery", SettingsFile) == "/work/chroma_db/gallery/chroma_settings.json"
    ensures PathJoin("/work/chroma_db/gallery", DocstoreFile) == "/work/chroma_db/gallery/docstore.pkl"
    ensures PathJoin("/work/chroma_db/gallery", ParamsFile) == "/work/chroma_db/gallery/params.pkl"
  {
    var dir := "/work/chroma_db/gallery";
    assert dir[|dir| - 1] == 'y';
    assert PathJoin(dir, SettingsFile) == dir + "/" + SettingsFile;
    assert PathJoin(dir, DocstoreFile) == dir + "/" + DocstoreFile;
    assert PathJoin(dir, ParamsFile) == dir + "/" + ParamsFile;
  }

  /** On a fresh disk, a first run that opens the persistent collection, builds it and saves it
      leaves a state in which the test as written still fails, so a second run builds again,
      while the intended test holds and loading gives the saved retriever back. */
  lemma {:induction false} SecondRunRebuildsAsWritten(st: RetrieverState)
    ensures var prep := Prepare(FsState({}, map[]), "/work");
            var fs1 := prep.fs;
            var savePath := SavePath("/work", "gallery");
            var chromaOpen := OpenPersistent(fs1, savePath, Success(()));
            var saved := SaveEffect(chromaOpen.fs, savePath, st);
            && prep.outcome.Success? && chromaOpen.outcome.Success? && saved.outcome.Success?
            && !LoadConditionAsWritten(saved.fs, savePath)
            && LoadCondition(saved.fs, savePath)
            && LoadState(saved.fs, savePath, Clients(Success(()), Success(()))) == Success(st)
  {
    FreshDiskPaths();
    var fs1 := FsState({"/work/chroma_db"}, map[]);
    var savePath := "/work/chroma_db/gallery";
    var fs2 := FsState({"/work/chroma_db", savePath}, map[]);
    assert OpenPersistent(fs1, savePath, Success(())).fs == fs2;
    assert SaveEffect(fs2, savePath, st).outcome.Success? by {
      GalleryArtifactPaths();
      SaveWritesThreeArtifacts(fs2, savePath, st);
    }
    SavedCollectionNotFoundAsWritten(fs2, savePath, st);
    SavedCollectionIsLoaded(fs2, savePath, st, Clients(Success(()), Success(())));
  }

  /** The build branch of the intended version, after a successful extraction: open the
      persistent collection at `savePath`, build the retriever over the extracted lists and
      save it there. */
  method BuildAndSave(disk: Disk, savePath: Path, collectionName: string, e: Extracted, supply: IdSupply,
                      chroma: Result<(), Exception>, persisted: seq<Document>,
                      upsert: (seq<Document>, seq<Document>) -> Result<(), Exception>)
    returns (result: Result<Retriever, Exception>, ghost docIds: seq<Id>)
    requires |e.images| == |e.summaries| == |e.texts|
    modifies disk, supply
    ensures var chromaOpen := OpenPersistent(old(disk.state), savePath, chroma);
            && (chromaOpen.outcome.Failure? ==> result == Failure(chromaOpen.outcome.error) && disk.state == old(disk.state))
            && (chromaOpen.outcome.Success? ==>
                  && |docIds| == |e.images| && Distinct(docIds)
                  && (forall i :: 0 <= i < |docIds| ==> docIds[i] !in old(supply.Issued()))
                  && var adds := AddBoth(upsert, persisted, Tagged(e.summaries, docIds, IdKey), Tagged(e.texts, docIds, IdKey));
                     var st := RetrieverState(collectionName, PutAll(EmptyDict, Zip(docIds, e.images)), IdKey, map[]);
                     var saved := SaveEffect(chromaOpen.fs, savePath, st);
                     && (adds.out.Failure? ==> result == Failure(adds.out.error) && disk.state == chromaOpen.fs)
                     && (adds.out.Success? ==>
                           && disk.state == saved.fs
                           && (saved.outcome.Failure? ==> result == Failure(saved.outcome.error))
                           && (saved.outcome.Success? ==>
                                 && result.Success? && result.value.State() == st
                                 && result.value.vectorstore.persistDirectory == Some(savePath)
                                 && result.value.vectorstore.entries
                                    == persisted + Tagged(e.summaries, docIds, IdKey) + Tagged(e.texts, docIds, IdKey))))
  {
    docIds := [];
    if chroma.Failure? {
      return Failure(chroma.error), docIds;
    }
    var persistDir := disk.MakeDirs(savePath);
    if persistDir.Failure? {
      return Failure(persistDir.error), docIds;
    }
    var vectorstore := new VectorStore(collectionName, Some(savePath), persisted, upsert);
    var created;
    created, docIds := CreateMultiVectorRetriever(vectorstore, supply, e.images, e.summaries, e.texts);
    if created.Failure? {
      return Failure(created.error), docIds;
    }
    var retriever := created.value;
    var saved := SaveMultiVectorRetriever(retriever, disk, savePath);
    if saved.Failure? {
      return Failure(saved.error), docIds;
    }
    return Success(retriever), docIds;
  }

  /** The evidently intended version: test for the settings artifact and call load and save with
      the parameters they declare. `defaultEntries` is what the collection holds when it is
      reopened on load with no persist directory; the load constructs its own clients, which go
      as `clients` says. */
  method GetMultiVectorRetriever(
    disk: Disk, cwd: Path, galleryPath: Path, collectionName: string,
    listing: Result<seq<string>, Exception>, chat: ChatModel, supply: IdSupply, clients: Clients,
    persisted: seq<Document>, defaultEntries: seq<Document>,
    upsert: (seq<Document>, seq<Document>) -> Result<(), Exception>)
    returns (result: Result<Retriever, Exception>, ghost docIds: seq<Id>)
    modifies disk, chat, supply
    ensures var prep := Prepare(old(disk.state), cwd);
            prep.outcome.Failure? ==>
              result == Failure(prep.outcome.error) && disk.state == old(disk.state) && chat.sent == old(chat.sent)
    ensures var prep := Prepare(old(disk.state), cwd);
            var fs1 := prep.fs;
            prep.outcome.Success? && clients.embeddings.Failure? ==>
              result == Failure(clients.embeddings.error) && disk.state == fs1 && chat.sent == old(chat.sent)
    ensures var prep := Prepare(old(disk.state), cwd);
            var fs1 := prep.fs;
            var savePath := SavePath(cwd, collectionName);
            var loaded := LoadState(fs1, savePath, clients);
            prep.outcome.Success? && clients.embeddings.Success? && LoadCondition(fs1, savePath) ==>
              && disk.state == fs1 && chat.sent == old(chat.sent)
              && (loaded.Failure? ==> result == Failure(loaded.error))
              && (loaded.Success? ==>
                    result.Success? && result.value.State() == loaded.value
                    && result.value.vectorstore.entries == defaultEntries)
    ensures var prep := Prepare(old(disk.state), cwd);
            var fs1 := prep.fs;
            var savePath := SavePath(cwd, collectionName);
            var run := Extract(fs1, galleryPath, listing, chat.reply, old(chat.sent));
            prep.outcome.Success? && clients.embeddings.Success? && !LoadCondition(fs1, savePath) ==>
              && chat.sent == run.sent
              && (run.out.Failure? ==> result == Failure(run.out.error) && disk.state == fs1)
              && (run.out.Success? ==>
                    var chromaOpen := OpenPersistent(fs1, savePath, clients.chroma);
                    && (chromaOpen.outcome.Failure? ==> result == Failure(chromaOpen.outcome.error) && disk.state == fs1)
                    && (chromaOpen.outcome.Success? ==>
                          var e := run.out.value;
                          && |docIds| == |e.images| == |e.summaries| == |e.texts| && Distinct(docIds)
                          && (forall i :: 0 <= i < |docIds| ==> docIds[i] !in old(supply.Issued()))
                          && var adds := AddBoth(upsert, persisted, Tagged(e.summaries, docIds, IdKey), Tagged(e.texts, docIds, IdKey));
                             var st := RetrieverState(collectionName, PutAll(EmptyDict, Zip(docIds, e.images)), IdKey, map[]);
                             var saved := SaveEffect(chromaOpen.fs, savePath, st);
                             && (adds.out.Failure? ==> result == Failure(adds.out.error) && disk.state == chromaOpen.fs)
                             && (adds.out.Success? ==>
                                   && disk.state == saved.fs
                                   && (saved.outcome.Failure? ==> result == Failure(saved.outcome.error))
                                   && (saved.outcome.Success? ==>
                                         && result.Success? && result.value.State() == st
                                         && result.value.vectorstore.persistDirectory == Some(savePath)
                                         && result.value.vectorstore.entries
                                            == persisted + Tagged(e.summaries, docIds, IdKey) + Tagged(e.texts, docIds, IdKey)))))
  {
    docIds := [];
    var dbDir := DbDir(cwd);
    if !disk.state.Exists(dbDir) {
      var made := disk.MakeDirs(dbDir);
      if made.Failure? {
        return Failure(made.error), docIds;
      }
    }
    var savePath := PathJoin(dbDir, collectionName);
    if clients.embeddings.Failure? {
      return Failure(clients.embeddings.error), docIds;
    }
    if disk.state.Exists(savePath) && disk.state.Exists(PathJoin(savePath, SettingsFile)) {
      result := LoadMultiVectorRetriever(disk, savePath, clients, defaultEntries, upsert);
      return;
    }
    var extracted := ExtractImageDataForRetrieval(disk.state, galleryPath, listing, chat);
    if extracted.Failure? {
      return Failure(extracted.error), docIds;
    }
    ExtractedLockstep(disk.state, galleryPath, listing, chat.reply, old(chat.sent));
    result, docIds := BuildAndSave(disk, savePath, collectionName, extracted.value, supply, clients.chroma, persisted, upsert);
  }
}
