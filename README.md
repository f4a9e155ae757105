# Multimodal search: a Dafny model of the retrieval core

This project models the core of the Multimodal_Search repository in Dafny and proves properties
of that model. The core is the multi-vector retriever:

- A gallery of `.jpg` images is summarised by a vision model, twice per image: once for a
  retrieval summary and once for the text visible in the image.
- Each image is stored in a document store under a fresh id.
- Each summary and each extracted text goes into a vector store, tagged with that id under
  `doc_id`.
- The pair of stores can be saved to three artifacts on disk and loaded back.
- `main.py` decides whether to load a saved collection or build and save a new one.

Around that core the project also models:

- the helpers in `utils.py`: saving result images, and the sampling and truncation in
  `inspect_multi_vector_retriever`;
- the result formatting of the search route;
- the path, combined text and metadata record built by the upload route;
- the tag parsing, grid column and search request of the Streamlit components.

Modules follow the source files:

| module | models |
|---|---|
| `Wrappers` | `Option`, `Result`, and the Python exceptions the code can raise |
| `Text` | decimal rendering, code-point order and `sorted`, `str.strip`, `str.split`/`join`, prefix slicing, the `s[:n] + "..."` truncation |
| `Base64` | the standard base64 alphabet with padding, as in section 4 of RFC 4648 |
| `Stores` | the document store (an insertion-ordered dict), the vector store (a list of entries that a successful add appends to), uuid4 as a supply of fresh ids |
| `FileSystem` | an abstract file system of directories and files, and a `Disk` object whose state the effectful code changes |
| `ChromaDb` | `chroma_db.py`: build, save, load |
| `ImageDataExtractor` | `image_data_extractor.py` |
| `MainFlow` | `get_multi_vector_retriever` in `main.py`, as written and as evidently intended |
| `Utils` | `utils.py` |
| `ApiSchemas` | the request and response records of `api/schemas.py` |
| `SearchRoute` | `api/routes/search.py` |
| `MediaRoute` | `api/routes/media.py` and the extension test of `services/media_service.py` |
| `UiComponents` | the modelled expressions of `ui/components.py` |

External services are parameters of the model:

- the vision model is a reply function from the call index and the request to a result;
- OCR, the embedding model of the routes and Chroma's query are functions returning a `Result`;
- constructing the embedding client (`GoogleGenerativeAIEmbeddings`, which needs an API key) and
  constructing the Chroma client are one `Result` each (`ChromaDb.Clients`);
- adding documents to a vector store (embedding them, then upserting them into Chroma) and adding
  an entry to a media collection are functions of what the collection holds and what is added,
  returning a `Result`;
- PIL is two functions returning a `Result`: its decoding of the bytes and its JPEG encoder, which
  `Image.save` runs before and after opening the output file;
- what `os.listdir` returns is a parameter, in any order.

Effectful code is imperative Dafny:

- `Retriever`, `DocStore`, `VectorStore`, `IdSupply`, `ChatModel`, `MediaCollection` and `Disk`
  are classes whose methods update their fields.
- Each loop of the source is a `for` loop proved against a recursive specification function.
  Examples are the extraction loop, the image-saving loop and the result-formatting loop.
- The properties are lemmas about those functions.

Things the code does that its names and comments suggest otherwise:

- A failing vision-model call aborts the whole extraction. Nothing degrades a failure to an
  empty string.
- Neither load nor the load-or-build decision has a "not found" result. Load raises
  `FileNotFoundError` on the first missing artifact. The decision in `main.py` tests for a
  `config.json` that save never writes (see Findings).
- Load reopens the Chroma collection by name only, with no persist directory; its entries are
  whatever Chroma opens by default. So a save followed by a load gives back the document store
  and the parameters, but not the vector entries.

## Model

| member | source | states |
|---|---|---|
| ChromaDb.CreateMultiVectorRetriever | multimodal_search/chroma_db.py:12-81 | unequal lengths raise the `AssertionError` and leave both stores and the id supply untouched; otherwise the ids are fresh and pairwise distinct, and the vector store ends as the two adds leave it (old entries, then the tagged summaries, then the tagged texts, cut off at the first add that raises); a raise is the build's result, and on success the new document store holds exactly `ids[i] -> images[i]` in order |
| ChromaDb.AddBothKeepsPrefix | multimodal_search/chroma_db.py:54-61 | the two adds succeed iff both calls do and fail with the first raise; the old entries stay in front, followed by nothing, all summaries, or all summaries and then all texts |
| ChromaDb.BuildEntriesPaired | multimodal_search/chroma_db.py:50-61 | the build adds `2n` entries; entry `i` is `summaries[i]` and entry `n+i` is `texts[i]`, and both carry `doc_id = ids[i]` |
| ChromaDb.BuildIndexConsistent | multimodal_search/chroma_db.py:42-61 | after build, every new entry's tag resolves to a document-store key, and every key is tagged by exactly two new entries |
| ChromaDb.CountTaggedDistinct | multimodal_search/chroma_db.py:50-53 | with distinct ids, each id tags exactly one entry of one tagged list, and ids not in the list tag none |
| ChromaDb.SaveMultiVectorRetriever | multimodal_search/chroma_db.py:84-113 | the outcome and the new disk are those of the save effect: make the directory, then write the settings, the store dump and the params, stopping at the first failure |
| ChromaDb.SaveWritesThreeArtifacts | multimodal_search/chroma_db.py:93-113 | save succeeds iff neither the base path nor any directory on the way to it is a file, and none of the three artifact paths is a directory; then it adds the base directory and exactly the three files (collection name, document store, `id_key` with `search_kwargs`), and every other file is unchanged |
| ChromaDb.ArtifactPathsDistinct | multimodal_search/chroma_db.py:100-112 | the three artifact paths differ from each other and from the base path |
| ChromaDb.LoadMultiVectorRetriever | multimodal_search/chroma_db.py:116-153 | load fails with the first error in source order: a missing or malformed settings artifact, then constructing the embedding and Chroma clients, then a missing or malformed docstore or params artifact; otherwise the new retriever has the saved collection name, document store, `id_key` and `search_kwargs`, and a vector store opened with no persist directory |
| ChromaDb.LoadAfterSave | multimodal_search/chroma_db.py:84-153 | loading right after a successful save gives back exactly the saved retriever state, unless constructing a client raises, and then that error |
| ChromaDb.OpenPersistent | multimodal_search/main.py:72-77 | constructing Chroma with a persist directory: a raising construction is the error and leaves the disk alone; otherwise it succeeds iff no file stands at the directory or on the way to it, and then exactly that directory is added |
| ChromaDb.LoadNeedsAllArtifacts | multimodal_search/chroma_db.py:127-143 | a load that succeeds found all three artifacts and constructed both clients |
| ChromaDb.SaveNeverWritesConfigJson | multimodal_search/chroma_db.py:96-113 | save never creates or removes `config.json` in the collection directory |
| Stores.OrderedDict.Put | multimodal_search/chroma_db.py:47 | a put maps the key to the value, appends a new key to the key order and keeps the order of an existing key, and keeps the store well formed |
| Stores.Zip | multimodal_search/chroma_db.py:47 | `zip` is as long as the shorter list and pairs equal indexes |
| Stores.PutAllDistinct | multimodal_search/chroma_db.py:47 | `mset` of pairs with distinct keys into an empty store gives exactly those keys, in order, each mapped to its value |
| Stores.PutAllZip | multimodal_search/chroma_db.py:45-47 | `mset(zip(ids, images))` with distinct ids gives keys `ids` mapped to `images` index by index |
| Stores.DocStore.MSet | multimodal_search/chroma_db.py:47 | the store becomes the old store with the pairs put in order, and stays well formed |
| Stores.VectorStore.AddDocuments | multimodal_search/chroma_db.py:54 | the result is how embedding and upserting the documents goes; on success they are appended after the existing entries, and a raise leaves the entries unchanged |
| Stores.IdSupply.Fresh | multimodal_search/chroma_db.py:45 | the id was never issued before, and only it is added to the issued set |
| FileSystem.PathJoinInjective | multimodal_search/chroma_db.py:100 | joining one directory with two relative names gives equal paths iff the names are equal, and never gives the directory back |
| FileSystem.FsState.Read | multimodal_search/chroma_db.py:127-128 | reading succeeds iff the path is a file, with its content |
| FileSystem.FsState.MakeDirs | multimodal_search/chroma_db.py:93 | `makedirs(exist_ok=True)` succeeds iff neither the path nor any directory on the way to it is a file, failing with `NotADirectoryError` for a file further up and `FileExistsError` for a file at the path; on success it adds just that directory, and it keeps the file system well formed |
| FileSystem.FsState.Remove | multimodal_search/utils.py:15 | `os.remove` succeeds iff the path is a file and then drops exactly that file; a directory gives `IsADirectoryError` |
| FileSystem.FsState.Write | multimodal_search/chroma_db.py:100-101 | `open(path, "w")` succeeds iff the directory exists and the path is not a directory; then exactly that file is set; a file in place of the directory is `NotADirectoryError`, a missing directory `FileNotFoundError` |
| FileSystem.Disk.MakeDirs | multimodal_search/main.py:25-26 | the disk's new state and outcome are those of `MakeDirs` on its old state |
| FileSystem.Disk.Write | api/routes/media.py:34-35 | the disk's new state and outcome are those of `Write` on its old state |
| ImageDataExtractor.DataUrlParse | multimodal_search/image_data_extractor.py:34 | the image URL is `data:image/jpeg;base64,` followed by the base64 text unchanged, as in section 3 of RFC 2397 |
| ImageDataExtractor.ChatModel.Invoke | multimodal_search/image_data_extractor.py:24-40 | one call records one request and returns the model's reply to it |
| ImageDataExtractor.PromptQueryWithImage | multimodal_search/image_data_extractor.py:15-40 | one request is sent, carrying the prompt and the image, and its reply is returned |
| ImageDataExtractor.EncodeImageDecodes | multimodal_search/image_data_extractor.py:9-12 | encoding succeeds iff the path is a byte file, and the text decodes back to exactly its bytes |
| ImageDataExtractor.VisitImage | multimodal_search/image_data_extractor.py:75-83 | one `.jpg` succeeds iff it encodes and both model calls succeed; then its image, summary and text are appended to the three lists, and the summary prompt is sent before the text prompt |
| ImageDataExtractor.RequestsShape | multimodal_search/image_data_extractor.py:81-83 | images give twice as many requests; request `2i` is the summary prompt and `2i+1` the text prompt for image `i` |
| ImageDataExtractor.ScanSuccess | multimodal_search/image_data_extractor.py:57-85 | a successful pass gives three lists as long as the `.jpg` names; entry `i` of each list comes from the `i`-th `.jpg`, each from the same encoded image, and exactly the requests for those images were sent, in order |
| ImageDataExtractor.ScanSucceedsIff | multimodal_search/image_data_extractor.py:74-83 | the pass succeeds iff every `.jpg` encodes and every one of its model calls succeeds |
| ImageDataExtractor.ScanOnlyImages | multimodal_search/image_data_extractor.py:75 | the pass behaves as if the listing held only the names ending in `.jpg` |
| ImageDataExtractor.ScanFailureSticks | multimodal_search/image_data_extractor.py:74-83 | once a prefix of the listing fails, the whole pass fails the same way and sends no further requests |
| ImageDataExtractor.ExtractIgnoresListingOrder | multimodal_search/image_data_extractor.py:74 | because the listing is sorted, two listings with the same names give the same result |
| ImageDataExtractor.ExtractImageDataForRetrieval | multimodal_search/image_data_extractor.py:43-85 | the loop's result and the requests it sends are those of the extraction function |
| MainFlow.PrepareMakesParent | multimodal_search/main.py:24-26 | the first step fails iff `<cwd>/chroma_db` is missing and a file stands on the way to it, with `NotADirectoryError` and no change; otherwise `<cwd>/chroma_db` exists afterwards, only it may have been added, and no file changes |
| MainFlow.FileInPlaceOfDbDir | multimodal_search/main.py:25-77 | a file named `chroma_db` passes the existence test of the first step, and then both opening the persistent collection beneath it and saving there fail with `NotADirectoryError` |
| MainFlow.ExtractedLockstep | multimodal_search/main.py:67-86 | a successful extraction gives three lists of one length, so the build's arity check passes on them |
| MainFlow.GetMultiVectorRetrieverAsWritten | multimodal_search/main.py:12-98 | the code as written always fails: the parent directory is made, and a failing makedirs is the error with nothing else done; a raising embedding-client construction is the error and nothing is sent; with `config.json` present, the load call's `TypeError`; otherwise the extraction's error, else the Chroma construction's (which on success creates the persist directory), else the error of a vector-store add that raises during the build, else the save call's `TypeError` |
| MainFlow.SavedCollectionNotFoundAsWritten | multimodal_search/main.py:35 | a save never makes the test for `config.json` true |
| MainFlow.SecondRunRebuildsAsWritten | multimodal_search/main.py:35 | on a fresh disk, a collection opened and saved at `<cwd>/chroma_db/<name>` still fails the test as written, so the next run rebuilds it; the intended test holds, and load returns what was saved |
| MainFlow.FreshDiskPaths | multimodal_search/main.py:24-29 | on an empty disk, the first step creates just `/work/chroma_db`, and the collection `gallery` is saved under `/work/chroma_db/gallery` |
| MainFlow.SavedCollectionIsLoaded | multimodal_search/main.py:35 | after a successful save, the test for the settings artifact holds and load returns the saved state, or the error of a raising client construction |
| MainFlow.BuildAndSave | multimodal_search/main.py:72-98 | after extraction: a raising Chroma construction or a file at the persist directory is the error with the disk unchanged; otherwise the build draws fresh distinct ids, a raising vector-store add is the result, and else the disk and result are those of the save, the new vector store persisting at the collection directory with old entries, then summaries, then texts |
| MainFlow.GetMultiVectorRetriever | multimodal_search/main.py:12-98 | the corrected flow. A failing makedirs of the parent directory is the error with nothing else done. A raising embedding-client construction is the error, with nothing sent. With a saved collection, nothing is sent to the model and the result is exactly the load. Otherwise the extraction runs; on success a raising Chroma construction is the error and leaves the disk as the first step left it, else the persist directory is created, the build gets the three lists unchanged and draws fresh distinct ids; a vector-store add that raises is the result; otherwise the store maps the ids to the images, the new vector store persists at `<cwd>/chroma_db/<name>` holding old entries, then summaries, then texts, and the disk and the result are those of the save |
| Utils.OutputPathInjective | multimodal_search/utils.py:24 | result files `outputs/result_image_{i}.jpg` have pairwise distinct names, none of them `outputs` itself |
| Utils.ConvertedEncoded | multimodal_search/utils.py:9-15 | decoding then converting an encoded image is PIL's decoding and JPEG encoding of its original bytes |
| Utils.SaveBase64Image | multimodal_search/utils.py:6-15 | the disk's new state and outcome are those of `b64decode`, PIL's decoding, the truncating open of the output, the JPEG encoder and the write, in that order, with a file the failed save created removed again |
| Utils.SaveOneEffect | multimodal_search/utils.py:6-15 | one save succeeds iff the bytes convert and the output can be opened, and then sets exactly that file; an encoder failure leaves an existing output file empty and no new file; every earlier error leaves the disk unchanged |
| Utils.SaveImagesFromResults | multimodal_search/utils.py:17-28 | the loop's outcome and disk are those of the saving function |
| Utils.SaveAllSucceedsIff | multimodal_search/utils.py:20-27 | saving succeeds iff `outputs` is not a file, every result decodes and converts, and no output path is a directory |
| Utils.SaveAllDirs | multimodal_search/utils.py:20 | after a successful save the `outputs` directory exists, and it is the only directory added |
| Utils.SaveAllWritesOnePerResult | multimodal_search/utils.py:22-27 | a successful save writes exactly one file per result, file `i` holding result `i` converted, and all other files are unchanged |
| Utils.SaveAllFailureSticks | multimodal_search/utils.py:22-27 | the first failing result stops the loop, and later results write nothing |
| Utils.InspectMultiVectorRetriever | multimodal_search/utils.py:30-176 | the method's report is that of the inspection function on the retriever's document store |
| Utils.MGetEachShape | multimodal_search/utils.py:65-67 | one `mget` per key, in order, each the store's value or nothing |
| Utils.InspectDocstore | multimodal_search/utils.py:52-77 | `total_docs` counts the keys; the sample keys are a prefix of the keys of length `min(max_display_items, count)`; sample document `i` is sample key `i`'s value, shown shortened to 100 characters |
| Utils.InspectVectors | multimodal_search/utils.py:105-158 | the sample vectors are a prefix of the vector store's documents of length `min(max_display_items, count)`, shown shortened to 50 characters; the test query is the first sample shortened to 50 characters, and the retrieval of that query is reported |
| Utils.InspectCatches | multimodal_search/utils.py:89-158 | failures reading the vector count give `"Error"`; with neither attribute the count is `"Unknown"` and there are no samples; a failing retrieval gives an empty list; nothing is raised |
| Utils.ShortenAll | multimodal_search/utils.py:68-70 | each document of a list is shortened with the same limit, index by index |
| Text.ShortenShape | multimodal_search/utils.py:68-70 | a string within the limit is unchanged; a longer one becomes its first `limit` characters followed by `...` |
| Text.ShortenFixpoint | multimodal_search/utils.py:68-70 | shortening leaves a string unchanged iff it is within the limit or already ends in `...` right after the limit |
| Text.ShortenIdempotent | multimodal_search/utils.py:68-70 | shortening twice is shortening once |
| Text.PrefixSlice | multimodal_search/utils.py:108 | a Python slice `s[:k]` is a prefix of `s`, of length `min(k, len(s))` for `k >= 0` and counted from the end for negative `k` |
| Text.Sort | multimodal_search/image_data_extractor.py:74 | `sorted` gives an ordered permutation of the listing |
| Text.SortedUnique | multimodal_search/image_data_extractor.py:74 | two ordered permutations of one listing are equal, so the sorting is independent of the input order |
| Text.NatToStringInjective | multimodal_search/utils.py:24 | distinct indexes give distinct decimal strings |
| Text.Split | ui/components.py:47 | `str.split(sep)` gives at least one piece |
| Text.SplitPieces | ui/components.py:47 | no piece of `str.split(sep)` contains the separator |
| Text.JoinSplit | ui/components.py:47 | joining the pieces of a split with the separator gives the input back |
| Text.SplitAppend | ui/components.py:47 | splitting `a + sep + b` splits `a` and `b` and concatenates the pieces |
| Text.SplitJoin | api/routes/media.py:41 | splitting a join of separator-free pieces gives the pieces back |
| Text.StripInfix | ui/components.py:47 | `str.strip` removes only leading and trailing whitespace: the result is a contiguous part of the input whose ends are not whitespace |
| Text.StripEmpty | ui/components.py:47 | stripping gives the empty string iff the input is all whitespace |
| Text.StripKeeps | ui/components.py:47 | a stripped non-empty string is unchanged by stripping, even with one space in front |
| Base64.DecodeEncode | multimodal_search/utils.py:9 | decoding the base64 text of any bytes gives the bytes back |
| Base64.EncodeLength | multimodal_search/image_data_extractor.py:12 | the text has four characters for every started group of three bytes |
| Base64.EncodeAlphabet | multimodal_search/image_data_extractor.py:12 | every character of the text is in the base64 alphabet or is the pad `=` |
| Base64.DecodeLength | multimodal_search/utils.py:9 | text that decodes has a length divisible by four and decodes to between `3k-2` and `3k` bytes for `k` groups |
| SearchRoute.FormatFirstShape | api/routes/search.py:26-32 | the first `n` results come out in order, result `i` being `(ids[i], metadatas[0][i], distances[i])`; they fail iff a needed metadata entry is missing |
| SearchRoute.FormatShape | api/routes/search.py:26-32 | formatting gives `min(len(ids[0]), len(distances[0]))` results, with id, metadata and raw distance index by index; it fails iff a row or a metadata entry is missing |
| SearchRoute.FormatFailureSticks | api/routes/search.py:26-32 | once a prefix fails, the whole formatting fails the same way |
| SearchRoute.FormatResults | api/routes/search.py:26-34 | the loop's result is that of the formatting function |
| SearchRoute.HandleSearch | api/routes/search.py:9-37 | the route's result is that of the search function: open, embed, query, format, with every error caught |
| SearchRoute.SearchErrorsAre500 | api/routes/search.py:36-37 | the route fails iff a step fails, and then with status 500 and a detail that is `Error during search: ` followed by that step's message |
| SearchRoute.SearchAsksForLimit | api/routes/search.py:17-23 | the answer depends on the database only through one request: the query's embedding, asking for `limit` results from the named collection |
| MediaRoute.RFind | api/routes/media.py:31 | the last index of a character, or -1 if it does not occur |
| MediaRoute.SplitExtParts | api/routes/media.py:31 | `os.path.splitext` splits the name into root and extension; the extension is empty or one dot followed by characters that are neither dots nor slashes, and a non-empty extension has a character other than a dot before it in the last path component, so leading dots alone do not start one |
| MediaRoute.LowerShape | api/routes/media.py:31 | lowering leaves no upper-case ASCII letter, keeps every other character, and is idempotent |
| MediaRoute.ExtensionShape | api/routes/media.py:31 | the lowered extension is empty or a dot followed by characters that are neither dots nor slashes |
| MediaRoute.UploadPathParts | api/routes/media.py:32 | the file path is `data/uploads/`, then the media id, then the extension |
| MediaRoute.UploadPathInjective | api/routes/media.py:27-32 | two uploads with distinct ids never share a file path |
| MediaRoute.CombinedTextSplits | api/routes/media.py:41 | for space-free parts, the combined text splits on spaces into the description (default empty), the extracted text and the tags (default none) |
| MediaRoute.RecordMetadataRoundTrip | api/routes/media.py:51-58 | the stored metadata has exactly the six fields, and the record can be read back from it |
| MediaRoute.MediaCollection.Add | api/routes/media.py:48-59 | the result is how Chroma takes the entry; on success one entry with the id, embedding and metadata is appended, and a raise leaves the collection unchanged |
| MediaRoute.MetadataFields | api/routes/media.py:41 | `.get` on the parsed metadata succeeds iff it is a JSON object, giving its fields; any other JSON value raises `AttributeError` naming its type |
| MediaRoute.NonObjectMetadataFailsAfterWrite | api/routes/media.py:24-41 | metadata that parses to a JSON value other than an object lets the write and OCR happen, then fails with the `AttributeError` 500, the index unchanged and the uploaded bytes left on disk |
| MediaRoute.UploadMedia | api/routes/media.py:12-68 | the route's response, disk and index are those of the upload function: collection, `json.loads`, id, file write, OCR, `metadata_dict.get`, embedding and `collection.add` in source order, the first failure giving the 500; one fresh id is drawn once the collection is ready and the metadata parses, and none otherwise |
| MediaRoute.UploadUsesOneId | api/routes/media.py:27-65 | a successful upload appends one entry whose id, response id and file-path stem are the same media id, whose metadata names the saved path and file name, and whose file holds the uploaded bytes |
| MediaRoute.UploadFailures | api/routes/media.py:19-68 | a failure gives status 500 with detail prefix `Error processing upload: ` and an unchanged index; the file is written once the collection is ready and the metadata parses, and nothing is written before that |
| UiComponents.ParseTagsClean | ui/components.py:47 | parsed tags are non-empty, have no surrounding whitespace and contain no comma |
| UiComponents.ParseTagsAppend | ui/components.py:47 | tags keep their left-to-right order: parsing `a,b` parses `a` and then `b` |
| UiComponents.ParseTagsEmpty | ui/components.py:47 | parsing gives no tags iff the input is only commas and whitespace |
| UiComponents.ParseTagsJoin | ui/components.py:47 | parsing the `, `-joined form of clean tags, as the results view shows them, gives the tags back |
| UiComponents.ColumnOf | ui/components.py:76 | the column index always lies in `0..2` |
| UiComponents.ColumnsCycle | ui/components.py:74-77 | the columns repeat every three results, three consecutive results take three different columns, and the first three take columns 0, 1 and 2 |
| UiComponents.SearchMediaRequest | ui/components.py:148-160 | the reply depends only on one POST to `<api>/search` with query, collection name and limit; a failing request gives `{"results": []}` |
| UiComponents.SearchMediaThroughRoute | ui/components.py:148-160 | with the default limit, 10, a POST answered by the search route yields the route's results, or a body whose detail starts with `Error during search: ` |

## Left out

- Vision model, embedding model, OCR, PIL's decoding and encoding and Chroma's search are external services. Each is a
  function parameter; their internals, and retrieval ranking and tie-breaking, are library code
  that is not part of this model.
- `ImageDataExtractor.EncodeImage`: a path that is a structured (pickled or JSON) artifact rather than raw
  bytes gives `DecodeError` in the model; Python would read its raw bytes anyway.
- `Base64.Decode` is strict: it rejects characters outside the alphabet and wrong padding,
  where `base64.b64decode` by default discards non-alphabet characters. Only text produced by
  `Encode` is decoded by the modelled code paths, and on those the two agree.
- `MediaRoute.Lower` lowers ASCII letters only; Python's `str.lower` also lowers other scripts.
- Progress bars (`tqdm`), every `print`, and all Streamlit rendering are output only.
- The upload form of `ui/components.py:38-50`, nested under the video preview, is rendering; only its tag
  comprehension (line 47) is modelled. `get_collections`, `create_collection` and `upload_media` in the
  UI are plain HTTP calls and are not modelled.
- Pickle, JSON and Chroma's own persistence formats are abstract: an artifact holds the value
  written, and Chroma's writes of its vectors are not modelled.
- `ChromaDb.OpenPersistent` creates only the persist directory; the SQLite database and index files
  Chroma writes inside it are library files not modelled. A raising construction is modelled as
  raising before it creates the directory.
- `FileSystem.FsState.Read` and `FileSystem.FsState.Write` do not split paths into components: a file
  where a directory further up the path should be gives `FileNotFoundError` in the model, where
  Python gives `NotADirectoryError`; only the immediate directory of a write is distinguished.
- `os.makedirs` in the model adds just the named directory, not its missing ancestors.
- `FileSystem.FsState.MakeDirs`: when a file stands further up the path, the `NotADirectoryError` names
  the whole path, where Python names the first directory it tries to make below that file.
- The floating-point average `vectors_per_doc` (multimodal_search/utils.py:172-174) and the
  score formatting of `ui/components.py:98` are floating-point display and are not modelled.
- `MediaRoute.Upload`: inside a metadata object, only a string `description` and a list of strings as `tags` are represented. Python would also format a number as the description and join a string `tags` character by character (`"ab"` gives `a b`); those inputs are not modelled.
- `Stores.VectorStore.AddDocuments` and `MediaRoute.MediaCollection.Add`: a raise is modelled as adding nothing; a partly written batch inside Chroma is library behaviour not modelled here.
- `backend/server.py` and `multimodal_search/search.py` import names that do not exist and are
  not modelled; nor are `api/app.py`, `frontend/app.py`, `api/routes/collections.py`,
  `services/db_service.py`, `models/model_adapter.py` and the `main()` command line of
  `main.py`.
- `MediaRoute.ProcessMediaFile` models which extensions go to OCR; the image decoding and OCR of `services/media_service.py:11-13` are one function parameter.
- uuid4 is modelled as a supply of fresh decimal ids; only their distinctness is used.
- Time, timeouts and retries: the code has none.

## Findings

| source | as written | input that shows it | evidently intended | confidence | as-written member | corrected member |
|---|---|---|---|---|---|---|
| multimodal_search/main.py:48-56, 91-95 | `load_multi_vector_retriever` is called with `vectorstore_load_func` and `vectorstore_load_kwargs`, and `save_multi_vector_retriever` with `vectorstore_save_method`; neither function declares them (multimodal_search/chroma_db.py:84, 116) | any call: the build branch raises `TypeError` at the save call after building, and the load branch raises it at the load call | call load and save with the parameters they declare | not executed | MainFlow.GetMultiVectorRetrieverAsWritten | MainFlow.GetMultiVectorRetriever |
| multimodal_search/main.py:35 | the load branch needs `config.json` in the collection directory, which save never writes | a fresh disk, working directory `/work`, collection `gallery`, with save called as declared: after the first run saves, the second run still takes the build branch (as written, the first finding masks this one: the first run raises at the save call before anything is saved) | test for `chroma_settings.json`, the first artifact save writes | not executed | MainFlow.SecondRunRebuildsAsWritten | MainFlow.SavedCollectionIsLoaded |
