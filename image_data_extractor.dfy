/**
 * Turning a directory of .jpg images into the three parallel lists a retriever is built from:
 * the images in base64, a summary of each and the text found in each, both written by a
 * vision language model that sees the image together with a fixed prompt.
 */
module ImageDataExtractor {
  import opened Wrappers
  import opened Text
  import opened Base64
  import opened FileSystem

  const ModelName: string := "gemini-2.0-flash"
  const MaxTokens: nat := 1024
  const ImageSuffix: string := ".jpg"

  /** The prompts; each line break of the source literal is escaped, so each sentence is followed
      by its own space and the next line's four spaces of indentation. */
  const SummaryPrompt: string :=
    "You are an assistant tasked with summarizing images for retrieval.     "
    + "These summaries will be embedded and used to retrieve the raw image.     "
    + "Give a concise summary of the image that is well optimized for retrieval."
  const TextPrompt: string :=
    "You are an assistant tasked with extracting all the texts yoe see in an image for retrieval.     "
    + "These texts will be embedded and used to retrieve the raw image.     "
    + "Give all texts that you see in the image that is well optimized for retrieval."

  const DataUrlPrefix: string := "data:image/jpeg;base64,"

  /** The image part of the message: a `data:` URL holding the base64 text. */
  function DataUrl(imgBase64: string): string
  {
    DataUrlPrefix + imgBase64
  }

  /** The base64 text can be read back from the URL, so distinct images give distinct URLs. */
  lemma {:induction false} DataUrlParse(imgBase64: string)
    ensures |DataUrlPrefix| <= |DataUrl(imgBase64)|
    ensures DataUrl(imgBase64)[..|DataUrlPrefix|] == DataUrlPrefix
    ensures DataUrl(imgBase64)[|DataUrlPrefix|..] == imgBase64
  {
  }

  /** One chat invocation: model, output-token limit, the text part and the image part. */
  datatype VisionRequest = VisionRequest(model: string, maxOutputTokens: nat, prompt: string, imageUrl: string)

  function Request(imgBase64: string, prompt: string): VisionRequest
  {
    VisionRequest(ModelName, MaxTokens, prompt, DataUrl(imgBase64))
  }

  /** The remote chat model. `reply(n, req)` is its answer (or the error the client raises) to
      `req` when `req` is the `n`-th request it receives, so answers may differ from call to call. */
  class ChatModel {
    const reply: (nat, VisionRequest) -> Result<string, Exception>
    var sent: seq<VisionRequest>

    constructor(reply: (nat, VisionRequest) -> Result<string, Exception>)
      ensures this.reply == reply && sent == []
    {
      this.reply := reply;
      sent := [];
    }

    /** `chat.invoke([...]).content`. */
    method Invoke(req: VisionRequest) returns (r: Result<string, Exception>)
      modifies this
      ensures sent == old(sent) + [req]
      ensures r == reply(|old(sent)|, req)
    {
      r := reply(|sent|, req);
      sent := sent + [req];
    }
  }

  /** `prompt_query_with_image(img_base64, prompt)` with the default model and token limit. */
  method PromptQueryWithImage(chat: ChatModel, imgBase64: string, prompt: string) returns (r: Result<string, Exception>)
    modifies chat
    ensures chat.sent == old(chat.sent) + [Request(imgBase64, prompt)]
    ensures r == chat.reply(|old(chat.sent)|, Request(imgBase64, prompt))
  {
    r := chat.Invoke(Request(imgBase64, prompt));
  }

  /** `encode_image(path)`: the file's bytes in base64. The model knows the bytes of raw files
      only; a structured artifact read as an image is reported as undecodable. */
  function EncodeImage(fs: FsState, path: Path): Result<string, Exception>
  {
    var c :- fs.Read(path);
    if c.Bytes? then Success(Encode(c.data)) else Failure(DecodeError(path))
  }

  /** Encoding succeeds on raw files, and decoding its result gives back the file's bytes. */
  lemma {:induction false} EncodeImageDecodes(fs: FsState, path: Path)
    ensures EncodeImage(fs, path).Success? <==> path in fs.files && fs.files[path].Bytes?
    ensures EncodeImage(fs, path).Success? ==> Decode(EncodeImage(fs, path).value) == Success(fs.files[path].data)
  {
    if path in fs.files && fs.files[path].Bytes? {
      DecodeEncode(fs.files[path].data);
    }
  }

  /** The three parallel lists. */
  datatype Extracted = Extracted(images: seq<string>, summaries: seq<string>, texts: seq<string>)

  /** The outcome of a scan and every request it sent, the earlier ones included. */
  datatype Run = Run(out: Result<Extracted, Exception>, sent: seq<VisionRequest>)

  /** One directory entry: names not ending in ".jpg" are skipped; an image is encoded, then
      summarised, then its text extracted, and the first error ends the scan. */
  function Visit(fs: FsState, dir: Path, name: string, reply: (nat, VisionRequest) -> Result<string, Exception>,
                 acc: Extracted, sent: seq<VisionRequest>): Run
  {
    if !EndsWith(name, ImageSuffix) then Run(Success(acc), sent)
    else
      var encoded := EncodeImage(fs, PathJoin(dir, name));
      if encoded.Failure? then Run(Failure(encoded.error), sent)
      else
        var b64 := encoded.value;
        var summary := reply(|sent|, Request(b64, SummaryPrompt));
        var sent1 := sent + [Request(b64, SummaryPrompt)];
        if summary.Failure? then Run(Failure(summary.error), sent1)
        else
          var text := reply(|sent1|, Request(b64, TextPrompt));
          var sent2 := sent1 + [Request(b64, TextPrompt)];
          if text.Failure? then Run(Failure(text.error), sent2)
          else Run(Success(Extracted(acc.images + [b64], acc.summaries + [summary.value], acc.texts + [text.value])), sent2)
  }

  /** The loop over `names` in order, starting with `sent0` already sent. */
  function Scan(fs: FsState, dir: Path, names: seq<string>, reply: (nat, VisionRequest) -> Result<string, Exception>,
                sent0: seq<VisionRequest>): Run
    decreases |names|
  {
    if names == [] then Run(Success(Extracted([], [], [])), sent0)
    else
      var prev := Scan(fs, dir, names[..|names| - 1], reply, sent0);
      if prev.out.Failure? then prev
      else Visit(fs, dir, names[|names| - 1], reply, prev.out.value, prev.sent)
  }

  /** `extract_image_data_for_retrieval(image_directory)`, given what `os.listdir` returns. */
  function Extract(fs: FsState, dir: Path, listing: Result<seq<string>, Exception>,
                   reply: (nat, VisionRequest) -> Result<string, Exception>, sent0: seq<VisionRequest>): Run
  {
    if listing.Failure? then Run(Failure(listing.error), sent0)
    else Scan(fs, dir, Sort(listing.value), reply, sent0)
  }

  /** The names a scan processes, in order. */
  function Jpgs(names: seq<string>): seq<string>
    decreases |names|
  {
    if names == [] then []
    else Jpgs(names[..|names| - 1]) + (if EndsWith(names[|names| - 1], ImageSuffix) then [names[|names| - 1]] else [])
  }

  /** The two requests sent about each image, summary first. */
  function Requests(images: seq<string>): seq<VisionRequest>
    decreases |images|
  {
    if images == [] then []
    else Requests(images[..|images| - 1])
         + [Request(images[|images| - 1], SummaryPrompt), Request(images[|images| - 1], TextPrompt)]
  }

  /** What it takes for the image at `path` whose requests are numbered `k` and `k + 1` to be
      processed into `image`, `summary` and `text`. */
  ghost predicate Processed(fs: FsState, path: Path, reply: (nat, VisionRequest) -> Result<string, Exception>, k: nat,
                            image: string, summary: string, text: string)
  {
    && EncodeImage(fs, path) == Success(image)
    && reply(k, Request(image, SummaryPrompt)) == Success(summary)
    && reply(k + 1, Request(image, TextPrompt)) == Success(text)
  }

  /** Whether the image at `path` gets through when its requests are numbered `k` and `k + 1`. */
  ghost predicate Processable(fs: FsState, path: Path, reply: (nat, VisionRequest) -> Result<string, Exception>, k: nat)
  {
    && EncodeImage(fs, path).Success?
    && reply(k, Request(EncodeImage(fs, path).value, SummaryPrompt)).Success?
    && reply(k + 1, Request(EncodeImage(fs, path).value, TextPrompt)).Success?
  }

  lemma {:induction false} RequestsShape(images: seq<string>)
    ensures |Requests(images)| == 2 * |images|
    ensures forall i :: 0 <= i < |images| ==>
              Requests(images)[2 * i] == Request(images[i], SummaryPrompt)
              && Requests(images)[2 * i + 1] == Request(images[i], TextPrompt)
    decreases |images|
  {
    if images != [] {
      var n := |images| - 1;
      RequestsShape(images[..n]);
      forall i | 0 <= i < n
        ensures images[..n][i] == images[i]
      {
      }
    }
  }

  /** A successful visit of an image adds one entry to each list and sends its two requests. */
  lemma {:induction false} VisitImage(fs: FsState, dir: Path, name: string,
                                      reply: (nat, VisionRequest) -> Result<string, Exception>,
                                      acc: Extracted, sent: seq<VisionRequest>)
    requires EndsWith(name, ImageSuffix)
    ensures var r := Visit(fs, dir, name, reply, acc, sent);
            r.out.Success? <==> Processable(fs, PathJoin(dir, name), reply, |sent|)
    ensures var r := Visit(fs, dir, name, reply, acc, sent);
            r.out.Success? ==>
              var b := EncodeImage(fs, PathJoin(dir, name)).value;
              var sm := reply(|sent|, Request(b, SummaryPrompt)).value;
              var tx := reply(|sent| + 1, Request(b, TextPrompt)).value;
              && r.out.value == Extracted(acc.images + [b], acc.summaries + [sm], acc.texts + [tx])
              && r.sent == sent + [Request(b, SummaryPrompt), Request(b, TextPrompt)]
              && Processed(fs, PathJoin(dir, name), reply, |sent|, b, sm, tx)
  {
  }

  /** What a successful scan of `names` has produced: the three lists run in lockstep with the
      ".jpg" names, entry `i` of each comes from the `i`-th image, and the requests sent after
      `sent0` are the summary request and then the text request for each image. */
  ghost predicate ScannedAll(fs: FsState, dir: Path, jpgs: seq<string>,
                             reply: (nat, VisionRequest) -> Result<string, Exception>,
                             sent0: seq<VisionRequest>, e: Extracted, sent: seq<VisionRequest>)
  {
    && |e.images| == |jpgs| && |e.summaries| == |jpgs| && |e.texts| == |jpgs|
    && sent == sent0 + Requests(e.images)
    && AllProcessed(fs, dir, jpgs, reply, |sent0|, e)
  }

  /** Entry `i` of each list comes from the `i`-th image, its requests numbered from `k0 + 2 * i`. */
  ghost predicate AllProcessed(fs: FsState, dir: Path, jpgs: seq<string>,
                               reply: (nat, VisionRequest) -> Result<string, Exception>, k0: nat, e: Extracted)
    requires |e.images| == |jpgs| && |e.summaries| == |jpgs| && |e.texts| == |jpgs|
  {
    forall i :: 0 <= i < |jpgs| ==>
      Processed(fs, PathJoin(dir, jpgs[i]), reply, k0 + 2 * i, e.images[i], e.summaries[i], e.texts[i])
  }

  /** The length half of `RequestsShape`, kept on its own so that proofs needing only the
      length do not pull in the quantified half. */
  lemma {:induction false} RequestsLength(images: seq<string>)
    ensures |Requests(images)| == 2 * |images|
    decreases |images|
  {
    if images != [] {
      RequestsLength(images[..|images| - 1]);
    }
  }

  /** The requests for one more image follow those for the images before it. */
  lemma {:induction false} RequestsSnoc(images: seq<string>, b: string)
    ensures Requests(images + [b]) == Requests(images) + [Request(b, SummaryPrompt), Request(b, TextPrompt)]
  {
    assert (images + [b])[..|images|] == images;
  }

  /** One more processed image extends `AllProcessed`. */
  lemma {:induction false} AllProcessedSnoc(fs: FsState, dir: Path, before: seq<string>, name: string,
                                            reply: (nat, VisionRequest) -> Result<string, Exception>, k0: nat,
                                            p: Extracted, b: string, sm: string, tx: string)
    requires |p.images| == |before| && |p.summaries| == |before| && |p.texts| == |before|
    requires AllProcessed(fs, dir, before, reply, k0, p)
    requires Processed(fs, PathJoin(dir, name), reply, k0 + 2 * |before|, b, sm, tx)
    ensures AllProcessed(fs, dir, before + [name], reply, k0, Extracted(p.images + [b], p.summaries + [sm], p.texts + [tx]))
  {
    var jpgs := before + [name];
    var e := Extracted(p.images + [b], p.summaries + [sm], p.texts + [tx]);
    forall i | 0 <= i < |jpgs|
      ensures Processed(fs, PathJoin(dir, jpgs[i]), reply, k0 + 2 * i, e.images[i], e.summaries[i], e.texts[i])
    {
      if i < |before| {
        assert jpgs[i] == before[i];
        assert e.images[i] == p.images[i] && e.summaries[i] == p.summaries[i] && e.texts[i] == p.texts[i];
      } else {
        assert jpgs[i] == name && e.images[i] == b && e.summaries[i] == sm && e.texts[i] == tx;
      }
    }
  }

  /** One more processed image keeps `ScannedAll`. */
  lemma {:induction false} ScannedAllSnoc(fs: FsState, dir: Path, before: seq<string>, name: string,
                                          reply: (nat, VisionRequest) -> Result<string, Exception>,
                                          sent0: seq<VisionRequest>, p: Extracted, prevSent: seq<VisionRequest>,
                                          b: string, sm: string, tx: string)
    requires ScannedAll(fs, dir, before, reply, sent0, p, prevSent)
    requires Processed(fs, PathJoin(dir, name), reply, |prevSent|, b, sm, tx)
    ensures ScannedAll(fs, dir, before + [name], reply, sent0,
                       Extracted(p.images + [b], p.summaries + [sm], p.texts + [tx]),
                       prevSent + [Request(b, SummaryPrompt), Request(b, TextPrompt)])
  {
    var e := Extracted(p.images + [b], p.summaries + [sm], p.texts + [tx]);
    var two := [Request(b, SummaryPrompt), Request(b, TextPrompt)];
    assert prevSent == sent0 + Requests(p.images);
    assert prevSent + two == sent0 + Requests(e.images) by {
      RequestsSnoc(p.images, b);
    }
    assert |prevSent| == |sent0| + 2 * |before| by { RequestsLength(p.images); }
    AllProcessedSnoc(fs, dir, before, name, reply, |sent0|, p, b, sm, tx);
  }

  /** Visiting one more image keeps `ScannedAll`. */
  lemma {:induction false} ScannedAllStep(fs: FsState, dir: Path, before: seq<string>, name: string,
                                          reply: (nat, VisionRequest) -> Result<string, Exception>,
                                          sent0: seq<VisionRequest>, p: Extracted, prevSent: seq<VisionRequest>)
    requires EndsWith(name, ImageSuffix)
    requires ScannedAll(fs, dir, before, reply, sent0, p, prevSent)
    requires Visit(fs, dir, name, reply, p, prevSent).out.Success?
    ensures var r := Visit(fs, dir, name, reply, p, prevSent);
            ScannedAll(fs, dir, before + [name], reply, sent0, r.out.value, r.sent)
  {
    var b := EncodeImage(fs, PathJoin(dir, name)).value;
    var sm := reply(|prevSent|, Request(b, SummaryPrompt)).value;
    var tx := reply(|prevSent| + 1, Request(b, TextPrompt)).value;
    VisitImage(fs, dir, name, reply, p, prevSent);
    ScannedAllSnoc(fs, dir, before, name, reply, sent0, p, prevSent, b, sm, tx);
  }

  /** A successful scan has processed exactly the ".jpg" names, in order. */
  lemma {:induction false} ScanSuccess(fs: FsState, dir: Path, names: seq<string>,
                                       reply: (nat, VisionRequest) -> Result<string, Exception>, sent0: seq<VisionRequest>)
    ensures var run := Scan(fs, dir, names, reply, sent0);
            run.out.Success? ==> ScannedAll(fs, dir, Jpgs(names), reply, sent0, run.out.value, run.sent)
    decreases |names|
  {
    if names != [] {
      var n := |names| - 1;
      var prev := Scan(fs, dir, names[..n], reply, sent0);
      ScanSuccess(fs, dir, names[..n], reply, sent0);
      if prev.out.Success? {
        if EndsWith(names[n], ImageSuffix) {
          assert Jpgs(names) == Jpgs(names[..n]) + [names[n]];
          if Visit(fs, dir, names[n], reply, prev.out.value, prev.sent).out.Success? {
            ScannedAllStep(fs, dir, Jpgs(names[..n]), names[n], reply, sent0, prev.out.value, prev.sent);
          }
        } else {
          assert Jpgs(names) == Jpgs(names[..n]);
        }
      }
    }
  }

  /** Every name of `jpgs` gets through, the `i`-th with requests numbered from `k0 + 2 * i`. */
  ghost predicate AllProcessable(fs: FsState, dir: Path, jpgs: seq<string>,
                                 reply: (nat, VisionRequest) -> Result<string, Exception>, k0: nat)
  {
    forall i :: 0 <= i < |jpgs| ==> Processable(fs, PathJoin(dir, jpgs[i]), reply, k0 + 2 * i)
  }

  /** Appending one name to the list. */
  lemma {:induction false} AllProcessableSnoc(fs: FsState, dir: Path, before: seq<string>, name: string,
                                              reply: (nat, VisionRequest) -> Result<string, Exception>, k0: nat)
    ensures AllProcessable(fs, dir, before + [name], reply, k0)
            <==> AllProcessable(fs, dir, before, reply, k0) && Processable(fs, PathJoin(dir, name), reply, k0 + 2 * |before|)
  {
    var jpgs := before + [name];
    assert jpgs[|before|] == name;
    if AllProcessable(fs, dir, before, reply, k0) && Processable(fs, PathJoin(dir, name), reply, k0 + 2 * |before|) {
      forall i | 0 <= i < |jpgs| ensures Processable(fs, PathJoin(dir, jpgs[i]), reply, k0 + 2 * i) {
        if i < |before| { assert jpgs[i] == before[i]; }
      }
    }
    if AllProcessable(fs, dir, jpgs, reply, k0) {
      forall i | 0 <= i < |before| ensures Processable(fs, PathJoin(dir, before[i]), reply, k0 + 2 * i) {
        assert jpgs[i] == before[i];
      }
    }
  }

  /** One more ".jpg" name: the scan so far succeeded exactly when the names before it were
      processable, and the extended scan succeeds exactly when they and the new name are. */
  lemma {:induction false} ScanSucceedsSnoc(fs: FsState, dir: Path, before: seq<string>, name: string,
                                            reply: (nat, VisionRequest) -> Result<string, Exception>, k0: nat, prev: Run)
    requires EndsWith(name, ImageSuffix)
    requires prev.out.Success? <==> AllProcessable(fs, dir, before, reply, k0)
    requires prev.out.Success? ==> |prev.sent| == k0 + 2 * |before|
    ensures var next := if prev.out.Failure? then prev else Visit(fs, dir, name, reply, prev.out.value, prev.sent);
            next.out.Success? <==> AllProcessable(fs, dir, before + [name], reply, k0)
  {
    AllProcessableSnoc(fs, dir, before, name, reply, k0);
    if prev.out.Success? {
      VisitImage(fs, dir, name, reply, prev.out.value, prev.sent);
    }
  }

  /** A scan succeeds exactly when every ".jpg" name can be encoded and both of its requests are
      answered, the requests being numbered in order from `|sent0|`. */
  lemma {:induction false} ScanSucceedsIff(fs: FsState, dir: Path, names: seq<string>,
                                           reply: (nat, VisionRequest) -> Result<string, Exception>, sent0: seq<VisionRequest>)
    ensures Scan(fs, dir, names, reply, sent0).out.Success? <==> AllProcessable(fs, dir, Jpgs(names), reply, |sent0|)
    decreases |names|
  {
    if names != [] {
      var n := |names| - 1;
      var before := Jpgs(names[..n]);
      var prev := Scan(fs, dir, names[..n], reply, sent0);
      ScanSucceedsIff(fs, dir, names[..n], reply, sent0);
      assert Scan(fs, dir, names, reply, sent0)
             == if prev.out.Failure? then prev else Visit(fs, dir, names[n], reply, prev.out.value, prev.sent);
      if !EndsWith(names[n], ImageSuffix) {
        assert Jpgs(names) == before;
      } else {
        assert Jpgs(names) == before + [names[n]];
        assert prev.out.Success? ==> |prev.sent| == |sent0| + 2 * |before| by {
          if prev.out.Success? {
            ScanSuccess(fs, dir, names[..n], reply, sent0);
            RequestsLength(prev.out.value.images);
          }
        }
        ScanSucceedsSnoc(fs, dir, before, names[n], reply, |sent0|, prev);
      }
    }
  }

  /** Names that do not end in ".jpg" make no difference: the scan only ever looks at images. */
  lemma {:induction false} ScanOnlyImages(fs: FsState, dir: Path, names: seq<string>,
                                          reply: (nat, VisionRequest) -> Result<string, Exception>, sent0: seq<VisionRequest>)
    ensures Scan(fs, dir, names, reply, sent0) == Scan(fs, dir, Jpgs(names), reply, sent0)
    decreases |names|
  {
    if names != [] {
      var n := |names| - 1;
      ScanOnlyImages(fs, dir, names[..n], reply, sent0);
      var jpgs := Jpgs(names);
      if EndsWith(names[n], ImageSuffix) {
        assert jpgs == Jpgs(names[..n]) + [names[n]];
        assert jpgs[..|jpgs| - 1] == Jpgs(names[..n]);
        assert jpgs[|jpgs| - 1] == names[n];
      } else {
        assert jpgs == Jpgs(names[..n]);
      }
    }
  }

  /** One more name: the scan of the first `i + 1` names visits the `i`-th after the others. */
  lemma {:induction false} ScanLast(fs: FsState, dir: Path, names: seq<string>, i: nat,
                                    reply: (nat, VisionRequest) -> Result<string, Exception>, sent0: seq<VisionRequest>)
    requires i < |names|
    ensures var prev := Scan(fs, dir, names[..i], reply, sent0);
            Scan(fs, dir, names[..i + 1], reply, sent0)
            == if prev.out.Failure? then prev else Visit(fs, dir, names[i], reply, prev.out.value, prev.sent)
  {
    assert names[..i + 1][..i] == names[..i];
  }

  /** Once a scan has failed, further names change neither the error nor the requests sent. */
  lemma {:induction false} ScanFailureSticks(fs: FsState, dir: Path, names: seq<string>, k: nat,
                                             reply: (nat, VisionRequest) -> Result<string, Exception>, sent0: seq<VisionRequest>)
    requires k <= |names|
    requires Scan(fs, dir, names[..k], reply, sent0).out.Failure?
    ensures Scan(fs, dir, names, reply, sent0) == Scan(fs, dir, names[..k], reply, sent0)
    decreases |names|
  {
    if k < |names| {
      var n := |names| - 1;
      assert names[..n][..k] == names[..k];
      ScanFailureSticks(fs, dir, names[..n], k, reply, sent0);
    } else {
      assert names[..k] == names;
    }
  }

  /** The order in which `os.listdir` happens to list the entries does not matter. */
  lemma {:induction false} ExtractIgnoresListingOrder(fs: FsState, dir: Path, l1: seq<string>, l2: seq<string>,
                                   reply: (nat, VisionRequest) -> Result<string, Exception>, sent0: seq<VisionRequest>)
    requires multiset(l1) == multiset(l2)
    ensures Extract(fs, dir, Success(l1), reply, sent0) == Extract(fs, dir, Success(l2), reply, sent0)
  {
    SortedUnique(Sort(l1), Sort(l2));
  }

  /** The loop of `extract_image_data_for_retrieval`: it visits the sorted names and, for each
      image, appends its base64 text, then asks for the summary and then for the text. */
  method ExtractImageDataForRetrieval(fs: FsState, imageDirectory: Path, listing: Result<seq<string>, Exception>, chat: ChatModel)
    returns (result: Result<Extracted, Exception>)
    modifies chat
    ensures Run(result, chat.sent) == Extract(fs, imageDirectory, listing, chat.reply, old(chat.sent))
  {
    if listing.Failure? {
      return Failure(listing.error);
    }
    var names := Sort(listing.value);
    var images: seq<string> := [];
    var summaries: seq<string> := [];
    var texts: seq<string> := [];
    for i := 0 to |names|
      invariant Scan(fs, imageDirectory, names[..i], chat.reply, old(chat.sent))
                == Run(Success(Extracted(images, summaries, texts)), chat.sent)
    {
      var name := names[i];
      ghost var prev := Run(Success(Extracted(images, summaries, texts)), chat.sent);
      ScanLast(fs, imageDirectory, names, i, chat.reply, old(chat.sent));
      assert Scan(fs, imageDirectory, names[..i + 1], chat.reply, old(chat.sent))
             == Visit(fs, imageDirectory, name, chat.reply, prev.out.value, prev.sent);
      if EndsWith(name, ImageSuffix) {
        var encoded := EncodeImage(fs, PathJoin(imageDirectory, name));
        if encoded.Failure? {
          ScanFailureSticks(fs, imageDirectory, names, i + 1, chat.reply, old(chat.sent));
          return Failure(encoded.error);
        }
        var b64 := encoded.value;
        images := images + [b64];
        var summary := PromptQueryWithImage(chat, b64, SummaryPrompt);
        if summary.Failure? {
          ScanFailureSticks(fs, imageDirectory, names, i + 1, chat.reply, old(chat.sent));
          return Failure(summary.error);
        }
        summaries := summaries + [summary.value];
        var text := PromptQueryWithImage(chat, b64, TextPrompt);
        if text.Failure? {
          ScanFailureSticks(fs, imageDirectory, names, i + 1, chat.reply, old(chat.sent));
          return Failure(text.error);
        }
        texts := texts + [text.value];
      }
    }
    assert names[..|names|] == names;
    return Success(Extracted(images, summaries, texts));
  }
}
