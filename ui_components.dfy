/**
 * The logic inside the Streamlit UI: the tag list read from the comma-separated tags field,
 * the column each search result is placed in, and the request `search_media` sends, with
 * its fallback when the request fails.
 */
module UiComponents {
  import opened Wrappers
  import opened Text
  import opened ApiSchemas
  import opened SearchRoute

  const GridColumns: nat := 3

  // ---------------------------------------------------------------------------
  // Tags
  // ---------------------------------------------------------------------------

  /** `[p.strip() for p in parts if p.strip()]`. */
  function StripNonEmpty(parts: seq<string>): seq<string>
    decreases |parts|
  {
    if parts == [] then []
    else (if Strip(parts[0]) != [] then [Strip(parts[0])] else []) + StripNonEmpty(parts[1..])
  }

  /** `[tag.strip() for tag in tags.split(",") if tag.strip()]`. */
  function ParseTags(tags: string): seq<string>
  {
    StripNonEmpty(Split(tags, ','))
  }

  lemma {:induction false} StripNonEmptyAppend(a: seq<string>, b: seq<string>)
    ensures StripNonEmpty(a + b) == StripNonEmpty(a) + StripNonEmpty(b)
    decreases |a|
  {
    if a != [] {
      assert (a + b)[0] == a[0] && (a + b)[1..] == a[1..] + b;
      StripNonEmptyAppend(a[1..], b);
    } else {
      assert a + b == b;
    }
  }

  /** What a tag the UI sends looks like: not empty, no whitespace at either end, no comma. */
  predicate CleanTag(t: string)
  {
    t != [] && Stripped(t) && ',' !in t
  }

  ghost predicate AllClean(tags: seq<string>)
  {
    forall i :: 0 <= i < |tags| ==> CleanTag(tags[i])
  }

  ghost predicate NoComma(parts: seq<string>)
  {
    forall i :: 0 <= i < |parts| ==> ',' !in parts[i]
  }

  lemma {:induction false} StripNoComma(p: string)
    requires ',' !in p
    ensures ',' !in Strip(p)
  {
    var t := TrimStart(p);
    TrimStartShape(p);
    assert ',' !in t by { assert t == p[|p| - |t|..]; }
    var r := TrimEnd(t);
    TrimEndShape(t);
    assert r == t[..|r|];
  }

  lemma {:induction false} StripNonEmptyClean(parts: seq<string>)
    requires NoComma(parts)
    ensures AllClean(StripNonEmpty(parts))
    decreases |parts|
  {
    if parts != [] {
      assert NoComma(parts[1..]) by {
        forall i | 0 <= i < |parts[1..]| ensures ',' !in parts[1..][i] {
          assert parts[1..][i] == parts[i + 1];
        }
      }
      StripNonEmptyClean(parts[1..]);
      var head := if Strip(parts[0]) != [] then [Strip(parts[0])] else [];
      assert AllClean(head) by {
        if Strip(parts[0]) != [] {
          assert ',' !in parts[0];
          StripNoComma(parts[0]);
          StripInfix(parts[0]);
        }
      }
      var tail := StripNonEmpty(parts[1..]);
      forall i | 0 <= i < |head + tail| ensures CleanTag((head + tail)[i]) {
        if i < |head| { assert (head + tail)[i] == head[i]; } else { assert (head + tail)[i] == tail[i - |head|]; }
      }
    }
  }

  /** Every parsed tag is non-empty, has no whitespace at either end and holds no comma. */
  lemma {:induction false} ParseTagsClean(tags: string)
    ensures AllClean(ParseTags(tags))
  {
    var parts := Split(tags, ',');
    SplitPieces(tags, ',');
    assert NoComma(parts);
    StripNonEmptyClean(parts);
  }

  /** Tags keep their order: the tags of `a + "," + b` are those of `a` followed by those of `b`. */
  lemma {:induction false} ParseTagsAppend(a: string, b: string)
    ensures ParseTags(a + "," + b) == ParseTags(a) + ParseTags(b)
  {
    SplitAppend(a, b, ',');
    StripNonEmptyAppend(Split(a, ','), Split(b, ','));
  }

  /** Every piece is whitespace only. */
  ghost predicate AllPiecesSpace(pieces: seq<string>)
  {
    forall i :: 0 <= i < |pieces| ==> AllSpace(pieces[i])
  }

  /** Only commas and whitespace. */
  predicate Blank(s: string)
  {
    forall i :: 0 <= i < |s| ==> s[i] == ',' || IsSpace(s[i])
  }

  lemma {:induction false} AllSpaceCons(c: char, s: string)
    ensures AllSpace([c] + s) <==> IsSpace(c) && AllSpace(s)
  {
    var t := [c] + s;
    if AllSpace(t) {
      assert t[0] == c;
      forall i | 0 <= i < |s| ensures IsSpace(s[i]) { assert s[i] == t[i + 1]; }
    }
    if IsSpace(c) && AllSpace(s) {
      forall i | 0 <= i < |t| ensures IsSpace(t[i]) { if i > 0 { assert t[i] == s[i - 1]; } }
    }
  }

  lemma {:induction false} BlankCons(c: char, s: string)
    ensures Blank([c] + s) <==> (c == ',' || IsSpace(c)) && Blank(s)
  {
    var t := [c] + s;
    if Blank(t) {
      assert t[0] == c;
      forall i | 0 <= i < |s| ensures s[i] == ',' || IsSpace(s[i]) { assert s[i] == t[i + 1]; }
    }
    if (c == ',' || IsSpace(c)) && Blank(s) {
      forall i | 0 <= i < |t| ensures t[i] == ',' || IsSpace(t[i]) { if i > 0 { assert t[i] == s[i - 1]; } }
    }
  }

  lemma {:induction false} AllPiecesSpaceCons(p: string, ps: seq<string>)
    ensures AllPiecesSpace([p] + ps) <==> AllSpace(p) && AllPiecesSpace(ps)
  {
    var t := [p] + ps;
    if AllPiecesSpace(t) {
      assert t[0] == p;
      forall i | 0 <= i < |ps| ensures AllSpace(ps[i]) { assert ps[i] == t[i + 1]; }
    }
    if AllSpace(p) && AllPiecesSpace(ps) {
      forall i | 0 <= i < |t| ensures AllSpace(t[i]) { if i > 0 { assert t[i] == ps[i - 1]; } }
    }
  }

  lemma {:induction false} StripNonEmptyBlank(parts: seq<string>)
    ensures StripNonEmpty(parts) == [] <==> AllPiecesSpace(parts)
    decreases |parts|
  {
    if parts != [] {
      StripNonEmptyBlank(parts[1..]);
      StripEmpty(parts[0]);
      assert parts == [parts[0]] + parts[1..];
      AllPiecesSpaceCons(parts[0], parts[1..]);
    }
  }

  lemma {:induction false} PiecesBlank(s: string)
    ensures AllPiecesSpace(Split(s, ',')) <==> Blank(s)
    decreases |s|
  {
    if s != [] {
      PiecesBlank(s[1..]);
      var rest := Split(s[1..], ',');
      assert s == [s[0]] + s[1..];
      BlankCons(s[0], s[1..]);
      if s[0] == ',' {
        AllPiecesSpaceCons("", rest);
      } else {
        assert rest == [rest[0]] + rest[1..];
        AllPiecesSpaceCons([s[0]] + rest[0], rest[1..]);
        AllPiecesSpaceCons(rest[0], rest[1..]);
        AllSpaceCons(s[0], rest[0]);
      }
    }
  }

  /** The field yields no tags exactly when it holds nothing but commas and whitespace. */
  lemma {:induction false} ParseTagsEmpty(tags: string)
    ensures ParseTags(tags) == [] <==> Blank(tags)
  {
    StripNonEmptyBlank(Split(tags, ','));
    PiecesBlank(tags);
  }

  /** `[" " + tags[0], " " + tags[1], ...]`. */
  function Prefixed(tags: seq<string>): (r: seq<string>)
    ensures |r| == |tags|
    ensures forall i :: 0 <= i < |tags| ==> r[i] == " " + tags[i]
    decreases |tags|
  {
    if tags == [] then [] else [" " + tags[0]] + Prefixed(tags[1..])
  }

  /** The pieces `", ".join(parts)` splits into at its commas: the first part, then the rest
      each with the blank that followed the comma. */
  function Spaced(parts: seq<string>): seq<string>
    requires parts != []
  {
    [parts[0]] + Prefixed(parts[1..])
  }

  lemma {:induction false} JoinBlankHead(a: string, rest: seq<string>)
    ensures Join([" " + a] + rest, ",") == " " + Join([a] + rest, ",")
  {
    if rest != [] {
      assert ([" " + a] + rest)[1..] == rest;
      assert ([a] + rest)[1..] == rest;
    }
  }

  lemma {:induction false} JoinSpaced(parts: seq<string>)
    requires parts != []
    ensures Join(parts, ", ") == Join(Spaced(parts), ",")
    decreases |parts|
  {
    if |parts| >= 2 {
      var tail := parts[1..];
      JoinSpaced(tail);
      assert Prefixed(tail) == [" " + tail[0]] + Prefixed(tail[1..]);
      JoinBlankHead(tail[0], Prefixed(tail[1..]));
      assert Spaced(parts)[1..] == Prefixed(tail);
    }
  }

  lemma {:induction false} StripNonEmptyPrefixed(tags: seq<string>)
    requires AllClean(tags)
    ensures StripNonEmpty(Prefixed(tags)) == tags
    decreases |tags|
  {
    if tags != [] {
      var head, tail := tags[0], tags[1..];
      var ps := Prefixed(tags);
      assert ps == [" " + head] + Prefixed(tail);
      assert Strip(" " + head) == head by {
        assert CleanTag(head);
        StripKeeps(head);
      }
      assert AllClean(tail) by {
        forall i | 0 <= i < |tail| ensures CleanTag(tail[i]) { assert tail[i] == tags[i + 1]; }
      }
      StripNonEmptyPrefixed(tail);
      assert ps[0] == " " + head && ps[1..] == Prefixed(tail);
      assert StripNonEmpty(ps) == [head] + StripNonEmpty(Prefixed(tail));
      assert tags == [head] + tail;
    }
  }

  /** Tags as the results grid lists them (`", ".join(tags)`) parse back to the same tags. */
  lemma {:induction false} ParseTagsJoin(tags: seq<string>)
    requires AllClean(tags)
    ensures ParseTags(Join(tags, ", ")) == tags
  {
    if tags != [] {
      JoinSpaced(tags);
      var sp := Spaced(tags);
      assert forall i :: 0 <= i < |sp| ==> ',' !in sp[i] by {
        forall i | 0 <= i < |sp| ensures ',' !in sp[i] {
          if i > 0 { assert sp[i] == " " + tags[i]; } else { assert CleanTag(tags[0]); }
        }
      }
      SplitJoin(sp, ',');
      StripKeeps(tags[0]);
      assert AllClean(tags[1..]) by {
        forall i | 0 <= i < |tags[1..]| ensures CleanTag(tags[1..][i]) { assert tags[1..][i] == tags[i + 1]; }
      }
      StripNonEmptyPrefixed(tags[1..]);
      StripNonEmptyAppend([tags[0]], Prefixed(tags[1..]));
      assert StripNonEmpty([tags[0]]) == [tags[0]];
      assert tags == [tags[0]] + tags[1..];
    }
  }

  // ---------------------------------------------------------------------------
  // Results grid
  // ---------------------------------------------------------------------------

  /** `col_idx = i % 3` for the `i`-th result. */
  function ColumnOf(i: nat): (c: nat)
    ensures c < GridColumns
  {
    i % GridColumns
  }

  /** The columns cycle: three consecutive results land in three different columns, and the
      first three fill the columns left to right. */
  lemma {:induction false} ColumnsCycle(i: nat)
    ensures ColumnOf(i + GridColumns) == ColumnOf(i)
    ensures ColumnOf(i) != ColumnOf(i + 1) && ColumnOf(i) != ColumnOf(i + 2) && ColumnOf(i + 1) != ColumnOf(i + 2)
    ensures i < GridColumns ==> ColumnOf(i) == i
  {
  }

  // ---------------------------------------------------------------------------
  // search_media
  // ---------------------------------------------------------------------------

  /** The JSON body of the request. */
  datatype SearchPayload = SearchPayload(query: string, collectionName: string, limit: int)

  /** The two bodies the search route answers with: `{"results": [...]}` or `{"detail": ...}`. */
  datatype ReplyBody = ResultsBody(results: seq<SearchResult>) | DetailBody(detail: string)

  /** `search_media(api_url, query, collection, limit)`; `post(url, payload)` is what
      `requests.post(url, json=payload).json()` gives, or the exception it raises. */
  function SearchMedia(apiUrl: string, query: string, collection: string, limit: int,
                       post: (string, SearchPayload) -> Result<ReplyBody, Exception>): ReplyBody
  {
    var response := post(apiUrl + "/search", SearchPayload(query, collection, limit));
    if response.Failure? then ResultsBody([]) else response.value
  }

  /** The body FastAPI sends for what the route returned. */
  function RouteBody(r: Result<seq<SearchResult>, HttpError>): ReplyBody
  {
    if r.Success? then ResultsBody(r.value) else DetailBody(r.error.detail)
  }

  /** A failed request falls back to no results; otherwise the body is the reply to the one
      request to `<api_url>/search` carrying the query, the collection and the limit. */
  lemma {:induction false} SearchMediaRequest(apiUrl: string, query: string, collection: string, limit: int,
                           post1: (string, SearchPayload) -> Result<ReplyBody, Exception>,
                           post2: (string, SearchPayload) -> Result<ReplyBody, Exception>)
    requires post1(apiUrl + "/search", SearchPayload(query, collection, limit))
             == post2(apiUrl + "/search", SearchPayload(query, collection, limit))
    ensures SearchMedia(apiUrl, query, collection, limit, post1) == SearchMedia(apiUrl, query, collection, limit, post2)
    ensures post1(apiUrl + "/search", SearchPayload(query, collection, limit)).Failure? ==>
              SearchMedia(apiUrl, query, collection, limit, post1) == ResultsBody([])
  {
  }

  /** Against the search route, a request with the default limit makes the route ask the
      collection for 10 results; the UI shows the route's results, or none when the route
      reports an error. */
  lemma {:induction false} SearchMediaThroughRoute(apiUrl: string, query: string, collection: string,
                                open: string -> Result<(), Exception>, embed: string -> Result<Embedding, Exception>,
                                ask: QueryRequest -> Result<QueryResult, Exception>,
                                post: (string, SearchPayload) -> Result<ReplyBody, Exception>)
    requires post(apiUrl + "/search", SearchPayload(query, collection, DefaultLimit))
             == Success(RouteBody(Search(SearchQuery(query, collection, DefaultLimit), open, embed, ask)))
    ensures var body := SearchMedia(apiUrl, query, collection, DefaultLimit, post);
            var routed := Search(SearchQuery(query, collection, 10), open, embed, ask);
            && (routed.Success? ==> body == ResultsBody(routed.value))
            && (routed.Failure? ==> body.DetailBody? && body.detail[..|SearchErrorPrefix|] == SearchErrorPrefix)
  {
    SearchErrorsAre500(SearchQuery(query, collection, 10), open, embed, ask);
  }
}
