/** The request and response shapes shared by the HTTP routes and the UI. */
module ApiSchemas {

  /** The `limit` a search request gets when it names none. */
  const DefaultLimit: int := 10

  /** A metadata value as the routes store and return it. */
  datatype MetaValue = MStr(s: string) | MStrs(items: seq<string>) | MNone

  type Metadata = map<string, MetaValue>

  datatype SearchQuery = SearchQuery(query: string, collectionName: string, limit: int)

  datatype SearchResult = SearchResult(id: string, metadata: Metadata, similarityScore: real)

  datatype UploadResponse = UploadResponse(message: string, mediaId: string, filePath: string)

  /** FastAPI's `HTTPException(status_code, detail)`. */
  datatype HttpError = HttpError(statusCode: nat, detail: string)

  const InternalServerError: nat := 500
}
