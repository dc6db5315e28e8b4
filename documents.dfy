/** The document record shared by the storage layer, the upload hooks and the
    query tools; the query filters they build; and the abstract store they
    read from and write to. */
module Documents {
  import opened Wrappers

  /** The data-URL prefix of a base64-encoded PDF. */
  const DataPrefix: string := "data:application/pdf;base64,"

  /** A document's `content` field: missing, a string, or some other truthy
      value (a buffer, an object) with what `JSON.stringify` makes of it
      (`None` when stringifying throws). */
  datatype Content = NoContent | Plain(text: string) | Structured(json: Option<string>)
  {
    /** JavaScript truthiness of the field. */
    predicate Truthy() {
      match this
      case NoContent => false
      case Plain(t) => t != []
      case Structured(_) => true
    }
  }

  /** A metadata value. Dates are opaque time stamps. */
  datatype Value = StrValue(s: string) | NumValue(n: int) | DateValue(stamp: int) | ListValue(items: seq<string>)

  type Metadata = map<string, Value>

  /** A document as a value. A missing string field is the empty string (both
      are falsy to the code), a missing `metadata` the empty map. */
  datatype Doc = Doc(
    id: Option<string>,
    filename: string,
    originalFilename: string,
    mimeType: string,
    filesize: nat,
    content: Content,
    documentType: string,
    metadata: Metadata,
    preview: Option<string>,
    extractedText: Option<string>,
    uploadDate: Option<int>,
    status: string,
    searchTerms: seq<string>)

  /** A document with nothing but a file name, a MIME type and content. */
  function Upload(filename: string, mimeType: string, content: Content): Doc {
    Doc(None, filename, "", mimeType, 0, content, "", map[], None, None, None, "", [])
  }

  /** A document object the hooks and the storage layer update in place. */
  class Document {
    var id: Option<string>
    var filename: string
    var originalFilename: string
    var mimeType: string
    var filesize: nat
    var content: Content
    var documentType: string
    var metadata: Metadata
    var preview: Option<string>
    var extractedText: Option<string>
    var uploadDate: Option<int>
    var status: string
    var searchTerms: seq<string>

    constructor (d: Doc)
      ensures Snapshot() == d
    {
      id := d.id;
      filename := d.filename;
      originalFilename := d.originalFilename;
      mimeType := d.mimeType;
      filesize := d.filesize;
      content := d.content;
      documentType := d.documentType;
      metadata := d.metadata;
      preview := d.preview;
      extractedText := d.extractedText;
      uploadDate := d.uploadDate;
      status := d.status;
      searchTerms := d.searchTerms;
    }

    /** The object's fields as a value. */
    function Snapshot(): Doc
      reads this
    {
      Doc(id, filename, originalFilename, mimeType, filesize, content, documentType,
          metadata, preview, extractedText, uploadDate, status, searchTerms)
    }
  }

  // ------------------------------------------------------------------ filters

  /** `{ $regex: pattern, $options: options }` */
  datatype RegexCond = RegexCond(pattern: string, options: string)

  /** `{ content: { $regex: term, $options: 'i' } }` or the same on `filename`. */
  datatype TermCond = ContentMatches(term: string) | FilenameMatches(term: string)

  /** A query filter: each present key constrains the result. `allOf` is
      `$and`, a list of `{ $or: [...] }` groups; `anyOf` is a flat `$or`. */
  datatype Filter = Filter(
    documentType: Option<string>,
    filename: Option<RegexCond>,
    allOf: Option<seq<seq<TermCond>>>,
    anyOf: Option<seq<TermCond>>)
  {
    /** `Object.keys(filter).length === 0` */
    predicate IsEmpty() {
      documentType.None? && filename.None? && allOf.None? && anyOf.None?
    }
  }

  const MatchAll: Filter := Filter(None, None, None, None)

  /** One key of a sort specification, with direction 1 or -1. */
  datatype SortKey = SortKey(field: string, direction: int)

  /** Newest first: `{ uploadDate: -1, createdAt: -1 }`. */
  const NewestFirst: seq<SortKey> := [SortKey("uploadDate", -1), SortKey("createdAt", -1)]

  /** What a caller passes as `options` to a find (empty string or 0 means
      not given). */
  datatype FindRequest = FindRequest(collection: string, sort: Option<seq<SortKey>>, limit: nat)

  /** The options the store receives. */
  datatype FetchOptions = FetchOptions(collection: string, sort: seq<SortKey>, limit: nat)

  /** The store's find: a filter and options give the matching documents or an
      error message. */
  type Finder = (Filter, FetchOptions) -> Result<seq<Doc>, string>

  /** The store's insert: a document and a collection name give the new id or
      an error message. */
  type Inserter = (Doc, string) -> Result<string, string>

  /** A thrown `Meteor.Error`: its error code and its reason. */
  datatype Failure = MeteorError(code: string, reason: string)

  /** The `message` of a thrown `Meteor.Error`: its reason followed by its
      code in brackets, which is what a handler reading `error.message`
      passes on. */
  function Message(f: Failure): string {
    f.reason + " [" + f.code + "]"
  }
}
