/** The MongoDB client behind the `mongodb` tool: a cached connection
    (`client`, `db`), find and insert through it, and the translation of a
    natural-language question into a filter plus the formatting of what the
    filter finds. The network is a `reachable` flag and the store a
    `Finder`/`Inserter`. */
module MongoDbMcpClient {
  import opened Wrappers
  import opened Text
  import opened Documents
  import opened DocumentStorage

  // ---------------------------------------------------------------- connection state

  /** An open driver client for a connection string. */
  datatype Connection = Connection(url: string)

  /** The cached pair `client`, `db` (a database handle is its name). */
  datatype ConnState = ConnState(client: Option<Connection>, db: Option<string>)

  const Closed: ConnState := ConnState(None, None)

  /** The client and the database handle are set together. */
  predicate Coherent(st: ConnState) {
    st.client.Some? <==> st.db.Some?
  }

  /** `connect` as written: the client is stored before the network
      connect, and a failing connect leaves it stored with no database. */
  function ConnectAsWritten(st: ConnState, url: string, dbName: string, reachable: bool)
    : (r: (ConnState, Result<Option<string>, Failure>))
    ensures st.client.Some? ==> r == (st, Success(st.db))
    ensures st.client.None? && !reachable ==>
      r.0 == ConnState(Some(Connection(url)), st.db) && r.1.Failure?
  {
    if st.client.Some? then (st, Success(st.db))
    else if reachable then (ConnState(Some(Connection(url)), Some(dbName)), Success(Some(dbName)))
    else (ConnState(Some(Connection(url)), st.db), Failure(MeteorError("mongodb-connection-error", "Failed to connect to MongoDB")))
  }

  /** After one failed connect every later connect, even to a reachable
      server, answers a null database without trying again. */
  lemma FailedConnectSticks(url: string, dbName: string)
    ensures var afterFailure := ConnectAsWritten(Closed, url, dbName, false).0;
      !Coherent(afterFailure) &&
      ConnectAsWritten(afterFailure, url, dbName, true) == (afterFailure, Success(None))
  {
  }

  /** `connect` as evidently intended: a failing connect forgets the
      half-made client, so the next call tries again. */
  function ConnectCorrected(st: ConnState, url: string, dbName: string, reachable: bool)
    : (r: (ConnState, Result<Option<string>, Failure>))
    requires Coherent(st)
    ensures Coherent(r.0)
    ensures st.client.Some? ==> r == (st, Success(st.db))
    ensures st.client.None? && reachable ==> r == (ConnState(Some(Connection(url)), Some(dbName)), Success(Some(dbName)))
    ensures st.client.None? && !reachable ==> r.0 == Closed && r.1.Failure?
    ensures r.1.Success? ==> r.1.value.Some?
  {
    if st.client.Some? then (st, Success(st.db))
    else if reachable then (ConnState(Some(Connection(url)), Some(dbName)), Success(Some(dbName)))
    else (Closed, Failure(MeteorError("mongodb-connection-error", "Failed to connect to MongoDB")))
  }

  /** With the correction a failed connect does no harm: the next one to a
      reachable server opens the database. */
  lemma RetryAfterFailureConnects(url: string, dbName: string)
    ensures var afterFailure := ConnectCorrected(Closed, url, dbName, false).0;
      ConnectCorrected(afterFailure, url, dbName, true).1 == Success(Some(dbName))
  {
  }

  /** Where the two agree: from a coherent state, reachable or not, they
      give the same answer; only the state after a failure differs. */
  lemma ConnectAgreesOnAnswers(st: ConnState, url: string, dbName: string, reachable: bool)
    requires Coherent(st)
    ensures ConnectCorrected(st, url, dbName, reachable).1 == ConnectAsWritten(st, url, dbName, reachable).1
    ensures reachable ==> ConnectCorrected(st, url, dbName, reachable) == ConnectAsWritten(st, url, dbName, reachable)
  {
  }

  // ---------------------------------------------------------------- the client object

  const DefaultUrl: string := "mongodb://localhost:27017"
  const DefaultDbName: string := "mcpDB"

  class McpClient {
    var connectionString: string
    var dbName: string
    var client: Option<Connection>
    var db: Option<string>

    /** The cached pair. */
    function State(): ConnState
      reads this
    {
      ConnState(client, db)
    }

    predicate Valid()
      reads this
    {
      Coherent(State())
    }

    /** Settings override the default URL and database name; nothing is
        connected yet. */
    constructor (mongodbMcpUrl: string, mongodbMcpDbName: string)
      ensures connectionString == if mongodbMcpUrl == "" then DefaultUrl else mongodbMcpUrl
      ensures dbName == if mongodbMcpDbName == "" then DefaultDbName else mongodbMcpDbName
      ensures State() == Closed && Valid()
    {
      connectionString := if mongodbMcpUrl == "" then DefaultUrl else mongodbMcpUrl;
      dbName := if mongodbMcpDbName == "" then DefaultDbName else mongodbMcpDbName;
      client := None;
      db := None;
    }

    /** `connect` (corrected): the cached database once a client is set,
        otherwise a new connection when the server is reachable. */
    method Connect(reachable: bool) returns (r: Result<Option<string>, Failure>)
      requires Valid()
      modifies this
      ensures Valid()
      ensures connectionString == old(connectionString) && dbName == old(dbName)
      ensures (State(), r) == ConnectCorrected(old(State()), connectionString, dbName, reachable)
    {
      if client.Some? {
        return Success(db);
      }
      client := Some(Connection(connectionString));
      if !reachable {
        client := None;
        return Failure(MeteorError("mongodb-connection-error", "Failed to connect to MongoDB"));
      }
      db := Some(dbName);
      r := Success(db);
    }

    /** `close`: forgets the cached pair; nothing happens when closed. */
    method Close()
      requires Valid()
      modifies this
      ensures State() == Closed && Valid()
      ensures connectionString == old(connectionString) && dbName == old(dbName)
    {
      if client.Some? {
        client := None;
        db := None;
      }
    }

    /** `findDocuments`: connects, then asks the store; any failure is a
        find error. */
    method FindDocuments(query: Filter, collection: string, options: FetchOptions, reachable: bool, find: Finder)
      returns (r: Result<seq<Doc>, Failure>)
      requires Valid()
      modifies this
      ensures Valid()
      ensures connectionString == old(connectionString) && dbName == old(dbName)
      ensures State() == ConnectCorrected(old(State()), connectionString, dbName, reachable).0
      ensures r.Success? <==>
        State().db.Some? && find(query, options.(collection := collection)).Success?
      ensures r.Success? ==> r.value == find(query, options.(collection := collection)).value
      ensures r.Failure? ==> r.error == MeteorError("mongodb-find-error", "Failed to find documents in MongoDB")
    {
      var connected := Connect(reachable);
      if connected.Failure? {
        return Failure(MeteorError("mongodb-find-error", "Failed to find documents in MongoDB"));
      }
      var result := find(query, options.(collection := collection));
      if result.Failure? {
        return Failure(MeteorError("mongodb-find-error", "Failed to find documents in MongoDB"));
      }
      r := Success(result.value);
    }

    /** `storeDocument`: connects, then inserts; any failure is a store
        error. */
    method StoreDocument(document: Doc, collection: string, reachable: bool, insert: Inserter)
      returns (r: Result<string, Failure>)
      requires Valid()
      modifies this
      ensures Valid()
      ensures connectionString == old(connectionString) && dbName == old(dbName)
      ensures State() == ConnectCorrected(old(State()), connectionString, dbName, reachable).0
      ensures r.Success? <==> State().db.Some? && insert(document, collection).Success?
      ensures r.Success? ==> r.value == insert(document, collection).value
      ensures r.Failure? ==> r.error == MeteorError("mongodb-store-error", "Failed to store document in MongoDB")
    {
      var connected := Connect(reachable);
      if connected.Failure? {
        return Failure(MeteorError("mongodb-store-error", "Failed to store document in MongoDB"));
      }
      var result := insert(document, collection);
      if result.Failure? {
        return Failure(MeteorError("mongodb-store-error", "Failed to store document in MongoDB"));
      }
      r := Success(result.value);
    }

    /** `queryWithNaturalLanguage`: the question's filter, what it finds in
        the context's collection (`documents` by default), and the formatted
        rows; any failure is a query error. */
    method QueryWithNaturalLanguage(query: string, contextCollection: string, now: int, reachable: bool, find: Finder)
      returns (r: Result<NlReply, Failure>)
      requires Valid()
      modifies this
      ensures Valid()
      ensures connectionString == old(connectionString) && dbName == old(dbName)
      ensures State() == ConnectCorrected(old(State()), connectionString, dbName, reachable).0
      ensures r.Success? <==>
        var collection := if contextCollection == "" then "documents" else contextCollection;
        State().db.Some? && find(MongoFilter(query), FetchOptions(collection, [], 0)).Success?
      ensures r.Failure? ==> r.error == MeteorError("mcp-query-error", "Failed to process natural language query")
      ensures r.Success? ==>
        var collection := if contextCollection == "" then "documents" else contextCollection;
        r.value.query == query && r.value.mongoQuery == MongoFilter(query) &&
        find(MongoFilter(query), FetchOptions(collection, [], 0)) == Success(r.value.fullResults) &&
        |r.value.results| == |r.value.fullResults| == r.value.resultCount &&
        (forall k :: 0 <= k < |r.value.results| ==> r.value.results[k] == FormatResult(r.value.fullResults[k])) &&
        r.value.timestamp == now
    {
      var mongoQuery := BuildMongoFilter(query);
      var collection := if contextCollection == "" then "documents" else contextCollection;
      var results := FindDocuments(mongoQuery, collection, FetchOptions("", [], 0), reachable, find);
      if results.Failure? {
        return Failure(MeteorError("mcp-query-error", "Failed to process natural language query"));
      }
      var docs := results.value;
      var formattedResults := seq(|docs|, k requires 0 <= k < |docs| => FormatResult(docs[k]));
      r := Success(NlReply(query, mongoQuery, formattedResults, docs, now, |docs|));
    }
  }

  // ---------------------------------------------------------------- the filter

  /** The document kind a question asks about, first matching group wins:
      patient, medical or health, then invoice, bill or financial, then
      research, paper or study. Unlike the storage layer's translator there
      is no resume group. */
  function MongoType(lower: string): (r: Option<string>)
    ensures r == Some("patient") <==>
      Contains(lower, "patient") || Contains(lower, "medical") || Contains(lower, "health")
    ensures r == Some("financial") <==>
      !(Contains(lower, "patient") || Contains(lower, "medical") || Contains(lower, "health")) &&
      (Contains(lower, "invoice") || Contains(lower, "bill") || Contains(lower, "financial"))
    ensures r == Some("research") <==>
      !(Contains(lower, "patient") || Contains(lower, "medical") || Contains(lower, "health")) &&
      !(Contains(lower, "invoice") || Contains(lower, "bill") || Contains(lower, "financial")) &&
      (Contains(lower, "research") || Contains(lower, "paper") || Contains(lower, "study"))
    ensures r.None? <==>
      !(Contains(lower, "patient") || Contains(lower, "medical") || Contains(lower, "health")) &&
      !(Contains(lower, "invoice") || Contains(lower, "bill") || Contains(lower, "financial")) &&
      !(Contains(lower, "research") || Contains(lower, "paper") || Contains(lower, "study"))
  {
    if Contains(lower, "patient") || Contains(lower, "medical") || Contains(lower, "health") then Some("patient")
    else if Contains(lower, "invoice") || Contains(lower, "bill") || Contains(lower, "financial") then Some("financial")
    else if Contains(lower, "research") || Contains(lower, "paper") || Contains(lower, "study") then Some("research")
    else None
  }

  const StopWords: seq<string> := ["find", "get", "show", "search", "about", "with", "for", "the", "and", "documents", "document"]

  /** A word worth searching for: longer than three characters and no stop
      word. */
  predicate IsTerm(w: string) {
    |w| > 3 && w !in StopWords
  }

  /** The words kept by `IsTerm`, in order (`.filter`). */
  function KeepTerms(words: seq<string>): (r: seq<string>)
    ensures |r| <= |words|
    ensures |words| == 1 ==> r == if IsTerm(words[0]) then words else []
    ensures forall k :: 0 <= k < |r| ==> IsTerm(r[k])
    decreases |words|
  {
    if words == [] then []
    else
      var rest := KeepTerms(words[..|words| - 1]);
      LastSplit(words);
      if IsTerm(words[|words| - 1]) then rest + [words[|words| - 1]] else rest
  }

  /** A word is kept exactly when it is a term. */
  lemma {:induction false} KeepTermsMembers(words: seq<string>)
    ensures forall w :: w in KeepTerms(words) <==> w in words && IsTerm(w)
    decreases |words|
  {
    if words != [] {
      KeepTermsMembers(words[..|words| - 1]);
      LastSplit(words);
    }
  }

  lemma KeepTermsSnoc(xs: seq<string>, x: string)
    ensures KeepTerms(xs + [x]) == KeepTerms(xs) + if IsTerm(x) then [x] else []
  {
    var ys := xs + [x];
    assert ys[..|ys| - 1] == xs;
  }

  /** Filtering a concatenation filters each part: order and repeats are
      kept. */
  lemma {:induction false} KeepTermsAppend(a: seq<string>, b: seq<string>)
    ensures KeepTerms(a + b) == KeepTerms(a) + KeepTerms(b)
    decreases |b|
  {
    if b == [] {
      assert a + b == a;
    } else {
      var init, last := b[..|b| - 1], b[|b| - 1];
      KeepTermsAppend(a, init);
      AppendSnoc(a, b);
      KeepTermsSnoc(a + init, last);
      KeepTermsSnoc(init, last);
    }
  }

  /** The search terms of a question: its lower-cased white-space
      separated words of more than three characters, stop words dropped, in
      question order. */
  function QueryTerms(query: string): (r: seq<string>)
    ensures forall w :: w in r <==> w in SplitSpaceRuns(Lower(query)) && IsTerm(w)
    ensures forall k :: 0 <= k < |r| ==> |r[k]| > 3 && r[k] !in StopWords
  {
    KeepTermsMembers(SplitSpaceRuns(Lower(query)));
    KeepTerms(SplitSpaceRuns(Lower(query)))
  }

  /** A question with no white space is one word: its lower-cased form is
      the one term when it is a term, and there is none otherwise. */
  lemma QueryTermsOfWord(w: string)
    requires forall k :: 0 <= k < |w| ==> !IsSpace(w[k])
    ensures QueryTerms(w) == if IsTerm(Lower(w)) then [Lower(w)] else []
  {
    LowerKeepsSpace(w);
    IndexWhereUnique(Lower(w), IsSpace, 0, |w|);
  }

  /** The terms of a question split at a white-space run between two words
      are the terms before the run followed by those after it. */
  lemma QueryTermsAt(a: string, sp: string, b: string)
    requires |sp| > 0 && forall k :: 0 <= k < |sp| ==> IsSpace(sp[k])
    requires a == [] || !IsSpace(a[|a| - 1])
    requires b == [] || !IsSpace(b[0])
    ensures QueryTerms(a + sp + b) == QueryTerms(a) + QueryTerms(b)
  {
    LowerAppend(a + sp, b);
    LowerAppend(a, sp);
    LowerKeepsSpace(a);
    LowerKeepsSpace(sp);
    LowerKeepsSpace(b);
    SplitSpaceRunsAt(Lower(a), Lower(sp), Lower(b));
    KeepTermsAppend(SplitSpaceRuns(Lower(a)), SplitSpaceRuns(Lower(b)));
  }

  /** The `$or` pair for one term: content or file name. */
  function TermPair(t: string): seq<TermCond> {
    [ContentMatches(t), FilenameMatches(t)]
  }

  /** One `$or` pair per term. */
  function ContentConditions(terms: seq<string>): (r: seq<seq<TermCond>>)
    ensures |r| == |terms|
    ensures forall k :: 0 <= k < |r| ==> r[k] == TermPair(terms[k])
  {
    seq(|terms|, k requires 0 <= k < |terms| => TermPair(terms[k]))
  }

  /** The groups laid end to end (`.flat()`). */
  function Flatten(groups: seq<seq<TermCond>>): seq<TermCond>
    decreases |groups|
  {
    if groups == [] then [] else Flatten(groups[..|groups| - 1]) + groups[|groups| - 1]
  }

  /** The flat `$or` holds two conditions per term: position `2k` matches the
      content and `2k+1` the file name against term `k`. */
  lemma {:induction false} FlatPairs(terms: seq<string>)
    ensures |Flatten(ContentConditions(terms))| == 2 * |terms|
    ensures forall k :: 0 <= k < |terms| ==>
      Flatten(ContentConditions(terms))[2 * k] == ContentMatches(terms[k]) &&
      Flatten(ContentConditions(terms))[2 * k + 1] == FilenameMatches(terms[k])
    decreases |terms|
  {
    if terms != [] {
      var init := terms[..|terms| - 1];
      FlatPairs(init);
      var groups := ContentConditions(terms);
      assert groups[..|groups| - 1] == ContentConditions(init);
      assert Flatten(groups) == Flatten(ContentConditions(init)) + TermPair(terms[|terms| - 1]);
    }
  }

  /** The filter a question translates to. */
  function MongoFilter(query: string): (r: Filter)
    ensures r.documentType == MongoType(Lower(query)) && r.filename == NamedFile(query)
    ensures QueryTerms(query) == [] ==> r.allOf.None? && r.anyOf.None?
    ensures QueryTerms(query) != [] && (r.documentType.Some? || r.filename.Some?) ==>
      r.allOf == Some(ContentConditions(QueryTerms(query))) && r.anyOf.None?
    ensures QueryTerms(query) != [] && r.documentType.None? && r.filename.None? ==>
      r.allOf.None? && r.anyOf == Some(Flatten(ContentConditions(QueryTerms(query))))
    ensures r.IsEmpty() <==> MongoType(Lower(query)).None? && NamedFile(query).None? && QueryTerms(query) == []
  {
    var typed := MongoType(Lower(query));
    var named := NamedFile(query);
    var terms := QueryTerms(query);
    var conditions := ContentConditions(terms);
    if terms == [] then Filter(typed, named, None, None)
    else if typed.Some? || named.Some? then Filter(typed, named, Some(conditions), None)
    else Filter(typed, named, None, Some(Flatten(conditions)))
  }

  /** Exactly one of `$and` and `$or` is used, and only with terms; the flat
      one has two conditions per term. */
  lemma CombinationRule(query: string)
    ensures var f := MongoFilter(query);
      !(f.allOf.Some? && f.anyOf.Some?) &&
      (f.anyOf.Some? ==> |f.anyOf.value| == 2 * |QueryTerms(query)|) &&
      (f.allOf.Some? ==> |f.allOf.value| == |QueryTerms(query)|)
  {
    FlatPairs(QueryTerms(query));
  }

  /** The filter built key by key. */
  method BuildMongoFilter(query: string) returns (mongoQuery: Filter)
    ensures mongoQuery == MongoFilter(query)
  {
    var queryLower := Lower(query);
    mongoQuery := MatchAll;
    var typed := MongoType(queryLower);
    if typed.Some? {
      mongoQuery := mongoQuery.(documentType := typed);
    }
    var filenameMatch := NamedFile(query);
    if filenameMatch.Some? {
      mongoQuery := mongoQuery.(filename := filenameMatch);
    }
    var terms := QueryTerms(query);
    if |terms| > 0 {
      var contentConditions := ContentConditions(terms);
      if !mongoQuery.IsEmpty() {
        mongoQuery := mongoQuery.(allOf := Some(contentConditions));
      } else {
        mongoQuery := mongoQuery.(anyOf := Some(Flatten(contentConditions)));
      }
    }
  }

  // ---------------------------------------------------------------- results

  /** One formatted row. */
  datatype FormattedResult = FormattedResult(id: Option<string>, documentType: string, filename: string, preview: Option<string>)

  /** What `queryWithNaturalLanguage` answers. */
  datatype NlReply = NlReply(
    query: string,
    mongoQuery: Filter,
    results: seq<FormattedResult>,
    fullResults: seq<Doc>,
    timestamp: int,
    resultCount: nat)

  /** A row: the id, the type or `unknown`, the name or `unnamed`, and for
      string content its first 100 characters followed by `...`. */
  function FormatResult(d: Doc): (r: FormattedResult)
    ensures r.id == d.id && r.documentType != "" && r.filename != ""
    ensures d.documentType != "" ==> r.documentType == d.documentType
    ensures d.filename != "" ==> r.filename == d.filename
    ensures r.preview.Some? <==> d.content.Truthy() && d.content.Plain?
    ensures r.preview.Some? ==>
      var kept := |r.preview.value| - 3;
      |r.preview.value| <= 103 && EndsWith(r.preview.value, "...") &&
      kept == (if |d.content.text| < 100 then |d.content.text| else 100) &&
      r.preview.value[..kept] == d.content.text[..kept]
  {
    var preview := if d.content.Plain? && d.content.text != "" then Some(Take(d.content.text, 100) + "...") else None;
    FormattedResult(d.id,
                    if d.documentType == "" then "unknown" else d.documentType,
                    if d.filename == "" then "unnamed" else d.filename,
                    preview)
  }
}
