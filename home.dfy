/** The routed dashboard (Home.js): after the reading list has loaded, one
    pass walks the works in order and, for each, first looks up its author
    list and then its title, each time writing one cache key. */
module Home {
  import opened Js
  import opened Catalog
  import opened Cells

  // ---------------------------------------------------------------------
  // Candidate selection

  /** What `findAuthorDetails` stores: `docs[0] || docs[1]` when there are
      hits, otherwise (no hit, or a thrown error) `null`. */
  function AuthorValue(response: Response<seq<AuthorDoc>>): Value<AuthorDoc>
  {
    match response
    case Received(docs) => if |docs| > 0 then Or(At(docs, 0), At(docs, 1)) else Null
    case Failure => Null
  }

  /** What `findRatingDetails` stores: `docs[1] || docs[0]` when there are
      hits, otherwise `null`. */
  function RatingValue(response: Response<seq<BookDoc>>): Value<BookDoc>
  {
    match response
    case Received(docs) => if |docs| > 0 then Or(At(docs, 1), At(docs, 0)) else Null
    case Failure => Null
  }

  /** The author is always the first hit; the rating is the second hit, or
      the first when there is only one; no hit or a failure gives `null`. */
  lemma CandidateSelection(authorDocs: seq<AuthorDoc>, bookDocs: seq<BookDoc>)
    ensures |authorDocs| > 0 ==> AuthorValue(Received(authorDocs)) == Obj(authorDocs[0])
    ensures |bookDocs| > 1 ==> RatingValue(Received(bookDocs)) == Obj(bookDocs[1])
    ensures |bookDocs| == 1 ==> RatingValue(Received(bookDocs)) == Obj(bookDocs[0])
    ensures |authorDocs| == 0 ==> AuthorValue(Received(authorDocs)) == Null
    ensures |bookDocs| == 0 ==> RatingValue(Received(bookDocs)) == Null
    ensures AuthorValue(Failure) == Null && RatingValue(Failure) == Null
  {
  }

  // ---------------------------------------------------------------------
  // Single-key updates and the pass over the works

  /** One `findAuthorDetails` / `findRatingDetails` call. The guard reads the
      map the callback captured (`snapshot`); the write goes through the
      updater `prev => ({ ...prev, [key]: value })` onto the current map. */
  function Step<T>(snapshot: Dict<T>, live: Dict<T>, key: string,
                   search: string -> Response<seq<T>>, select: Response<seq<T>> -> Value<T>): Dict<T>
  {
    if NeedsLookup(snapshot, key) then live[key := select(search(key))] else live
  }

  /** Each call changes at most the one key it was given, and only when the
      captured entry is falsy. */
  lemma StepChangesOneKey<T>(snapshot: Dict<T>, live: Dict<T>, key: string,
                             search: string -> Response<seq<T>>, select: Response<seq<T>> -> Value<T>)
    ensures forall k :: k != key ==> Get(Step(snapshot, live, key, search, select), k) == Get(live, k)
    ensures Get(Step(snapshot, live, key, search, select), key) ==
              if NeedsLookup(snapshot, key) then select(search(key)) else Get(live, key)
    ensures Step(snapshot, live, key, search, select).Keys ==
              live.Keys + (if NeedsLookup(snapshot, key) then {key} else {})
  {
  }

  /** The successive calls of one pass, applied in order. */
  function Pass<T>(snapshot: Dict<T>, live: Dict<T>, keys: seq<string>,
                   search: string -> Response<seq<T>>, select: Response<seq<T>> -> Value<T>): Dict<T>
  {
    if |keys| == 0 then live
    else Step(snapshot, Pass(snapshot, live, keys[..|keys| - 1], search, select), keys[|keys| - 1], search, select)
  }

  /** After a pass, a key of the pass whose captured entry was falsy holds
      the selected value; every other key is as before. */
  lemma {:induction false} PassEffect<T>(snapshot: Dict<T>, live: Dict<T>, keys: seq<string>,
                                         search: string -> Response<seq<T>>,
                                         select: Response<seq<T>> -> Value<T>, k: string)
    ensures Get(Pass(snapshot, live, keys, search, select), k) ==
              if k in keys && NeedsLookup(snapshot, k) then select(search(k)) else Get(live, k)
  {
    if |keys| > 0 {
      var prefix := keys[..|keys| - 1];
      assert keys == prefix + [keys[|keys| - 1]];
      PassEffect(snapshot, live, prefix, search, select, k);
    }
  }

  /** A pass over one more key is one more call. */
  lemma PassExtends<T>(snapshot: Dict<T>, keys: seq<string>, i: nat,
                       search: string -> Response<seq<T>>, select: Response<seq<T>> -> Value<T>)
    requires i < |keys|
    ensures Pass(snapshot, snapshot, keys[..i + 1], search, select) ==
              Step(snapshot, Pass(snapshot, snapshot, keys[..i], search, select), keys[i], search, select)
  {
    assert keys[..i + 1][..i] == keys[..i];
  }

  /** `book.author_names` as the property key it is stored and read under. */
  function AuthorKeys(books: seq<Work>): seq<string>
  {
    seq(|books|, i requires 0 <= i < |books| => ArrayKey(books[i].authorNames))
  }

  function TitleKeys(books: seq<Work>): seq<string>
  {
    seq(|books|, i requires 0 <= i < |books| => TitleKey(books[i].title))
  }

  // ---------------------------------------------------------------------
  // The requests a pass sends

  datatype Query = AuthorSearch(authorKey: string) | TitleSearch(titleKey: string)

  /** The requests for one work, author before title. */
  function BookQueries(snapA: Dict<AuthorDoc>, snapR: Dict<BookDoc>, book: Work): seq<Query>
  {
    var a := ArrayKey(book.authorNames);
    var t := TitleKey(book.title);
    (if NeedsLookup(snapA, a) then [AuthorSearch(a)] else []) +
    (if NeedsLookup(snapR, t) then [TitleSearch(t)] else [])
  }

  /** The requests of a pass, work by work in list order. */
  function QueryLog(snapA: Dict<AuthorDoc>, snapR: Dict<BookDoc>, books: seq<Work>): seq<Query>
  {
    if |books| == 0 then []
    else QueryLog(snapA, snapR, books[..|books| - 1]) + BookQueries(snapA, snapR, books[|books| - 1])
  }

  lemma QueryLogExtends(snapA: Dict<AuthorDoc>, snapR: Dict<BookDoc>, books: seq<Work>, i: nat)
    requires i < |books|
    ensures QueryLog(snapA, snapR, books[..i + 1]) == QueryLog(snapA, snapR, books[..i]) + BookQueries(snapA, snapR, books[i])
  {
    assert books[..i + 1][..i] == books[..i];
  }

  /** When nothing is cached yet, a pass alternates strictly: the author
      request of work i, then its title request, then work i + 1. A work that
      repeats an earlier author list or title is asked for again. */
  lemma {:induction false} ColdQueryLog(snapA: Dict<AuthorDoc>, snapR: Dict<BookDoc>, books: seq<Work>)
    requires forall i :: 0 <= i < |books| ==>
               NeedsLookup(snapA, ArrayKey(books[i].authorNames)) && NeedsLookup(snapR, TitleKey(books[i].title))
    ensures |QueryLog(snapA, snapR, books)| == 2 * |books|
    ensures forall i :: 0 <= i < |books| ==>
              QueryLog(snapA, snapR, books)[2 * i] == AuthorSearch(ArrayKey(books[i].authorNames)) &&
              QueryLog(snapA, snapR, books)[2 * i + 1] == TitleSearch(TitleKey(books[i].title))
  {
    if |books| > 0 {
      var prefix := books[..|books| - 1];
      ColdQueryLog(snapA, snapR, prefix);
      assert forall i :: 0 <= i < |prefix| ==> prefix[i] == books[i];
    }
  }

  // ---------------------------------------------------------------------
  // Rows

  /** The cells of one row. The authors cell renders the raw array, whose
      exact text is not modelled, so the row keeps the array itself. */
  datatype Row = Row(rating: string, authorNames: seq<string>, title: string, year: string,
                     subject: string, birthDate: string, topWork: string)

  /** `{value}` in JSX: a missing value renders as nothing. */
  function Shown(s: Option<string>): string
  {
    match s
    case Some(t) => t
    case None => ""
  }

  function ShownYear(year: Option<int>): string
  {
    match year
    case Some(y) => Decimal(y)
    case None => ""
  }

  /** The row of one work: the author record is read under the same
      coerced key it was stored under. */
  function RowOf(book: Work, authors: Dict<AuthorDoc>, ratings: Dict<BookDoc>): Row
  {
    var author := DocOr(Get(authors, ArrayKey(book.authorNames)), NoAuthor);
    var rating := DocOr(Get(ratings, TitleKey(book.title)), NoBook);
    Row(RatingCell(rating), book.authorNames, Shown(book.title), ShownYear(book.firstPublishYear),
        SubjectCell(author), BirthDateCell(author), TopWorkCell(author))
  }

  /** `books.map(...)`: one row per work, in reading-list order. */
  function Rows(books: seq<Work>, authors: Dict<AuthorDoc>, ratings: Dict<BookDoc>): seq<Row>
  {
    seq(|books|, i requires 0 <= i < |books| => RowOf(books[i], authors, ratings))
  }

  /** Title and year have no "N/A" fallback: a missing one renders as
      nothing, and year 0 renders as "0". */
  lemma NoFallbackForTitleAndYear(book: Work, authors: Dict<AuthorDoc>, ratings: Dict<BookDoc>)
    ensures book.title.Some? ==> RowOf(book, authors, ratings).title == book.title.value
    ensures book.title.None? ==> RowOf(book, authors, ratings).title == ""
    ensures book.firstPublishYear.None? ==> RowOf(book, authors, ratings).year == ""
    ensures book.firstPublishYear == Some(0) ==> RowOf(book, authors, ratings).year == "0"
  {
  }

  /** Every work, with one author or several, shows the record its pass
      stored, because storing and reading use the same coerced key. */
  lemma StoredRecordIsShown(books: seq<Work>, i: nat, snapshot: Dict<AuthorDoc>,
                            search: string -> Response<seq<AuthorDoc>>, ratings: Dict<BookDoc>)
    requires i < |books|
    requires NeedsLookup(snapshot, ArrayKey(books[i].authorNames))
    requires search(ArrayKey(books[i].authorNames)).Received?
    requires |search(ArrayKey(books[i].authorNames)).data| > 0
    ensures var d := search(ArrayKey(books[i].authorNames)).data[0];
            var r := RowOf(books[i], Pass(snapshot, snapshot, AuthorKeys(books), search, AuthorValue), ratings);
              r.subject == SubjectCell(d) && r.birthDate == BirthDateCell(d) && r.topWork == TopWorkCell(d)
  {
    var key := ArrayKey(books[i].authorNames);
    assert AuthorKeys(books)[i] == key;
    PassEffect(snapshot, snapshot, AuthorKeys(books), search, AuthorValue, key);
  }

  // ---------------------------------------------------------------------
  // The component

  /** The component state `books`, `authorDetails`, `ratingDetails`. */
  class Dashboard {
    var books: seq<Work>
    var authorDetails: Dict<AuthorDoc>
    var ratingDetails: Dict<BookDoc>

    /** The `useState` initial values. */
    constructor ()
      ensures books == [] && authorDetails == map[] && ratingDetails == map[]
    {
      books, authorDetails, ratingDetails := [], map[], map[];
    }

    /** `fetchBooks`: keep the works of the reading list; on failure nothing
        changes, there being no error state. */
    method FetchBooks(response: Response<seq<LogEntry>>)
      modifies this
      ensures response.Received? ==> books == Works(response.data)
      ensures response.Failure? ==> books == old(books)
      ensures authorDetails == old(authorDetails) && ratingDetails == old(ratingDetails)
    {
      if response.Received? {
        books := Works(response.data);
      }
    }

    /** `findAuthorDetails(key)` with the map the callback captured: when
        that entry is falsy, one author search and one single-key update.
        Returns the requests sent. */
    method FindAuthorDetails(snapshot: Dict<AuthorDoc>, key: string,
                             search: string -> Response<seq<AuthorDoc>>) returns (sent: seq<Query>)
      modifies this`authorDetails
      ensures authorDetails == Step(snapshot, old(authorDetails), key, search, AuthorValue)
      ensures sent == if NeedsLookup(snapshot, key) then [AuthorSearch(key)] else []
    {
      sent := [];
      if NeedsLookup(snapshot, key) {
        var response := search(key);
        authorDetails := authorDetails[key := AuthorValue(response)];
        sent := [AuthorSearch(key)];
      }
    }

    /** `findRatingDetails(key)`, likewise for the title search. */
    method FindRatingDetails(snapshot: Dict<BookDoc>, key: string,
                             search: string -> Response<seq<BookDoc>>) returns (sent: seq<Query>)
      modifies this`ratingDetails
      ensures ratingDetails == Step(snapshot, old(ratingDetails), key, search, RatingValue)
      ensures sent == if NeedsLookup(snapshot, key) then [TitleSearch(key)] else []
    {
      sent := [];
      if NeedsLookup(snapshot, key) {
        var response := search(key);
        ratingDetails := ratingDetails[key := RatingValue(response)];
        sent := [TitleSearch(key)];
      }
    }

    /** `fetchAuthors`, run only when there are books: for each work in
        order, the author call and then the title call. Returns the
        requests sent, in the order they were sent. */
    method FetchAuthors(authorSearch: string -> Response<seq<AuthorDoc>>,
                        titleSearch: string -> Response<seq<BookDoc>>)
      returns (queries: seq<Query>)
      modifies this
      ensures books == old(books)
      ensures authorDetails == Pass(old(authorDetails), old(authorDetails), AuthorKeys(books), authorSearch, AuthorValue)
      ensures ratingDetails == Pass(old(ratingDetails), old(ratingDetails), TitleKeys(books), titleSearch, RatingValue)
      ensures queries == QueryLog(old(authorDetails), old(ratingDetails), books)
    {
      queries := [];
      if |books| > 0 {
        // the maps the two callbacks captured when the pass started
        var works, snapA, snapR := books, authorDetails, ratingDetails;
        ghost var authorKeys, titleKeys := AuthorKeys(works), TitleKeys(works);
        var i := 0;
        while i < |works|
          invariant 0 <= i <= |works| && books == works
          invariant authorDetails == Pass(snapA, snapA, authorKeys[..i], authorSearch, AuthorValue)
          invariant ratingDetails == Pass(snapR, snapR, titleKeys[..i], titleSearch, RatingValue)
          invariant queries == QueryLog(snapA, snapR, works[..i])
        {
          var sentA := FindAuthorDetails(snapA, ArrayKey(works[i].authorNames), authorSearch);
          var sentR := FindRatingDetails(snapR, TitleKey(works[i].title), titleSearch);
          queries := queries + (sentA + sentR);
          PassExtends(snapA, authorKeys, i, authorSearch, AuthorValue);
          PassExtends(snapR, titleKeys, i, titleSearch, RatingValue);
          QueryLogExtends(snapA, snapR, works, i);
          i := i + 1;
        }
        assert authorKeys[..i] == authorKeys;
        assert titleKeys[..i] == titleKeys;
        assert works[..i] == works;
      }
    }

    /** The rows rendered for the current state. */
    function View(): seq<Row>
      reads this
    {
      Rows(books, authorDetails, ratingDetails)
    }
  }

  /** A failed reading-list request leaves the table empty and sends no
      lookups. */
  method FailedLoadScenario()
  {
    var d := new Dashboard();
    d.FetchBooks(Failure);
    var q := d.FetchAuthors(_ => Failure, _ => Failure);
    assert q == [] && d.View() == [];
  }
}
