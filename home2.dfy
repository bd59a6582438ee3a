/** The alternative dashboard (Home2.js): one load of the reading list, then
    one enrichment round that looks up every distinct author name and every
    title whose cache entry is falsy, and merges the answers into the two
    caches in a single update each. */
module Home2 {
  import opened Js
  import opened Catalog
  import opened Cells

  predicate NoDuplicates(s: seq<string>)
  {
    forall i, j :: 0 <= i < j < |s| ==> s[i] != s[j]
  }

  // ---------------------------------------------------------------------
  // Distinct author names: `[...new Set(books.map(b => b.author_names).flat())]`

  /** `books.map(book => book.author_names).flat()` */
  function AllNames(books: seq<Work>): (names: seq<string>)
    ensures forall x :: x in names <==> exists i :: 0 <= i < |books| && x in books[i].authorNames
  {
    if |books| == 0 then []
    else
      var rest := books[..|books| - 1];
      var names := AllNames(rest) + books[|books| - 1].authorNames;
      assert forall i :: 0 <= i < |rest| ==> rest[i] == books[i];
      names
  }

  /** `[...new Set(xs)]`: a JavaScript `Set` keeps the first occurrence of
      each element, in insertion order. */
  function Dedup(xs: seq<string>): (r: seq<string>)
    ensures forall x :: x in r <==> x in xs
    ensures NoDuplicates(r)
  {
    if |xs| == 0 then []
    else
      var prefix := xs[..|xs| - 1];
      var last := xs[|xs| - 1];
      assert xs == prefix + [last];
      var rest := Dedup(prefix);
      if last in rest then rest else rest + [last]
  }

  /** The position of the first occurrence of `x` in `xs`. */
  function FirstIndex(xs: seq<string>, x: string): (i: nat)
    requires x in xs
    ensures i < |xs| && xs[i] == x
    ensures forall k :: 0 <= k < i ==> xs[k] != x
  {
    var prefix := xs[..|xs| - 1];
    if x in prefix then FirstIndex(prefix, x) else |xs| - 1
  }

  /** `Dedup` lists the elements in the order of their first occurrence. */
  lemma {:induction false} DedupKeepsFirstOccurrenceOrder(xs: seq<string>)
    ensures forall i, j :: 0 <= i < j < |Dedup(xs)| ==>
              FirstIndex(xs, Dedup(xs)[i]) < FirstIndex(xs, Dedup(xs)[j])
  {
    if |xs| > 0 {
      var prefix := xs[..|xs| - 1];
      var last := xs[|xs| - 1];
      var rest := Dedup(prefix);
      DedupKeepsFirstOccurrenceOrder(prefix);
      var r := Dedup(xs);
      forall y | y in rest
        ensures FirstIndex(xs, y) == FirstIndex(prefix, y)
      {
      }
      forall i, j | 0 <= i < j < |r|
        ensures FirstIndex(xs, r[i]) < FirstIndex(xs, r[j])
      {
        if j == |rest| {
          assert r[i] == rest[i];
        } else {
          assert r[i] == rest[i] && r[j] == rest[j];
        }
      }
    }
  }

  /** The author names `fetchDetails` asks for: every name of every work,
      once, in the order of first occurrence. */
  function DistinctNames(books: seq<Work>): (r: seq<string>)
    ensures forall x :: x in r <==> x in AllNames(books)
    ensures forall x :: x in r <==> exists i :: 0 <= i < |books| && x in books[i].authorNames
    ensures NoDuplicates(r)
    ensures forall i, j :: 0 <= i < j < |r| ==>
              FirstIndex(AllNames(books), r[i]) < FirstIndex(AllNames(books), r[j])
  {
    DedupKeepsFirstOccurrenceOrder(AllNames(books));
    Dedup(AllNames(books))
  }

  /** `books.map(book => book.title)`, as property keys. */
  function Titles(books: seq<Work>): seq<string>
  {
    seq(|books|, i requires 0 <= i < |books| => TitleKey(books[i].title))
  }

  // ---------------------------------------------------------------------
  // One lookup and the merge of a round

  /** What `fetchAuthorDetails` records for a requested name: the first
      hit, or `null` when there is none or the request throws. */
  function AuthorValue(response: Response<seq<AuthorDoc>>): Value<AuthorDoc>
  {
    match response
    case Received(docs) => if |docs| > 0 then At(docs, 0) else Null
    case Failure => Null
  }

  /** What `fetchRatingDetails` records for a requested title: the SECOND
      hit (`docs[1]`, `undefined` when there is only one), or `null`. */
  function RatingValue(response: Response<seq<BookDoc>>): Value<BookDoc>
  {
    match response
    case Received(docs) => if |docs| > 0 then At(docs, 1) else Null
    case Failure => Null
  }

  /** The value one per-key promise resolves to: `null` for a skipped key,
      or a one-property object `{ [key]: value }`. */
  datatype Outcome<T> = Skip | Store(key: string, value: Value<T>)

  /** The per-key rule: skip a key whose entry is truthy, otherwise ask the
      catalog and keep the selected value. */
  function KeyOutcome<T>(cache: Dict<T>, key: string, search: string -> Response<seq<T>>,
                         select: Response<seq<T>> -> Value<T>): Outcome<T>
  {
    if NeedsLookup(cache, key) then Store(key, select(search(key))) else Skip
  }

  /** `keys.map(...)`: the outcomes of one round, in key order. */
  function Outcomes<T>(cache: Dict<T>, keys: seq<string>, search: string -> Response<seq<T>>,
                       select: Response<seq<T>> -> Value<T>): (os: seq<Outcome<T>>)
    ensures |os| == |keys|
  {
    if |keys| == 0 then []
    else Outcomes(cache, keys[..|keys| - 1], search, select) + [KeyOutcome(cache, keys[|keys| - 1], search, select)]
  }

  /** `results.reduce((acc, curr) => ({ ...acc, ...curr }), {})`: spreading
      `null` adds nothing, a later property overrides an earlier one. */
  function Merge<T>(outcomes: seq<Outcome<T>>): Dict<T>
  {
    if |outcomes| == 0 then map[]
    else
      var acc := Merge(outcomes[..|outcomes| - 1]);
      match outcomes[|outcomes| - 1]
      case Skip => acc
      case Store(k, v) => acc[k := v]
  }

  /** The queries a round sends: the keys whose entry is falsy, in order. */
  function Requests<T>(cache: Dict<T>, keys: seq<string>): (r: seq<string>)
    ensures forall k :: k in r <==> k in keys && NeedsLookup(cache, k)
    ensures NoDuplicates(keys) ==> NoDuplicates(r)
  {
    if |keys| == 0 then []
    else
      var prefix := keys[..|keys| - 1];
      var last := keys[|keys| - 1];
      assert keys == prefix + [last];
      var rest := Requests(cache, prefix);
      assert NoDuplicates(keys) ==> NoDuplicates(prefix) && last !in prefix;
      if NeedsLookup(cache, last) then rest + [last] else rest
  }

  /** The keys of the `Store` outcomes, in order: the keys whose search is
      actually consulted. */
  function StoredKeys<T>(outcomes: seq<Outcome<T>>): seq<string>
  {
    if |outcomes| == 0 then []
    else
      var rest := StoredKeys(outcomes[..|outcomes| - 1]);
      match outcomes[|outcomes| - 1]
      case Skip => rest
      case Store(k, _) => rest + [k]
  }

  /** The keys the per-key outcomes pass to the search are exactly the
      queries of the round, in the same order. */
  lemma {:induction false} OutcomesQueryRequests<T>(cache: Dict<T>, keys: seq<string>,
                                                   search: string -> Response<seq<T>>,
                                                   select: Response<seq<T>> -> Value<T>)
    ensures StoredKeys(Outcomes(cache, keys, search, select)) == Requests(cache, keys)
  {
    if |keys| > 0 {
      var prefix := keys[..|keys| - 1];
      var os := Outcomes(cache, keys, search, select);
      assert os[..|os| - 1] == Outcomes(cache, prefix, search, select);
      OutcomesQueryRequests(cache, prefix, search, select);
    }
  }

  /** `setDetails(prev => ({ ...prev, ...newDetails }))` for one round. */
  function Round<T>(cache: Dict<T>, keys: seq<string>, search: string -> Response<seq<T>>,
                    select: Response<seq<T>> -> Value<T>): Dict<T>
  {
    cache + Merge(Outcomes(cache, keys, search, select))
  }

  /** The reduced update holds exactly the requested keys, each with the
      value selected from its own answer. */
  lemma {:induction false} MergeEffect<T>(cache: Dict<T>, keys: seq<string>, search: string -> Response<seq<T>>,
                                          select: Response<seq<T>> -> Value<T>, k: string)
    ensures k in Merge(Outcomes(cache, keys, search, select)) <==> k in keys && NeedsLookup(cache, k)
    ensures k in Merge(Outcomes(cache, keys, search, select)) ==>
              Merge(Outcomes(cache, keys, search, select))[k] == select(search(k))
  {
    if |keys| > 0 {
      var prefix := keys[..|keys| - 1];
      assert keys == prefix + [keys[|keys| - 1]];
      var os := Outcomes(cache, keys, search, select);
      assert os[..|os| - 1] == Outcomes(cache, prefix, search, select);
      MergeEffect(cache, prefix, search, select, k);
    }
  }

  /** A round overlays the old cache with its answers: a requested key gets
      the selected value, every other key keeps its old entry, and no key
      is ever removed. */
  lemma RoundEffect<T>(cache: Dict<T>, keys: seq<string>, search: string -> Response<seq<T>>,
                       select: Response<seq<T>> -> Value<T>, k: string)
    ensures Get(Round(cache, keys, search, select), k) ==
              if k in keys && NeedsLookup(cache, k) then select(search(k)) else Get(cache, k)
    ensures cache.Keys <= Round(cache, keys, search, select).Keys
  {
    MergeEffect(cache, keys, search, select, k);
  }

  /** A requested name stays unresolved (and is asked for again next round)
      exactly when its lookup found nothing or failed. */
  lemma AuthorRoundResolves(cache: Dict<AuthorDoc>, names: seq<string>,
                            search: string -> Response<seq<AuthorDoc>>, name: string)
    requires name in names
    ensures NeedsLookup(Round(cache, names, search, AuthorValue), name) <==>
              NeedsLookup(cache, name) && !(search(name).Received? && |search(name).data| > 0)
    ensures NeedsLookup(cache, name) && search(name).Received? && |search(name).data| > 0 ==>
              Get(Round(cache, names, search, AuthorValue), name) == Obj(search(name).data[0])
  {
    RoundEffect(cache, names, search, AuthorValue, name);
  }

  /** A requested title is resolved only when the search returns at least
      two hits, since the second one is kept. */
  lemma RatingRoundResolves(cache: Dict<BookDoc>, titles: seq<string>,
                            search: string -> Response<seq<BookDoc>>, title: string)
    requires title in titles
    ensures NeedsLookup(Round(cache, titles, search, RatingValue), title) <==>
              NeedsLookup(cache, title) && !(search(title).Received? && |search(title).data| > 1)
    ensures NeedsLookup(cache, title) && search(title).Received? && |search(title).data| > 1 ==>
              Get(Round(cache, titles, search, RatingValue), title) == Obj(search(title).data[1])
  {
    RoundEffect(cache, titles, search, RatingValue, title);
  }

  /** When no key has a truthy entry (in the model, an empty cache) every
      key is asked for, in order; with the distinct names that is once per
      name. */
  lemma {:induction false} ColdStartRequestsAll<T>(cache: Dict<T>, keys: seq<string>)
    requires forall k :: k in keys ==> NeedsLookup(cache, k)
    ensures Requests(cache, keys) == keys
  {
    if |keys| > 0 {
      ColdStartRequestsAll(cache, keys[..|keys| - 1]);
      assert keys == keys[..|keys| - 1] + [keys[|keys| - 1]];
    }
  }

  // ---------------------------------------------------------------------
  // Rows

  /** The seven cells of one table row, left to right. */
  datatype Row = Row(rating: string, authors: string, title: string, year: string,
                     subject: string, birthDate: string, topWork: string)

  /** `book.first_publish_year || 'N/A'` */
  function YearCell(year: Option<int>): string
  {
    match year
    case Some(y) => if y != 0 then Decimal(y) else NA
    case None => NA
  }

  /** `book.author_names.join(', ') || 'N/A'` */
  function AuthorsCell(names: seq<string>): string
  {
    var joined := Join(names, ", ");
    if joined != "" then joined else NA
  }

  /** The row of one work. The author record is read under the WHOLE
      `author_names` array, coerced to a key. */
  function RowOf(book: Work, authors: Dict<AuthorDoc>, ratings: Dict<BookDoc>): Row
  {
    var author := DocOr(Get(authors, ArrayKey(book.authorNames)), NoAuthor);
    var rating := DocOr(Get(ratings, TitleKey(book.title)), NoBook);
    Row(RatingCell(rating), AuthorsCell(book.authorNames), OrText(book.title, NA),
        YearCell(book.firstPublishYear), SubjectCell(author), BirthDateCell(author), TopWorkCell(author))
  }

  /** `books.map(...)`: one row per work, in reading-list order. */
  function Rows(books: seq<Work>, authors: Dict<AuthorDoc>, ratings: Dict<BookDoc>): seq<Row>
  {
    seq(|books|, i requires 0 <= i < |books| => RowOf(books[i], authors, ratings))
  }

  /** Every cell but the rating and the subject is non-empty; the authors
      cell is "N/A" for an empty list and the name itself for one author. */
  lemma CellRules(book: Work, authors: Dict<AuthorDoc>, ratings: Dict<BookDoc>)
    ensures var r := RowOf(book, authors, ratings);
              r.authors != "" && r.title != "" && r.year != "" && r.birthDate != "" && r.topWork != ""
    ensures |book.authorNames| == 0 ==> RowOf(book, authors, ratings).authors == NA
    ensures |book.authorNames| == 1 && book.authorNames[0] != "" ==>
              RowOf(book, authors, ratings).authors == book.authorNames[0]
    ensures book.firstPublishYear == Some(0) ==> RowOf(book, authors, ratings).year == NA
  {
  }

  /** A work with one author finds the record stored under that name. */
  lemma SingleAuthorRowFindsRecord(book: Work, books: seq<Work>, cache: Dict<AuthorDoc>,
                                   search: string -> Response<seq<AuthorDoc>>, ratings: Dict<BookDoc>)
    requires book in books && |book.authorNames| == 1
    requires NeedsLookup(cache, book.authorNames[0])
    requires search(book.authorNames[0]).Received? && |search(book.authorNames[0]).data| > 0
    ensures var d := search(book.authorNames[0]).data[0];
            var r := RowOf(book, Round(cache, DistinctNames(books), search, AuthorValue), ratings);
              r.subject == SubjectCell(d) && r.birthDate == BirthDateCell(d) && r.topWork == TopWorkCell(d)
  {
    var name := book.authorNames[0];
    ArrayKeyShape(book.authorNames);
    var i :| 0 <= i < |books| && books[i] == book;
    assert name in DistinctNames(books);
    AuthorRoundResolves(cache, DistinctNames(books), search, name);
  }

  /** A work with two or more authors never finds a record: names are
      stored one by one, but the row reads the comma-joined key. When no
      cached key and no author name contains a comma, its three author
      cells are "N/A" after any round. */
  lemma MultiAuthorRowMisses(book: Work, books: seq<Work>, cache: Dict<AuthorDoc>,
                             search: string -> Response<seq<AuthorDoc>>, ratings: Dict<BookDoc>)
    requires |book.authorNames| >= 2
    requires forall k :: k in cache ==> ',' !in k
    requires forall i, j :: 0 <= i < |books| && 0 <= j < |books[i].authorNames| ==> ',' !in books[i].authorNames[j]
    ensures var r := RowOf(book, Round(cache, DistinctNames(books), search, AuthorValue), ratings);
              r.subject == NA && r.birthDate == NA && r.topWork == NA
  {
    var key := ArrayKey(book.authorNames);
    ArrayKeyShape(book.authorNames);
    var names := DistinctNames(books);
    forall i, j | 0 <= i < |books| && 0 <= j < |books[i].authorNames|
      ensures books[i].authorNames[j] != key
    {
    }
    assert key !in names;
    RoundEffect(cache, names, search, AuthorValue, key);
    MissingAuthorCells(Get(Round(cache, names, search, AuthorValue), key));
  }

  /** A title with exactly one hit stores `undefined`: its rating cell is
      "N/A" and the title is asked for again in the next round. */
  lemma OneHitTitleIsRefetched(book: Work, books: seq<Work>, cache: Dict<BookDoc>,
                               search: string -> Response<seq<BookDoc>>, authors: Dict<AuthorDoc>)
    requires book in books
    requires NeedsLookup(cache, TitleKey(book.title))
    requires search(TitleKey(book.title)).Received? && |search(TitleKey(book.title)).data| == 1
    ensures Get(Round(cache, Titles(books), search, RatingValue), TitleKey(book.title)) == Undefined
    ensures NeedsLookup(Round(cache, Titles(books), search, RatingValue), TitleKey(book.title))
    ensures RowOf(book, authors, Round(cache, Titles(books), search, RatingValue)).rating == NA
  {
    var i :| 0 <= i < |books| && books[i] == book;
    assert Titles(books)[i] == TitleKey(book.title);
    RoundEffect(cache, Titles(books), search, RatingValue, TitleKey(book.title));
  }

  // ---------------------------------------------------------------------
  // The component

  const FetchError := "Failed to fetch books"

  /** What the component renders. */
  datatype Screen = Spinner | Message(text: string) | Table(rows: seq<Row>)

  /** `if (loading) ...; if (error) ...; return <table>` */
  function ScreenOf(loading: bool, error: Option<string>, rows: seq<Row>): Screen
  {
    if loading then Spinner
    else if error.Some? && error.value != "" then Message(error.value)
    else Table(rows)
  }

  /** The spinner shows while loading; after that a truthy error shows only
      the message; otherwise the table shows every row. */
  lemma ScreenRules(loading: bool, error: Option<string>, rows: seq<Row>)
    ensures loading ==> ScreenOf(loading, error, rows) == Spinner
    ensures !loading && error == Some(FetchError) ==> ScreenOf(loading, error, rows) == Message(FetchError)
    ensures ScreenOf(loading, error, rows) == Table(rows) <==> !loading && !(error.Some? && error.value != "")
    ensures ScreenOf(loading, error, rows).Message? ==> ScreenOf(loading, error, rows).text != ""
  {
  }

  /** The component state `books`, `authorDetails`, `ratingDetails`,
      `loading` and `error`, and the handlers that replace it. */
  class Dashboard {
    var books: seq<Work>
    var authorDetails: Dict<AuthorDoc>
    var ratingDetails: Dict<BookDoc>
    var loading: bool
    var error: Option<string>

    /** The `useState` initial values. */
    constructor ()
      ensures books == [] && authorDetails == map[] && ratingDetails == map[]
      ensures loading && error == None
    {
      books, authorDetails, ratingDetails := [], map[], map[];
      loading, error := true, None;
    }

    /** `fetchBooks`: keep the works of the reading list, or record the
        error; `loading` is cleared either way. */
    method FetchBooks(response: Response<seq<LogEntry>>)
      modifies this
      ensures !loading
      ensures response.Received? ==> books == Works(response.data) && error == old(error)
      ensures response.Failure? ==> books == old(books) && error == Some(FetchError)
      ensures authorDetails == old(authorDetails) && ratingDetails == old(ratingDetails)
    {
      match response {
        case Received(entries) =>
          books := Works(entries);
        case Failure =>
          error := Some(FetchError);
      }
      loading := false;
    }

    /** `fetchDetails`, run only when there are books: one round over the
        distinct author names and one over the titles. Returns the queries
        sent to the author and to the title search. */
    method FetchDetails(authorSearch: string -> Response<seq<AuthorDoc>>,
                        titleSearch: string -> Response<seq<BookDoc>>)
      returns (authorQueries: seq<string>, titleQueries: seq<string>)
      modifies this
      ensures books == old(books) && loading == old(loading) && error == old(error)
      ensures |books| == 0 ==>
                authorDetails == old(authorDetails) && ratingDetails == old(ratingDetails) &&
                authorQueries == [] && titleQueries == []
      ensures |books| > 0 ==>
                authorDetails == Round(old(authorDetails), DistinctNames(books), authorSearch, AuthorValue) &&
                ratingDetails == Round(old(ratingDetails), Titles(books), titleSearch, RatingValue) &&
                authorQueries == Requests(old(authorDetails), DistinctNames(books)) &&
                titleQueries == Requests(old(ratingDetails), Titles(books))
    {
      authorQueries, titleQueries := [], [];
      if |books| > 0 {
        var names := DistinctNames(books);
        var titles := Titles(books);
        authorQueries := Requests(authorDetails, names);
        titleQueries := Requests(ratingDetails, titles);
        authorDetails := authorDetails + Merge(Outcomes(authorDetails, names, authorSearch, AuthorValue));
        ratingDetails := ratingDetails + Merge(Outcomes(ratingDetails, titles, titleSearch, RatingValue));
      }
    }

    /** What the component renders for its current state. */
    function View(): Screen
      reads this
    {
      ScreenOf(loading, error, Rows(books, authorDetails, ratingDetails))
    }
  }

  /** Once loading is over, a component whose load failed shows only the
      error message, and one without an error shows one row per work. */
  lemma ViewAfterLoad(d: Dashboard)
    requires !d.loading
    ensures d.error == Some(FetchError) ==> d.View() == Message(FetchError)
    ensures d.error == None ==>
              d.View().Table? && |d.View().rows| == |d.books| &&
              forall i :: 0 <= i < |d.books| ==>
                d.View().rows[i] == RowOf(d.books[i], d.authorDetails, d.ratingDetails)
  {
  }

  /** A failed reading-list request shows only the error message. */
  method FailedLoadScenario()
  {
    var d := new Dashboard();
    assert d.View() == Spinner;
    d.FetchBooks(Failure);
    assert d.View() == Message(FetchError);
    var a, t := d.FetchDetails(_ => Failure, _ => Failure);
    assert a == [] && t == [] && d.View() == Message(FetchError);
  }

  /** Two single-author works whose author searches both succeed: after one
      round the second row shows its own author's birth date, not the first
      author's. */
  method TwoWorksScenario()
  {
    var dune := Work(Some("Dune"), ["Frank Herbert"], Some(1965));
    var orwell := Work(Some("1984"), ["George Orwell"], Some(1949));
    var herbert := AuthorDoc(Some("1920"), None, None);
    var george := AuthorDoc(Some("1903"), None, None);
    var authorSearch: string -> Response<seq<AuthorDoc>> :=
      // the catalog tells the two names apart by their first letter
      n => if |n| > 0 && n[0] == 'F' then Received([herbert])
           else if |n| > 0 && n[0] == 'G' then Received([george])
           else Received([]);
    var books := [dune, orwell];
    var d := new Dashboard();
    d.FetchBooks(Received([LogEntry(dune), LogEntry(orwell)]));
    assert d.books == books;
    var a, t := d.FetchDetails(authorSearch, _ => Failure);
    ghost var authors := Round(map[], DistinctNames(books), authorSearch, AuthorValue);
    SingleAuthorRowFindsRecord(orwell, books, map[], authorSearch, d.ratingDetails);
    assert RowOf(orwell, authors, d.ratingDetails).birthDate == "1903";
    ViewAfterLoad(d);
  }
}
