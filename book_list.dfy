/**
 * The catalogue page, src/pages/BookList.jsx: the search and genre filter that
 * produces `filteredBooks`, and the genre choices offered beside it.
 */
module BookList {
  import opened Wrappers
  import opened Text
  import opened Lists

  /** A book as `/books` returns it; every field the pages read may be missing. */
  datatype Book = Book(
    id: int,
    title: Option<string>, author: Option<string>, description: Option<string>, genre: Option<string>,
    coverImageUrl: Option<string>, isbn: Option<string>, publisher: Option<string>, language: Option<string>,
    price: Option<real>, pages: Option<real>, publicationYear: Option<real>, averageRating: Option<real>,
    available: Option<bool>)

  /** The search test evaluates without throwing: the title is present, and so is the
    * author unless the title already matched. */
  predicate SearchDefined(b: Book, lowerQuery: string) {
    b.title.Some? && (Includes(Lower(b.title.value), lowerQuery) || b.author.Some?)
  }

  predicate MatchesQuery(b: Book, lowerQuery: string) {
    Mentions(b.title, lowerQuery) || Mentions(b.author, lowerQuery)
  }

  predicate InGenre(b: Book, selectedGenre: string) {
    selectedGenre == "All" || b.genre == Some(selectedGenre)
  }

  /** Whether a book stays in the list: the search (when there is one) and the genre both accept it. */
  predicate Shown(b: Book, searchQuery: string, selectedGenre: string) {
    (searchQuery == "" || MatchesQuery(b, Lower(searchQuery))) && InGenre(b, selectedGenre)
  }

  /** The text filter, the genre filter and both together, as filter callbacks. */
  function ByQuery(searchQuery: string): Book -> bool {
    b => MatchesQuery(b, Lower(searchQuery))
  }

  function ByGenre(selectedGenre: string): Book -> bool {
    (b: Book) => b.genre == Some(selectedGenre)
  }

  function ByShown(searchQuery: string, selectedGenre: string): Book -> bool {
    b => Shown(b, searchQuery, selectedGenre)
  }

  /** The `filteredBooks` effect: a text filter when the query is non-empty, then a
    * genre filter unless `'All'` is selected. */
  function FilteredBooks(books: seq<Book>, searchQuery: string, selectedGenre: string): (result: seq<Book>)
    requires searchQuery != "" ==> forall i :: 0 <= i < |books| ==> SearchDefined(books[i], Lower(searchQuery))
    ensures forall b :: b in result <==> b in books && Shown(b, searchQuery, selectedGenre)
  {
    var searched := if searchQuery != "" then Filter(books, ByQuery(searchQuery)) else books;
    if selectedGenre != "All" then Filter(searched, ByGenre(selectedGenre)) else searched
  }

  /** The two filters in a row are one filter by `Shown`. */
  lemma FilteredBooksIsOneFilter(books: seq<Book>, searchQuery: string, selectedGenre: string)
    requires searchQuery != "" ==> forall i :: 0 <= i < |books| ==> SearchDefined(books[i], Lower(searchQuery))
    ensures FilteredBooks(books, searchQuery, selectedGenre) == Filter(books, ByShown(searchQuery, selectedGenre))
  {
    var shown := ByShown(searchQuery, selectedGenre);
    var byQuery := ByQuery(searchQuery);
    var byGenre := ByGenre(selectedGenre);
    if searchQuery != "" && selectedGenre != "All" {
      assert FilteredBooks(books, searchQuery, selectedGenre) == Filter(Filter(books, byQuery), byGenre);
      FilterFuse(books, byQuery, byGenre);
      FilterCongruent(books, Both(byQuery, byGenre), shown);
    } else if searchQuery != "" {
      assert FilteredBooks(books, searchQuery, selectedGenre) == Filter(books, byQuery);
      FilterCongruent(books, byQuery, shown);
    } else if selectedGenre != "All" {
      assert FilteredBooks(books, searchQuery, selectedGenre) == Filter(books, byGenre);
      FilterCongruent(books, byGenre, shown);
    } else {
      assert FilteredBooks(books, searchQuery, selectedGenre) == books;
      FilterKeepsAll(books, shown);
    }
  }

  /** `filteredBooks` keeps, in their original order, exactly the positions of `books`
    * whose book is shown. */
  lemma FilteredBooksPositions(books: seq<Book>, searchQuery: string, selectedGenre: string) returns (idx: seq<nat>)
    requires searchQuery != "" ==> forall i :: 0 <= i < |books| ==> SearchDefined(books[i], Lower(searchQuery))
    ensures SelectsFrom(FilteredBooks(books, searchQuery, selectedGenre), books, idx)
    ensures forall i :: 0 <= i < |books| ==> (Shown(books[i], searchQuery, selectedGenre) <==> i in idx)
  {
    FilteredBooksIsOneFilter(books, searchQuery, selectedGenre);
    idx := FilterPositions(books, ByShown(searchQuery, selectedGenre));
  }

  lemma FilteredBooksIsSubsequence(books: seq<Book>, searchQuery: string, selectedGenre: string)
    requires searchQuery != "" ==> forall i :: 0 <= i < |books| ==> SearchDefined(books[i], Lower(searchQuery))
    ensures IsSubsequence(FilteredBooks(books, searchQuery, selectedGenre), books)
  {
    var idx := FilteredBooksPositions(books, searchQuery, selectedGenre);
  }

  /** With no query and `'All'` selected the whole catalogue is shown. */
  lemma NoFilterShowsAll(books: seq<Book>)
    ensures FilteredBooks(books, "", "All") == books
  {
  }

  /** The genre test is exact: letter case matters. */
  lemma GenreIsCaseSensitive(b: Book, selectedGenre: string)
    requires selectedGenre != "All" && b.genre.Some? && b.genre.value != selectedGenre
    ensures !Shown(b, "", selectedGenre)
  {
  }

  /** `books.map(book => book.genre).filter(Boolean)`: the present, non-empty genres in book order. */
  function TruthyGenres(books: seq<Book>): (gs: seq<string>)
    ensures |gs| <= |books|
    ensures forall g :: g in gs <==> g != "" && exists i :: 0 <= i < |books| && books[i].genre == Some(g)
  {
    if books == [] then []
    else
      var rest := TruthyGenres(books[1..]);
      assert forall g :: (exists i :: 0 <= i < |books| && books[i].genre == Some(g)) <==>
        books[0].genre == Some(g) || exists i :: 0 <= i < |books[1..]| && books[1..][i].genre == Some(g) by {
        forall g, i | 1 <= i < |books| && books[i].genre == Some(g)
          ensures books[1..][i - 1].genre == Some(g)
        {
        }
      }
      if IsTruthy(books[0].genre) then [books[0].genre.value] + rest else rest
  }

  /** The genres of a catalogue are those of its first part followed by those of the rest. */
  lemma {:induction false} TruthyGenresAppend(xs: seq<Book>, ys: seq<Book>)
    ensures TruthyGenres(xs + ys) == TruthyGenres(xs) + TruthyGenres(ys)
  {
    if xs != [] {
      TruthyGenresAppend(xs[1..], ys);
      assert (xs + ys)[0] == xs[0];
      assert (xs + ys)[1..] == xs[1..] + ys;
    } else {
      assert xs + ys == ys;
    }
  }

  /** `genres` (line 49): `'All'` and then each genre once. */
  function GenreOptions(books: seq<Book>): (genres: seq<string>)
    ensures |genres| >= 1 && genres[0] == "All"
    ensures forall g :: g in genres[1..] <==> g != "" && exists i :: 0 <= i < |books| && books[i].genre == Some(g)
    ensures forall i, j :: 1 <= i < j < |genres| ==> genres[i] != genres[j]
  {
    ["All"] + Distinct(TruthyGenres(books))
  }

  /** Each genre is listed where it first occurs among the books' genres. */
  lemma GenreOptionsOrder(books: seq<Book>) returns (idx: seq<nat>)
    ensures SelectsFrom(GenreOptions(books)[1..], TruthyGenres(books), idx)
    ensures forall k, i :: 0 <= k < |idx| && 0 <= i < idx[k] ==> TruthyGenres(books)[i] != GenreOptions(books)[1..][k]
  {
    assert GenreOptions(books)[1..] == Distinct(TruthyGenres(books));
    idx := DistinctFirstOccurrences(TruthyGenres(books));
  }

  /** A book whose genre is literally "All" makes that choice appear twice. */
  lemma AllGenreListedTwice(books: seq<Book>, i: nat)
    requires i < |books| && books[i].genre == Some("All")
    ensures "All" in GenreOptions(books)[1..]
  {
  }
}
