/**
 * The book administration page, src/pages/admin/AdminBooks.jsx: the search filter,
 * the per-book summary progress map, and the form opened to add or edit a book.
 */
module AdminBooks {
  import opened Wrappers
  import opened Text
  import opened Lists
  import opened BookList

  predicate BookMatches(b: Book, search: string) {
    var lowered := Lower(search);
    Mentions(b.title, lowered) || Mentions(b.author, lowered) || Mentions(b.genre, lowered)
  }

  function ByBook(search: string): Book -> bool {
    b => BookMatches(b, search)
  }

  /** `filtered` (lines 152-156). */
  function MatchingBooks(books: seq<Book>, search: string): (kept: seq<Book>)
    ensures forall b :: b in kept <==> b in books && BookMatches(b, search)
  {
    Filter(books, ByBook(search))
  }

  /** The kept books are exactly the matching positions, in their original order. */
  lemma MatchingBooksPositions(books: seq<Book>, search: string) returns (idx: seq<nat>)
    ensures SelectsFrom(MatchingBooks(books, search), books, idx)
    ensures forall i :: 0 <= i < |books| ==> (BookMatches(books[i], search) <==> i in idx)
  {
    idx := FilterPositions(books, ByBook(search));
  }

  /** With an empty search a book is listed exactly when it has a title, an author or a
    * genre: one with none of the three is never listed. */
  lemma EmptySearchNeedsAField(b: Book)
    ensures BookMatches(b, "") <==> b.title.Some? || b.author.Some? || b.genre.Some?
  {
    if b.title.Some? { IncludesEmpty(Lower(b.title.value)); }
    if b.author.Some? { IncludesEmpty(Lower(b.author.value)); }
    if b.genre.Some? { IncludesEmpty(Lower(b.genre.value)); }
  }

  /** The search ignores the letter case of what is typed. */
  lemma SearchIgnoresCase(b: Book, search: string)
    ensures BookMatches(b, Lower(search)) == BookMatches(b, search)
  {
    LowerIdempotent(search);
  }

  /** What is running for one book: `'generating'` or `'deleting'`. */
  datatype SummaryAction = Generating | Deleting

  /** The `summaryLoading` state: the book ids with a summary call in progress. */
  class SummaryProgress {
    var loading: map<int, SummaryAction>

    constructor ()
      ensures loading == map[]
    {
      loading := map[];
    }

    /** `handleGenerateSummary` before its call (line 42): only this book's entry is set. */
    method StartGenerate(bookId: int)
      modifies this
      ensures loading == old(loading)[bookId := Generating]
    {
      loading := loading[bookId := Generating];
    }

    /** `handleDeleteSummary` before its call (line 59). */
    method StartDelete(bookId: int)
      modifies this
      ensures loading == old(loading)[bookId := Deleting]
    {
      loading := loading[bookId := Deleting];
    }

    /** The `finally` of either handler (lines 48-53, 65-70): a copy without this book's entry. */
    method Finish(bookId: int)
      modifies this
      ensures loading == Without(old(loading), bookId)
    {
      var next := loading;
      next := next - {bookId};
      loading := next;
    }
  }

  /** The progress map with one book's entry deleted. */
  function Without(m: map<int, SummaryAction>, bookId: int): (r: map<int, SummaryAction>)
    ensures bookId !in r
    ensures forall k :: k != bookId ==> (k in r <==> k in m) && (k in m ==> r[k] == m[k])
  {
    m - {bookId}
  }

  /** Finishing an action started on an idle book restores the map as it was. */
  lemma StartThenFinish(m: map<int, SummaryAction>, bookId: int, action: SummaryAction)
    requires bookId !in m
    ensures Without(m[bookId := action], bookId) == m
  {
  }

  /** Actions on two different books do not disturb each other's entries. */
  lemma FinishLeavesOthers(m: map<int, SummaryAction>, bookId: int, other: int, action: SummaryAction)
    requires other != bookId
    ensures Without(m[other := action], bookId)[other] == action
  {
  }

  /** Starting a second action on a book whose first is still running overwrites the
    * entry; whichever finishes first removes it while the other is still running. */
  lemma OverlappingActionsShareEntry(m: map<int, SummaryAction>, bookId: int)
    ensures m[bookId := Generating][bookId := Deleting][bookId] == Deleting
    ensures bookId !in Without(m[bookId := Generating][bookId := Deleting], bookId)
  {
  }

  /** A numeric form field: `''` or the number. */
  datatype NumberField = Blank | Number(value: real)

  /** The edit form. */
  datatype BookForm = BookForm(
    title: string, author: string, description: string, genre: string,
    price: NumberField, available: bool, coverImageUrl: string,
    isbn: string, publisher: string, language: string, pages: NumberField,
    publicationYear: NumberField, averageRating: NumberField)

  /** `emptyBook` (lines 6-11): every field `''` except `available`, which is true. */
  const EmptyBook: BookForm :=
    BookForm("", "", "", "", Blank, true, "", "", "", "", Blank, Blank, Blank)

  /** `field || ''` for text. */
  function TextOrBlank(field: Option<string>): (s: string)
    ensures s == "" <==> field.None? || field == Some("")
    ensures field.Some? && field.value != "" ==> s == field.value
  {
    field.GetOr("")
  }

  /** `field || ''` for a number: missing and 0 are falsy. */
  function NumberOrBlank(field: Option<real>): (f: NumberField)
    ensures f.Blank? <==> field.None? || field == Some(0.0)
    ensures f.Number? ==> f.value == field.value
  {
    if field.Some? && field.value != 0.0 then Number(field.value) else Blank
  }

  /** The modal: which book is edited (`None` when adding), the form, and whether it is shown. */
  datatype Editor = Editor(editing: Option<Book>, form: BookForm, showModal: bool)

  /** `openAdd` (lines 89-93). */
  function OpenAdd(): (e: Editor)
    ensures e.editing.None? && e.showModal
    ensures e.form == EmptyBook
    ensures e.form.available && e.form.title == "" && e.form.price.Blank?
  {
    Editor(None, EmptyBook, true)
  }

  /** `openEdit` (lines 95-113): falsy fields become `''`; `available` falls back to true
    * only when missing, so a stored `false` is kept. */
  function OpenEdit(book: Book): (e: Editor)
    ensures e.editing == Some(book) && e.showModal
    ensures e.form.available == (book.available.None? || book.available.value)
    ensures e.form.title == TextOrBlank(book.title) && e.form.author == TextOrBlank(book.author)
    ensures e.form.description == TextOrBlank(book.description) && e.form.genre == TextOrBlank(book.genre)
    ensures e.form.coverImageUrl == TextOrBlank(book.coverImageUrl) && e.form.isbn == TextOrBlank(book.isbn)
    ensures e.form.publisher == TextOrBlank(book.publisher) && e.form.language == TextOrBlank(book.language)
    ensures e.form.price == NumberOrBlank(book.price) && e.form.pages == NumberOrBlank(book.pages)
    ensures e.form.publicationYear == NumberOrBlank(book.publicationYear)
    ensures e.form.averageRating == NumberOrBlank(book.averageRating)
  {
    Editor(Some(book), BookForm(
      TextOrBlank(book.title), TextOrBlank(book.author), TextOrBlank(book.description), TextOrBlank(book.genre),
      NumberOrBlank(book.price), book.available.GetOr(true), TextOrBlank(book.coverImageUrl),
      TextOrBlank(book.isbn), TextOrBlank(book.publisher), TextOrBlank(book.language),
      NumberOrBlank(book.pages), NumberOrBlank(book.publicationYear), NumberOrBlank(book.averageRating)), true)
  }

  /** Editing a book with nothing filled in opens the same form as adding one. */
  lemma OpenEditOfBlankBook(book: Book)
    requires book.title.None? && book.author.None? && book.description.None? && book.genre.None?
    requires book.coverImageUrl.None? && book.isbn.None? && book.publisher.None? && book.language.None?
    requires book.price.None? && book.pages.None? && book.publicationYear.None? && book.averageRating.None?
    requires book.available.None?
    ensures OpenEdit(book).form == OpenAdd().form
  {
  }

  /** A price of 0 is shown as an empty field, like a missing one. */
  lemma ZeroPriceShownBlank(book: Book)
    requires book.price == Some(0.0)
    ensures OpenEdit(book).form.price == Blank
  {
  }
}
