/** The three record kinds of the store and the data it starts with. */
module Records {
  import opened Wrappers

  /** A book record. `id` is assigned by the store; the other four fields are whatever the
      creating input carried, and are all absent for a book created without an input. */
  datatype Book = Book(
    id: int,
    title: Option<string>,
    authorId: Option<int>,
    categoryId: Option<int>,
    publicationDate: Option<string>)

  datatype Author = Author(id: int, name: string)

  datatype Category = Category(id: int, name: string)

  /** The `BookInput` argument of `createBook`: every field is required, and there is no `id`. */
  datatype BookInput = BookInput(title: string, authorId: int, categoryId: int, publicationDate: string)

  function SeedBook(id: int, title: string, authorId: int, categoryId: int, date: string): Book {
    Book(id, Some(title), Some(authorId), Some(categoryId), Some(date))
  }

  /** The four books the store starts with. */
  function SeedBooks(): seq<Book> {
    [ SeedBook(1, "The Awakening", 1, 1, "1899-04-22"),
      SeedBook(2, "City of Glass", 2, 1, "1985-03-12"),
      SeedBook(3, "The Awakening2", 1, 2, "1899-04-22"),
      SeedBook(4, "City of Glass2", 2, 2, "1985-03-12") ]
  }

  function SeedCategories(): seq<Category> {
    [ Category(1, "Fiction"), Category(2, "Novel") ]
  }

  function SeedAuthors(): seq<Author> {
    [ Author(1, "Kate Chopin"), Author(2, "Paul Auster") ]
  }

  /** The book at position `i` has id `i + 1`: the shape `createBook`'s id assignment keeps. */
  ghost predicate IdsArePositions(books: seq<Book>) {
    forall i :: 0 <= i < |books| ==> books[i].id == i + 1
  }

  /** The record `createBook` builds, `{ id: books.length + 1, ...BookInput }`: the spread copies
      the input's four fields and cannot replace the id, since the input has none. */
  function NewBook(count: nat, input: Option<BookInput>): (r: Book)
    ensures r.id == count + 1
    ensures input.Some? ==> r.title == Some(input.value.title) && r.authorId == Some(input.value.authorId) &&
                            r.categoryId == Some(input.value.categoryId) &&
                            r.publicationDate == Some(input.value.publicationDate)
    ensures input.None? ==> r.title.None? && r.authorId.None? && r.categoryId.None? && r.publicationDate.None?
  {
    match input
    case None => Book(count + 1, None, None, None, None)
    case Some(b) => Book(count + 1, Some(b.title), Some(b.authorId), Some(b.categoryId), Some(b.publicationDate))
  }

  lemma SeedIdsArePositions()
    ensures IdsArePositions(SeedBooks())
    ensures forall i :: 0 <= i < |SeedAuthors()| ==> SeedAuthors()[i].id == i + 1
    ensures forall i :: 0 <= i < |SeedCategories()| ==> SeedCategories()[i].id == i + 1
  {
  }

  /** Distinct positions hold distinct ids, so book ids are unique. */
  lemma IdsArePositionsUnique(books: seq<Book>, i: nat, j: nat)
    requires IdsArePositions(books)
    requires i < |books| && j < |books| && i != j
    ensures books[i].id != books[j].id
  {
  }

  /** Appending the record `createBook` builds keeps ids equal to positions. */
  lemma AppendKeepsIdsArePositions(books: seq<Book>, input: Option<BookInput>)
    requires IdsArePositions(books)
    ensures IdsArePositions(books + [NewBook(|books|, input)])
  {
  }

  /** The id `createBook` assigns is not the id of any earlier book. */
  lemma NewIdIsFresh(books: seq<Book>, input: Option<BookInput>)
    requires IdsArePositions(books)
    ensures forall i :: 0 <= i < |books| ==> books[i].id != NewBook(|books|, input).id
  {
  }
}
