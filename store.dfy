/** The module-level state of the server: the book array that `createBook` grows in place,
    next to the author and category arrays that nothing changes. */
module BookStore {
  import opened Wrappers
  import opened Records
  import opened Resolvers

  class Store {
    var books: seq<Book>
    const authors: seq<Author>
    const categories: seq<Category>

    /** Ids equal positions: true of the seed data and kept by every `CreateBook`. */
    ghost predicate Valid()
      reads this
    {
      IdsArePositions(books)
    }

    /** The store as the module is loaded: the seed arrays. */
    constructor ()
      ensures books == SeedBooks() && authors == SeedAuthors() && categories == SeedCategories()
      ensures Valid()
    {
      books := SeedBooks();
      authors := SeedAuthors();
      categories := SeedCategories();
      SeedIdsArePositions();
    }

    /** `Mutation.createBook`: builds `{ id: books.length + 1, ...BookInput }`, pushes it onto
        `books` and returns that same record. Author and category ids are not checked. */
    method CreateBook(input: Option<BookInput>) returns (b: Book)
      modifies this
      ensures b.id == |old(books)| + 1
      ensures input.Some? ==> b.title == Some(input.value.title) && b.authorId == Some(input.value.authorId) &&
                              b.categoryId == Some(input.value.categoryId) &&
                              b.publicationDate == Some(input.value.publicationDate)
      ensures input.None? ==> b.title.None? && b.authorId.None? && b.categoryId.None? && b.publicationDate.None?
      ensures books == old(books) + [b]
      ensures old(Valid()) ==> Valid() && BookById(books, b.id) == Some(b)
    {
      b := NewBook(|books|, input);
      ghost var before := books;
      books := books + [b];
      if IdsArePositions(before) {
        AppendKeepsIdsArePositions(before, input);
        BookByIdIsPosition(books, b.id);
      }
    }
  }

  /** Creating a book on the freshly loaded store yields id 5 and lists it last in `Query.books`
      and under its author; an author id that matches no author leaves `Book.author` absent. */
  method CreateOnSeed(input: BookInput) returns (b: Book, s: Store)
    ensures s.authors == SeedAuthors() && s.categories == SeedCategories()
    ensures b.id == 5 && s.books == SeedBooks() + [b]
    ensures BooksOfAuthor(s.books, input.authorId) == BooksOfAuthor(SeedBooks(), input.authorId) + [b]
    ensures (forall i :: 0 <= i < |s.authors| ==> s.authors[i].id != input.authorId) ==>
              AuthorOf(s.authors, b) == None
  {
    s := new Store();
    b := s.CreateBook(Some(input));
    AppendExtendsBooksOfAuthor(SeedBooks(), b, input.authorId);
  }
}
