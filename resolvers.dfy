/** The field resolvers: single-record lookups by id and the derived relations between books,
    authors and categories, all as functions of the store's current sequences. */
module Resolvers {
  import opened Wrappers
  import opened Arrays
  import opened Records

  /** `Query.book(id)`. */
  function BookById(books: seq<Book>, id: int): (r: Option<Book>)
    ensures r.Some? ==> r.value in books && r.value.id == id
    ensures r.None? <==> forall i :: 0 <= i < |books| ==> books[i].id != id
    ensures r.Some? ==> exists i :: 0 <= i < |books| && books[i] == r.value &&
                                    forall j :: 0 <= j < i ==> books[j].id != id
  {
    Find(books, (b: Book) => b.id == id)
  }

  /** `Query.author(id)`. */
  function AuthorById(authors: seq<Author>, id: int): (r: Option<Author>)
    ensures r.Some? ==> r.value in authors && r.value.id == id
    ensures r.None? <==> forall i :: 0 <= i < |authors| ==> authors[i].id != id
    ensures r.Some? ==> exists i :: 0 <= i < |authors| && authors[i] == r.value &&
                                    forall j :: 0 <= j < i ==> authors[j].id != id
  {
    Find(authors, (a: Author) => a.id == id)
  }

  /** `Query.category(id)`. */
  function CategoryById(categories: seq<Category>, id: int): (r: Option<Category>)
    ensures r.Some? ==> r.value in categories && r.value.id == id
    ensures r.None? <==> forall i :: 0 <= i < |categories| ==> categories[i].id != id
    ensures r.Some? ==> exists i :: 0 <= i < |categories| && categories[i] == r.value &&
                                    forall j :: 0 <= j < i ==> categories[j].id != id
  {
    Find(categories, (c: Category) => c.id == id)
  }

  /** `Book.author`: the author whose id is the book's `authorId`. A book without an `authorId`
      compares `undefined` with each id and so never matches. */
  function AuthorOf(authors: seq<Author>, book: Book): (r: Option<Author>)
    ensures r.Some? ==> r.value in authors && book.authorId == Some(r.value.id)
    ensures r.None? <==> forall i :: 0 <= i < |authors| ==> book.authorId != Some(authors[i].id)
    ensures r.Some? ==> exists i :: 0 <= i < |authors| && authors[i] == r.value &&
                                    forall j :: 0 <= j < i ==> book.authorId != Some(authors[j].id)
  {
    match book.authorId
    case None => None
    case Some(k) => AuthorById(authors, k)
  }

  /** `Book.category`: the category whose id is the book's `categoryId`. */
  function CategoryOf(categories: seq<Category>, book: Book): (r: Option<Category>)
    ensures r.Some? ==> r.value in categories && book.categoryId == Some(r.value.id)
    ensures r.None? <==> forall i :: 0 <= i < |categories| ==> book.categoryId != Some(categories[i].id)
    ensures r.Some? ==> exists i :: 0 <= i < |categories| && categories[i] == r.value &&
                                    forall j :: 0 <= j < i ==> book.categoryId != Some(categories[j].id)
  {
    match book.categoryId
    case None => None
    case Some(k) => CategoryById(categories, k)
  }

  /** `Author.books`: the books whose `authorId` is the author's id, in store order. */
  function BooksOfAuthor(books: seq<Book>, authorId: int): (r: seq<Book>)
    ensures forall i :: 0 <= i < |r| ==> r[i] in books && r[i].authorId == Some(authorId)
    ensures forall i :: 0 <= i < |books| && books[i].authorId == Some(authorId) ==> books[i] in r
  {
    Filter(books, (b: Book) => b.authorId == Some(authorId))
  }

  /** `Category.books`: the books whose `categoryId` is the category's id, in store order. */
  function BooksOfCategory(books: seq<Book>, categoryId: int): (r: seq<Book>)
    ensures forall i :: 0 <= i < |r| ==> r[i] in books && r[i].categoryId == Some(categoryId)
    ensures forall i :: 0 <= i < |books| && books[i].categoryId == Some(categoryId) ==> books[i] in r
  {
    Filter(books, (b: Book) => b.categoryId == Some(categoryId))
  }

  /** With ids equal to positions, `Query.book(id)` is the book at position `id - 1`, and absent
      exactly when `id` is outside `1..|books|`. */
  lemma BookByIdIsPosition(books: seq<Book>, id: int)
    requires IdsArePositions(books)
    ensures BookById(books, id) == if 1 <= id <= |books| then Some(books[id - 1]) else None
  {
  }

  /** `Author.books` keeps store order: it is a subsequence of the books. */
  lemma BooksOfAuthorInOrder(books: seq<Book>, authorId: int)
    ensures IsSubsequence(BooksOfAuthor(books, authorId), books)
  {
    FilterIsSubsequence(books, (b: Book) => b.authorId == Some(authorId));
  }

  /** `Category.books` keeps store order: it is a subsequence of the books. */
  lemma BooksOfCategoryInOrder(books: seq<Book>, categoryId: int)
    ensures IsSubsequence(BooksOfCategory(books, categoryId), books)
  {
    FilterIsSubsequence(books, (b: Book) => b.categoryId == Some(categoryId));
  }

  /** Books of two different authors are different books, and the two lists together are no
      longer than the store. */
  lemma BooksOfDistinctAuthorsDisjoint(books: seq<Book>, a1: int, a2: int)
    requires a1 != a2
    ensures forall i, j :: 0 <= i < |BooksOfAuthor(books, a1)| && 0 <= j < |BooksOfAuthor(books, a2)| ==>
              BooksOfAuthor(books, a1)[i] != BooksOfAuthor(books, a2)[j]
    ensures |BooksOfAuthor(books, a1)| + |BooksOfAuthor(books, a2)| <= |books|
  {
    FilterDisjointCount(books, (b: Book) => b.authorId == Some(a1), (b: Book) => b.authorId == Some(a2));
  }

  /** Books of two different categories are different books, and the two lists together are no
      longer than the store. */
  lemma BooksOfDistinctCategoriesDisjoint(books: seq<Book>, c1: int, c2: int)
    requires c1 != c2
    ensures forall i, j :: 0 <= i < |BooksOfCategory(books, c1)| && 0 <= j < |BooksOfCategory(books, c2)| ==>
              BooksOfCategory(books, c1)[i] != BooksOfCategory(books, c2)[j]
    ensures |BooksOfCategory(books, c1)| + |BooksOfCategory(books, c2)| <= |books|
  {
    FilterDisjointCount(books, (b: Book) => b.categoryId == Some(c1), (b: Book) => b.categoryId == Some(c2));
  }

  /** Every book with an author id is listed under that author, and resolves back to it when
      the author exists. */
  lemma BookListedUnderItsAuthor(books: seq<Book>, authors: seq<Author>, i: nat)
    requires i < |books| && books[i].authorId.Some?
    ensures books[i] in BooksOfAuthor(books, books[i].authorId.value)
    ensures AuthorOf(authors, books[i]).Some? ==>
              books[i] in BooksOfAuthor(books, AuthorOf(authors, books[i]).value.id)
  {
  }

  /** A book appended to the store appears last in its author's list; other lists are unchanged. */
  lemma AppendExtendsBooksOfAuthor(books: seq<Book>, b: Book, authorId: int)
    ensures BooksOfAuthor(books + [b], authorId) ==
              BooksOfAuthor(books, authorId) + (if b.authorId == Some(authorId) then [b] else [])
  {
    var p := (x: Book) => x.authorId == Some(authorId);
    FilterConcat(books, [b], p);
    assert [b][1..] == [];
  }

  /** A book appended to the store appears last in its category's list; other lists are unchanged. */
  lemma AppendExtendsBooksOfCategory(books: seq<Book>, b: Book, categoryId: int)
    ensures BooksOfCategory(books + [b], categoryId) ==
              BooksOfCategory(books, categoryId) + (if b.categoryId == Some(categoryId) then [b] else [])
  {
    var p := (x: Book) => x.categoryId == Some(categoryId);
    FilterConcat(books, [b], p);
    assert [b][1..] == [];
  }

  /** No referential check: a book whose `authorId` names no author resolves `Book.author` to absent. */
  lemma DanglingAuthorIsAbsent(authors: seq<Author>, input: BookInput, count: nat)
    requires forall i :: 0 <= i < |authors| ==> authors[i].id != input.authorId
    ensures AuthorOf(authors, NewBook(count, Some(input))) == None
  {
  }

  /** On the seed data, `Author.books` for author 1 is books 1 and 3, in that order. */
  lemma SeedBooksOfFirstAuthor()
    ensures BooksOfAuthor(SeedBooks(), 1) == [SeedBooks()[0], SeedBooks()[2]]
  {
  }

  /** On the seed data, `Query.book(99)` is absent, not an error. */
  lemma SeedBookNinetyNineAbsent()
    ensures BookById(SeedBooks(), 99) == None
  {
  }
}
