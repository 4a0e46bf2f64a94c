# In-memory book store of the GraphQL books API

This project models the in-memory variant of a small GraphQL API over Books, Authors and
Categories (`index.ts`). The store is three module-level arrays: books, categories and authors.
Queries read them with `find` (lookup by id) and `filter` (relation by foreign key). The one
mutation, `createBook`, pushes a new book whose id is the current number of books plus one.

Layout:

- `wrappers.dfy` (`Wrappers`): `Option`, standing for JavaScript's `undefined` / GraphQL `null`.
- `arrays.dfy` (`Arrays`): `Find` and `Filter`, the meaning of `Array.prototype.find` and
  `Array.prototype.filter`, with an order-preservation predicate and lemmas.
- `records.dfy` (`Records`): `Book`, `Author`, `Category`, the `BookInput` argument and the seed
  data. It also holds the invariant `IdsArePositions` (the book at position `i` has id `i + 1`)
  and `NewBook`, the record `{ id: books.length + 1, ...BookInput }`.
- `resolvers.dfy` (`Resolvers`): `Query.book/author/category`, `Book.author/category`,
  `Author.books` and `Category.books` as functions of the current sequences, with lemmas.
- `store.dfy` (`BookStore`): class `Store` holding the book sequence that `CreateBook` grows in
  place, next to the constant author and category sequences, plus a scenario method on the seed.

`Query.books`, `Query.authors` and `Query.categories` return the arrays as they are. In the model
they are the fields `Store.books`, `Store.authors` and `Store.categories`.

Modelling decisions:

- The `createBook` argument `BookInput` is nullable in the schema. Spreading an absent input
  gives a book that has only an `id`. The model therefore takes `Option<BookInput>`, and a
  book's title, authorId, categoryId and publicationDate are `Option`s. A book without an
  `authorId` matches no author and appears under no author, because `undefined === id` is false.
- `createBook` does not check that `authorId` or `categoryId` names an existing record, and the
  model follows the code (`DanglingAuthorIsAbsent`, `CreateOnSeed`).
- `CreateBook` does not require the id invariant, because the source does not. It promises to
  keep the invariant when it held before.

## Model

| member | source | states |
|---|---|---|
| Arrays.Find | index.ts:116-118 | absent exactly when no element satisfies the predicate; otherwise the first element that does |
| Arrays.Filter | index.ts:135-138 | result no longer than the input; holds exactly the input elements satisfying the predicate |
| Arrays.FilterIsSubsequence | index.ts:135-138 | filtering keeps the surviving elements in their original order |
| Arrays.FilterConcat | index.ts:135-138 | filtering a concatenation is the concatenation of the filtered parts |
| Arrays.FilterDisjointCount | index.ts:135-138 | for predicates no element satisfies together, the two filtered lists fit in the input together |
| Records.SeedBooks | index.ts:54-83 | the four seed books, with ids 1 to 4 and the titles, author ids, category ids and dates of the literal |
| Records.SeedCategories | index.ts:85-94 | the two seed categories, Fiction (id 1) and Novel (id 2) |
| Records.SeedAuthors | index.ts:96-107 | the two seed authors, Kate Chopin (id 1) and Paul Auster (id 2); their static `books` field is left out |
| Records.IdsArePositions | index.ts:123-126 | the id invariant: the book at position i has id i+1 |
| Records.NewBook | index.ts:122-125 | the new record's id is the count plus one; title, authorId, categoryId and publicationDate are the input's, or all absent without an input |
| Records.SeedIdsArePositions | index.ts:54-107 | in the seed data, every book, author and category at position i has id i+1 |
| Records.IdsArePositionsUnique | index.ts:123-126 | under the id invariant, books at distinct positions have distinct ids |
| Records.AppendKeepsIdsArePositions | index.ts:121-127 | appending the record createBook builds keeps the id invariant |
| Records.NewIdIsFresh | index.ts:123 | under the id invariant, the id createBook assigns is not the id of any existing book |
| Resolvers.BookById | index.ts:116 | the first book with the requested id, or absent exactly when no book has it |
| Resolvers.CategoryById | index.ts:117 | the first category with the requested id, or absent exactly when none has it |
| Resolvers.AuthorById | index.ts:118 | the first author with the requested id, or absent exactly when none has it |
| Resolvers.AuthorOf | index.ts:131 | the first author whose id is the book's authorId, or absent exactly when no author matches (always for a book without authorId) |
| Resolvers.CategoryOf | index.ts:132 | the first category whose id is the book's categoryId, or absent exactly when no category matches |
| Resolvers.BooksOfAuthor | index.ts:135 | exactly the stored books whose authorId is the given id |
| Resolvers.BooksOfCategory | index.ts:138 | exactly the stored books whose categoryId is the given id |
| Resolvers.BookByIdIsPosition | index.ts:116 | under the id invariant, book(id) is the book at position id-1 when 1 <= id <= count, and absent otherwise |
| Resolvers.BooksOfAuthorInOrder | index.ts:135 | Author.books is an order-preserving subsequence of the store |
| Resolvers.BooksOfCategoryInOrder | index.ts:138 | Category.books is an order-preserving subsequence of the store |
| Resolvers.BooksOfDistinctAuthorsDisjoint | index.ts:135 | the book lists of two different author ids share no element and together are no longer than the store |
| Resolvers.BooksOfDistinctCategoriesDisjoint | index.ts:138 | the book lists of two different category ids share no element and together are no longer than the store |
| Resolvers.BookListedUnderItsAuthor | index.ts:131-135 | every book with an authorId appears in that author's list, and in the list of the author it resolves to |
| Resolvers.AppendExtendsBooksOfAuthor | index.ts:126-135 | after an append, an author's list is the old list plus the new book at the end when it matches, and unchanged otherwise |
| Resolvers.AppendExtendsBooksOfCategory | index.ts:126-138 | after an append, a category's list is the old list plus the new book at the end when it matches, and unchanged otherwise |
| Resolvers.DanglingAuthorIsAbsent | index.ts:121-131 | a created book whose authorId names no author resolves Book.author to absent |
| Resolvers.SeedBooksOfFirstAuthor | index.ts:54-83 | on the seed data, the books of author 1 are books 1 and 3, in that order |
| Resolvers.SeedBookNinetyNineAbsent | index.ts:116 | on the seed data, book(99) is absent rather than an error |
| BookStore.Store.constructor | index.ts:54-107 | the store starts with the seed books, authors and categories, and the id invariant holds |
| BookStore.Store.CreateBook | index.ts:121-127 | appends exactly one record at the end and changes no earlier one; its id is the old count plus one; the other fields are copied from the input (absent without one); it returns the appended record; the id invariant is kept and book(id) then finds the new record |
| BookStore.CreateOnSeed | index.ts:121-131 | on the seed store (seed authors and categories unchanged) the new book gets id 5, is last in the books and in its author's list, and an unknown author id leaves Book.author absent |

## Left out

- The Apollo server, `startStandaloneServer`, the port and the log line (index.ts:1-2, 144-157): HTTP transport in a third-party library.
- The schema string `typeDefs` (index.ts:7-53): parsing, validation of the required `BookInput` fields and serialisation belong to the GraphQL runtime. It only fixes the shape of `BookInput`. It also bounds `Int` to 32 bits, and ids here are unbounded integers.
- The static `books` field of the author literals (index.ts:100, 105): the `Author.books` resolver replaces it, so the relation is derived.
- prisma/seed.ts is not part of this model: it makes async `upsert` calls whose behaviour is defined by the ORM library, not by this code.
- The per-request batched loader is not part of this model: it belongs to another variant of the server, not to `index.ts`, and its point is asynchronous, tick-based coalescing.
- Object identity: `createBook` returns the same object it pushed. The model uses values, so "the same record" means an equal value.
