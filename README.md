# Library store of the book-and-author graph query server

This project models the in-memory library store behind the GraphQL resolvers in `index.js`.
The store holds two process-wide collections, `authors` and `books`. It answers four queries:
`bookCount`, `authorCount`, `allBooks(author, genre)` and `allAuthors`. An author's `bookCount`
field is derived: it is recomputed from the current books on every read. The store also runs
two mutations:

- `addBook` appends a book under a fresh id. If no author has the book's author name, it also
  appends an author with that name and no birth year.
- `editAuthor` looks up the first author with the given name. It answers `null` on a miss and
  rejects a missing or zero year with a `BAD_USER_INPUT` error. Otherwise it sets the year on
  every author with that name and answers the first of them.

Layout:

- `wrappers.dfy` (`Wrappers`): `Option`, for absent and null arguments and fields.
- `sequences.dfy` (`Sequences`): `Array.prototype.filter` with a callback that may throw.
  It is specified as an order-preserving subsequence that keeps every occurrence of a kept
  element and nothing else.
- `library.dfy` (`Library`): the records `Author` and `Book` and the read resolvers, as
  functions of the two collections. Also the name lookup, the referential link from books to
  authors, and the id predicates.
- `store.dfy` (`LibraryStore`): the class `Store`. Its fields `authors` and `books` are the two
  mutable bindings, and `nextSerial` is the fresh-id supply. The file also holds the start-up
  seed data, the two mutations, and scenarios on the seed data.

`Store.Valid()` is the invariant that every mutation preserves:

- ids are unique within each collection;
- author names are unique;
- no id the supply hands out was used before;
- every book's author string is the name of some author.

Behaviour kept as `index.js` has it:

- An empty string for `author` or `genre` is falsy, so that filter is ignored.
- `genres` is stored only when `addBook` was given it. When a book has no `genres`,
  `book.genres.includes(genre)` throws a TypeError, and the whole `allBooks` call fails. This
  is `None` in `AllBooks`. With both filters, the genre test runs only on books by the
  requested author.
- `editAuthor` does the name lookup before it validates the year. A miss therefore answers
  `null` even when the year is invalid. An absent `name` matches no author.
- `!setBornTo` rejects a year of `0` as well as an absent one.
- The lookup answers the first match, but the update sets the year on every author with that
  name. The two never diverge: author names start unique in the seed data, `addBook` adds a
  name only when it is unknown, and `editAuthor` renames no one. `Store.Valid()` therefore
  includes unique names, and `EditAuthor` is proved to replace exactly the one author it
  answers.

Two details of the seed data and of `addBook` as `index.js` has them:

- The seed author "Robert Martin" has `born` 1952.
- A book added without `genres` keeps no genres field, rather than an empty list.

## Model

| member | source | states |
|---|---|---|
| `Sequences.FilterOrThrow` | index.js:130-134 | `filter` fails exactly when the callback throws on some element. Otherwise the result is a subsequence of the input, in the same order and no longer. |
| `Sequences.FilterMultiplicity` | index.js:130-134 | A filter result holds every occurrence of each element the callback keeps, and nothing else. |
| `Sequences.FilterAppend` | index.js:141-146 | Filtering a concatenation concatenates the filtered parts, and fails iff either part fails. |
| `Sequences.FilterLength` | index.js:141 | A filter whose callback never throws has one element per position the callback keeps. |
| `Library.AllBooks` | index.js:128-137 | With no truthy filter, the answer is `books` unchanged. It fails iff a genre filter is truthy and some book it tests has no genres: any such book when only the genre is given; one by the requested author when both are given. A successful answer is an order-preserving subsequence of `books`. |
| `Library.AllBooksSelects` | index.js:129-136 | A successful `allBooks` holds each book as often as `books` does when the book meets every truthy filter (author equal, genre included), and otherwise not at all. So the answer is exactly the matching books, in order. |
| `Library.ListedUnderOwnAuthor` | index.js:131-132 | Filtering by a book's own author never fails and lists that book. |
| `Library.ListedUnderOwnGenre` | index.js:133-134 | Filtering by one of a book's genres lists that book, unless the genre is non-empty and some book has no genres, in which case it fails. |
| `Library.BookCount` | index.js:126 | `bookCount` is the length of the unfiltered `allBooks` answer, and no filtered answer is longer. |
| `Library.AuthorBookCount` | index.js:141 | `Author.bookCount` is the number of positions in `books` whose author equals the author's name. |
| `Library.AuthorBookCountAppend` | index.js:141-146 | After a book is appended, an author's `bookCount` grows by one exactly when the book has that author's name, and is otherwise unchanged. |
| `Library.AllAuthors` | index.js:138-141 | `allAuthors` lists every author in order, with name, id and born kept. Each `bookCount` is the number of books with that author's name. |
| `Library.AuthorCount` | index.js:127 | `authorCount` is the length of the `allAuthors` answer. |
| `Library.IndexOfName` | index.js:154 | The lookup succeeds iff some author has the name. It then gives the first such position. |
| `Library.IndexOfNameSeesNamesOnly` | index.js:169-176 | The lookup depends only on the names. So the `find` after the rebuild lands on the position the first lookup found. |
| `Library.CoverAfterAppend` | index.js:146-149 | Appending a book whose author exists among the possibly grown authors keeps every book's author resolvable. |
| `LibraryStore.Store.constructor` | index.js:6-82 | The start-up store holds the five seed authors and seven seed books and satisfies the store invariant. |
| `LibraryStore.Store.NextId` | index.js:145-148 | Each generated id is held by no author and no book, and the supply advances. Nothing else changes. |
| `LibraryStore.Store.AddBook` | index.js:144-151 | Appends exactly one book with the given title, published year, author and genres and a never-used id; earlier books are unchanged. It appends the author (no `born`, fresh id) iff no author had that name, and otherwise leaves `authors` unchanged. Afterwards some author has the name. The invariant is kept. |
| `LibraryStore.Store.EditAuthor` | index.js:152-179 | On an absent or unknown name, answers `null` and changes nothing, whatever the year. On a known name with an absent or zero year, answers `BAD_USER_INPUT` with that value and changes nothing. Otherwise, every author with the name gets `born` set, all other authors and all books stay as they were, the length is kept, and the answer is the first match with its new `born`. Since names are unique, the new list is the old one with only that position replaced. The invariant is kept. |
| `LibraryStore.EditScenario` | index.js:152-179 | On the start-up store, `editAuthor("Robert Martin", 1952)` answers Robert Martin with `born` 1952. `editAuthor("Unknown", 1999)` answers `null`, and `editAuthor("Robert Martin")` without a year answers `BAD_USER_INPUT` carrying the absent value. |
| `LibraryStore.NewAuthorScenario` | index.js:144-151 | On the start-up store, `addBook("New Book", 2020, "New Author", ["x"])` appends that book with the first fresh id. It also appends the author "New Author" with the next id and no `born`, after the five seed authors. |
| `LibraryStore.SeedClassicsOfDostoevsky` | index.js:32-82 | On the seed books, `allBooks(author: "Fyodor Dostoevsky", genre: "classic")` is exactly "Crime and punishment" then "Demons". |

## Left out

- The Apollo server, the listener on port 4000 and the start-up log line (index.js:183-192) are
  network and bootstrap plumbing.
- The schema text (index.js:84-122) is used only to fix field types. Schema parsing and
  validation are not modelled, and neither is the unused `dummy` query.
- GraphQL `Int` is 32-bit. `published` and `born` are unbounded integers here, on the
  assumption that the schema layer rejects out-of-range values first.
- `uuid()` is a foreign library call. It is replaced by a counter (`Store.nextSerial`) that
  issues `Fresh` ids; the seed entries keep their literal uuid strings. Only uniqueness is
  modelled, not the uuid format.
- The `isNaN` branch is not modelled. `setBornTo` is typed `Int`, so absent and zero are the
  only rejected values.
- The `GraphQLError` object beyond its code and offending value (`BadInput(invalidArgs)`) is
  library error plumbing.
- Null elements inside a `genres` list are not modelled. Genres are lists of strings.
- There is no concurrency: resolvers run to completion one at a time, and the store is a
  sequential object.
