/**
 * The library's data model and its read-only resolvers: `Query.bookCount`,
 * `Query.authorCount`, `Query.allBooks`, `Query.allAuthors` and the derived
 * field `Author.bookCount`, as functions of the current two collections, plus
 * the name lookup (`find`/`findIndex` by name) that both mutations start with.
 */
module Library {

  import opened Wrappers
  import opened Sequences

  /**
   * An identifier: the seed entries carry fixed uuid strings; every entry made
   * later gets the next serial of the store's fresh-id supply (standing in for `uuid()`).
   */
  datatype Id = Seeded(uuid: string) | Fresh(serial: nat)

  /** An author; `born` is absent until an edit sets it. */
  datatype Author = Author(name: string, id: Id, born: Option<int>)

  /**
   * A book. `author` refers to an author by name. `genres` is absent when the
   * book was added without that argument: the stored object has no such field.
   */
  datatype Book = Book(title: string, published: int, author: string, id: Id, genres: Option<seq<string>>)

  /** An author as `allAuthors` answers it, with the derived field `bookCount` resolved. */
  datatype AuthorView = AuthorView(name: string, id: Id, born: Option<int>, bookCount: nat)

  /** A string argument is truthy in the resolver unless it is absent, null or empty. */
  predicate Given(arg: Option<string>)
  {
    arg.Some? && arg.value != ""
  }

  predicate HasGenre(book: Book, genre: string)
  {
    book.genres.Some? && genre in book.genres.value
  }

  /** Reference meaning of the `allBooks` filters: each truthy filter must hold, the others are ignored. */
  predicate Matches(book: Book, author: Option<string>, genre: Option<string>)
  {
    (Given(author) ==> book.author == author.value) && (Given(genre) ==> HasGenre(book, genre.value))
  }

  /** Some author in `authors` has this name. */
  ghost predicate Named(authors: seq<Author>, name: string)
  {
    exists j :: 0 <= j < |authors| && authors[j].name == name
  }

  /** No two authors share a name. */
  ghost predicate UniqueNames(authors: seq<Author>)
  {
    forall i, j :: 0 <= i < j < |authors| ==> authors[i].name != authors[j].name
  }

  /** Every book's author string is the name of some author. */
  ghost predicate AuthorsCover(books: seq<Book>, authors: seq<Author>)
  {
    forall i :: 0 <= i < |books| ==> Named(authors, books[i].author)
  }

  // ---------------------------------------------------------------------------
  // Filter callbacks of `allBooks` and `Author.bookCount`

  /** `book.genres.includes(genre)`: throws (None) when the book has no `genres` field. */
  function Includes(book: Book, genre: string): Option<bool>
  {
    match book.genres
    case None => None
    case Some(gs) => Some(genre in gs)
  }

  function WrittenBy(author: string): Book -> Option<bool>
  {
    (book: Book) => Some(book.author == author)
  }

  function InGenre(genre: string): Book -> Option<bool>
  {
    (book: Book) => Includes(book, genre)
  }

  /** `book.author === author && book.genres.includes(genre)`: the genre test runs only when the author matches. */
  function WrittenByInGenre(author: string, genre: string): Book -> Option<bool>
  {
    (book: Book) => if book.author == author then Includes(book, genre) else Some(false)
  }

  // ---------------------------------------------------------------------------
  // Query resolvers

  /** `Query.allBooks(author, genre)`; None when a genre test throws on a book without genres. */
  function AllBooks(books: seq<Book>, author: Option<string>, genre: Option<string>): (r: Option<seq<Book>>)
    ensures !Given(author) && !Given(genre) ==> r == Some(books)
    ensures r.None? <==>
              Given(genre) &&
              exists i :: 0 <= i < |books| && books[i].genres.None? && (Given(author) ==> books[i].author == author.value)
    ensures r.Some? ==> IsSubsequence(r.value, books) && |r.value| <= |books|
  {
    if Given(author) && Given(genre) then
      var r := FilterOrThrow(books, WrittenByInGenre(author.value, genre.value));
      assert r.None? ==> exists i :: 0 <= i < |books| && WrittenByInGenre(author.value, genre.value)(books[i]).None?;
      r
    else if Given(author) then
      FilterOrThrow(books, WrittenBy(author.value))
    else if Given(genre) then
      var r := FilterOrThrow(books, InGenre(genre.value));
      assert r.None? ==> exists i :: 0 <= i < |books| && InGenre(genre.value)(books[i]).None?;
      r
    else
      SubsequenceOfItself(books);
      Some(books)
  }

  /**
   * What `allBooks` lists: every occurrence of every book that meets the truthy
   * filters, and nothing else (with the subsequence property of `AllBooks`, this
   * is exactly the matching books in their original order).
   */
  lemma AllBooksSelects(books: seq<Book>, author: Option<string>, genre: Option<string>, b: Book)
    requires AllBooks(books, author, genre).Some?
    ensures multiset(AllBooks(books, author, genre).value)[b] == if Matches(b, author, genre) then multiset(books)[b] else 0
    ensures b in AllBooks(books, author, genre).value <==> b in books && Matches(b, author, genre)
  {
    if Given(author) && Given(genre) {
      FilterMultiplicity(books, WrittenByInGenre(author.value, genre.value), b);
    } else if Given(author) {
      FilterMultiplicity(books, WrittenBy(author.value), b);
    } else if Given(genre) {
      FilterMultiplicity(books, InGenre(genre.value), b);
    }
  }

  /** Every book is listed when its own author is the filter (an empty author string is ignored, which lists it too). */
  lemma ListedUnderOwnAuthor(books: seq<Book>, i: nat)
    requires i < |books|
    ensures AllBooks(books, Some(books[i].author), None).Some?
    ensures books[i] in AllBooks(books, Some(books[i].author), None).value
  {
    AllBooksSelects(books, Some(books[i].author), None, books[i]);
  }

  /** Every book is listed under each of its genres, unless the genre query throws on some book without genres. */
  lemma ListedUnderOwnGenre(books: seq<Book>, i: nat, g: string)
    requires i < |books| && HasGenre(books[i], g)
    ensures AllBooks(books, None, Some(g)).None? <==> g != "" && exists j :: 0 <= j < |books| && books[j].genres.None?
    ensures AllBooks(books, None, Some(g)).Some? ==> books[i] in AllBooks(books, None, Some(g)).value
  {
    if AllBooks(books, None, Some(g)).Some? {
      AllBooksSelects(books, None, Some(g), books[i]);
    }
  }

  /** `Query.bookCount`: the length of the unfiltered `allBooks` listing, and no filtered listing is longer. */
  function BookCount(books: seq<Book>): (n: nat)
    ensures n == |AllBooks(books, None, None).value|
    ensures forall a, g :: AllBooks(books, a, g).Some? ==> |AllBooks(books, a, g).value| <= n
  {
    |books|
  }

  /** `Author.bookCount(root)`: recomputed from the current books on every read. */
  function AuthorBookCount(books: seq<Book>, root: Author): (n: nat)
    ensures n == |set i: nat | i < |books| && books[i].author == root.name|
  {
    FilterLength(books, WrittenBy(root.name));
    assert KeptPositions(books, WrittenBy(root.name)) == set i: nat | i < |books| && books[i].author == root.name;
    |FilterOrThrow(books, WrittenBy(root.name)).value|
  }

  /** Appending a book raises an author's count by one exactly when the book is theirs. */
  lemma {:induction false} AuthorBookCountAppend(books: seq<Book>, b: Book, root: Author)
    ensures AuthorBookCount(books + [b], root) == AuthorBookCount(books, root) + (if b.author == root.name then 1 else 0)
  {
    FilterAppend(books, [b], WrittenBy(root.name));
    assert [b][1..] == [];
  }

  /** `Query.allAuthors`, with each author's `bookCount` field resolved against `books`. */
  function AllAuthors(authors: seq<Author>, books: seq<Book>): (r: seq<AuthorView>)
    ensures |r| == |authors|
    ensures forall i :: 0 <= i < |r| ==>
              && r[i].name == authors[i].name && r[i].id == authors[i].id && r[i].born == authors[i].born
              && r[i].bookCount == |set j: nat | j < |books| && books[j].author == authors[i].name|
  {
    seq(|authors|, i requires 0 <= i < |authors| =>
      AuthorView(authors[i].name, authors[i].id, authors[i].born, AuthorBookCount(books, authors[i])))
  }

  /** `Query.authorCount`: the length of the `allAuthors` listing. */
  function AuthorCount(authors: seq<Author>): (n: nat)
    ensures forall books :: n == |AllAuthors(authors, books)|
  {
    |authors|
  }

  // ---------------------------------------------------------------------------
  // Name lookup shared by the mutations

  /** `authors.findIndex(x => x.name === name)`: the first author with that name, if any. */
  function IndexOfName(authors: seq<Author>, name: string): (r: Option<nat>)
    ensures r.Some? <==> Named(authors, name)
    ensures r.Some? ==> r.value < |authors| && authors[r.value].name == name
    ensures r.Some? ==> forall j :: 0 <= j < r.value ==> authors[j].name != name
  {
    if authors == [] then None
    else if authors[0].name == name then Some(0)
    else
      match IndexOfName(authors[1..], name)
      case None => None
      case Some(k) => Some(k + 1)
  }

  /** The lookup sees names only: rewriting other fields leaves its answer unchanged. */
  lemma {:induction false} IndexOfNameSeesNamesOnly(a: seq<Author>, b: seq<Author>, name: string)
    requires |a| == |b| && forall i :: 0 <= i < |a| ==> a[i].name == b[i].name
    ensures IndexOfName(a, name) == IndexOfName(b, name)
  {
    if a != [] {
      IndexOfNameSeesNamesOnly(a[1..], b[1..], name);
    }
  }

  /**
   * Appending a book whose author is named among the (possibly grown) authors
   * keeps every book's author resolvable.
   */
  lemma CoverAfterAppend(books: seq<Book>, authors: seq<Author>, b: Book, extra: seq<Author>)
    requires AuthorsCover(books, authors)
    requires Named(authors + extra, b.author)
    ensures AuthorsCover(books + [b], authors + extra)
  {
    forall i | 0 <= i < |books|
      ensures Named(authors + extra, books[i].author)
    {
      var j :| 0 <= j < |authors| && authors[j].name == books[i].author;
      assert (authors + extra)[j] == authors[j];
    }
  }

  // ---------------------------------------------------------------------------
  // Identifiers

  function AuthorIds(authors: seq<Author>): (ids: seq<Id>)
  {
    seq(|authors|, i requires 0 <= i < |authors| => authors[i].id)
  }

  function BookIds(books: seq<Book>): (ids: seq<Id>)
  {
    seq(|books|, i requires 0 <= i < |books| => books[i].id)
  }

  ghost predicate UniqueIds(ids: seq<Id>)
  {
    forall i, j :: 0 <= i < j < |ids| ==> ids[i] != ids[j]
  }

  /** Every serial handed out so far is below `bound`, the next one the supply will give. */
  ghost predicate SerialsBelow(ids: seq<Id>, bound: nat)
  {
    forall i :: 0 <= i < |ids| && ids[i].Fresh? ==> ids[i].serial < bound
  }

}
