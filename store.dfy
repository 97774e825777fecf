/**
 * The process-wide state of the server, the `authors` and `books` bindings,
 * seeded at start-up and changed only by the two mutations `addBook` and
 * `editAuthor`.
 */
module LibraryStore {

  import opened Wrappers
  import opened Library
  import opened Sequences

  const SeedAuthors: seq<Author> := [
    Author("Robert Martin", Seeded("afa51ab0-344d-11e9-a414-719c6709cf3e"), Some(1952)),
    Author("Martin Fowler", Seeded("afa5b6f0-344d-11e9-a414-719c6709cf3e"), Some(1963)),
    Author("Fyodor Dostoevsky", Seeded("afa5b6f1-344d-11e9-a414-719c6709cf3e"), Some(1821)),
    Author("Joshua Kerievsky", Seeded("afa5b6f2-344d-11e9-a414-719c6709cf3e"), None),
    Author("Sandi Metz", Seeded("afa5b6f3-344d-11e9-a414-719c6709cf3e"), None)
  ]

  const SeedBooks: seq<Book> := [
    Book("Clean Code", 2008, "Robert Martin",
         Seeded("afa5b6f4-344d-11e9-a414-719c6709cf3e"), Some(["refactoring"])),
    Book("Agile software development", 2002, "Robert Martin",
         Seeded("afa5b6f5-344d-11e9-a414-719c6709cf3e"), Some(["agile", "patterns", "design"])),
    Book("Refactoring, edition 2", 2018, "Martin Fowler",
         Seeded("afa5de00-344d-11e9-a414-719c6709cf3e"), Some(["refactoring"])),
    Book("Refactoring to patterns", 2008, "Joshua Kerievsky",
         Seeded("afa5de01-344d-11e9-a414-719c6709cf3e"), Some(["refactoring", "patterns"])),
    Book("Practical Object-Oriented Design, An Agile Primer Using Ruby", 2012, "Sandi Metz",
         Seeded("afa5de02-344d-11e9-a414-719c6709cf3e"), Some(["refactoring", "design"])),
    Book("Crime and punishment", 1866, "Fyodor Dostoevsky",
         Seeded("afa5de03-344d-11e9-a414-719c6709cf3e"), Some(["classic", "crime"])),
    Book("Demons", 1872, "Fyodor Dostoevsky",
         Seeded("afa5de04-344d-11e9-a414-719c6709cf3e"), Some(["classic", "revolution"]))
  ]

  /** What `editAuthor` answers: `null`, the `BAD_USER_INPUT` error with the offending value, or the edited author. */
  datatype EditOutcome = NotFound | BadInput(invalidArgs: Option<int>) | Edited(author: Author)

  /** `!setBornTo` is false: the year is present and not 0. */
  predicate AcceptedYear(setBornTo: Option<int>)
  {
    setBornTo.Some? && setBornTo.value != 0
  }

  class Store {
    var authors: seq<Author>
    var books: seq<Book>
    /** The fresh-id supply: the serial the next generated id receives. */
    var nextSerial: nat

    /** Ids are unique within each collection and no serial below `nextSerial` is handed out again. */
    ghost predicate IdsValid()
      reads this
    {
      && UniqueIds(AuthorIds(authors)) && SerialsBelow(AuthorIds(authors), nextSerial)
      && UniqueIds(BookIds(books)) && SerialsBelow(BookIds(books), nextSerial)
    }

    /** The store invariant: valid ids, author names are unique, and every book's author exists. */
    ghost predicate Valid()
      reads this
    {
      IdsValid() && UniqueNames(authors) && AuthorsCover(books, authors)
    }

    /** The state at process start. */
    constructor ()
      ensures Valid()
      ensures authors == SeedAuthors && books == SeedBooks && nextSerial == 0
    {
      authors := SeedAuthors;
      books := SeedBooks;
      nextSerial := 0;
      assert forall i :: 0 <= i < |SeedBooks| ==>
        SeedBooks[i].author in {SeedAuthors[0].name, SeedAuthors[1].name, SeedAuthors[2].name, SeedAuthors[3].name, SeedAuthors[4].name};
      assert SeedAuthors[0].name[0] == 'R' && SeedAuthors[1].name[0] == 'M' && SeedAuthors[2].name[0] == 'F';
      assert SeedAuthors[3].name[0] == 'J' && SeedAuthors[4].name[0] == 'S';
    }

    /** `uuid()`: an id that no author and no book holds. */
    method NextId() returns (id: Id)
      requires IdsValid()
      modifies this
      ensures IdsValid()
      ensures id == Fresh(old(nextSerial)) && nextSerial == old(nextSerial) + 1
      ensures authors == old(authors) && books == old(books)
      ensures id !in AuthorIds(authors) && id !in BookIds(books)
    {
      id := Fresh(nextSerial);
      nextSerial := nextSerial + 1;
    }

    /**
     * `Mutation.addBook`: appends the book under a fresh id, and appends an
     * author with that name and no birth year when none exists yet.
     */
    method AddBook(title: string, published: int, author: string, genres: Option<seq<string>>) returns (book: Book)
      requires Valid()
      modifies this
      ensures Valid()
      ensures book == Book(title, published, author, Fresh(old(nextSerial)), genres)
      ensures book.id !in BookIds(old(books)) && book.id !in AuthorIds(old(authors))
      ensures books == old(books) + [book]
      ensures Named(old(authors), author) ==> authors == old(authors) && nextSerial == old(nextSerial) + 1
      ensures !Named(old(authors), author) ==>
                && authors == old(authors) + [Author(author, Fresh(old(nextSerial) + 1), None)]
                && nextSerial == old(nextSerial) + 2
      ensures Named(authors, author)
    {
      var id := NextId();
      book := Book(title, published, author, id, genres);
      assert BookIds(books + [book]) == BookIds(books) + [id];
      ghost var known := books;
      books := books + [book];
      if IndexOfName(authors, author).None? {
        var authorId := NextId();
        var added := Author(author, authorId, None);
        assert AuthorIds(authors + [added]) == AuthorIds(authors) + [authorId];
        assert (authors + [added])[|authors|].name == author;
        CoverAfterAppend(known, authors, book, [added]);
        authors := authors + [added];
      } else {
        assert authors + [] == authors;
        CoverAfterAppend(known, authors, book, []);
      }

    }

    /**
     * `Mutation.editAuthor`: looks up the first author with the name (a miss
     * answers `null` before the year is looked at), rejects an absent or zero
     * year, and otherwise sets the year on every author with that name and
     * answers the first of them.
     */
    method EditAuthor(name: Option<string>, setBornTo: Option<int>) returns (r: EditOutcome)
      requires Valid()
      modifies this
      ensures Valid()
      ensures books == old(books) && nextSerial == old(nextSerial) && |authors| == |old(authors)|
      ensures name.None? || !Named(old(authors), name.value) ==> r == NotFound && authors == old(authors)
      ensures name.Some? && Named(old(authors), name.value) && !AcceptedYear(setBornTo) ==>
                r == BadInput(setBornTo) && authors == old(authors)
      ensures name.Some? && Named(old(authors), name.value) && AcceptedYear(setBornTo) ==>
                && (forall i :: 0 <= i < |authors| ==>
                      authors[i] == if old(authors)[i].name == name.value then old(authors)[i].(born := setBornTo)
                                    else old(authors)[i])
                && r == Edited(authors[IndexOfName(old(authors), name.value).value])
      ensures r.Edited? ==> r.author.name == name.value && r.author.born == setBornTo
      ensures r.Edited? ==> authors == old(authors)[IndexOfName(old(authors), name.value).value := r.author]
    {
      if name.None? {
        // `x.name === undefined` holds for no author
        return NotFound;
      }
      var index := IndexOfName(authors, name.value);
      if index.None? {
        return NotFound;
      }
      if !AcceptedYear(setBornTo) {
        return BadInput(setBornTo);
      }
      var before := authors;
      authors := seq(|before|, i requires 0 <= i < |before| =>
        if before[i].name != name.value then before[i] else before[i].(born := setBornTo));
      IndexOfNameSeesNamesOnly(before, authors, name.value);
      assert AuthorIds(authors) == AuthorIds(before);
      assert authors == before[index.value := authors[index.value]];
      var found := IndexOfName(authors, name.value);
      r := Edited(authors[found.value]);
    }
  }

  /** On the start-up books, the classics of Fyodor Dostoevsky are "Crime and punishment" and "Demons". */
  lemma SeedClassicsOfDostoevsky()
    ensures AllBooks(SeedBooks, Some("Fyodor Dostoevsky"), Some("classic")) == Some([SeedBooks[5], SeedBooks[6]])
  {
    var test := WrittenByInGenre("Fyodor Dostoevsky", "classic");
    var others, classics := SeedBooks[..5], [SeedBooks[5], SeedBooks[6]];
    assert SeedBooks == others + classics;
    SeedFirstFiveDropped();
    SeedLastTwoKept();
    FilterAppend(others, classics, test);
    assert Given(Some("Fyodor Dostoevsky")) && Given(Some("classic"));
  }

  /** Both of the last two seed books are classics by Fyodor Dostoevsky. */
  lemma SeedLastTwoKept()
    ensures FilterOrThrow([SeedBooks[5], SeedBooks[6]], WrittenByInGenre("Fyodor Dostoevsky", "classic"))
         == Some([SeedBooks[5], SeedBooks[6]])
  {
    var classics, test := [SeedBooks[5], SeedBooks[6]], WrittenByInGenre("Fyodor Dostoevsky", "classic");
    var crime, demons := SeedBooks[5], SeedBooks[6];
    assert test(crime) == Some(true) && test(demons) == Some(true);
    assert classics == [crime] + [demons] && [demons][1..] == [];
    assert FilterOrThrow([], test) == Some([]);
    FilterStep([demons], test);
    assert [demons] + [] == [demons];
    assert FilterOrThrow([demons], test) == Some([demons]);
    FilterStep([crime] + [demons], test);
  }

  /** None of the first five seed books is by Fyodor Dostoevsky. */
  lemma SeedFirstFiveDropped()
    ensures FilterOrThrow(SeedBooks[..5], WrittenByInGenre("Fyodor Dostoevsky", "classic")) == Some([])
  {
    var others, test := SeedBooks[..5], WrittenByInGenre("Fyodor Dostoevsky", "classic");
    var s := SeedBooks;
    assert others == [s[0], s[1], s[2], s[3], s[4]];
    assert s[0].author[0] == 'R' && s[1].author[0] == 'R' && s[2].author[0] == 'M';
    assert s[3].author[0] == 'J' && s[4].author[0] == 'S';
    forall i | 0 <= i < |others|
      ensures test(others[i]) == Some(false)
    {
      assert others[i].author[0] != 'F';
    }
    FilterLength(others, test);
    assert KeptPositions(others, test) == {};
  }

  /** The start-up store answers `editAuthor` for a known name, an unknown name and an absent year. */
  method EditScenario() returns (edited: EditOutcome, missing: EditOutcome, rejected: EditOutcome)
    ensures edited == Edited(Author("Robert Martin", SeedAuthors[0].id, Some(1952)))
    ensures missing == NotFound
    ensures rejected == BadInput(None)
  {
    var store := new Store();
    assert SeedAuthors[0].name == "Robert Martin";
    edited := store.EditAuthor(Some("Robert Martin"), Some(1952));
    missing := store.EditAuthor(Some("Unknown"), Some(1999));
    rejected := store.EditAuthor(Some("Robert Martin"), None);
  }

  /** Adding a book by an unknown author to the start-up store cascades one new author without a birth year. */
  method NewAuthorScenario() returns (book: Book, authors: seq<Author>, books: seq<Book>)
    ensures book == Book("New Book", 2020, "New Author", Fresh(0), Some(["x"]))
    ensures books == SeedBooks + [book]
    ensures authors == SeedAuthors + [Author("New Author", Fresh(1), None)]
  {
    var store := new Store();
    assert !Named(SeedAuthors, "New Author");
    book := store.AddBook("New Book", 2020, "New Author", Some(["x"]));
    authors, books := store.authors, store.books;
  }
}
