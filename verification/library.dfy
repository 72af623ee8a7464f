/** The library system of prac11/src/Main.java: books with an availability
    flag, readers borrowing them, loans returning them, a librarian editing the
    book list, a first-match title search and a summary report. Object
    identity of books is carried as `id`. */
module Library {
  import opened Wrappers
  import Seqs
  import Strings

  datatype Author = Author(name: string, biography: string)

  datatype Book = Book(id: nat, title: string, isbn: string, authors: seq<Author>,
                       publicationYear: int, available: bool)

  datatype Role = ReaderRole | LibrarianRole

  datatype User = User(id: int, name: string, email: string, role: Role)

  /** A loan ties a book to its reader; its dates are not modelled. */
  datatype Loan = Loan(book: Book, reader: User)

  datatype Library = Library(books: seq<Book>, users: seq<User>, loans: seq<Loan>)

  const NotAvailable := "The book is not available."
  const NotFound := "Book not found."

  function BookId(b: Book): nat { b.id }

  /** The `Book` constructor: every new book starts out available. */
  function NewBook(id: nat, title: string, isbn: string, authors: seq<Author>, year: int): (b: Book)
    ensures b.available
    ensures b.id == id && b.title == title && b.isbn == isbn && b.authors == authors && b.publicationYear == year
  {
    Book(id, title, isbn, authors, year, true)
  }

  /** `Reader.borrowBook`: an available book becomes unavailable; otherwise
      the call throws and the book is left as it was. */
  function BorrowBook(b: Book): (r: Result<Book, string>)
    ensures r.Success? <==> b.available
    ensures r.Success? ==> !r.value.available && r.value.(available := true) == b
    ensures r.Failure? ==> r.error == NotAvailable
  {
    if b.available then Success(b.(available := false)) else Failure(NotAvailable)
  }

  /** `Loan.returnBook`: the book is available afterwards, whatever it was. */
  function ReturnBook(loan: Loan): (r: Loan)
    ensures r.book.available
    ensures r.reader == loan.reader && r.book.(available := loan.book.available) == loan.book
  {
    loan.(book := loan.book.(available := true))
  }

  /** What can happen to one book over time: a reader borrows it, or the
      loan holding it is returned. */
  datatype Event = Borrow | Return

  /** Replays `borrowBook` and `returnBook` on one book, stopping at the
      first exception. */
  function Replay(b: Book, reader: User, events: seq<Event>): Result<Book, string>
    decreases |events|
  {
    if |events| == 0 then Success(b)
    else if events[0] == Borrow then
      var b' :- BorrowBook(b);
      Replay(b', reader, events[1..])
    else
      Replay(ReturnBook(Loan(b, reader)).book, reader, events[1..])
  }

  /** The histories that never borrow a book that is out: every borrow
      comes when the book is in, starting from `available`. */
  predicate Alternates(available: bool, events: seq<Event>)
    decreases |events|
  {
    |events| == 0 ||
    if events[0] == Borrow then available && Alternates(false, events[1..])
    else Alternates(true, events[1..])
  }

  /** A history succeeds exactly when no borrow finds the book out (so two
      borrows with no return between them fail), and afterwards the book is
      out exactly when the last event was a borrow; nothing but the flag
      ever changes. */
  lemma {:induction false} ReplayAlternates(b: Book, reader: User, events: seq<Event>)
    ensures Replay(b, reader, events).Success? <==> Alternates(b.available, events)
    ensures Replay(b, reader, events).Failure? ==> Replay(b, reader, events).error == NotAvailable
    ensures Replay(b, reader, events).Success? ==>
      var b' := Replay(b, reader, events).value;
      && b'.(available := b.available) == b
      && b'.available == if |events| == 0 then b.available else events[|events| - 1] == Return
    decreases |events|
  {
    if |events| > 0 {
      var rest := events[1..];
      if events[0] == Borrow {
        if b.available {
          ReplayAlternates(b.(available := false), reader, rest);
        }
      } else {
        ReplayAlternates(b.(available := true), reader, rest);
      }
      if |rest| > 0 {
        assert events[|events| - 1] == rest[|rest| - 1];
      }
    }
  }

  /** `Librarian.editBook`: despite its name the title is never changed; the
      book becomes available exactly when the new title is "Available". */
  function EditBook(b: Book, newTitle: string): (r: Book)
    ensures r.title == b.title
    ensures r.available <==> newTitle == "Available"
    ensures r.(available := b.available) == b
  {
    b.(available := newTitle == "Available")
  }

  /** `Librarian.addBook`: appends to the list. */
  function AddBook(books: seq<Book>, b: Book): (r: seq<Book>)
    ensures |r| == |books| + 1 && r[..|books|] == books && r[|books|] == b
  {
    books + [b]
  }

  /** `Librarian.deleteBook`: removes the first entry that is this book
      object, keeping the others in order; a no-op when it is absent. */
  function DeleteBook(books: seq<Book>, b: Book): (r: seq<Book>)
    ensures Seqs.FirstIndex(books, BookId, b.id).None? ==> r == books
    ensures Seqs.FirstIndex(books, BookId, b.id).Some? ==>
              var i := Seqs.FirstIndex(books, BookId, b.id).value;
              r == books[..i] + books[i + 1..] && |r| == |books| - 1
  {
    Seqs.RemoveFirst(books, BookId, b.id)
  }

  /** Deleting a book just added, when it was not in the list before,
      restores the list. */
  lemma DeleteUndoesAdd(books: seq<Book>, b: Book)
    requires forall i | 0 <= i < |books| :: books[i].id != b.id
    ensures DeleteBook(AddBook(books, b), b) == books
  {
    Seqs.RemoveFirstUndoesAppend(books, BookId, b);
  }

  /** `equalsIgnoreCase`, given the character folding it applies: equal
      lengths, and at each position equal characters or equal folds. */
  predicate EqualsIgnoreCase(a: string, b: string, fold: char -> char)
  {
    |a| == |b| && forall i | 0 <= i < |a| :: a[i] == b[i] || fold(a[i]) == fold(b[i])
  }

  predicate TitleMatches(b: Book, title: string, fold: char -> char)
  {
    EqualsIgnoreCase(b.title, title, fold)
  }

  /** `Library.searchBook`: the first book whose title equals the query up
      to case; when none does, the call throws "Book not found.". */
  method SearchBook(books: seq<Book>, title: string, fold: char -> char) returns (r: Result<Book, string>)
    ensures r.Success? ==>
              exists i | 0 <= i < |books| ::
                books[i] == r.value && TitleMatches(books[i], title, fold)
                && forall j | 0 <= j < i :: !TitleMatches(books[j], title, fold)
    ensures r.Failure? <==> forall i | 0 <= i < |books| :: !TitleMatches(books[i], title, fold)
    ensures r.Failure? ==> r.error == NotFound
  {
    var k := 0;
    while k < |books|
      invariant 0 <= k <= |books|
      invariant forall j | 0 <= j < k :: !TitleMatches(books[j], title, fold)
    {
      if TitleMatches(books[k], title, fold) {
        return Success(books[k]);
      }
      k := k + 1;
    }
    return Failure(NotFound);
  }

  /** `Library.generateReport`: a heading and three counts. */
  function ReportLines(lib: Library): (r: seq<string>)
    ensures |r| == 4 && r[0] == "Library Report:"
  {
    [ "Library Report:",
      "Total Books: " + Strings.NatToString(|lib.books|),
      "Total Users: " + Strings.NatToString(|lib.users|),
      "Total Loans: " + Strings.NatToString(|lib.loans|) ]
  }

  /** The numbers printed in the report read back as the lengths of the
      book, user and loan lists. */
  lemma ReportCountsReadBack(lib: Library)
    ensures var lines := ReportLines(lib);
            && lines[1][..13] == "Total Books: " && Strings.AllDigits(lines[1][13..])
            && Strings.DigitsValue(lines[1][13..]) == |lib.books|
            && lines[2][..13] == "Total Users: " && Strings.AllDigits(lines[2][13..])
            && Strings.DigitsValue(lines[2][13..]) == |lib.users|
            && lines[3][..13] == "Total Loans: " && Strings.AllDigits(lines[3][13..])
            && Strings.DigitsValue(lines[3][13..]) == |lib.loans|
  {
    var lines := ReportLines(lib);
    assert lines[1][13..] == Strings.NatToString(|lib.books|);
    assert lines[2][13..] == Strings.NatToString(|lib.users|);
    assert lines[3][13..] == Strings.NatToString(|lib.loans|);
    Strings.DigitsValueOfNatToString(|lib.books|);
    Strings.DigitsValueOfNatToString(|lib.users|);
    Strings.DigitsValueOfNatToString(|lib.loans|);
  }
}
