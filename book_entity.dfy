/** The older `Book` entity: the same validated catalogue entry with its own
    id and without an availability flag. */
module BookEntity {
  import opened Common
  import opened Text
  import BookRules

  class Book {
    const id: Guid
    var title: string
    const isbn: string
    var year: Int32
    var pages: Int32
    var genre: string
    const createdAt: Ticks
    const authorId: Guid

    /** A book always has a non-blank title and an author. */
    ghost predicate Valid()
      reads this
    {
      !IsNullOrWhiteSpace(title) && authorId != EmptyGuid
    }

    /** The book a successful `Create` returns. */
    constructor Init(id: Guid, title: string, isbn: string, year: Int32, pages: Int32, genre: string,
                     authorId: Guid, now: Ticks)
      requires !IsNullOrWhiteSpace(title) && authorId != EmptyGuid
      ensures Valid()
      ensures this.id == id && this.title == title && this.isbn == isbn && this.year == year
      ensures this.pages == pages && this.genre == genre && this.authorId == authorId && createdAt == now
    {
      this.id := id;
      this.title := title;
      this.isbn := isbn;
      this.year := year;
      this.pages := pages;
      this.genre := genre;
      this.authorId := authorId;
      createdAt := now;
    }

    /** `Book.Create`: refuses a blank title, then an empty author id; a new
        book keeps exactly the given details. `id` is the fresh GUID. */
    static method Create(id: Guid, title: string, isbn: string, year: Int32, pages: Int32, genre: string,
                         authorId: Guid, now: Ticks)
      returns (r: Result<Book>)
      ensures r.Err? <==> IsNullOrWhiteSpace(title) || authorId == EmptyGuid
      ensures r.Err? ==> r.error == ArgumentException
      ensures r.Ok? ==> fresh(r.value) && r.value.Valid() && r.value.id == id
      ensures r.Ok? ==> r.value.title == title && r.value.isbn == isbn && r.value.year == year
      ensures r.Ok? ==> r.value.pages == pages && r.value.genre == genre && r.value.authorId == authorId
      ensures r.Ok? ==> r.value.createdAt == now
    {
      if IsNullOrWhiteSpace(title) {
        return Err(ArgumentException);
      }
      if authorId == EmptyGuid {
        return Err(ArgumentException);
      }
      var book := new Book.Init(id, title, isbn, year, pages, genre, authorId, now);
      return Ok(book);
    }

    /** `UpdateDetails`: a blank title is refused and nothing changes; otherwise
        title, year, pages and genre are replaced and nothing else moves. */
    method UpdateDetails(title: string, year: Int32, pages: Int32, genre: string) returns (r: Outcome)
      requires Valid()
      modifies this
      ensures Valid()
      ensures r.Fail? <==> IsNullOrWhiteSpace(title)
      ensures r.Fail? ==> r.error == ArgumentException && unchanged(this)
      ensures r.Pass? ==> this.title == title && this.year == year && this.pages == pages && this.genre == genre
    {
      if IsNullOrWhiteSpace(title) {
        return Fail(ArgumentException);
      }
      this.title := title;
      this.year := year;
      this.pages := pages;
      this.genre := genre;
      return Pass;
    }

    /** `IsClassic()`. */
    predicate IsClassic()
      reads this
    {
      BookRules.IsClassicYear(year)
    }

    /** `IsNewRelease()` for the given current year. */
    predicate IsNewRelease(currentYear: int)
      reads this
    {
      BookRules.IsNewReleaseYear(year, currentYear)
    }

    /** `GetEstimatedReadingTime()`, in whole minutes. */
    function GetEstimatedReadingTime(): int
      reads this
    {
      BookRules.ReadingMinutes(pages)
    }
  }
}
