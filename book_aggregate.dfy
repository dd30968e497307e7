/** The `Book` aggregate: a validated catalogue entry whose details and
    availability are updated in place. */
module BookAggregate {
  import opened Common
  import opened Text
  import BookRules

  class Book {
    var title: string
    const isbn: string
    var year: Int32
    var pages: Int32
    var genre: string
    const createdAt: Ticks
    var isAvailable: bool
    const authorId: Guid

    /** A book always has a non-blank title and an author. */
    ghost predicate Valid()
      reads this
    {
      !IsNullOrWhiteSpace(title) && authorId != EmptyGuid
    }

    /** The book a successful `Create` returns. */
    constructor Init(title: string, isbn: string, year: Int32, pages: Int32, genre: string,
                     authorId: Guid, now: Ticks)
      requires !IsNullOrWhiteSpace(title) && authorId != EmptyGuid
      ensures Valid()
      ensures this.title == title && this.isbn == isbn && this.year == year && this.pages == pages
      ensures this.genre == genre && this.authorId == authorId && createdAt == now && isAvailable
    {
      this.title := title;
      this.isbn := isbn;
      this.year := year;
      this.pages := pages;
      this.genre := genre;
      this.authorId := authorId;
      createdAt := now;
      isAvailable := true;
    }

    /** `Book.Create`: refuses a blank title, then an empty author id; a new
        book keeps the given details and starts out available. */
    static method Create(title: string, isbn: string, year: Int32, pages: Int32, genre: string,
                         authorId: Guid, now: Ticks)
      returns (r: Result<Book>)
      ensures r.Err? <==> IsNullOrWhiteSpace(title) || authorId == EmptyGuid
      ensures r.Err? ==> r.error == ArgumentException
      ensures r.Ok? ==> fresh(r.value) && r.value.Valid()
      ensures r.Ok? ==> r.value.title == title && r.value.isbn == isbn && r.value.year == year
      ensures r.Ok? ==> r.value.pages == pages && r.value.genre == genre && r.value.authorId == authorId
      ensures r.Ok? ==> r.value.createdAt == now && r.value.isAvailable
    {
      if IsNullOrWhiteSpace(title) {
        return Err(ArgumentException);
      }
      if authorId == EmptyGuid {
        return Err(ArgumentException);
      }
      var book := new Book.Init(title, isbn, year, pages, genre, authorId, now);
      return Ok(book);
    }

    /** `UpdateDetails`: a blank title is refused and nothing changes; otherwise
        title, year, pages and genre are replaced and nothing else moves. */
    method UpdateDetails(title: string, year: Int32, pages: Int32, genre: string) returns (r: Outcome)
      requires Valid()
      modifies this
      ensures Valid()
      ensures r.Fail? <==> IsNullOrWhiteSpace(title)
      ensures r.Fail? ==> r.error == ArgumentException && unchanged(this)
      ensures r.Pass? ==> this.title == title && this.year == year && this.pages == pages && this.genre == genre
      ensures isAvailable == old(isAvailable)
    {
      if IsNullOrWhiteSpace(title) {
        return Fail(ArgumentException);
      }
      this.title := title;
      this.year := year;
      this.pages := pages;
      this.genre := genre;
      return Pass;
    }

    /** `MarkAsAvailable`: the book is available afterwards, however often it is called. */
    method MarkAsAvailable()
      requires Valid()
      modifies this
      ensures Valid()
      ensures isAvailable
      ensures title == old(title) && year == old(year) && pages == old(pages) && genre == old(genre)
    {
      isAvailable := true;
    }

    /** `UnmarkAsLoaned`: the book is unavailable afterwards, however often it is called. */
    method UnmarkAsLoaned()
      requires Valid()
      modifies this
      ensures Valid()
      ensures !isAvailable
      ensures title == old(title) && year == old(year) && pages == old(pages) && genre == old(genre)
    {
      isAvailable := false;
    }

    /** `IsClassic()`. */
    predicate IsClassic()
      reads this
    {
      BookRules.IsClassicYear(year)
    }

    /** `IsNewRelease()` for the given current year. */
    predicate IsNewRelease(currentYear: int)
      reads this
    {
      BookRules.IsNewReleaseYear(year, currentYear)
    }

    /** `GetEstimatedReadingTime()`, in whole minutes. */
    function GetEstimatedReadingTime(): int
      reads this
    {
      BookRules.ReadingMinutes(pages)
    }
  }
}
