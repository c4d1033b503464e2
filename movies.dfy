/** The movie record and its validation rules (internal/data/movies.go). */
module Movies {
  import opened Wrappers
  import opened Text
  import opened Validation

  /**
   * A movie. Year and Version are 32-bit and ID and Runtime 64-bit in the
   * source; CreatedAt is a timestamp, here an opaque number.
   */
  datatype Movie = Movie(
    createdAt: int,
    title: string,
    genres: seq<string>,
    id: int,
    year: int,
    runtime: int,
    version: int)

  function TitleError(m: Movie): (r: Option<string>)
    ensures r.Some? <==> m.title == "" || Utf8Length(m.title) > 500
  {
    if m.title == "" then Some("must be provided")
    else if Utf8Length(m.title) > 500 then Some("title must not be more than 500 bytes long")
    else None
  }

  function YearError(m: Movie, currentYear: int): (r: Option<string>)
    ensures r.Some? <==> m.year == 0 || m.year < 1888 || m.year >= currentYear
  {
    if m.year == 0 then Some("must be provided")
    else if m.year < 1888 then Some("must be greater than 1888")
    else if m.year >= currentYear then Some("must not be in the future")
    else None
  }

  function GenresError(m: Movie): (r: Option<string>)
    ensures r.Some? <==> |m.genres| == 0 || |m.genres| > 5 || !Unique(m.genres)
  {
    if |m.genres| == 0 then Some("must be provided")
    else if |m.genres| > 5 then Some("must not contain more than 5 genres")
    else if !Unique(m.genres) then Some("must not contain duplicate values")
    else None
  }

  function RuntimeError(m: Movie): (r: Option<string>)
    ensures r.Some? <==> m.runtime <= 0
  {
    if m.runtime == 0 then Some("must be provided")
    else if m.runtime < 0 then Some("must be positive number")
    else None
  }

  /** The entries ValidateMovie records: each failing field with the message of its first failing check. */
  function MovieErrors(m: Movie, currentYear: int): Errors
  {
    Put(Put(Put(Put(map[], "title", TitleError(m)), "year", YearError(m, currentYear)),
        "genres", GenresError(m)), "runtime", RuntimeError(m))
  }

  // The checks of ValidateMovie, field by field, applied in order to the errors already present.

  function ReportTitle(errors: Errors, input: Movie): Errors
  {
    Report(Report(errors,
      input.title != "", "title", "must be provided"),
      Utf8Length(input.title) <= 500, "title", "title must not be more than 500 bytes long")
  }

  function ReportYear(errors: Errors, input: Movie, currentYear: int): Errors
  {
    Report(Report(Report(errors,
      input.year != 0, "year", "must be provided"),
      input.year >= 1888, "year", "must be greater than 1888"),
      input.year < currentYear, "year", "must not be in the future")
  }

  function ReportGenres(errors: Errors, input: Movie): Errors
  {
    Report(Report(Report(errors,
      |input.genres| != 0, "genres", "must be provided"),
      |input.genres| <= 5, "genres", "must not contain more than 5 genres"),
      Unique(input.genres), "genres", "must not contain duplicate values")
  }

  function ReportRuntime(errors: Errors, input: Movie): Errors
  {
    Report(Report(errors,
      input.runtime != 0, "runtime", "must be provided"),
      input.runtime >= 0, "runtime", "must be positive number")
  }

  function ReportMovie(before: Errors, input: Movie, currentYear: int): Errors
  {
    ReportRuntime(ReportGenres(ReportYear(ReportTitle(before, input), input, currentYear), input), input)
  }

  lemma ReportTitleAdds(recorded: Errors, before: Errors, input: Movie)
    requires "title" !in recorded
    ensures ReportTitle(recorded + before, input) == Put(recorded, "title", TitleError(input)) + before
  {
    TwoChecksNewKey(recorded, before, "title", input.title != "", "must be provided",
                    Utf8Length(input.title) <= 500, "title must not be more than 500 bytes long");
  }

  lemma ReportYearAdds(recorded: Errors, before: Errors, input: Movie, currentYear: int)
    requires "year" !in recorded
    ensures ReportYear(recorded + before, input, currentYear) == Put(recorded, "year", YearError(input, currentYear)) + before
  {
    ThreeChecksNewKey(recorded, before, "year", input.year != 0, "must be provided",
                      input.year >= 1888, "must be greater than 1888",
                      input.year < currentYear, "must not be in the future");
  }

  lemma ReportGenresAdds(recorded: Errors, before: Errors, input: Movie)
    requires "genres" !in recorded
    ensures ReportGenres(recorded + before, input) == Put(recorded, "genres", GenresError(input)) + before
  {
    ThreeChecksNewKey(recorded, before, "genres", |input.genres| != 0, "must be provided",
                      |input.genres| <= 5, "must not contain more than 5 genres",
                      Unique(input.genres), "must not contain duplicate values");
  }

  lemma ReportRuntimeAdds(recorded: Errors, before: Errors, input: Movie)
    requires "runtime" !in recorded
    ensures ReportRuntime(recorded + before, input) == Put(recorded, "runtime", RuntimeError(input)) + before
  {
    TwoChecksNewKey(recorded, before, "runtime", input.runtime != 0, "must be provided",
                    input.runtime >= 0, "must be positive number");
  }

  /** Running the checks adds MovieErrors, keeping every entry that was already there. */
  lemma ReportMovieAddsMovieErrors(before: Errors, input: Movie, currentYear: int)
    ensures ReportMovie(before, input, currentYear) == MovieErrors(input, currentYear) + before
  {
    assert map[] + before == before;
    ReportTitleAdds(map[], before, input);
    var withTitle := Put(map[], "title", TitleError(input));
    ReportYearAdds(withTitle, before, input, currentYear);
    var withYear := Put(withTitle, "year", YearError(input, currentYear));
    ReportGenresAdds(withYear, before, input);
    var withGenres := Put(withYear, "genres", GenresError(input));
    ReportRuntimeAdds(withGenres, before, input);
  }

  /**
   * Runs the ten checks of the source in order, the current year standing
   * for the clock. Entries already in the validator are kept; the new ones
   * are MovieErrors. The movie itself is a value and is not changed.
   */
  method ValidateMovie(v: Validator, input: Movie, currentYear: int)
    modifies v
    ensures v.errors == MovieErrors(input, currentYear) + old(v.errors)
  {
    ReportMovieAddsMovieErrors(v.errors, input, currentYear);

    v.Check(input.title != "", "title", "must be provided");
    v.Check(Utf8Length(input.title) <= 500, "title", "title must not be more than 500 bytes long");

    v.Check(input.year != 0, "year", "must be provided");
    v.Check(input.year >= 1888, "year", "must be greater than 1888");
    v.Check(input.year < currentYear, "year", "must not be in the future");

    v.Check(|input.genres| != 0, "genres", "must be provided");
    v.Check(|input.genres| <= 5, "genres", "must not contain more than 5 genres");
    v.Check(Unique(input.genres), "genres", "must not contain duplicate values");

    v.Check(input.runtime != 0, "runtime", "must be provided");
    v.Check(input.runtime >= 0, "runtime", "must be positive number");
  }

  /**
   * Which fields get an error: an empty or over-long title, a missing year
   * or one before 1888 or not before the current year (so the current year
   * itself is refused), no genres, more than five or a repeated one, and a
   * runtime that is not strictly positive. Only these four fields are ever
   * reported.
   */
  lemma MovieErrorKeys(m: Movie, currentYear: int)
    ensures "title" in MovieErrors(m, currentYear) <==> m.title == "" || Utf8Length(m.title) > 500
    ensures "year" in MovieErrors(m, currentYear) <==> m.year == 0 || m.year < 1888 || m.year >= currentYear
    ensures "genres" in MovieErrors(m, currentYear) <==> |m.genres| == 0 || |m.genres| > 5 || !Unique(m.genres)
    ensures "runtime" in MovieErrors(m, currentYear) <==> m.runtime <= 0
    ensures MovieErrors(m, currentYear).Keys <= {"title", "year", "genres", "runtime"}
  {
    FourPutsKeys("title", TitleError(m), "year", YearError(m, currentYear),
                 "genres", GenresError(m), "runtime", RuntimeError(m));
  }

  /** A movie passes exactly when all four field conditions hold. */
  lemma MovieValidExactly(m: Movie, currentYear: int)
    ensures MovieErrors(m, currentYear) == map[] <==>
      && 1 <= Utf8Length(m.title) <= 500
      && 1888 <= m.year < currentYear
      && 1 <= |m.genres| <= 5 && Unique(m.genres)
      && m.runtime > 0
  {
    MovieErrorKeys(m, currentYear);
    FourPutsKeys("title", TitleError(m), "year", YearError(m, currentYear),
                 "genres", GenresError(m), "runtime", RuntimeError(m));
  }

  /**
   * How the create-movie handler decides (cmd/api/movies.go:25-32): a fresh
   * validator, ValidateMovie on the input, then Valid. The movie is accepted
   * exactly when all four field conditions hold.
   */
  method AcceptsMovie(input: Movie, currentYear: int) returns (accepted: bool)
    ensures accepted <==>
      && 1 <= Utf8Length(input.title) <= 500
      && 1888 <= input.year < currentYear
      && 1 <= |input.genres| <= 5 && Unique(input.genres)
      && input.runtime > 0
  {
    var v := new Validator();
    ValidateMovie(v, input, currentYear);
    assert v.errors == MovieErrors(input, currentYear);
    MovieValidExactly(input, currentYear);
    accepted := v.Valid();
  }

  /** Only title, year, genres and runtime are examined: ID, Version and CreatedAt never matter. */
  lemma MovieErrorsIgnoreBookkeeping(m: Movie, other: Movie, currentYear: int)
    requires m.title == other.title && m.year == other.year
    requires m.genres == other.genres && m.runtime == other.runtime
    ensures MovieErrors(m, currentYear) == MovieErrors(other, currentYear)
  {
    assert TitleError(m) == TitleError(other) && GenresError(m) == GenresError(other);
    assert YearError(m, currentYear) == YearError(other, currentYear) && RuntimeError(m) == RuntimeError(other);
  }
}
