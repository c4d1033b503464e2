/**
 * The JSON codec of a movie's running time (internal/data/runtime.go): a
 * runtime of n minutes is written as the JSON string `"<n> mins"` and read
 * back from exactly that shape.
 */
module RuntimeJson {
  import opened Wrappers
  import opened Text

  datatype RuntimeError = ErrInvalidRuntimeFormat

  /**
   * The JSON text for a runtime of n minutes: the quoted `%d mins` of n.
   * The Go method hands the pointer `r` rather than `*r` to `%d`, which prints
   * the runtime's address; this definition formats the runtime itself, the
   * shape Decode accepts (see EncodeAsWritten).
   */
  function Encode(n: int): (json: string)
    ensures Unquote(json) == Some(FormatInt(n) + " mins")
  {
    var text := FormatInt(n) + " mins";
    assert QuotesVerbatim(text);
    UnquoteQuote(text);
    Quote(text)
  }

  /**
   * The outcome of UnmarshalJSON: unquote, split on single spaces, demand
   * exactly a number and the word `mins`, and parse the number as a base-10
   * 32-bit integer; any failure is ErrInvalidRuntimeFormat.
   */
  function Decode(input: string): (r: Result<int, RuntimeError>)
    ensures r.Ok? ==> Int32Min <= r.value <= Int32Max
  {
    match Unquote(input)
    case None => Err(ErrInvalidRuntimeFormat)
    case Some(text) =>
      var parts := Split(text, ' ');
      if |parts| != 2 || parts[1] != "mins" then Err(ErrInvalidRuntimeFormat)
      else
        match ParseInt(parts[0], 32)
        case None => Err(ErrInvalidRuntimeFormat)
        case Some(i) => Ok(i)
  }

  /** The storage a `*Runtime` receiver points to (Go's `type Runtime int64`). */
  class Runtime {
    var minutes: int

    constructor (minutes: int)
      ensures this.minutes == minutes
    {
      this.minutes := minutes;
    }

    /** Never fails, and yields the quoted `<minutes> mins`. */
    method MarshalJSON() returns (json: string, err: Option<RuntimeError>)
      ensures json == Encode(minutes)
      ensures err == None
    {
      var text := FormatInt(minutes) + " mins";
      assert QuotesVerbatim(text);
      json := Quote(text);
      err := None;
    }

    /**
     * Succeeds exactly when Decode does, storing the decoded value; on every
     * error the receiver keeps its old value.
     */
    method UnmarshalJSON(input: string) returns (err: Option<RuntimeError>)
      modifies this
      ensures err == None <==> Decode(input).Ok?
      ensures err != None ==> err == Some(ErrInvalidRuntimeFormat) && minutes == old(minutes)
      ensures err == None ==> minutes == Decode(input).value
    {
      var unquoted := Unquote(input);
      if unquoted.None? {
        return Some(ErrInvalidRuntimeFormat);
      }
      var parts := Split(unquoted.value, ' ');
      if |parts| != 2 || parts[1] != "mins" {
        return Some(ErrInvalidRuntimeFormat);
      }
      var i := ParseInt(parts[0], 32);
      if i.None? {
        return Some(ErrInvalidRuntimeFormat);
      }
      minutes := i.value;
      return None;
    }
  }

  /** The shape Decode accepts: a quote, the number text, one space and `mins"`. */
  predicate RuntimeShape(input: string, n: int)
  {
    && |input| >= 7
    && input[0] == '"'
    && input[|input| - 6..] == " mins\""
    && ParseInt(input[1..|input| - 6], 32) == Some(n)
  }

  lemma DecodedHasShape(input: string, n: int)
    requires Decode(input) == Ok(n)
    ensures RuntimeShape(input, n)
  {
    var body := Unquote(input).value;
    var parts := Split(body, ' ');
    assert parts[1..] == ["mins"];
    assert Join(parts, ' ') == parts[0] + [' '] + Join(parts[1..], ' ');
    assert body == parts[0] + " mins";
    assert input == "\"" + parts[0] + " mins\"";
    assert input[1..|input| - 6] == parts[0];
  }

  lemma ShapeDecodes(input: string, n: int)
    requires RuntimeShape(input, n)
    ensures Decode(input) == Ok(n)
  {
    var text := input[1..|input| - 6];
    var body := input[1..|input| - 1];
    assert body == text + " mins";
    assert forall i :: 0 <= i < |text| ==> IsDigit(text[i]) || text[i] == '+' || text[i] == '-';
    assert '"' !in body && '\n' !in body && '\\' !in body;
    assert Unquote(input) == Some(body);
    assert Join([text, "mins"], ' ') == body;
    SplitJoin([text, "mins"], ' ');
  }

  /**
   * Decode accepts exactly a double quote, a number ParseInt reads as a
   * 32-bit integer, one space and `mins"`: so leading, trailing or doubled
   * spaces, a missing quote or another unit are all refused.
   */
  lemma DecodeAccepts(input: string, n: int)
    ensures Decode(input) == Ok(n) <==> RuntimeShape(input, n)
  {
    if Decode(input) == Ok(n) {
      DecodedHasShape(input, n);
    }
    if RuntimeShape(input, n) {
      ShapeDecodes(input, n);
    }
  }

  /**
   * Round trip: decoding the encoding of n gives n back for every 32-bit n;
   * an n outside that range encodes fine but does not decode.
   */
  lemma DecodeEncode(n: int)
    ensures Decode(Encode(n)) == if Int32Min <= n <= Int32Max then Ok(n) else Err(ErrInvalidRuntimeFormat)
  {
    var input := Encode(n);
    assert input[1..|input| - 6] == FormatInt(n);
    assert input[|input| - 6..] == " mins\"";
    ParseFormat(n, 32);
    if Int32Min <= n <= Int32Max {
      DecodeAccepts(input, n);
    } else if Decode(input).Ok? {
      DecodeAccepts(input, Decode(input).value);
    }
  }

  /** The parser takes a sign, so a negative runtime such as `"-5 mins"` decodes. */
  lemma DecodeNegativeExample()
    ensures Decode("\"-5 mins\"") == Ok(-5)
  {
    var input := "\"-5 mins\"";
    assert input[1..|input| - 6] == "-5";
    assert "-5"[1..] == "5" && "5"[..0] == "";
    assert DigitsValue("5") == 5;
    ShapeDecodes(input, -5);
  }

  /** Text whose number part is not a bare optionally signed integer is refused. */
  lemma DecodeRefusesNumberText(input: string)
    requires |input| >= 7
    requires ParseInt(input[1..|input| - 6], 32).None?
    ensures Decode(input).Err?
  {
    if Decode(input).Ok? {
      DecodedHasShape(input, Decode(input).value);
    }
  }

  /** A leading, a doubled or a trailing space is refused. */
  lemma DecodeSpacingExamples()
    ensures Decode("\" 5 mins\"").Err?
    ensures Decode("\"5  mins\"").Err?
    ensures Decode("\"5 mins \"").Err?
  {
    var leading, doubled, trailing := "\" 5 mins\"", "\"5  mins\"", "\"5 mins \"";
    assert leading[1..|leading| - 6] == " 5";
    assert doubled[1..|doubled| - 6] == "5 ";
    assert trailing[1..|trailing| - 6] == "5 ";
    DecodeRefusesNumberText(leading);
    DecodeRefusesNumberText(doubled);
    DecodeRefusesNumberText(trailing);
  }

  /**
   * What runtime.go:15 actually prints: `%d` applied to the pointer, that is
   * the address of the runtime, formatted the same way as a number.
   */
  function EncodeAsWritten(address: nat): (json: string)
    ensures Unquote(json) == Some(FormatInt(address) + " mins")
  {
    Encode(address)
  }

  /**
   * The as-written encoding never decodes to the runtime it was asked to
   * encode unless the address happens to equal it, and an address above
   * 2^31 - 1 (typical heap addresses of a 64-bit Go process) does not decode at all.
   */
  lemma EncodeAsWrittenLosesRuntime(minutes: int, address: nat)
    ensures Decode(EncodeAsWritten(address)) == Ok(minutes) ==> address == minutes
    ensures address > Int32Max ==> Decode(EncodeAsWritten(address)).Err?
  {
    DecodeEncode(address);
  }
}
