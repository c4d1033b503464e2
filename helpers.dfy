/**
 * The request readers of the API (cmd/api/helpers.go): the `id` route
 * parameter, and string, comma-separated and integer query parameters with
 * their defaults.
 */
module Helpers {
  import opened Wrappers
  import opened Text
  import opened Validation

  /** `url.Values`: each key with the values given for it, in order. */
  type QueryValues = map<string, seq<string>>

  /** `url.Values.Get`: the first value of the key, or "" when it has none. */
  function Get(qs: QueryValues, key: string): (r: string)
    ensures key in qs && |qs[key]| > 0 ==> r == qs[key][0]
    ensures key !in qs || qs[key] == [] ==> r == ""
  {
    if key in qs && |qs[key]| > 0 then qs[key][0] else ""
  }

  /**
   * readIdParam on the raw `id` parameter: the id and no error when
   * `strconv.ParseInt(param, 0, 64)` reads a value of at least 1, otherwise
   * 0 and the error message.
   */
  function ReadIdParam(param: string): (r: (int, Option<string>))
    ensures r.1.None? <==> ParseIntBase0(param).Some? && ParseIntBase0(param).value >= 1
    ensures r.1.None? ==> r.0 == ParseIntBase0(param).value && 1 <= r.0 <= Int64Max
    ensures r.1.Some? ==> r == (0, Some("Invalid id param"))
  {
    match ParseIntBase0(param)
    case Some(id) => if id < 1 then (0, Some("Invalid id param")) else (id, None)
    case None => (0, Some("Invalid id param"))
  }

  /** Every positive 64-bit id, written in decimal, is read back; larger ones and non-positive ones are refused. */
  lemma ReadIdParamFormat(n: int)
    ensures ReadIdParam(FormatInt(n)) == if 1 <= n <= Int64Max then (n, None) else (0, Some("Invalid id param"))
  {
    ParseBase0Format(n);
  }

  /** Base prefixes and a leading zero change the base, and a plus sign is allowed. */
  lemma ReadIdParamAcceptedExamples()
    ensures ReadIdParam("0x1F") == (31, None)
    ensures ReadIdParam("017") == (15, None)
    ensures ReadIdParam("+7") == (7, None)
  {
    assert "0x1F"[2..] == "1F" && "1F"[..1] == "1" && "1"[..0] == "";
    assert DigitWeight('F') == 15 && BaseValue("1", 16) == 1;
    assert BaseValue("1F", 16) == 31;
    assert Base0Magnitude("0x1F") == Some(31);
    assert "017"[1..] == "17" && "17"[..1] == "1";
    assert "+7"[1..] == "7" && "7"[..0] == "";
  }

  /** Zero, a negative id, the empty parameter and a leading zero before a non-octal digit are refused. */
  lemma ReadIdParamRefusedExamples()
    ensures ReadIdParam("0") == (0, Some("Invalid id param"))
    ensures ReadIdParam("-3") == (0, Some("Invalid id param"))
    ensures ReadIdParam("") == (0, Some("Invalid id param"))
    ensures ReadIdParam("08") == (0, Some("Invalid id param"))
  {
    assert "0"[1..] == "";
    assert "-3"[1..] == "3" && "3"[..0] == "";
    assert "08"[1..] == "8" && DigitWeight("8"[0]) == 8;
  }

  /**
   * readString: the key's first value, or the default when that is empty or
   * absent.
   */
  function ReadString(qs: QueryValues, key: string, defaultValue: string): (r: string)
    ensures r == (if key in qs && |qs[key]| > 0 && qs[key][0] != "" then qs[key][0] else defaultValue)
  {
    var value := Get(qs, key);
    if value == "" then defaultValue else value
  }

  /** Only the first value of the key matters: later values and other keys are ignored. */
  lemma ReadStringFirstValue(qs: QueryValues, key: string, defaultValue: string, first: string, rest: seq<string>)
    requires key in qs && qs[key] == [first] + rest
    ensures forall other: QueryValues :: key in other && |other[key]| > 0 && other[key][0] == first ==>
      ReadString(other, key, defaultValue) == ReadString(qs, key, defaultValue)
  {
  }

  /**
   * readCSV: the default when the key's first value is empty or absent,
   * otherwise that value cut at every comma. The pieces are never empty as a
   * list, joined with commas they give the value back, and none holds a
   * comma, so they are the value's comma-separated fields exactly.
   */
  function ReadCSV(qs: QueryValues, key: string, defaultValue: seq<string>): (r: seq<string>)
    ensures Get(qs, key) == "" ==> r == defaultValue
    ensures Get(qs, key) != "" ==>
      && |r| >= 1
      && Join(r, ',') == Get(qs, key)
      && forall i :: 0 <= i < |r| ==> ',' !in r[i]
  {
    var value := Get(qs, key);
    if value == "" then defaultValue else Split(value, ',')
  }

  /** A value without a comma comes back as a one-element list. */
  lemma ReadCSVSingle(qs: QueryValues, key: string, defaultValue: seq<string>)
    requires Get(qs, key) != "" && ',' !in Get(qs, key)
    ensures ReadCSV(qs, key, defaultValue) == [Get(qs, key)]
  {
    SplitWithoutSeparator(Get(qs, key), ',');
  }

  /** Comma-free fields sent joined with commas are read back as the same list. */
  lemma ReadCSVJoin(qs: QueryValues, key: string, defaultValue: seq<string>, fields: seq<string>)
    requires |fields| >= 1 && forall i :: 0 <= i < |fields| ==> ',' !in fields[i]
    requires key in qs && |qs[key]| > 0 && qs[key][0] == Join(fields, ',') && qs[key][0] != ""
    ensures ReadCSV(qs, key, defaultValue) == fields
  {
    SplitJoin(fields, ',');
  }

  /**
   * The integer readInt returns: the key's first value when `strconv.Atoi`
   * reads it, the default otherwise. It differs from the default only by
   * being what Atoi read, so it is a 64-bit integer whenever the default is.
   */
  function ReadIntValue(qs: QueryValues, key: string, defaultValue: int): (n: int)
    ensures InBitRange(defaultValue, 64) ==> InBitRange(n, 64)
    ensures n != defaultValue ==> Atoi(Get(qs, key)) == Some(n)
    ensures Get(qs, key) == "" ==> n == defaultValue
    ensures Get(qs, key) != "" && Atoi(Get(qs, key)).Some? ==> n == Atoi(Get(qs, key)).value
  {
    var value := Get(qs, key);
    if value == "" then defaultValue
    else match Atoi(value)
      case None => defaultValue
      case Some(i) => i
  }

  /**
   * readInt: returns ReadIntValue. The validator is untouched when the key's
   * first value is empty, absent or an integer; when Atoi refuses the value
   * the error "must be an integer value" is added under the key.
   */
  method ReadInt(qs: QueryValues, key: string, defaultValue: int, v: Validator) returns (n: int)
    modifies v
    ensures n == ReadIntValue(qs, key, defaultValue)
    ensures Get(qs, key) == "" || Atoi(Get(qs, key)).Some? ==> v.errors == old(v.errors)
    ensures Get(qs, key) != "" && Atoi(Get(qs, key)).None? ==>
      n == defaultValue && v.errors == Added(old(v.errors), key, "must be an integer value")
  {
    var value := Get(qs, key);
    if value == "" {
      return defaultValue;
    }
    var intValue := Atoi(value);
    if intValue.None? {
      v.AddError(key, "must be an integer value");
      return defaultValue;
    }
    return intValue.value;
  }

  /** Every 64-bit integer written in decimal is read back by readInt without an error. */
  lemma ReadIntFormat(qs: QueryValues, key: string, defaultValue: int, n: int)
    requires InBitRange(n, 64)
    requires key in qs && |qs[key]| > 0 && qs[key][0] == FormatInt(n)
    ensures ReadIntValue(qs, key, defaultValue) == n
    ensures Atoi(Get(qs, key)) == Some(n)
  {
    ParseFormat(n, 64);
  }
}
