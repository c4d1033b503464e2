/**
 * The `validator` package the record validators report into. Its source is
 * not part of this model; it is modelled as the conventional map from a field
 * key to one message, where a failed check records its message unless the key
 * already holds one, so the first failure per key is kept.
 */
module Validation {
  import opened Wrappers

  type Errors = map<string, string>

  /** errors with `key` mapped to the message, when there is one. */
  function Put(errors: Errors, key: string, message: Option<string>): Errors
  {
    if message.Some? then errors[key := message.value] else errors
  }

  /** The errors after one failed check on `key`: an existing entry for the key wins. */
  function Added(errors: Errors, key: string, message: string): Errors
  {
    if key in errors then errors else errors[key := message]
  }

  /** The errors after a check: unchanged when it passes, Added when it fails. */
  function Report(errors: Errors, ok: bool, key: string, message: string): Errors
  {
    if ok then errors else Added(errors, key, message)
  }

  /**
   * A check on a key that none of the new entries `recorded` holds yet: its
   * failure, if any, joins the new entries; the older entries `before` still win.
   */
  lemma ReportNewKey(recorded: Errors, before: Errors, ok: bool, key: string, message: string)
    requires key !in recorded
    ensures Report(recorded + before, ok, key, message) == Put(recorded, key, if ok then None else Some(message)) + before
  {
  }

  /** A check on a key that already holds an entry changes nothing. */
  lemma ReportFilledKey(errors: Errors, ok: bool, key: string, message: string)
    requires key in errors
    ensures Report(errors, ok, key, message) == errors
  {
  }

  /** Two checks on a key none of the new entries holds: the first failure among them joins the new entries. */
  lemma TwoChecksNewKey(recorded: Errors, before: Errors, key: string, ok1: bool, message1: string, ok2: bool, message2: string)
    requires key !in recorded
    ensures Report(Report(recorded + before, ok1, key, message1), ok2, key, message2)
         == Put(recorded, key, if !ok1 then Some(message1) else if !ok2 then Some(message2) else None) + before
  {
    ReportNewKey(recorded, before, ok1, key, message1);
    if ok1 {
      ReportNewKey(recorded, before, ok2, key, message2);
    } else {
      ReportFilledKey(Put(recorded, key, Some(message1)) + before, ok2, key, message2);
    }
  }

  /** Three checks on a key none of the new entries holds: the first failure among them joins the new entries. */
  lemma ThreeChecksNewKey(recorded: Errors, before: Errors, key: string,
                          ok1: bool, message1: string, ok2: bool, message2: string, ok3: bool, message3: string)
    requires key !in recorded
    ensures Report(Report(Report(recorded + before, ok1, key, message1), ok2, key, message2), ok3, key, message3)
         == Put(recorded, key, if !ok1 then Some(message1) else if !ok2 then Some(message2)
                               else if !ok3 then Some(message3) else None) + before
  {
    TwoChecksNewKey(recorded, before, key, ok1, message1, ok2, message2);
    if ok1 && ok2 {
      ReportNewKey(recorded, before, ok3, key, message3);
    } else {
      var first := if !ok1 then message1 else message2;
      ReportFilledKey(Put(recorded, key, Some(first)) + before, ok3, key, message3);
    }
  }

  /**
   * Four entries put on distinct keys into an empty map: a key is present
   * exactly when its message is, no other key is, and the map is empty
   * exactly when every message is absent.
   */
  lemma FourPutsKeys(key1: string, message1: Option<string>, key2: string, message2: Option<string>,
                     key3: string, message3: Option<string>, key4: string, message4: Option<string>)
    requires key1 != key2 && key1 != key3 && key1 != key4 && key2 != key3 && key2 != key4 && key3 != key4
    ensures var errors := Put(Put(Put(Put(map[], key1, message1), key2, message2), key3, message3), key4, message4);
      && (key1 in errors <==> message1.Some?)
      && (key2 in errors <==> message2.Some?)
      && (key3 in errors <==> message3.Some?)
      && (key4 in errors <==> message4.Some?)
      && errors.Keys <= {key1, key2, key3, key4}
      && (errors == map[] <==> message1.None? && message2.None? && message3.None? && message4.None?)
  {
    var errors := Put(Put(Put(Put(map[], key1, message1), key2, message2), key3, message3), key4, message4);
    if errors == map[] {
      assert key1 !in errors && key2 !in errors && key3 !in errors && key4 !in errors;
    }
  }

  class Validator {
    var errors: Errors

    constructor ()
      ensures errors == map[]
    {
      errors := map[];
    }

    /** True when no check has failed. */
    predicate Valid()
      reads this
    {
      |errors| == 0
    }

    method AddError(key: string, message: string)
      modifies this
      ensures errors == Added(old(errors), key, message)
    {
      if key !in errors {
        errors := errors[key := message];
      }
    }

    /** Records `message` under `key` exactly when `ok` is false. */
    method Check(ok: bool, key: string, message: string)
      modifies this
      ensures errors == Report(old(errors), ok, key, message)
    {
      if !ok {
        AddError(key, message);
      }
    }
  }

  /** `validator.Unique`: no value occurs twice. */
  function Unique<T(==)>(values: seq<T>): (b: bool)
    ensures b <==> forall i, j :: 0 <= i < |values| && 0 <= j < |values| && values[i] == values[j] ==> i == j
  {
    forall i, j :: 0 <= i < j < |values| ==> values[i] != values[j]
  }

  /** `validator.PermittedValue`: the value is one of the permitted ones. */
  function PermittedValue<T(==)>(value: T, permitted: seq<T>): (b: bool)
    ensures b <==> exists i :: 0 <= i < |permitted| && permitted[i] == value
  {
    value in permitted
  }
}
