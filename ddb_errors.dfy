/** The error list of a DynamoDB item validation and the `on_error`
    callback the rules report through (moto/dynamodb2/validation/validate.py):
    with a limit, an error that arrives once the list holds that many
    errors is replaced by a sentinel and the validation is aborted. */
module DdbErrors {
  import opened Wrappers

  /** The message appended in place of the error that exceeds the limit. */
  const TooMany := "Too many validation errors, error limit reached. Validation aborted."

  /** Reporting `msgs` one after the other to `on_error`, starting from the
      list `errors`: the new list, and whether the validation was aborted. */
  function Deliver(errors: seq<string>, msgs: seq<string>, maxErrors: Option<int>): (seq<string>, bool)
    decreases |msgs|
  {
    if msgs == [] then (errors, false)
    else if maxErrors.Some? && |errors| >= maxErrors.value then (errors + [TooMany], true)
    else Deliver(errors + [msgs[0]], msgs[1..], maxErrors)
  }

  /** The room a limit leaves after `have` errors. */
  function Room(have: nat, maxErrors: int): nat
  {
    if maxErrors > have then maxErrors - have else 0
  }

  /** Without a limit every message is kept, and nothing aborts. */
  lemma {:induction false} DeliverUnlimited(errors: seq<string>, msgs: seq<string>)
    ensures Deliver(errors, msgs, None) == (errors + msgs, false)
    decreases |msgs|
  {
    if msgs != [] {
      DeliverUnlimited(errors + [msgs[0]], msgs[1..]);
      assert Deliver(errors, msgs, None) == Deliver(errors + [msgs[0]], msgs[1..], None);
      assert msgs == [msgs[0]] + msgs[1..];
      assert errors + [msgs[0]] + msgs[1..] == errors + msgs;
    } else {
      assert errors + msgs == errors;
    }
  }

  /** With a limit `n`, messages are kept while the list is shorter than
      `n`; if any remain, the sentinel follows and the validation aborts. */
  lemma {:induction false} DeliverLimited(errors: seq<string>, msgs: seq<string>, n: int)
    ensures var room := Room(|errors|, n);
            Deliver(errors, msgs, Some(n))
            == if |msgs| <= room then (errors + msgs, false)
               else (errors + msgs[..room] + [TooMany], true)
    decreases |msgs|
  {
    var room := Room(|errors|, n);
    if msgs != [] && room > 0 {
      DeliverLimited(errors + [msgs[0]], msgs[1..], n);
      assert Deliver(errors, msgs, Some(n)) == Deliver(errors + [msgs[0]], msgs[1..], Some(n));
      assert Room(|errors + [msgs[0]]|, n) == room - 1;
      if |msgs| <= room {
        assert errors + [msgs[0]] + msgs[1..] == errors + msgs;
      } else {
        assert errors + [msgs[0]] + msgs[1..][..room - 1] == errors + msgs[..room];
      }
    } else if msgs != [] {
      assert errors + msgs[..room] + [TooMany] == errors + [TooMany];
    } else {
      assert errors + msgs == errors;
    }
  }

  /** A delivery that does not abort keeps the list within the limit (a
      negative limit counts as none), and one that aborts grows it by
      exactly one past the limit, with the sentinel last. */
  lemma DeliverBound(errors: seq<string>, msgs: seq<string>, n: int)
    requires |errors| <= Room(0, n)
    ensures var (es, aborted) := Deliver(errors, msgs, Some(n));
            (!aborted ==> |es| <= Room(0, n))
            && (aborted ==> |es| == Room(0, n) + 1 && es[Room(0, n)] == TooMany)
  {
    DeliverLimited(errors, msgs, n);
  }

  /** Delivering two batches is delivering the second after the first,
      unless the first aborted. */
  lemma {:induction false} DeliverAppend(errors: seq<string>, a: seq<string>, b: seq<string>, maxErrors: Option<int>)
    ensures Deliver(errors, a + b, maxErrors)
            == var (es, aborted) := Deliver(errors, a, maxErrors);
               if aborted then (es, true) else Deliver(es, b, maxErrors)
    decreases |a|
  {
    if a != [] {
      assert (a + b)[0] == a[0] && (a + b)[1..] == a[1..] + b;
      DeliverAppend(errors + [a[0]], a[1..], b, maxErrors);
    } else {
      assert a + b == b;
    }
  }

  /** Reporting one message in front of others. */
  lemma DeliverCons(errors: seq<string>, m: string, rest: seq<string>, maxErrors: Option<int>)
    ensures Deliver(errors, [m] + rest, maxErrors)
            == if maxErrors.Some? && |errors| >= maxErrors.value then (errors + [TooMany], true)
               else Deliver(errors + [m], rest, maxErrors)
  {
    assert ([m] + rest)[0] == m && ([m] + rest)[1..] == rest;
  }

  /** The `errors` list of `validate` and its `on_error` closure. */
  class ErrorLog {
    const maxErrors: Option<int>
    var errors: seq<string>

    constructor (maxErrors: Option<int>)
      ensures this.maxErrors == maxErrors && errors == []
    {
      this.maxErrors := maxErrors;
      errors := [];
    }

    /** `on_error`: at the limit the sentinel is appended and the
        validation aborts (the `ValidationAbortedError`); otherwise the
        error is appended. */
    method OnError(error: string) returns (aborted: bool)
      modifies this
      ensures aborted <==> maxErrors.Some? && |old(errors)| >= maxErrors.value
      ensures errors == old(errors) + [if aborted then TooMany else error]
      ensures (errors, aborted) == Deliver(old(errors), [error], maxErrors)
    {
      aborted := maxErrors.Some? && |errors| >= maxErrors.value;
      if aborted {
        errors := errors + [TooMany];
      } else {
        errors := errors + [error];
      }
      assert [error][1..] == [];
    }
  }
}
