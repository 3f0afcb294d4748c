/** What the four authentication pages share: how a failed request's error is
    chosen, and validation as an ordered chain of checks in which the first
    failing check supplies the message and stops submission. */
module Forms {
  import opened Wrappers

  /** How a request to the backend settles, as a page sees it: success with the
      response body (its JSON text), or failure carrying the optional `message`
      field of the error response's body. */
  datatype Response = Success(body: string) | Failure(message: Option<string>)

  /** `err.response?.data?.message || fallback`: the server's message when it
      is present and non-empty (an empty string is falsy), else the page's
      fixed fallback. A failure therefore always shows a non-empty error,
      which the pages need because they render the error only when it is
      truthy. */
  function ShownError(message: Option<string>, fallback: string): (r: string)
    requires fallback != ""
    ensures r != ""
    ensures message.Some? && message.value != "" ==> r == message.value
    ensures message.None? || message.value == "" ==> r == fallback
  {
    match message
    case Some(m) => if m != "" then m else fallback
    case None => fallback
  }

  /** One validation rule, already evaluated on the form: whether it passes and
      the message it sets when it does not. */
  datatype Check = Check(passes: bool, message: string)

  /** Check `k` is the first one that fails. */
  predicate FailsFirst(checks: seq<Check>, k: nat) {
    && k < |checks|
    && !checks[k].passes
    && forall j | 0 <= j < k :: checks[j].passes
  }

  /** The message of the first failing check, or None when every check
      passes: the meaning of a chain of early-returning `if`s. */
  function FirstFailure(checks: seq<Check>): (r: Option<string>)
    ensures r.None? <==> forall j | 0 <= j < |checks| :: checks[j].passes
  {
    if checks == [] then None
    else if !checks[0].passes then Some(checks[0].message)
    else FirstFailure(checks[1..])
  }

  /** Unfolding the chain one check at a time. */
  lemma FirstFailureCons(c: Check, rest: seq<Check>)
    ensures FirstFailure([c] + rest) == if c.passes then FirstFailure(rest) else Some(c.message)
  {
    assert ([c] + rest)[1..] == rest;
  }

  /** The first failing check is the one whose message is reported. */
  lemma {:induction false} FirstFailureIsFirst(checks: seq<Check>, k: nat)
    requires FailsFirst(checks, k)
    ensures FirstFailure(checks) == Some(checks[k].message)
  {
    if k > 0 {
      assert checks[0].passes;
      assert FailsFirst(checks[1..], k - 1);
      FirstFailureIsFirst(checks[1..], k - 1);
    }
  }

  /** When some check fails, the reported message is that of a check that
      fails after all checks before it passed. */
  lemma {:induction false} FirstFailureHasWitness(checks: seq<Check>)
    requires FirstFailure(checks).Some?
    ensures exists k: nat :: FailsFirst(checks, k) && FirstFailure(checks) == Some(checks[k].message)
  {
    if checks[0].passes {
      FirstFailureHasWitness(checks[1..]);
      var k: nat :| FailsFirst(checks[1..], k) && FirstFailure(checks[1..]) == Some(checks[1..][k].message);
      assert checks[k + 1] == checks[1..][k];
      assert FailsFirst(checks, k + 1);
    } else {
      assert FailsFirst(checks, 0);
    }
  }
}
