/** The webhook retry loop. Outcomes of the POSTs are inputs; sleeping is counted in seconds. */
module Webhook {

  datatype PostResult = PostResult(code: int, failed: bool)

  datatype Record = Record(attempt: nat, success: bool, code: int)

  const MAX_ATTEMPTS: nat := 3

  predicate Delivered(p: PostResult) {
    !p.failed && 200 <= p.code < 300
  }

  function Pow3(n: nat): nat {
    if n == 0 then 1 else 3 * Pow3(n - 1)
  }

  /** Seconds slept in front of n POSTs when the k-th pause lasts 3^k seconds. */
  function Slept(n: nat): nat {
    if n <= 1 then 0 else Slept(n - 1) + Pow3(n - 2)
  }

  lemma {:induction false} SleptIsGeometric(n: nat)
    requires n >= 1
    ensures 2 * Slept(n) == Pow3(n - 1) - 1
  {
    if n > 1 {
      SleptIsGeometric(n - 1);
    }
  }

  /** The POST that ends the loop: the first delivered one, or the last allowed one. */
  ghost predicate LastPost(outcomes: seq<PostResult>, n: nat) {
    && 1 <= n <= 3 && n <= |outcomes|
    && (forall k :: 0 <= k < n - 1 ==> outcomes[k].failed || outcomes[k].code < 200 || outcomes[k].code >= 300)
    && (n < 3 ==> !outcomes[n - 1].failed && 200 <= outcomes[n - 1].code < 300)
  }

  /**
    One dispatch writes exactly one record. If the payload cannot be encoded or the URL is
    refused, nothing is posted and the record says attempt 0. Otherwise posting stops at the
    first delivery or after three attempts; the record's attempt is the number of POSTs, its
    status is that of the last POST, and the pauses add up to (3^(n-1) - 1) / 2 seconds.
   */
  method Dispatch(encodes: bool, urlAccepted: bool, outcomes: seq<PostResult>)
    returns (records: seq<Record>, posts: nat, slept: nat)
    requires |outcomes| >= MAX_ATTEMPTS
    ensures |records| == 1 && records[0].attempt == posts
    ensures !(encodes && urlAccepted) ==> posts == 0 && slept == 0 && records[0] == Record(0, false, 0)
    ensures encodes && urlAccepted ==>
              && LastPost(outcomes, posts)
              && (records[0].success <==> !outcomes[posts - 1].failed && 200 <= outcomes[posts - 1].code < 300)
              && records[0].code == outcomes[posts - 1].code
              && 2 * slept == Pow3(posts - 1) - 1 && slept == [0, 1, 4][posts - 1]
  {
    records, posts, slept := [], 0, 0;
    if !encodes || !urlAccepted {
      return [Record(0, false, 0)], 0, 0;
    }
    var attempt, backoff := 1, 1;
    while attempt <= MAX_ATTEMPTS
      invariant 1 <= attempt <= MAX_ATTEMPTS
      invariant posts == attempt - 1 && records == []
      invariant forall k :: 0 <= k < attempt - 1 ==> !Delivered(outcomes[k])
      invariant backoff == Pow3(attempt - 1) && slept == Slept(attempt)
      decreases MAX_ATTEMPTS - attempt
    {
      var p := outcomes[attempt - 1];
      posts := posts + 1;
      SleptIsGeometric(attempt);
      if Delivered(p) {
        return records + [Record(attempt, true, p.code)], posts, slept;
      }
      if attempt == MAX_ATTEMPTS {
        return records + [Record(attempt, false, p.code)], posts, slept;
      }
      slept := slept + backoff;
      backoff := backoff * 3;
      attempt := attempt + 1;
    }
  }
}
