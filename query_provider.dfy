/**
 * The client-wide query defaults: the retry rule and the cache timings.
 */
module QueryProvider {
  import opened Wrappers

  const StaleTime: int := 5 * 60 * 1000
  const GcTime: int := 10 * 60 * 1000
  const RefetchOnWindowFocus: bool := false
  /** `mutations: { retry: false }` */
  const MutationRetry: bool := false

  /** `retry(failureCount, error)`, with the error's `status` property (None when the
      error has none). */
  function ShouldRetry(failureCount: int, status: Option<int>): (r: bool)
    ensures status == Some(401) || status == Some(403) ==> !r
    ensures status != Some(401) && status != Some(403) ==> (r <==> failureCount < 3)
  {
    if status == Some(401) || status == Some(403) then false else failureCount < 3
  }

  /** How many retries follow a first failure when every attempt fails with the same
      status; the client asks the rule with the failures counted so far, from 0. */
  function Retries(status: Option<int>, failureCount: nat): nat
    decreases 3 - failureCount
  {
    if ShouldRetry(failureCount, status) then 1 + Retries(status, failureCount + 1) else 0
  }

  /** Never more than three retries; none at all for 401 and 403; three for any other
      status, and for an error with no status. */
  lemma {:induction false} RetryBound(status: Option<int>, failureCount: nat)
    ensures Retries(status, failureCount) == if status == Some(401) || status == Some(403) || failureCount >= 3 then 0 else 3 - failureCount
    decreases 3 - failureCount
  {
    if ShouldRetry(failureCount, status) {
      RetryBound(status, failureCount + 1);
    }
  }

  lemma RetriesFromFirstFailure(status: Option<int>)
    ensures Retries(status, 0) <= 3
    ensures Retries(None, 0) == 3
    ensures Retries(Some(401), 0) == 0 && Retries(Some(403), 0) == 0
  {
    RetryBound(status, 0);
    RetryBound(None, 0);
    RetryBound(Some(401), 0);
    RetryBound(Some(403), 0);
  }

  /** Data goes stale before it is collected. */
  lemma Timings()
    ensures StaleTime == 300000 && GcTime == 600000 && StaleTime < GcTime
  {
  }
}
