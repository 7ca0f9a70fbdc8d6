/** How one worker runs one job: attempts with doubling waits. */
module RetryLoop {
  import opened Results

  datatype Status = Success | Failed | Cancelled

  /** retries is -1 when the loop never ran; error is the attempt whose error is reported. */
  datatype Report = Report(status: Status, retries: int, error: Option<nat>)

  function Pow2(n: nat): (p: nat)
    ensures p >= 1
  {
    if n == 0 then 1 else 2 * Pow2(n - 1)
  }

  /** The wait scheduled before attempt n. */
  function Wait(delay: nat, n: nat): (w: nat) {
    if n == 0 then 0 else delay * Pow2(n)
  }

  function TotalWait(delay: nat, n: nat): (w: nat) {
    if n == 0 then Wait(delay, 0) else TotalWait(delay, n - 1) + Wait(delay, n)
  }

  /** The waits up to attempt n add up to delay * (2^(n+1) - 2). */
  lemma {:induction false} TotalWaitIsGeometric(delay: nat, n: nat)
    ensures TotalWait(delay, n) == delay * (Pow2(n + 1) - 2)
  {
    if n > 0 {
      TotalWaitIsGeometric(delay, n - 1);
      var p := Pow2(n);
      assert Pow2(n + 1) == 2 * p;
      assert delay * (p - 2) + delay * p == delay * (2 * p - 2);
    }
  }

  /** No attempt before i succeeded and none was pre-empted by cancellation. */
  predicate OnlyErrorsBefore(work: nat -> bool, stop: nat -> bool, i: nat) {
    forall j :: 0 <= j < i ==> !work(j) && !stop(j)
  }

  /** work(i) tells whether attempt i succeeds, stop(i) whether cancellation wins the wait before it.
      Attempts run at most limit + 1 times; success is reported exactly when some attempt succeeds,
      with the index of the first that does; the scheduled waits follow the closed form. */
  method PerformWork(maxRetries: int, delay: nat, work: nat -> bool, stop: nat -> bool)
    returns (r: Report, attempts: nat, waited: nat)
    ensures maxRetries < 0 ==> r == Report(Failed, -1, None) && attempts == 0 && waited == 0
    ensures maxRetries >= 0 ==> 0 <= r.retries <= maxRetries && OnlyErrorsBefore(work, stop, r.retries)
    ensures r.status.Success? <==>
            exists i :: 0 <= i <= maxRetries && OnlyErrorsBefore(work, stop, i) && work(i) && !stop(i)
    ensures r.status.Success? ==> work(r.retries) && attempts == r.retries + 1 && r.error == None
    ensures r.status.Cancelled? ==> stop(r.retries) && attempts == r.retries && r.error == None
    ensures r.status.Failed? && maxRetries >= 0 ==>
              r.retries == maxRetries && attempts == maxRetries + 1 && r.error == Some(maxRetries) &&
              OnlyErrorsBefore(work, stop, maxRetries + 1)
    ensures maxRetries >= 0 ==> waited == delay * (Pow2(r.retries + 1) - 2)
  {
    var retries: int := -1;
    var lastErr := None;
    attempts, waited := 0, 0;
    var i := 0;
    while i <= maxRetries
      invariant 0 <= i && (maxRetries >= 0 ==> i <= maxRetries + 1) && (maxRetries < 0 ==> i == 0)
      invariant retries == i - 1 && attempts == i
      invariant lastErr == if i == 0 then None else Some(i - 1)
      invariant waited == if i == 0 then 0 else TotalWait(delay, i - 1)
      invariant OnlyErrorsBefore(work, stop, i)
    {
      retries := retries + 1;
      waited := waited + Wait(delay, retries);
      TotalWaitIsGeometric(delay, retries);
      if stop(i) {
        return Report(Cancelled, retries, None), attempts, waited;
      }
      attempts := attempts + 1;
      if work(i) {
        return Report(Success, retries, None), attempts, waited;
      }
      lastErr := Some(i);
      i := i + 1;
    }
    if maxRetries >= 0 {
      TotalWaitIsGeometric(delay, maxRetries);
    }
    r := Report(Failed, retries, lastErr);
  }
}
