/**
 * The retry policy of `set_upload_attributes`: `head` is called on the
 * temporary object; a `NoSuchKey` answer (the read-after-write lag of the
 * store) is retried after a 3-second sleep while tries remain, out of 5;
 * the fifth `NoSuchKey` and every other error are raised. The store's
 * answers to successive calls are given as a sequence.
 */
module MetadataRetry {
  import opened Effects

  const MaxTries: nat := 5
  const RetryDelaySeconds: nat := 3

  /** How the retried fetch ends, and after how many `head` calls. */
  datatype Fetch = Fetched(meta: Metadata, calls: nat) | FetchFailed(error: Error, calls: nat)

  /** The fetch from call number `done` on, with `tries` tries left. */
  function FetchFrom(heads: seq<HeadResult>, done: nat, tries: nat): (r: Fetch)
    requires 1 <= tries && done + tries <= |heads|
    ensures done < r.calls <= done + tries
    decreases tries
  {
    match heads[done]
    case Found(m) => Fetched(m, done + 1)
    case HeadFailed(reason) => FetchFailed(ServiceError(reason), done + 1)
    case NoSuchKey =>
      if tries - 1 > 0 then FetchFrom(heads, done + 1, tries - 1)
      else FetchFailed(KeyMissing, done + 1)
  }

  /** The whole fetch: `tries ||= 5`. */
  function FetchMetadata(heads: seq<HeadResult>): (r: Fetch)
    requires |heads| >= MaxTries
    ensures 1 <= r.calls <= MaxTries
  {
    FetchFrom(heads, 0, MaxTries)
  }

  /** `n` rounds of a `head` answered `NoSuchKey` followed by a sleep. */
  function Retries(path: string, n: nat): seq<Event> {
    if n == 0 then [] else Retries(path, n - 1) + [Head(path), Sleep(RetryDelaySeconds)]
  }

  /** The calls a fetch that made `calls` head calls leaves in the trace. */
  function FetchTrace(path: string, calls: nat): seq<Event>
    requires calls >= 1
  {
    Retries(path, calls - 1) + [Head(path)]
  }

  /**
   * Every fetch is explained by the answers: all calls but the last were
   * answered `NoSuchKey`, and the last answer decides the outcome; giving up
   * on `NoSuchKey` happens only when every try is used.
   */
  lemma {:induction false} FetchFromExplained(heads: seq<HeadResult>, done: nat, tries: nat)
    requires 1 <= tries && done + tries <= |heads|
    ensures var r := FetchFrom(heads, done, tries);
      (forall j :: done <= j < r.calls - 1 ==> heads[j] == NoSuchKey)
      && (r.Fetched? ==> heads[r.calls - 1] == Found(r.meta))
      && (r.FetchFailed? && r.error == KeyMissing ==> heads[r.calls - 1] == NoSuchKey && r.calls == done + tries)
      && (r.FetchFailed? && r.error != KeyMissing ==> r.error.ServiceError? && heads[r.calls - 1] == HeadFailed(r.error.reason))
    decreases tries
  {
    if heads[done] == NoSuchKey && tries - 1 > 0 {
      FetchFromExplained(heads, done + 1, tries - 1);
    }
  }

  /** The answer to the first call not answered `NoSuchKey` decides the fetch, within the tries. */
  lemma {:induction false} FetchFromDecided(heads: seq<HeadResult>, done: nat, tries: nat, k: nat)
    requires 1 <= tries && done + tries <= |heads|
    requires done <= k < done + tries
    requires forall j :: done <= j < k ==> heads[j] == NoSuchKey
    requires heads[k] != NoSuchKey
    ensures heads[k].Found? ==> FetchFrom(heads, done, tries) == Fetched(heads[k].meta, k + 1)
    ensures heads[k].HeadFailed? ==> FetchFrom(heads, done, tries) == FetchFailed(ServiceError(heads[k].reason), k + 1)
    decreases tries
  {
    if k > done {
      assert heads[done] == NoSuchKey;
      FetchFromDecided(heads, done + 1, tries - 1, k);
    }
  }

  /** When every try is answered `NoSuchKey`, the fetch raises `NoSuchKey` after the last one. */
  lemma {:induction false} FetchFromExhausted(heads: seq<HeadResult>, done: nat, tries: nat)
    requires 1 <= tries && done + tries <= |heads|
    requires forall j :: done <= j < done + tries ==> heads[j] == NoSuchKey
    ensures FetchFrom(heads, done, tries) == FetchFailed(KeyMissing, done + tries)
    decreases tries
  {
    if tries > 1 {
      FetchFromExhausted(heads, done + 1, tries - 1);
    }
  }

  /** A `head` that first succeeds on attempt `k` ends the fetch after exactly `k` calls. */
  lemma SucceedsOnAttempt(heads: seq<HeadResult>, k: nat, m: Metadata)
    requires |heads| >= MaxTries
    requires 1 <= k <= MaxTries
    requires forall j :: 0 <= j < k - 1 ==> heads[j] == NoSuchKey
    requires heads[k - 1] == Found(m)
    ensures FetchMetadata(heads) == Fetched(m, k)
  {
    FetchFromDecided(heads, 0, MaxTries, k - 1);
  }

  /** Any other error on attempt `k` is raised at once, without a retry. */
  lemma OtherErrorNotRetried(heads: seq<HeadResult>, k: nat, reason: string)
    requires |heads| >= MaxTries
    requires 1 <= k <= MaxTries
    requires forall j :: 0 <= j < k - 1 ==> heads[j] == NoSuchKey
    requires heads[k - 1] == HeadFailed(reason)
    ensures FetchMetadata(heads) == FetchFailed(ServiceError(reason), k)
  {
    FetchFromDecided(heads, 0, MaxTries, k - 1);
  }

  /** Five `NoSuchKey` answers in a row: the fifth is raised. */
  lemma GivesUpAfterMaxTries(heads: seq<HeadResult>)
    requires |heads| >= MaxTries
    requires forall j :: 0 <= j < MaxTries ==> heads[j] == NoSuchKey
    ensures FetchMetadata(heads) == FetchFailed(KeyMissing, MaxTries)
  {
    FetchFromExhausted(heads, 0, MaxTries);
  }

  /** The whole fetch explained by the answers it received. */
  lemma FetchExplained(heads: seq<HeadResult>)
    requires |heads| >= MaxTries
    ensures var r := FetchMetadata(heads);
      (forall j :: 0 <= j < r.calls - 1 ==> heads[j] == NoSuchKey)
      && (r.Fetched? ==> heads[r.calls - 1] == Found(r.meta))
      && (r.FetchFailed? && r.error == KeyMissing ==> r.calls == MaxTries && heads[r.calls - 1] == NoSuchKey)
      && (r.FetchFailed? && r.error != KeyMissing ==> r.error.ServiceError? && heads[r.calls - 1] == HeadFailed(r.error.reason))
  {
    FetchFromExplained(heads, 0, MaxTries);
  }

  /** `n` retry rounds hold `n` heads on `path`, `n` sleeps of 3 seconds, and nothing else. */
  lemma {:induction false} RetriesCounts(path: string, n: nat)
    ensures multiset(Retries(path, n))[Head(path)] == n
    ensures multiset(Retries(path, n))[Sleep(RetryDelaySeconds)] == n
    ensures forall e :: e in Retries(path, n) ==> e == Head(path) || e == Sleep(RetryDelaySeconds)
  {
    if n > 0 {
      RetriesCounts(path, n - 1);
    }
  }

  /** In `n` retry rounds heads on `path` and 3-second sleeps alternate, starting with a head. */
  lemma {:induction false} RetriesAlternate(path: string, n: nat)
    ensures |Retries(path, n)| == 2 * n
    ensures forall j :: 0 <= j < 2 * n ==> Retries(path, n)[j] == if j % 2 == 0 then Head(path) else Sleep(RetryDelaySeconds)
  {
    if n > 0 {
      RetriesAlternate(path, n - 1);
    }
  }

  /** A fetch of `calls` calls logs heads on `path` with one sleep between each two, starting and ending with a head. */
  lemma FetchTraceAlternates(path: string, calls: nat)
    requires calls >= 1
    ensures |FetchTrace(path, calls)| == 2 * calls - 1
    ensures forall j :: 0 <= j < 2 * calls - 1 ==>
      FetchTrace(path, calls)[j] == if j % 2 == 0 then Head(path) else Sleep(RetryDelaySeconds)
  {
    RetriesAlternate(path, calls - 1);
  }

  lemma FetchTraceCounts(path: string, calls: nat)
    requires calls >= 1
    ensures multiset(FetchTrace(path, calls))[Head(path)] == calls
    ensures multiset(FetchTrace(path, calls))[Sleep(RetryDelaySeconds)] == calls - 1
    ensures forall e :: e in FetchTrace(path, calls) ==> e == Head(path) || e == Sleep(RetryDelaySeconds)
    ensures Enqueued(FetchTrace(path, calls)) == []
  {
    RetriesCounts(path, calls - 1);
    EnqueuedNone(FetchTrace(path, calls));
  }
}
