/**
 * The outside world the document model talks to: the S3 bucket's objects,
 * the answers the store gives, and the ordered trace of the calls made into
 * the store, the clock (`sleep`) and the job queue (`Document.delay`), and of
 * every insert or save of a record. `Document.find` is not logged: the record
 * it finds is a parameter. What a call answers is decided by the environment
 * and enters the model as a parameter.
 */
module Effects {
  import opened Wrappers

  type Bytes = seq<bv8>

  /** What an S3 `head` reports about an object. */
  datatype Metadata = Metadata(contentLength: nat, contentType: Option<string>, lastModified: int)

  /** The answer to one `head` call. */
  datatype HeadResult = Found(meta: Metadata) | NoSuchKey | HeadFailed(reason: string)

  /** The errors that can leave the model's operations. */
  datatype Error =
    | UrlNotMatched          // the stored URL does not match, so its captures are dereferenced on `nil`
    | RecordInvalid          // a validation failure: the record is not saved
    | KeyMissing             // AWS::S3::Errors::NoSuchKey
    | DownloadFailed         // the HTTP download of a remote attachment source was answered with an error
    | ServiceError(reason: string)

  /** Whether a call whose success the store decides raises. */
  datatype Outcome = Succeeds | Raises(reason: string)

  datatype Event =
    | Head(path: string)
    | Sleep(seconds: nat)
    | Copy(source: string, target: string)
    | AssignRemoteSource(url: string)
    | Delete(path: string)
    | Insert(id: nat)
    | Save(id: nat)
    | Enqueue(id: nat)

  /** A snapshot of the world. */
  datatype Store = Store(objects: map<string, Bytes>, trace: seq<Event>)

  /**
   * The error of a call that reads the object at `source` (a copy, or the
   * download behind a remote attachment source): a missing object raises
   * `missing`, otherwise the store decides.
   */
  function SourceError(objects: map<string, Bytes>, source: string, outcome: Outcome, missing: Error): (e: Option<Error>)
    ensures e.None? <==> source in objects && outcome.Succeeds?
    ensures source !in objects ==> e == Some(missing)
  {
    if source !in objects then Some(missing)
    else if outcome.Raises? then Some(ServiceError(outcome.reason))
    else None
  }

  /** The error of a call the store may refuse; deleting a missing key succeeds in S3. */
  function OutcomeError(outcome: Outcome): (e: Option<Error>)
    ensures e.None? <==> outcome.Succeeds?
  {
    if outcome.Raises? then Some(ServiceError(outcome.reason)) else None
  }

  /** The record ids in the finalize jobs queued in `t`, in order. */
  function Enqueued(t: seq<Event>): seq<nat>
    decreases |t|
  {
    if t == [] then []
    else if t[|t| - 1].Enqueue? then Enqueued(t[..|t| - 1]) + [t[|t| - 1].id]
    else Enqueued(t[..|t| - 1])
  }

  lemma {:induction false} EnqueuedAppend(a: seq<Event>, b: seq<Event>)
    ensures Enqueued(a + b) == Enqueued(a) + Enqueued(b)
    decreases |b|
  {
    if b != [] {
      var b' := b[..|b| - 1];
      assert (a + b)[..|a + b| - 1] == a + b';
      EnqueuedAppend(a, b');
    } else {
      assert a + b == a;
    }
  }

  /** A trace with no enqueue queues nothing. */
  lemma {:induction false} EnqueuedNone(t: seq<Event>)
    requires forall e :: e in t ==> !e.Enqueue?
    ensures Enqueued(t) == []
    decreases |t|
  {
    if t != [] {
      assert t[|t| - 1] in t;
      forall e | e in t[..|t| - 1] ensures !e.Enqueue? {
        assert e in t;
      }
      EnqueuedNone(t[..|t| - 1]);
    }
  }

  /** Logging one non-enqueue event and then an enqueue of `id` queues exactly `id`. */
  lemma EnqueuedAfter(t: seq<Event>, e: Event, id: nat)
    requires !e.Enqueue?
    ensures Enqueued(t + [e, Enqueue(id)]) == Enqueued(t) + [id]
  {
    var u := t + [e, Enqueue(id)];
    assert u[..|u| - 1] == t + [e];
    assert (t + [e])[..|t|] == t;
  }

  class World {
    const bucket: string
    var objects: map<string, Bytes>
    var trace: seq<Event>

    function State(): Store
      reads this
    {
      Store(objects, trace)
    }

    constructor (bucket: string, objects: map<string, Bytes>)
      ensures this.bucket == bucket && State() == Store(objects, [])
    {
      this.bucket := bucket;
      this.objects := objects;
      this.trace := [];
    }

    /** A call with no effect on the bucket: head, sleep, insert, save, enqueue. */
    method Log(e: Event)
      modifies this
      ensures State() == Store(old(objects), old(trace) + [e])
    {
      trace := trace + [e];
    }

    /** `objects[target].copy_from(source)` within the bucket; a missing source raises `NoSuchKey`. */
    method Copy(source: string, target: string, outcome: Outcome) returns (err: Option<Error>)
      modifies this
      ensures err == SourceError(old(objects), source, outcome, KeyMissing)
      ensures objects == if err.None? then old(objects)[target := old(objects)[source]] else old(objects)
      ensures trace == old(trace) + [Event.Copy(source, target)]
    {
      trace := trace + [Event.Copy(source, target)];
      err := SourceError(objects, source, outcome, KeyMissing);
      if err.None? {
        objects := objects[target := objects[source]];
      }
    }

    /**
     * The download of the temporary object at `source` behind a remote
     * attachment source `url`; it goes over HTTP, so a missing object is an
     * HTTP error, not `NoSuchKey`.
     */
    method AssignRemoteSource(url: string, source: string, outcome: Outcome) returns (err: Option<Error>)
      modifies this
      ensures err == SourceError(old(objects), source, outcome, DownloadFailed)
      ensures State() == Store(old(objects), old(trace) + [Event.AssignRemoteSource(url)])
    {
      trace := trace + [Event.AssignRemoteSource(url)];
      err := SourceError(objects, source, outcome, DownloadFailed);
    }

    /** `objects[path].delete`. */
    method Delete(path: string, outcome: Outcome) returns (err: Option<Error>)
      modifies this
      ensures err == OutcomeError(outcome)
      ensures objects == if err.None? then old(objects) - {path} else old(objects)
      ensures trace == old(trace) + [Event.Delete(path)]
    {
      trace := trace + [Event.Delete(path)];
      err := OutcomeError(outcome);
      if err.None? {
        objects := objects - {path};
      }
    }
  }
}
