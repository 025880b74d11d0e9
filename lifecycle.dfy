/**
 * The document lifecycle on values: what each operation of the Document
 * model does to the record and to the outside world. The class in module
 * Documents runs these steps in place and is proved to agree with them; the
 * properties of the lifecycle are proved here.
 */
module DocumentLifecycle {
  import opened Wrappers
  import opened Escaping
  import opened UploadUrl
  import opened ContentType
  import opened Effects
  import opened MetadataRetry
  import opened Decimal

  /** The columns of a `documents` row, and the Paperclip attachment's source. */
  datatype Record = Record(
    id: nat,
    persisted: bool,
    directUploadUrl: Option<string>,
    uploadFileName: Option<string>,
    uploadContentType: Option<string>,
    uploadFileSize: Option<nat>,
    uploadUpdatedAt: Option<int>,
    processed: bool,
    uploadSource: Option<string>)

  /** `Document.new`: no id yet (0 here), every column `nil` and `processed` at its default, false. */
  const NewRecord := Record(0, false, None, None, None, None, None, false, None)

  /** The record and the world after an operation, and the error it raised, if any. */
  datatype Step = Step(doc: Record, store: Store, error: Option<Error>)

  /** What `update_file` is given for `direct_upload_url`: nothing, or an escaped value (possibly `nil`). */
  datatype UrlParam = KeepUrl | AssignUrl(escaped: Option<string>)

  /** The params `update_file` assigns: the URL and, possibly, the `processed` flag. */
  datatype Params = Params(url: UrlParam, processed: Option<bool>)

  const Whitespace: set<char> := {' ', '\t', '\n', '\r', '\U{000B}', '\U{000C}'}

  /** Rails' `blank?` on a string. */
  predicate IsBlank(s: string) {
    forall i :: 0 <= i < |s| ==> s[i] in Whitespace
  }

  /** `validates :direct_upload_url, presence: true, format: { with: DIRECT_UPLOAD_URL_FORMAT }`. */
  predicate IsValid(bucket: string, url: Option<string>) {
    url.Some? && !IsBlank(url.value) && Parse(bucket, url.value).Some?
  }

  /** The presence check adds nothing to the format check: a record is valid exactly when its URL matches. */
  lemma ValidIffMatches(bucket: string, url: Option<string>)
    ensures IsValid(bucket, url) <==> Match(bucket, url).Some?
  {
    if Match(bucket, url).Some? {
      var u := url.value;
      assert u[..|Prefix(bucket)|] == Prefix(bucket);
      assert u[0] == Prefix(bucket)[0] == 'h';
    }
  }

  /** Where Paperclip expects the original: `documents/uploads/<id>/original/<filename>`. */
  function CanonicalKey(id: nat, filename: string): string {
    "documents/uploads/" + NatToString(id) + "/original/" + filename
  }

  /** The index of the first slash in `s`, or `|s|` when there is none. */
  function FirstSlash(s: string): (n: nat)
    ensures n <= |s|
    decreases |s|
  {
    if s == [] || s[0] == '/' then 0 else 1 + FirstSlash(s[1..])
  }

  lemma {:induction false} FirstSlashAfterDigits(x: string, rest: string)
    requires forall i :: 0 <= i < |x| ==> IsDigit(x[i])
    ensures FirstSlash(x + "/" + rest) == |x|
    decreases |x|
  {
    if x != [] {
      assert (x + "/" + rest)[1..] == x[1..] + "/" + rest;
      FirstSlashAfterDigits(x[1..], rest);
    }
  }

  lemma DigitsBeforeSlash(a: string, f: string, b: string, g: string)
    requires forall i :: 0 <= i < |a| ==> IsDigit(a[i])
    requires forall i :: 0 <= i < |b| ==> IsDigit(b[i])
    requires a + "/original/" + f == b + "/original/" + g
    ensures a == b && f == g
  {
    var l, r := a + "/original/" + f, b + "/original/" + g;
    assert l == a + "/" + ("original/" + f) && r == b + "/" + ("original/" + g);
    FirstSlashAfterDigits(a, "original/" + f);
    FirstSlashAfterDigits(b, "original/" + g);
    assert a == l[..|a|] && b == r[..|b|];
    assert f == l[|a| + 10..] && g == r[|b| + 10..];
  }

  /** Two records, or two filenames, never share a canonical key. */
  lemma CanonicalKeyInjective(a: nat, f: string, b: nat, g: string)
    requires CanonicalKey(a, f) == CanonicalKey(b, g)
    ensures a == b && f == g
  {
    var p := "documents/uploads/";
    var l, r := NatToString(a) + "/original/" + f, NatToString(b) + "/original/" + g;
    assert CanonicalKey(a, f) == p + l && CanonicalKey(b, g) == p + r;
    assert l == (p + l)[|p|..] && r == (p + r)[|p|..];
    DigitsBeforeSlash(NatToString(a), f, NatToString(b), g);
    NatToStringInjective(a, b);
  }

  /** A canonical key is never a direct-upload path, so the copy cannot overwrite a temporary object. */
  lemma CanonicalKeyIsNotUpload(id: nat, filename: string, path: string)
    requires UploadsDir <= path
    ensures CanonicalKey(id, filename) != path
  {
    assert CanonicalKey(id, filename)[0] == 'd';
    assert path[0] == 'u';
  }

  /**
   * `set_upload_attributes`: match the stored URL (a failed match is
   * dereferenced, raising before any store call), fetch the temporary
   * object's metadata with retries, then set the four attributes.
   */
  function UploadAttributes(bucket: string, d: Record, s: Store, heads: seq<HeadResult>): Step
    requires |heads| >= MaxTries
  {
    match Match(bucket, d.directUploadUrl)
    case None => Step(d, s, Some(UrlNotMatched))
    case Some(loc) =>
      var fetch := FetchMetadata(heads);
      var store := Store(s.objects, s.trace + FetchTrace(loc.path, fetch.calls));
      match fetch
      case Fetched(m, _) =>
        Step(d.(uploadFileName := Some(loc.filename),
                uploadFileSize := Some(m.contentLength),
                uploadContentType := m.contentType,
                uploadUpdatedAt := Some(m.lastModified)), store, None)
      case FetchFailed(e, _) => Step(d, store, Some(e))
  }

  /**
   * If `head` first succeeds on attempt `k`, there are exactly `k` head calls
   * on the captured path with `k - 1` sleeps between them, nothing else is
   * called, and the four attributes come from the filename capture and that
   * answer; nothing else of the record changes.
   */
  lemma UploadAttributesOnAttempt(bucket: string, d: Record, s: Store, heads: seq<HeadResult>, k: nat, m: Metadata)
    requires |heads| >= MaxTries && 1 <= k <= MaxTries
    requires Match(bucket, d.directUploadUrl).Some?
    requires forall j :: 0 <= j < k - 1 ==> heads[j] == NoSuchKey
    requires heads[k - 1] == Found(m)
    ensures var r := UploadAttributes(bucket, d, s, heads);
      var path := Match(bucket, d.directUploadUrl).value.path;
      var added := r.store.trace[|s.trace|..];
      r.error == None
      && r.doc == d.(uploadFileName := Some(Match(bucket, d.directUploadUrl).value.filename),
                     uploadFileSize := Some(m.contentLength),
                     uploadContentType := m.contentType,
                     uploadUpdatedAt := Some(m.lastModified))
      && r.store.objects == s.objects
      && s.trace <= r.store.trace
      && multiset(added)[Head(path)] == k
      && multiset(added)[Sleep(RetryDelaySeconds)] == k - 1
      && (forall e :: e in added ==> e == Head(path) || e == Sleep(RetryDelaySeconds))
  {
    SucceedsOnAttempt(heads, k, m);
    var path := Match(bucket, d.directUploadUrl).value.path;
    FetchTraceCounts(path, k);
    var t := s.trace + FetchTrace(path, k);
    assert t[|s.trace|..] == FetchTrace(path, k);
  }

  /**
   * A failed fetch changes no attribute; `NoSuchKey` is raised only after
   * five calls, any other error at the call that received it.
   */
  lemma UploadAttributesFailure(bucket: string, d: Record, s: Store, heads: seq<HeadResult>)
    requires |heads| >= MaxTries
    requires UploadAttributes(bucket, d, s, heads).error.Some?
    ensures var r := UploadAttributes(bucket, d, s, heads);
      r.doc == d && r.store.objects == s.objects && s.trace <= r.store.trace
      && (r.error == Some(UrlNotMatched) <==> Match(bucket, d.directUploadUrl).None?)
      && (r.error == Some(UrlNotMatched) ==> r.store == s)
      && (r.error == Some(KeyMissing) ==>
            multiset(r.store.trace[|s.trace|..])[Head(Match(bucket, d.directUploadUrl).value.path)] == MaxTries)
  {
    var r := UploadAttributes(bucket, d, s, heads);
    FetchExplained(heads);
    match Match(bucket, d.directUploadUrl)
    case None =>
    case Some(loc) =>
      var calls := FetchMetadata(heads).calls;
      FetchTraceCounts(loc.path, calls);
      assert (s.trace + FetchTrace(loc.path, calls))[|s.trace|..] == FetchTrace(loc.path, calls);
  }

  /**
   * Setting the upload attributes keeps the id, the persisted and processed
   * flags and the URL, leaves the bucket alone and only appends heads and
   * sleeps to the trace, so it queues nothing; it succeeds only on a matching URL.
   */
  lemma UploadAttributesFrame(bucket: string, d: Record, s: Store, heads: seq<HeadResult>)
    requires |heads| >= MaxTries
    ensures var r := UploadAttributes(bucket, d, s, heads);
      r.doc.id == d.id && r.doc.persisted == d.persisted && r.doc.processed == d.processed
      && r.doc.directUploadUrl == d.directUploadUrl
      && r.store.objects == s.objects && s.trace <= r.store.trace
      && (forall e :: e in r.store.trace[|s.trace|..] ==> e.Head? || e.Sleep?)
      && Enqueued(r.store.trace) == Enqueued(s.trace)
      && (r.error.None? ==> Match(bucket, d.directUploadUrl).Some?)
  {
    match Match(bucket, d.directUploadUrl)
    case None =>
    case Some(loc) => FetchTraceFrame(s.trace, loc.path, FetchMetadata(heads).calls);
  }

  /** Appending a fetch's calls to a trace only adds heads and sleeps. */
  lemma FetchTraceFrame(t: seq<Event>, path: string, calls: nat)
    requires calls >= 1
    ensures t <= t + FetchTrace(path, calls)
    ensures forall e :: e in (t + FetchTrace(path, calls))[|t|..] ==> e.Head? || e.Sleep?
    ensures Enqueued(t + FetchTrace(path, calls)) == Enqueued(t)
  {
    FetchTraceOnlyWaits(t, path, calls);
    FetchTraceQueuesNothing(t, path, calls);
  }

  lemma FetchTraceOnlyWaits(t: seq<Event>, path: string, calls: nat)
    requires calls >= 1
    ensures forall e :: e in (t + FetchTrace(path, calls))[|t|..] ==> e.Head? || e.Sleep?
  {
    var f := FetchTrace(path, calls);
    FetchTraceCounts(path, calls);
    assert (t + f)[|t|..] == f;
  }

  lemma FetchTraceQueuesNothing(t: seq<Event>, path: string, calls: nat)
    requires calls >= 1
    ensures Enqueued(t + FetchTrace(path, calls)) == Enqueued(t)
  {
    FetchTraceCounts(path, calls);
    EnqueuedAppend(t, FetchTrace(path, calls));
  }

  /**
   * `Document.create`: validate; if valid, run the `before_create` callback
   * (`set_upload_attributes`), insert the row with its new id, then run
   * the `after_create` callback (`queue_finalize_and_cleanup`).
   */
  function Create(bucket: string, d: Record, s: Store, heads: seq<HeadResult>, newId: nat): Step
    requires |heads| >= MaxTries
    requires !d.persisted
  {
    if !IsValid(bucket, d.directUploadUrl) then Step(d, s, Some(RecordInvalid))
    else
      var a := UploadAttributes(bucket, d, s, heads);
      if a.error.Some? then a
      else Step(a.doc.(id := newId, persisted := true),
                Store(a.store.objects, a.store.trace + [Insert(newId), Enqueue(newId)]), None)
  }

  /** An invalid URL is rejected before any call into the store, and nothing is created. */
  lemma CreateRejectsInvalid(bucket: string, d: Record, s: Store, heads: seq<HeadResult>, newId: nat)
    requires |heads| >= MaxTries && !d.persisted
    requires Match(bucket, d.directUploadUrl).None?
    ensures Create(bucket, d, s, heads, newId) == Step(d, s, Some(RecordInvalid))
  {
    ValidIffMatches(bucket, d.directUploadUrl);
  }

  /**
   * A create succeeds only with a matching URL, inserts the record and
   * queues exactly one finalize, for the new id; a failed create queues none
   * and leaves the record unsaved.
   */
  lemma CreateQueuesOneFinalize(bucket: string, d: Record, s: Store, heads: seq<HeadResult>, newId: nat)
    requires |heads| >= MaxTries
    requires !d.persisted
    ensures var r := Create(bucket, d, s, heads, newId);
      (r.error.None? ==> Match(bucket, r.doc.directUploadUrl).Some? && r.doc.persisted && r.doc.id == newId
                         && Enqueued(r.store.trace) == Enqueued(s.trace) + [newId])
      && (r.error.Some? ==> !r.doc.persisted && Enqueued(r.store.trace) == Enqueued(s.trace))
  {
    ValidIffMatches(bucket, d.directUploadUrl);
    UploadAttributesFrame(bucket, d, s, heads);
    var a := UploadAttributes(bucket, d, s, heads);
    EnqueuedAfter(a.store.trace, Insert(newId), newId);
  }

  /**
   * `self.attributes = params`: a URL among the params goes through
   * `direct_upload_url=`, a `processed` among them is assigned as given.
   */
  function ApplyParams(d: Record, p: Params): Record {
    var d1 := match p.url
      case KeepUrl => d
      case AssignUrl(e) => d.(directUploadUrl := StoredUrl(e));
    match p.processed
    case None => d1
    case Some(b) => d1.(processed := b)
  }

  /**
   * `save!` and then `Document.delay.finalize_and_cleanup(id)`. A saved
   * record's row is updated. A record never saved is created instead, which
   * runs `set_upload_attributes` again (answered by `createHeads`), inserts
   * it with `newId` and queues the `after_create` finalize first.
   */
  function SaveAndRequeue(bucket: string, d: Record, s: Store, createHeads: seq<HeadResult>, newId: nat): Step
    requires |createHeads| >= MaxTries
  {
    if d.persisted then Step(d, Store(s.objects, s.trace + [Save(d.id), Enqueue(d.id)]), None)
    else
      var c := Create(bucket, d, s, createHeads, newId);
      if c.error.Some? then c
      else Step(c.doc, Store(c.store.objects, c.store.trace + [Enqueue(c.doc.id)]), None)
  }

  /** `update_file(params)`: reset `processed`, assign the params, re-derive the upload attributes, save and queue. */
  function UpdateFile(bucket: string, d: Record, s: Store, p: Params, heads: seq<HeadResult>,
                      createHeads: seq<HeadResult>, newId: nat): Step
    requires |heads| >= MaxTries && |createHeads| >= MaxTries
  {
    var a := UploadAttributes(bucket, ApplyParams(d.(processed := false), p), s, heads);
    if a.error.Some? then a else SaveAndRequeue(bucket, a.doc, a.store, createHeads, newId)
  }

  /** Saving a saved record updates its row and queues exactly one finalize of its id, after the save. */
  lemma SaveAndRequeueUpdates(bucket: string, d: Record, s: Store, createHeads: seq<HeadResult>, newId: nat)
    requires |createHeads| >= MaxTries
    requires d.persisted
    ensures var r := SaveAndRequeue(bucket, d, s, createHeads, newId);
      r.error.None? && r.doc == d && r.store.objects == s.objects
      && Enqueued(r.store.trace) == Enqueued(s.trace) + [d.id]
      && r.store.trace == s.trace + [Save(d.id), Enqueue(d.id)]
  {
    EnqueuedAfter(s.trace, Save(d.id), d.id);
  }

  /**
   * Saving a valid record never saved creates it: when that returns, it is
   * stored under the new id with its URL and flags kept, and two finalize
   * jobs for it were queued, the `after_create` one and then `update_file`'s.
   */
  lemma SaveAndRequeueCreates(bucket: string, d: Record, s: Store, createHeads: seq<HeadResult>, newId: nat)
    requires |createHeads| >= MaxTries
    requires !d.persisted
    requires SaveAndRequeue(bucket, d, s, createHeads, newId).error.None?
    ensures var r := SaveAndRequeue(bucket, d, s, createHeads, newId);
      r.doc.persisted && r.doc.id == newId
      && r.doc.directUploadUrl == d.directUploadUrl && r.doc.processed == d.processed
      && Enqueued(r.store.trace) == Enqueued(s.trace) + [newId, newId]
      && r.store.trace[|r.store.trace| - 3..] == [Insert(newId), Enqueue(newId), Enqueue(newId)]
  {
    var a := UploadAttributes(bucket, d, s, createHeads);
    CreateUnfolds(bucket, d, s, createHeads, newId);
    UploadAttributesFrame(bucket, d, s, createHeads);
    InsertThenTwoFinalizes(a.store.trace, newId);
  }

  /** An insert followed by two enqueues of the same id queues that id twice. */
  lemma InsertThenTwoFinalizes(t: seq<Event>, id: nat)
    ensures var u := t + [Insert(id), Enqueue(id)] + [Enqueue(id)];
      Enqueued(u) == Enqueued(t) + [id, id] && u[|u| - 3..] == [Insert(id), Enqueue(id), Enqueue(id)]
  {
    var v := t + [Insert(id), Enqueue(id)];
    EnqueuedAfter(t, Insert(id), id);
    var u := v + [Enqueue(id)];
    assert u[..|u| - 1] == v;
  }

  /**
   * A valid create whose `head` first succeeds on attempt `k`: the record is
   * inserted under the new id with the four attributes taken from the
   * filename capture and that answer, the bucket is untouched, and the calls
   * are the `k` heads with their sleeps, the insert and the finalize job.
   */
  lemma CreateSucceeds(bucket: string, d: Record, s: Store, heads: seq<HeadResult>, newId: nat,
                       loc: Location, k: nat, m: Metadata)
    requires |heads| >= MaxTries && !d.persisted
    requires Match(bucket, d.directUploadUrl) == Some(loc)
    requires 1 <= k <= MaxTries
    requires forall j :: 0 <= j < k - 1 ==> heads[j] == NoSuchKey
    requires heads[k - 1] == Found(m)
    ensures var r := Create(bucket, d, s, heads, newId);
      r.error.None?
      && r.doc == d.(id := newId, persisted := true,
                     uploadFileName := Some(loc.filename),
                     uploadFileSize := Some(m.contentLength),
                     uploadContentType := m.contentType,
                     uploadUpdatedAt := Some(m.lastModified))
      && r.store.objects == s.objects
      && r.store.trace == s.trace + FetchTrace(loc.path, k) + [Insert(newId), Enqueue(newId)]
  {
    ValidIffMatches(bucket, d.directUploadUrl);
    SucceedsOnAttempt(heads, k, m);
  }

  /** A create that returns is the attribute step followed by the insert and the finalize job. */
  lemma CreateUnfolds(bucket: string, d: Record, s: Store, heads: seq<HeadResult>, newId: nat)
    requires |heads| >= MaxTries && !d.persisted
    requires Create(bucket, d, s, heads, newId).error.None?
    ensures var a := UploadAttributes(bucket, d, s, heads);
      a.error.None?
      && Create(bucket, d, s, heads, newId)
         == Step(a.doc.(id := newId, persisted := true),
                 Store(a.store.objects, a.store.trace + [Insert(newId), Enqueue(newId)]), None)
  {
  }

  /** A save that raises is a create whose re-derivation failed: it adds only heads and sleeps. */
  lemma SaveAndRequeueFails(bucket: string, d: Record, s: Store, createHeads: seq<HeadResult>, newId: nat)
    requires |createHeads| >= MaxTries
    requires IsValid(bucket, d.directUploadUrl)
    requires SaveAndRequeue(bucket, d, s, createHeads, newId).error.Some?
    ensures var r := SaveAndRequeue(bucket, d, s, createHeads, newId);
      !d.persisted && r.doc.id == d.id && !r.doc.persisted
      && s.trace <= r.store.trace && (forall e :: e in r.store.trace[|s.trace|..] ==> e.Head? || e.Sleep?)
      && Enqueued(r.store.trace) == Enqueued(s.trace)
  {
    UploadAttributesFrame(bucket, d, s, createHeads);
  }

  /**
   * After `update_file` the record is processed only if the params say so;
   * when it returns normally the record is valid (so `save!` passes) and
   * stored, and one finalize of its id was queued, or two for a record that
   * was never saved, whose `save!` queued one as a create; when it raises,
   * no save, insert or finalize happened.
   */
  lemma UpdateFileRequeues(bucket: string, d: Record, s: Store, p: Params, heads: seq<HeadResult>,
                           createHeads: seq<HeadResult>, newId: nat)
    requires |heads| >= MaxTries && |createHeads| >= MaxTries
    ensures var r := UpdateFile(bucket, d, s, p, heads, createHeads, newId);
      r.doc.processed == (p.processed == Some(true))
      && (r.error.None? ==>
            IsValid(bucket, r.doc.directUploadUrl) && r.doc.persisted
            && Enqueued(r.store.trace) == Enqueued(s.trace) + (if d.persisted then [d.id] else [newId, newId]))
      && (r.error.Some? ==> r.doc.persisted == d.persisted && Enqueued(r.store.trace) == Enqueued(s.trace))
  {
    var withParams := ApplyParams(d.(processed := false), p);
    UploadAttributesFrame(bucket, withParams, s, heads);
    var a := UploadAttributes(bucket, withParams, s, heads);
    if a.error.None? {
      ValidIffMatches(bucket, a.doc.directUploadUrl);
      if d.persisted {
        SaveAndRequeueUpdates(bucket, a.doc, a.store, createHeads, newId);
      } else if SaveAndRequeue(bucket, a.doc, a.store, createHeads, newId).error.None? {
        SaveAndRequeueCreates(bucket, a.doc, a.store, createHeads, newId);
      } else {
        SaveAndRequeueFails(bucket, a.doc, a.store, createHeads, newId);
      }
    }
  }

  /** An `update_file` that raises adds only heads and sleeps: it neither saves, inserts nor queues. */
  lemma UpdateFileFails(bucket: string, d: Record, s: Store, p: Params, heads: seq<HeadResult>,
                        createHeads: seq<HeadResult>, newId: nat)
    requires |heads| >= MaxTries && |createHeads| >= MaxTries
    requires UpdateFile(bucket, d, s, p, heads, createHeads, newId).error.Some?
    ensures var r := UpdateFile(bucket, d, s, p, heads, createHeads, newId);
      r.doc.id == d.id && r.doc.persisted == d.persisted
      && s.trace <= r.store.trace && (forall e :: e in r.store.trace[|s.trace|..] ==> e.Head? || e.Sleep?)
      && Enqueued(r.store.trace) == Enqueued(s.trace)
  {
    var withParams := ApplyParams(d.(processed := false), p);
    UploadAttributesFrame(bucket, withParams, s, heads);
    var a := UploadAttributes(bucket, withParams, s, heads);
    if a.error.None? {
      ValidIffMatches(bucket, a.doc.directUploadUrl);
      SaveAndRequeueFails(bucket, a.doc, a.store, createHeads, newId);
      var r := SaveAndRequeue(bucket, a.doc, a.store, createHeads, newId);
      OnlyWaitsCompose(s.trace, a.store.trace, r.store.trace);
    }
  }

  /** Heads and sleeps appended twice are heads and sleeps appended once. */
  lemma OnlyWaitsCompose(t0: seq<Event>, t1: seq<Event>, t2: seq<Event>)
    requires t0 <= t1 <= t2
    requires forall e :: e in t1[|t0|..] ==> e.Head? || e.Sleep?
    requires forall e :: e in t2[|t1|..] ==> e.Head? || e.Sleep?
    ensures forall e :: e in t2[|t0|..] ==> e.Head? || e.Sleep?
  {
    assert t2[|t0|..] == t1[|t0|..] + t2[|t1|..];
  }

  /** On a saved record a returning `update_file` saves it and then queues exactly one finalize of its id. */
  lemma UpdateFileSucceeds(bucket: string, d: Record, s: Store, p: Params, heads: seq<HeadResult>,
                           createHeads: seq<HeadResult>, newId: nat)
    requires |heads| >= MaxTries && |createHeads| >= MaxTries
    requires d.persisted
    requires UpdateFile(bucket, d, s, p, heads, createHeads, newId).error.None?
    ensures var r := UpdateFile(bucket, d, s, p, heads, createHeads, newId);
      IsValid(bucket, r.doc.directUploadUrl) && r.doc.persisted && r.doc.id == d.id
      && Enqueued(r.store.trace) == Enqueued(s.trace) + [d.id]
      && r.store.trace[|r.store.trace| - 2..] == [Save(d.id), Enqueue(d.id)]
  {
    var withParams := ApplyParams(d.(processed := false), p);
    UploadAttributesFrame(bucket, withParams, s, heads);
    var a := UploadAttributes(bucket, withParams, s, heads);
    ValidIffMatches(bucket, withParams.directUploadUrl);
    SaveAndRequeueUpdates(bucket, a.doc, a.store, createHeads, newId);
  }

  /**
   * On a record never saved, a returning `update_file` inserts it with the
   * new id and queues two finalize jobs for it: the `after_create` one and
   * its own.
   */
  lemma UpdateFileCreates(bucket: string, d: Record, s: Store, p: Params, heads: seq<HeadResult>,
                          createHeads: seq<HeadResult>, newId: nat)
    requires |heads| >= MaxTries && |createHeads| >= MaxTries
    requires !d.persisted
    requires UpdateFile(bucket, d, s, p, heads, createHeads, newId).error.None?
    ensures var r := UpdateFile(bucket, d, s, p, heads, createHeads, newId);
      IsValid(bucket, r.doc.directUploadUrl) && r.doc.persisted && r.doc.id == newId
      && Enqueued(r.store.trace) == Enqueued(s.trace) + [newId, newId]
      && r.store.trace[|r.store.trace| - 3..] == [Insert(newId), Enqueue(newId), Enqueue(newId)]
  {
    var withParams := ApplyParams(d.(processed := false), p);
    UploadAttributesFrame(bucket, withParams, s, heads);
    var a := UploadAttributes(bucket, withParams, s, heads);
    ValidIffMatches(bucket, withParams.directUploadUrl);
    SaveAndRequeueCreates(bucket, a.doc, a.store, createHeads, newId);
  }

  /** What reading a missing temporary object raises: an HTTP error for the download, `NoSuchKey` for the copy. */
  function MissingSource(d: Record): Error {
    if PostProcessRequired(d.uploadContentType) then DownloadFailed else KeyMissing
  }

  /** The first effect of a finalize: hand the URL to Paperclip, or copy to the canonical key. */
  function FirstEffect(bucket: string, d: Record): Event
    requires Match(bucket, d.directUploadUrl).Some?
  {
    var loc := Match(bucket, d.directUploadUrl).value;
    if PostProcessRequired(d.uploadContentType) then AssignRemoteSource(d.directUploadUrl.value)
    else Copy(loc.path, CanonicalKey(d.id, loc.filename))
  }

  /**
   * The first half of `finalize_and_cleanup(id)`: either set the
   * attachment's remote source to the stored URL (Paperclip downloads the
   * temporary object) or copy the temporary object to the canonical key.
   */
  function ApplyEffect(bucket: string, d: Record, s: Store, effect: Outcome): Step
    requires Match(bucket, d.directUploadUrl).Some?
  {
    var loc := Match(bucket, d.directUploadUrl).value;
    var t1 := s.trace + [FirstEffect(bucket, d)];
    match SourceError(s.objects, loc.path, effect, MissingSource(d))
    case Some(e) => Step(d, Store(s.objects, t1), Some(e))
    case None =>
      if PostProcessRequired(d.uploadContentType) then
        Step(d.(uploadSource := Some(d.directUploadUrl.value)), Store(s.objects, t1), None)
      else
        Step(d, Store(s.objects[CanonicalKey(d.id, loc.filename) := s.objects[loc.path]], t1), None)
  }

  /**
   * `finalize_and_cleanup(id)`: the copy or transform, then `processed =
   * true` and save, then delete the temporary object. Whatever raises ends
   * the run there.
   */
  function Finalize(bucket: string, d: Record, s: Store, effect: Outcome, deletion: Outcome): Step
    requires Match(bucket, d.directUploadUrl).Some?
  {
    var path := Match(bucket, d.directUploadUrl).value.path;
    var a := ApplyEffect(bucket, d, s, effect);
    if a.error.Some? then a
    else
      var d1 := a.doc.(processed := true);
      var t2 := a.store.trace + [Save(d.id), Delete(path)];
      match OutcomeError(deletion)
      case None => Step(d1, Store(a.store.objects - {path}, t2), None)
      case Some(e) => Step(d1, Store(a.store.objects, t2), Some(e))
  }

  /** After a successful copy or transform, the rest of the finalize: mark processed, save, delete. */
  lemma FinalizeAfterEffect(bucket: string, d: Record, s: Store, effect: Outcome, deletion: Outcome)
    requires Match(bucket, d.directUploadUrl).Some?
    requires ApplyEffect(bucket, d, s, effect).error.None?
    ensures var a := ApplyEffect(bucket, d, s, effect);
      var path := Match(bucket, d.directUploadUrl).value.path;
      var err := OutcomeError(deletion);
      Finalize(bucket, d, s, effect, deletion)
        == Step(a.doc.(processed := true),
                Store(if err.None? then a.store.objects - {path} else a.store.objects,
                      a.store.trace + [Save(d.id), Delete(path)]),
                err)
  {
  }

  /**
   * Exactly one branch runs. With post-processing required, the attachment
   * source becomes the stored URL and no copy is made; otherwise the
   * temporary object is copied to the canonical key and the attachment
   * source is not touched. A successful run then marks the record
   * processed, saves it and deletes the temporary object, in that order.
   */
  lemma FinalizeBranches(bucket: string, d: Record, s: Store, effect: Outcome, deletion: Outcome)
    requires Match(bucket, d.directUploadUrl).Some?
    requires Finalize(bucket, d, s, effect, deletion).error.None?
    ensures var r := Finalize(bucket, d, s, effect, deletion);
      var loc := Match(bucket, d.directUploadUrl).value;
      var target := CanonicalKey(d.id, loc.filename);
      r.doc.processed && loc.path !in r.store.objects
      && (PostProcessRequired(d.uploadContentType) ==>
            r.doc == d.(uploadSource := Some(d.directUploadUrl.value), processed := true)
            && r.store.trace == s.trace + [AssignRemoteSource(d.directUploadUrl.value), Save(d.id), Delete(loc.path)]
            && r.store.objects == s.objects - {loc.path})
      && (!PostProcessRequired(d.uploadContentType) ==>
            r.doc == d.(processed := true)
            && r.store.trace == s.trace + [Copy(loc.path, target), Save(d.id), Delete(loc.path)]
            && target in r.store.objects && r.store.objects[target] == s.objects[loc.path]
            && r.store.objects.Keys == s.objects.Keys - {loc.path} + {target}
            && r.store.objects == s.objects[target := s.objects[loc.path]] - {loc.path})
  {
    if PostProcessRequired(d.uploadContentType) {
      FinalizeTransformBranch(bucket, d, s, effect, deletion);
    } else {
      FinalizeCopyBranch(bucket, d, s, effect, deletion);
    }
  }

  lemma FinalizeTransformBranch(bucket: string, d: Record, s: Store, effect: Outcome, deletion: Outcome)
    requires Match(bucket, d.directUploadUrl).Some?
    requires Finalize(bucket, d, s, effect, deletion).error.None?
    requires PostProcessRequired(d.uploadContentType)
    ensures var r := Finalize(bucket, d, s, effect, deletion);
      var path := Match(bucket, d.directUploadUrl).value.path;
      r.doc == d.(uploadSource := Some(d.directUploadUrl.value), processed := true)
      && r.store.trace == s.trace + [AssignRemoteSource(d.directUploadUrl.value), Save(d.id), Delete(path)]
      && r.store.objects == s.objects - {path}
  {
  }

  lemma FinalizeCopyBranch(bucket: string, d: Record, s: Store, effect: Outcome, deletion: Outcome)
    requires Match(bucket, d.directUploadUrl).Some?
    requires Finalize(bucket, d, s, effect, deletion).error.None?
    requires !PostProcessRequired(d.uploadContentType)
    ensures var r := Finalize(bucket, d, s, effect, deletion);
      var loc := Match(bucket, d.directUploadUrl).value;
      var target := CanonicalKey(d.id, loc.filename);
      r.doc == d.(processed := true)
      && r.store.trace == s.trace + [Copy(loc.path, target), Save(d.id), Delete(loc.path)]
      && target in r.store.objects && r.store.objects[target] == s.objects[loc.path]
      && r.store.objects.Keys == s.objects.Keys - {loc.path} + {target}
      && r.store.objects == s.objects[target := s.objects[loc.path]] - {loc.path}
  {
    var loc := Match(bucket, d.directUploadUrl).value;
    var target := CanonicalKey(d.id, loc.filename);
    CanonicalKeyIsNotUpload(d.id, loc.filename, loc.path);
    assert loc.path in s.objects;
    CopyThenDelete(s.objects, loc.path, target);
  }

  /** Copying `source` to another key and then deleting `source` moves the bytes. */
  lemma CopyThenDelete(o: map<string, Bytes>, source: string, target: string)
    requires source in o && source != target
    ensures var o' := o[target := o[source]] - {source};
      target in o' && o'[target] == o[source] && o'.Keys == o.Keys - {source} + {target}
  {
  }

  /**
   * If the copy or the transform raises, the run stops there: the record,
   * `processed` included, and the bucket are unchanged and nothing is deleted.
   */
  lemma FinalizeEffectFails(bucket: string, d: Record, s: Store, effect: Outcome, deletion: Outcome)
    requires Match(bucket, d.directUploadUrl).Some?
    requires SourceError(s.objects, Match(bucket, d.directUploadUrl).value.path, effect, MissingSource(d)).Some?
    ensures var r := Finalize(bucket, d, s, effect, deletion);
      r.error.Some? && r.doc == d && r.store.objects == s.objects
      && r.store.trace == s.trace + [FirstEffect(bucket, d)]
      && (forall e :: e in r.store.trace[|s.trace|..] ==> !e.Delete? && !e.Save?)
  {
    var r := Finalize(bucket, d, s, effect, deletion);
    assert r.store.trace[|s.trace|..] == [FirstEffect(bucket, d)];
  }

  /**
   * A delete that raises after the save leaves the record processed and the
   * temporary object in place: a tolerated leak, not an undone finalize.
   */
  lemma FinalizeDeleteFails(bucket: string, d: Record, s: Store, effect: Outcome, reason: string)
    requires Match(bucket, d.directUploadUrl).Some?
    requires SourceError(s.objects, Match(bucket, d.directUploadUrl).value.path, effect, MissingSource(d)).None?
    ensures var r := Finalize(bucket, d, s, effect, Raises(reason));
      r.error == Some(ServiceError(reason)) && r.doc.processed
      && Match(bucket, d.directUploadUrl).value.path in r.store.objects
  {
    var loc := Match(bucket, d.directUploadUrl).value;
    ParseSound(bucket, d.directUploadUrl.value);
    CanonicalKeyIsNotUpload(d.id, loc.filename, loc.path);
  }

  /**
   * Running finalize again after a successful run changes neither the record
   * nor the bucket: the temporary object is gone, so the copy raises
   * `NoSuchKey`, or the download an HTTP error, before anything else happens.
   */
  lemma FinalizeIdempotent(bucket: string, d: Record, s: Store, effect: Outcome, deletion: Outcome,
                           effect2: Outcome, deletion2: Outcome)
    requires Match(bucket, d.directUploadUrl).Some?
    requires Finalize(bucket, d, s, effect, deletion).error.None?
    ensures var r1 := Finalize(bucket, d, s, effect, deletion);
      Match(bucket, r1.doc.directUploadUrl).Some?
      && var r2 := Finalize(bucket, r1.doc, r1.store, effect2, deletion2);
      r2.doc == r1.doc && r2.store.objects == r1.store.objects
      && r2.error == Some(if PostProcessRequired(d.uploadContentType) then DownloadFailed else KeyMissing)
  {
    FinalizeBranches(bucket, d, s, effect, deletion);
  }

  /**
   * A run that failed at the copy or the transform can be repeated: the
   * repeat reaches the same record and bucket as a first run would have.
   */
  lemma FinalizeRetryConverges(bucket: string, d: Record, s: Store, effect: Outcome, deletion: Outcome,
                               effect2: Outcome, deletion2: Outcome)
    requires Match(bucket, d.directUploadUrl).Some?
    requires SourceError(s.objects, Match(bucket, d.directUploadUrl).value.path, effect, MissingSource(d)).Some?
    ensures var r1 := Finalize(bucket, d, s, effect, deletion);
      var r2 := Finalize(bucket, r1.doc, r1.store, effect2, deletion2);
      var first := Finalize(bucket, d, s, effect2, deletion2);
      r2.doc == first.doc && r2.store.objects == first.store.objects && r2.error == first.error
  {
    FinalizeEffectFails(bucket, d, s, effect, deletion);
  }

  /**
   * A run whose delete raised can be repeated too: the temporary object is
   * still there, so a rerun whose copy or transform succeeds ends in the
   * same record, bucket and error as a first run with the same outcomes.
   */
  lemma FinalizeRetryAfterDeleteFails(bucket: string, d: Record, s: Store, effect: Outcome, reason: string,
                                      deletion2: Outcome)
    requires Match(bucket, d.directUploadUrl).Some?
    requires SourceError(s.objects, Match(bucket, d.directUploadUrl).value.path, effect, MissingSource(d)).None?
    ensures var r1 := Finalize(bucket, d, s, effect, Raises(reason));
      var r2 := Finalize(bucket, r1.doc, r1.store, Succeeds, deletion2);
      var first := Finalize(bucket, d, s, Succeeds, deletion2);
      r2.doc == first.doc && r2.store.objects == first.store.objects && r2.error == first.error
  {
    var loc := Match(bucket, d.directUploadUrl).value;
    var target := CanonicalKey(d.id, loc.filename);
    CanonicalKeyIsNotUpload(d.id, loc.filename, loc.path);
    var r1 := Finalize(bucket, d, s, effect, Raises(reason));
    FinalizeAfterEffect(bucket, d, s, effect, Raises(reason));
    assert Match(bucket, r1.doc.directUploadUrl) == Some(loc);
    FinalizeAfterEffect(bucket, r1.doc, r1.store, Succeeds, deletion2);
    FinalizeAfterEffect(bucket, d, s, Succeeds, deletion2);
    if !PostProcessRequired(d.uploadContentType) {
      CopyAgain(s.objects, loc.path, target);
    }
  }

  /** Copying `source` to `target` a second time changes nothing. */
  lemma CopyAgain(o: map<string, Bytes>, source: string, target: string)
    requires source in o && source != target
    ensures var o' := o[target := o[source]];
      o'[target := o'[source]] == o'
  {
  }
}
