/**
 * The `Document` record and its operations, run in place: each method
 * changes the record's fields and calls into the world in the source's
 * order, and is proved to agree with the corresponding step of
 * DocumentLifecycle.
 */
module Documents {
  import opened Wrappers
  import opened Escaping
  import opened UploadUrl
  import opened ContentType
  import opened Effects
  import opened MetadataRetry
  import opened DocumentLifecycle

  class Document {
    var id: nat
    var persisted: bool
    var directUploadUrl: Option<string>
    var uploadFileName: Option<string>
    var uploadContentType: Option<string>
    var uploadFileSize: Option<nat>
    var uploadUpdatedAt: Option<int>
    var processed: bool
    var uploadSource: Option<string>

    /** The record's current columns as a value. */
    function Snapshot(): Record
      reads this
    {
      Record(id, persisted, directUploadUrl, uploadFileName, uploadContentType,
             uploadFileSize, uploadUpdatedAt, processed, uploadSource)
    }

    /** `Document.new`. */
    constructor ()
      ensures Snapshot() == NewRecord
    {
      id, persisted := 0, false;
      directUploadUrl, uploadFileName, uploadContentType := None, None, None;
      uploadFileSize, uploadUpdatedAt := None, None;
      processed, uploadSource := false, None;
    }

    /** `direct_upload_url=(escaped_url)`: store the un-escaped URL, or `nil` when un-escaping raises. */
    method SetDirectUploadUrl(escaped: Option<string>)
      modifies this
      ensures Snapshot() == old(Snapshot()).(directUploadUrl := StoredUrl(escaped))
    {
      match escaped
      case None => directUploadUrl := None;
      case Some(s) => directUploadUrl := Some(Unescape(s));
    }

    /**
     * `set_upload_attributes`: the `head` call on the temporary object is
     * retried on `NoSuchKey` while tries remain, sleeping between calls;
     * `heads` are the store's answers to successive calls.
     */
    method SetUploadAttributes(world: World, heads: seq<HeadResult>) returns (err: Option<Error>)
      requires |heads| >= MaxTries
      modifies this, world
      ensures Step(Snapshot(), world.State(), err)
           == UploadAttributes(world.bucket, old(Snapshot()), old(world.State()), heads)
      ensures id == old(id)
    {
      var data := Match(world.bucket, directUploadUrl);
      if data.None? {
        return Some(UrlNotMatched);
      }
      var loc := data.value;
      var tries := MaxTries;
      var calls := 0;
      while true
        invariant 1 <= tries && calls + tries == MaxTries
        invariant FetchFrom(heads, calls, tries) == FetchMetadata(heads)
        invariant world.State() == Store(old(world.objects), old(world.trace) + Retries(loc.path, calls))
        invariant Snapshot() == old(Snapshot())
        decreases tries
      {
        world.Log(Head(loc.path));
        var answer := heads[calls];
        calls := calls + 1;
        assert world.trace == old(world.trace) + FetchTrace(loc.path, calls);
        match answer
        case Found(m) =>
          assert FetchMetadata(heads) == Fetched(m, calls);
          uploadFileName := Some(loc.filename);
          uploadFileSize := Some(m.contentLength);
          uploadContentType := m.contentType;
          uploadUpdatedAt := Some(m.lastModified);
          return None;
        case HeadFailed(reason) =>
          assert FetchMetadata(heads) == FetchFailed(ServiceError(reason), calls);
          return Some(ServiceError(reason));
        case NoSuchKey =>
          tries := tries - 1;
          if tries > 0 {
            world.Log(Sleep(RetryDelaySeconds));
            assert world.trace == old(world.trace) + Retries(loc.path, calls);
          } else {
            assert FetchMetadata(heads) == FetchFailed(KeyMissing, calls);
            return Some(KeyMissing);
          }
      }
    }

    /** `queue_finalize_and_cleanup`: `Document.delay.finalize_and_cleanup(id)`. */
    method QueueFinalizeAndCleanup(world: World)
      modifies world
      ensures world.State() == Store(old(world.objects), old(world.trace) + [Enqueue(id)])
    {
      world.Log(Enqueue(id));
    }

    /**
     * `save` of a new record: validation, the `before_create` callback, the
     * insert that assigns `newId`, the `after_create` callback.
     */
    method Create(world: World, heads: seq<HeadResult>, newId: nat) returns (err: Option<Error>)
      requires |heads| >= MaxTries
      requires !persisted
      modifies this, world
      ensures Step(Snapshot(), world.State(), err)
           == DocumentLifecycle.Create(world.bucket, old(Snapshot()), old(world.State()), heads, newId)
    {
      if !IsValid(world.bucket, directUploadUrl) {
        return Some(RecordInvalid);
      }
      err := SetUploadAttributes(world, heads);
      if err.Some? {
        return;
      }
      id, persisted := newId, true;
      world.Log(Insert(id));
      QueueFinalizeAndCleanup(world);
    }

    /**
     * `update_file(params)`. On a saved record `save!` updates the row; on
     * one never saved it creates it, answered by `createHeads` and `newId`.
     */
    method UpdateFile(world: World, p: Params, heads: seq<HeadResult>, createHeads: seq<HeadResult>, newId: nat)
      returns (err: Option<Error>)
      requires |heads| >= MaxTries && |createHeads| >= MaxTries
      modifies this, world
      ensures Step(Snapshot(), world.State(), err)
           == DocumentLifecycle.UpdateFile(world.bucket, old(Snapshot()), old(world.State()), p, heads, createHeads, newId)
    {
      processed := false;
      match p.url {
        case KeepUrl =>
        case AssignUrl(e) => SetDirectUploadUrl(e);
      }
      if p.processed.Some? {
        processed := p.processed.value;
      }
      ghost var withParams := Snapshot();
      assert withParams == ApplyParams(old(Snapshot()).(processed := false), p);
      err := SetUploadAttributes(world, heads);
      if err.Some? {
        return;
      }
      err := SaveAndRequeue(world, createHeads, newId);
    }

    /** `save!` then `Document.delay.finalize_and_cleanup(id)`: an update, or a create for a new record. */
    method SaveAndRequeue(world: World, createHeads: seq<HeadResult>, newId: nat) returns (err: Option<Error>)
      requires |createHeads| >= MaxTries
      modifies this, world
      ensures Step(Snapshot(), world.State(), err)
           == DocumentLifecycle.SaveAndRequeue(world.bucket, old(Snapshot()), old(world.State()), createHeads, newId)
    {
      err := None;
      if persisted {
        world.Log(Save(id));
      } else {
        err := Create(world, createHeads, newId);
        if err.Some? {
          return;
        }
      }
      world.Log(Enqueue(id));
    }

    /**
     * `Document.finalize_and_cleanup(id)` on the record found for `id`. The
     * environment decides whether the copy or the transform (`effect`) and
     * the delete (`deletion`) raise.
     */
    method FinalizeAndCleanup(world: World, effect: Outcome, deletion: Outcome) returns (err: Option<Error>)
      requires persisted
      requires Match(world.bucket, directUploadUrl).Some?
      modifies this, world
      ensures Step(Snapshot(), world.State(), err)
           == Finalize(world.bucket, old(Snapshot()), old(world.State()), effect, deletion)
    {
      ghost var d0, s0 := Snapshot(), world.State();
      var path := Match(world.bucket, directUploadUrl).value.path;
      err := TransformOrCopy(world, effect);
      if err.Some? {
        return;
      }
      FinalizeAfterEffect(world.bucket, d0, s0, effect, deletion);
      processed := true;
      world.Log(Save(id));
      err := world.Delete(path, deletion);
    }

    /**
     * The first half of the finalize: hand the stored URL to Paperclip when
     * post-processing is required, otherwise copy the temporary object to
     * the canonical key.
     */
    method TransformOrCopy(world: World, effect: Outcome) returns (err: Option<Error>)
      requires Match(world.bucket, directUploadUrl).Some?
      modifies this, world
      ensures Step(Snapshot(), world.State(), err)
           == ApplyEffect(world.bucket, old(Snapshot()), old(world.State()), effect)
    {
      var loc := Match(world.bucket, directUploadUrl).value;
      if PostProcessRequired(uploadContentType) {
        err := world.AssignRemoteSource(directUploadUrl.value, loc.path, effect);
        if err.None? {
          uploadSource := directUploadUrl;
        }
      } else {
        err := world.Copy(loc.path, CanonicalKey(id, loc.filename), effect);
      }
    }
  }
}
