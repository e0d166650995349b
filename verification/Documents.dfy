/** The documents table: the status machine and the transactions that endpoints, worker and sweep run on it.
    Times are in seconds. */
module Documents {
  import opened Wrappers

  type Id = int
  type User = int

  datatype Status = PENDING_UPLOAD | PENDING | PROCESSING | READY | FAILED

  /** What error_message says: one of the fixed texts, or the text of an exception. */
  datatype Reason =
    | SizeDiffers(actual: nat, claimed: nat)
    | UploadExpired
    | IngestTimedOut
    | QueueUnavailable
    | Raised(text: string)

  /** A document with the chunk indices of its rows in the chunks table. */
  datatype Doc = Doc(
    user: User,
    size: nat,
    status: Status,
    updatedAt: int,
    error: Option<Reason>,
    chunkCount: Option<nat>,
    chunks: multiset<nat>)

  type Docs = map<Id, Doc>

  const MAX_DOCS_PER_USER := 20
  const UPLOAD_CUTOFF := 15 * 60
  const INGEST_CUTOFF := 30 * 60

  /** The transition table. */
  function Allowed(from: Status): set<Status> {
    match from
    case PENDING_UPLOAD => {PENDING, FAILED}
    case PENDING => {PROCESSING}
    case PROCESSING => {READY, FAILED}
    case READY => {}
    case FAILED => {PROCESSING}
  }

  /** The document after a write of its status; the row's updated_at is bumped with it. */
  function Moved(d: Doc, to: Status, now: int): Doc {
    d.(status := to, updatedAt := now)
  }

  /** The document after failing, with the reason that the user sees. */
  function Failed(d: Doc, reason: Reason, now: int): Doc {
    Moved(d, FAILED, now).(error := Some(reason))
  }

  function WithStatus(docs: Docs, id: Id, to: Status, now: int): Docs {
    if id in docs then docs[id := Moved(docs[id], to, now)] else docs
  }

  function WithFailure(docs: Docs, id: Id, reason: Reason, now: int): Docs {
    if id in docs then docs[id := Failed(docs[id], reason, now)] else docs
  }

  predicate Owned(docs: Docs, id: Id, user: User) {
    id in docs && docs[id].user == user
  }

  /** The user's documents that count against the limit. */
  function ActiveIds(docs: Docs, user: User): set<Id> {
    set id | id in docs && docs[id].user == user && docs[id].status != FAILED
  }

  // ---------------------------------------------------------------- what each transaction does

  function Created(docs: Docs, id: Id, user: User, size: nat, status: Status, now: int): Docs {
    if |ActiveIds(docs, user)| >= MAX_DOCS_PER_USER then docs
    else docs[id := Doc(user, size, status, now, None, None, multiset{})]
  }

  /** HeadObject: the object is missing or the call fails, or its length. */
  datatype Head = NoObject | Length(bytes: nat)

  /** More than 10 % off the declared size; an empty declaration only fits an empty object. */
  predicate SizeMismatch(claimed: nat, actual: nat) {
    if claimed > 0 then 10 * (if actual >= claimed then actual - claimed else claimed - actual) > claimed
    else actual != 0
  }

  function Confirmed(docs: Docs, id: Id, user: User, head: Head, now: int): Docs {
    if !Owned(docs, id, user) || docs[id].status != PENDING_UPLOAD || head == NoObject then docs
    else if SizeMismatch(docs[id].size, head.bytes) then
      WithFailure(docs, id, SizeDiffers(head.bytes, docs[id].size), now)
    else WithStatus(docs, id, PENDING, now)
  }

  function Retried(docs: Docs, id: Id, user: User, now: int): Docs {
    if !Owned(docs, id, user) || docs[id].status != FAILED then docs else WithStatus(docs, id, PROCESSING, now)
  }

  function Deleted(docs: Docs, id: Id, user: User, storageOk: bool): Docs {
    if Owned(docs, id, user) && storageOk then docs - {id} else docs
  }

  /** First commit of an ingest job. */
  function Started(docs: Docs, id: Id, now: int): Docs {
    if id !in docs || docs[id].status == READY then docs
    else
      var d := docs[id];
      var chunks := if d.status in {PROCESSING, FAILED} then multiset{} else d.chunks;
      docs[id := Moved(d, PROCESSING, now).(chunks := chunks)]
  }

  /** One row for each index below n. */
  function Indices(n: nat): (r: multiset<nat>)
    ensures forall i: nat :: r[i] == if i < n then 1 else 0
  {
    if n == 0 then multiset{} else Indices(n - 1) + multiset{n - 1}
  }

  /** Second commit: all chunk rows and the status at once. Without the row nothing is committed. */
  function Finished(docs: Docs, id: Id, n: nat, now: int): Docs {
    if id !in docs then docs
    else docs[id := Moved(docs[id], READY, now).(chunkCount := Some(n), chunks := docs[id].chunks + Indices(n))]
  }

  /** The failure path of a job; its message is cut to 500 characters. */
  function FailedIngest(docs: Docs, id: Id, flushed: nat, error: string, now: int): Docs {
    if id !in docs then docs
    else
      var reason := Raised(if |error| > 500 then error[..500] else error);
      docs[id := Failed(docs[id], reason, now).(chunks := docs[id].chunks + Indices(flushed))]
  }

  predicate StaleUpload(d: Doc, now: int) {
    d.status == PENDING_UPLOAD && d.updatedAt < now - UPLOAD_CUTOFF
  }

  predicate StaleIngest(d: Doc, now: int) {
    d.status in {PENDING, PROCESSING} && d.updatedAt < now - INGEST_CUTOFF
  }

  function Swept(docs: Docs, now: int): (r: Docs)
    ensures r.Keys == docs.Keys
  {
    map id | id in docs :: if StaleUpload(docs[id], now) then Failed(docs[id], UploadExpired, now)
                           else if StaleIngest(docs[id], now) then Failed(docs[id], IngestTimedOut, now)
                           else docs[id]
  }

  // ---------------------------------------------------------------- the transactions

  datatype Answer = Done | NotFound | Conflict | Unavailable | QuotaExceeded

  class Database {
    var docs: Docs

    /** Moves a document to another status if the table allows it. The error message is written with FAILED
        only, the chunk count with READY only and only when there is one. */
    method TransitionStatus(id: Id, to: Status, error: Option<Reason>, chunkCount: Option<nat>, now: int)
      returns (ok: bool)
      requires id in docs
      modifies this
      ensures ok <==> to in Allowed(old(docs)[id].status)
      ensures !ok ==> docs == old(docs)
      ensures id in docs && docs == old(docs)[id := docs[id]]
      ensures ok && to !in {READY, FAILED} ==> docs == WithStatus(old(docs), id, to, now)
      ensures ok && to == FAILED ==> docs[id] == Moved(old(docs)[id], to, now).(error := error)
      ensures ok && to == READY ==>
                docs[id] == Moved(old(docs)[id], to, now).(
                  chunkCount := if chunkCount.Some? then chunkCount else old(docs)[id].chunkCount)
    {
      var document := docs[id];
      if to !in Allowed(document.status) {
        return false;
      }
      document := document.(status := to, updatedAt := now);
      if to == FAILED {
        document := document.(error := error);
      }
      if to == READY && chunkCount.Some? {
        document := document.(chunkCount := chunkCount);
      }
      docs := docs[id := document];
      return true;
    }

    method Create(id: Id, user: User, size: nat, status: Status, now: int) returns (answer: Answer)
      modifies this
      ensures docs == Created(old(docs), id, user, size, status, now)
      ensures var active := set x | x in old(docs) && old(docs)[x].user == user && old(docs)[x].status != FAILED;
              if |active| >= 20 then answer == QuotaExceeded && docs == old(docs)
              else answer == Done && docs == old(docs)[id := Doc(user, size, status, now, None, None, multiset{})]
    {
      var active := |ActiveIds(docs, user)|;
      if active >= MAX_DOCS_PER_USER {
        return QuotaExceeded;
      }
      docs := docs[id := Doc(user, size, status, now, None, None, multiset{})];
      return Done;
    }

    /** confirm_upload; both of its moves out of PENDING_UPLOAD are in the table. */
    method ConfirmUpload(id: Id, user: User, head: Head, now: int) returns (answer: Answer)
      modifies this
      ensures docs == Confirmed(old(docs), id, user, head, now)
      ensures answer == NotFound <==> !(id in old(docs) && old(docs)[id].user == user)
      ensures var waiting := id in old(docs) && old(docs)[id].user == user && old(docs)[id].status == PENDING_UPLOAD;
              if !waiting || head == NoObject then answer != Done && docs == old(docs)
              else
                var size := old(docs)[id].size;
                var off := if head.bytes >= size then head.bytes - size else size - head.bytes;
                if 10 * off <= size then
                  answer == Done && docs == old(docs)[id := old(docs)[id].(status := PENDING, updatedAt := now)]
                else
                  && answer == Conflict
                  && docs == old(docs)[id := old(docs)[id].(status := FAILED, updatedAt := now,
                                                            error := Some(SizeDiffers(head.bytes, size)))]
    {
      if !Owned(docs, id, user) {
        return NotFound;
      }
      if docs[id].status != PENDING_UPLOAD || head == NoObject {
        return Conflict;
      }
      if SizeMismatch(docs[id].size, head.bytes) {
        var failed := TransitionStatus(id, FAILED, Some(SizeDiffers(head.bytes, docs[id].size)), None, now);
        return Conflict;
      }
      var ok := TransitionStatus(id, PENDING, None, None, now);
      return Done;
    }

    /** The handler of a failed enqueue after confirming: PENDING to FAILED is not in the table, so the
        transition is refused and the row stays as it is. */
    method ConfirmEnqueueFailed(id: Id, now: int) returns (ok: bool)
      requires id in docs && docs[id].status == PENDING
      modifies this
      ensures !ok && docs == old(docs)
    {
      ok := TransitionStatus(id, FAILED, Some(QueueUnavailable), None, now);
    }

    method RetryDocument(id: Id, user: User, now: int) returns (answer: Answer)
      modifies this
      ensures docs == Retried(old(docs), id, user, now)
      ensures answer == NotFound <==> !(id in old(docs) && old(docs)[id].user == user)
      ensures answer == Done <==> id in old(docs) && old(docs)[id].user == user && old(docs)[id].status == FAILED
      ensures docs == if answer != Done then old(docs)
                      else old(docs)[id := old(docs)[id].(status := PROCESSING, updatedAt := now)]
    {
      if !Owned(docs, id, user) {
        return NotFound;
      }
      if docs[id].status != FAILED {
        return Conflict;
      }
      var ok := TransitionStatus(id, PROCESSING, None, None, now);
      return Done;
    }

    /** The handler of a failed enqueue after a retry: here the table allows the way back. */
    method RetryEnqueueFailed(id: Id, now: int) returns (ok: bool)
      requires id in docs && docs[id].status == PROCESSING
      modifies this
      ensures ok && docs == WithFailure(old(docs), id, QueueUnavailable, now)
      ensures docs == old(docs)[id := old(docs)[id].(status := FAILED, updatedAt := now,
                                                     error := Some(QueueUnavailable))]
    {
      ok := TransitionStatus(id, FAILED, Some(QueueUnavailable), None, now);
    }

    method DeleteDocument(id: Id, user: User, storageOk: bool) returns (answer: Answer)
      modifies this
      ensures docs == Deleted(old(docs), id, user, storageOk)
      ensures answer == NotFound <==> !(id in old(docs) && old(docs)[id].user == user)
      ensures answer == Done <==> id in old(docs) && old(docs)[id].user == user && storageOk
      ensures answer in {Done, NotFound, Unavailable}
      ensures answer != Done ==> docs == old(docs)
      ensures answer == Done ==> forall x :: (x in docs <==> x in old(docs) && x != id)
                                             && (x in docs ==> docs[x] == old(docs)[x])
    {
      if !Owned(docs, id, user) {
        return NotFound;
      }
      if !storageOk {
        return Unavailable;
      }
      docs := docs - {id};
      return Done;
    }

    /** The start of an ingest job up to its first commit; false when there is nothing to ingest. */
    method StartIngest(id: Id, now: int) returns (started: bool)
      modifies this
      ensures docs == Started(old(docs), id, now)
      ensures started <==> id in old(docs) && old(docs)[id].status != READY
      ensures !started ==> docs == old(docs)
      ensures started ==>
                var d := old(docs)[id];
                var chunks := if d.status == PROCESSING || d.status == FAILED then multiset{} else d.chunks;
                docs == old(docs)[id := d.(status := PROCESSING, updatedAt := now, chunks := chunks)]
    {
      if id !in docs || docs[id].status == READY {
        return false;
      }
      var doc := docs[id];
      if doc.status in {PROCESSING, FAILED} {
        doc := doc.(chunks := multiset{});
      }
      docs := docs[id := doc.(status := PROCESSING, updatedAt := now)];
      return true;
    }

    /** The second commit, for n chunks numbered in order. */
    method FinishIngest(id: Id, n: nat, now: int)
      modifies this
      ensures docs == Finished(old(docs), id, n, now)
      ensures id !in old(docs) ==> docs == old(docs)
      ensures id in old(docs) ==>
                && docs == old(docs)[id := docs[id]] && id in docs
                && docs[id].(chunks := old(docs)[id].chunks)
                   == old(docs)[id].(status := READY, updatedAt := now, chunkCount := Some(n))
                && forall i: nat :: docs[id].chunks[i] == old(docs)[id].chunks[i] + if i < n then 1 else 0
    {
      if id !in docs {
        return;
      }
      var rows: multiset<nat> := multiset{};
      for i := 0 to n
        invariant rows == Indices(i)
      {
        rows := rows + multiset{i};
      }
      docs := docs[id := docs[id].(status := READY, chunkCount := Some(n), updatedAt := now,
                                   chunks := docs[id].chunks + rows)];
    }

    /** The failure paths of the worker write FAILED without asking the table. */
    method MarkFailed(id: Id, error: string, now: int)
      modifies this
      ensures docs == WithFailure(old(docs), id, Raised(error), now)
      ensures docs == if id !in old(docs) then old(docs)
                      else old(docs)[id := old(docs)[id].(status := FAILED, updatedAt := now,
                                                          error := Some(Raised(error)))]
    {
      if id in docs {
        docs := docs[id := docs[id].(status := FAILED, error := Some(Raised(error)), updatedAt := now)];
      }
    }

    /** The failure path of a job: its rows so far may be in the session and are then committed with it. The
        message is cut to 500 characters. */
    method FailIngest(id: Id, flushed: nat, error: string, now: int)
      modifies this
      ensures docs == FailedIngest(old(docs), id, flushed, error, now)
      ensures id !in old(docs) ==> docs == old(docs)
      ensures id in old(docs) ==>
                && id in docs && docs == old(docs)[id := docs[id]]
                && forall i: nat :: docs[id].chunks[i] == old(docs)[id].chunks[i] + if i < flushed then 1 else 0
      ensures id in old(docs) ==>
                var kept := if |error| <= 500 then error else error[..500];
                docs[id].(chunks := old(docs)[id].chunks)
                  == old(docs)[id].(status := FAILED, updatedAt := now, error := Some(Raised(kept)))
    {
      if id !in docs {
        return;
      }
      MarkFailed(id, if |error| > 500 then error[..500] else error, now);
      docs := docs[id := docs[id].(chunks := docs[id].chunks + Indices(flushed))];
    }

    /** One run of the stale sweep: both batches select their rows and mark them one by one, in whatever
        order the database lists its rows. */
    method CleanupStaleDocuments(order: seq<Id>, now: int)
      requires forall id :: id in docs ==> id in order
      modifies this
      ensures docs == Swept(old(docs), now)
      ensures docs.Keys == old(docs).Keys
      ensures forall id :: id in docs ==>
                var d := old(docs)[id];
                var age := now - d.updatedAt;
                docs[id] == if d.status == PENDING_UPLOAD && age > 900 then
                              d.(status := FAILED, updatedAt := now, error := Some(UploadExpired))
                            else if (d.status == PENDING || d.status == PROCESSING) && age > 1800 then
                              d.(status := FAILED, updatedAt := now, error := Some(IngestTimedOut))
                            else d
    {
      var uploads := set id | id in docs && StaleUpload(docs[id], now);
      MarkBatch(order, uploads, UploadExpired, now);
      var ingests := set id | id in docs && StaleIngest(docs[id], now);
      MarkBatch(order, ingests, IngestTimedOut, now);
      assert forall id :: id in docs ==> docs[id] == Swept(old(docs), now)[id];
    }

    method MarkBatch(order: seq<Id>, stale: set<Id>, reason: Reason, now: int)
      requires stale <= docs.Keys && forall id :: id in docs ==> id in order
      modifies this
      ensures docs.Keys == old(docs).Keys
      ensures forall id :: id in docs ==>
                docs[id] == if id in stale then Failed(old(docs)[id], reason, now) else old(docs)[id]
    {
      for k := 0 to |order|
        invariant docs.Keys == old(docs).Keys
        invariant forall id :: id in docs ==>
                    docs[id] == if id in stale && id in order[..k] then Failed(old(docs)[id], reason, now)
                                else old(docs)[id]
      {
        if order[k] in stale {
          docs := docs[order[k] := docs[order[k]].(status := FAILED, error := Some(reason), updatedAt := now)];
        }
      }
    }
  }
}
