/** `FileTransferManager` as it stands: an object whose methods change maps, a queue, counters and two
    directories in place. Every method is proved to take exactly the step that module Transfer gives it. */
module FileTransferManager {
  import opened Bytes
  import opened Transfer

  class Manager {
    var enabled: bool
    var maxSize: nat
    /** The pairing that the session manager holds. */
    var session: Option<Session>
    var uploads: map<Id, Record>
    /** The part files, by the identifier in their name. */
    var staging: map<Id, seq<U8>>
    var inbox: map<string, seq<U8>>
    var completedUploads: seq<Ticket>
    var uploadsCompleted: nat
    var canceled: nat
    /** Numbers the records and keeps the history, for stating properties. */
    var created: nat
    var published: seq<Publication>

    function State(): Server
      reads this
    {
      Server(enabled, maxSize, session, uploads, staging, inbox, completedUploads, uploadsCompleted, canceled,
             created, published)
    }

    /** A manager starts with the part files of its predecessor removed. */
    constructor (enabled: bool, maxSize: nat, inbox: map<string, seq<U8>>)
      ensures State() == Restart(Server(enabled, maxSize, None, map[], map[], inbox, [], 0, 0, 0, []))
    {
      this.enabled, this.maxSize, this.session := enabled, maxSize, None;
      this.uploads, this.staging, this.inbox := map[], map[], inbox;
      this.completedUploads, this.uploadsCompleted, this.canceled := [], 0, 0;
      this.created, this.published := 0, [];
    }

    method CreateUpload(sessionId: Session, id: Id, name: Option<string>, mime: string, size: nat, io: Outcome)
        returns (r: Response)
      modifies this
      ensures (State(), r) == CreateStep(old(State()), sessionId, id, name, mime, size, io)
    {
      if !enabled { return Failed(Disabled, None); }
      if session != Some(sessionId) { return Failed(Unauthorized, None); }
      if size > maxSize { return Failed(TooLarge, None); }
      if name.None? { return Failed(Invalid, None); }
      if id in uploads {
        var record := uploads[id];
        if record.session == sessionId && record.name == name.value && record.mime == mime && record.size == size {
          return Created(record.name, record.size, record.received);
        }
        return Failed(Conflict, None);
      }
      if |uploads| >= MAX_ACTIVE_UPLOADS { return Failed(Conflict, None); }
      if id in staging || !io.disk.Works? { return Failed(Io, None); }
      staging := staging[id := []];
      var record := Record(created, sessionId, name.value, mime, size, 0);
      created := created + 1;
      uploads := uploads[id := record];
      return Created(name.value, size, 0);
    }

    /** The first stored answer of this upload. */
    method FindCompleted(id: Id, sessionId: Session) returns (found: Option<Ticket>)
      ensures found == FindTicket(completedUploads, sessionId, id)
    {
      var i := 0;
      while i < |completedUploads|
        invariant 0 <= i <= |completedUploads|
        invariant FindTicket(completedUploads, sessionId, id) == FindTicket(completedUploads[i..], sessionId, id)
      {
        var record := completedUploads[i];
        if record.session == sessionId && record.id == id { return Some(record); }
        assert completedUploads[i..][1..] == completedUploads[i + 1..];
        i := i + 1;
      }
      return None;
    }

    method UploadProgress(id: Id, sessionId: Session) returns (r: Response)
      ensures (State(), r) == ProgressStep(State(), sessionId, id)
    {
      var completed := FindCompleted(id, sessionId);
      if completed.Some? { return Progressed(completed.value.size, completed.value.size); }
      if id !in uploads { return Failed(NotFound, None); }
      if uploads[id].session != sessionId { return Failed(Unauthorized, None); }
      return Progressed(uploads[id].received, uploads[id].size);
    }

    method WriteUploadChunk(id: Id, sessionId: Session, offset: nat, chunk: seq<U8>, sha256: string, io: Outcome)
        returns (r: Response)
      modifies this`staging, this`uploads
      ensures (State(), r) == PutStep(old(State()), sessionId, id, offset, chunk, sha256, io)
    {
      hide Checksum, EqualIgnoringCase;
      if !enabled { return Failed(Disabled, None); }
      if session != Some(sessionId) { return Failed(Unauthorized, None); }
      if |chunk| > CHUNK_SIZE { return Failed(TooLarge, None); }
      var actual := Checksum(chunk);
      if |sha256| != 64 || !EqualIgnoringCase(actual, sha256) { return Failed(Conflict, Some(offset)); }
      if id !in uploads { return Failed(NotFound, None); }
      var record := uploads[id];
      if record.session != sessionId { return Failed(Unauthorized, None); }
      if offset != record.received { return Failed(Conflict, Some(record.received)); }
      var next := record.received + |chunk|;
      if next > record.size { return Failed(Invalid, None); }
      if id !in staging || offset > |staging[id]| { return Failed(Io, None); }
      if io.disk.Breaks? {
        staging := staging[id := WrittenAt(staging[id], offset, chunk[..Min(io.disk.written, |chunk|)])];
        return Failed(Io, None);
      }
      staging := staging[id := WrittenAt(staging[id], offset, chunk)];
      uploads := uploads[id := record.(received := next)];
      if io.disk.PacingStops? { return Failed(io.disk.kind, None); }
      return Progressed(next, record.size);
    }

    /** `unique_destination`: the name itself, else the first free numbered one, else a fresh one. */
    method FreeName(name: string, fallback: string) returns (d: string)
      ensures d == UniqueDestination(inbox.Keys, name, fallback)
    {
      hide Candidate;
      if name !in inbox { return name; }
      var suffix := 1;
      while suffix < LAST_SUFFIX
        invariant 1 <= suffix <= LAST_SUFFIX
        invariant NumberedDestination(inbox.Keys, name, 1, fallback) == NumberedDestination(inbox.Keys, name, suffix, fallback)
      {
        var candidate := Candidate(name, suffix);
        if candidate !in inbox { return candidate; }
        suffix := suffix + 1;
      }
      return fallback;
    }

    method CompleteUpload(id: Id, sessionId: Session, io: Outcome) returns (r: Response)
      modifies this
      ensures (State(), r) == CompleteStep(old(State()), sessionId, id, io)
    {
      hide Publish, FindTicket;
      if !enabled { return Failed(Disabled, None); }
      if session != Some(sessionId) { return Failed(Unauthorized, None); }
      var completed := FindCompleted(id, sessionId);
      if completed.Some? { return Completed(completed.value); }
      if id !in uploads { return Failed(NotFound, None); }
      var record := uploads[id];
      if record.session != sessionId { return Failed(Unauthorized, None); }
      if record.received != record.size { return Failed(Conflict, Some(record.received)); }
      if id !in staging || !io.disk.Works? { return Failed(Io, None); }
      r := PublishUpload(id, sessionId, io.fallback);
    }

    /** The hash, the rename into the inbox, and everything recorded with it. */
    method PublishUpload(id: Id, sessionId: Session, fallback: string) returns (r: Response)
      requires id in uploads && id in staging
      modifies this
      ensures (State(), r) == Publish(old(State()), sessionId, id, fallback)
    {
      hide Checksum, UniqueDestination;
      var record, bytes := uploads[id], staging[id];
      var sha256 := Checksum(bytes);
      var destination := FreeName(record.name, fallback);
      inbox := inbox[destination := bytes];
      staging := staging - {id};
      uploads := uploads - {id};
      uploadsCompleted := uploadsCompleted + 1;
      published := published + [Publication(record.incarnation, id, destination, bytes)];
      var response := Ticket(sessionId, id, destination, record.size, sha256);
      completedUploads := [response] + completedUploads;
      if |completedUploads| > MAX_TICKETS { completedUploads := completedUploads[..MAX_TICKETS]; }
      return Completed(response);
    }

    method CancelUpload(id: Id, sessionId: Session) returns (r: Response)
      modifies this`uploads, this`staging, this`canceled
      ensures (State(), r) == CancelStep(old(State()), sessionId, id)
    {
      var completed := FindCompleted(id, sessionId);
      if completed.Some? { return Canceled; }
      if id !in uploads { return Failed(NotFound, None); }
      if uploads[id].session != sessionId { return Failed(Unauthorized, None); }
      uploads := uploads - {id};
      staging := staging - {id};
      canceled := canceled + 1;
      return Canceled;
    }

    /** `cancel_session_uploads`, in whatever order the map gives its records. */
    method CancelSessionUploads(sessionId: Session)
      modifies this`uploads, this`staging, this`completedUploads, this`canceled
      ensures State() == CancelSession(old(State()), sessionId)
    {
      hide OfSession, WithoutSession;
      var ids := OfSession(uploads, sessionId);
      var records := ids;
      uploads := uploads - ids;
      while records != {}
        invariant records <= ids && uploads == old(uploads) - ids && completedUploads == old(completedUploads)
        invariant staging == old(staging) - (ids - records)
        invariant canceled == old(canceled) + |ids| - |records|
        decreases records
      {
        var id :| id in records;
        staging := staging - {id};
        OneFewer(old(staging), ids, records, id);
        canceled := canceled + 1;
        records := records - {id};
      }
      assert ids - records == ids;
      RetainOthers(sessionId);
    }

    method RetainOthers(sessionId: Session)
      modifies this`completedUploads
      ensures completedUploads == WithoutSession(old(completedUploads), sessionId)
    {
      hide WithoutSession;
      var all := completedUploads;
      var kept: seq<Ticket> := [];
      var i := 0;
      while i < |all|
        invariant 0 <= i <= |all|
        invariant kept + WithoutSession(all[i..], sessionId) == WithoutSession(all, sessionId)
      {
        ghost var rest := WithoutSession(all[i + 1..], sessionId);
        FirstOfRest(all, i, sessionId);
        if all[i].session != sessionId {
          assert kept + ([all[i]] + rest) == (kept + [all[i]]) + rest;
          kept := kept + [all[i]];
        }
        i := i + 1;
      }
      completedUploads := kept;
    }
  }

  lemma OneFewer<K, V>(m: map<K, V>, all: set<K>, left: set<K>, k: K)
    requires k in left && left <= all
    ensures m - (all - left) - {k} == m - (all - (left - {k}))
  {
  }

  lemma FirstOfRest(tickets: seq<Ticket>, i: nat, session: Session)
    requires i < |tickets|
    ensures WithoutSession(tickets[i..], session) ==
            (if tickets[i].session == session then [] else [tickets[i]]) + WithoutSession(tickets[i + 1..], session)
  {
    assert tickets[i..][1..] == tickets[i + 1..];
  }
}
