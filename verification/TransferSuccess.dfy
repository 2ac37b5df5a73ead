/** What an upload comes to when every request arrives and the disk works: the file, whole, in the inbox. */
module TransferSuccess {
  import opened Bytes
  import Fips
  import opened Transfer

  const WORKING := Outcome(Works, "")

  /** The chunks of a file from `offset` on, put one after the other. */
  function AllPut(s: Server, session: Session, id: Id, file: seq<U8>, offset: nat): Server
    requires offset <= |file|
    decreases |file| - offset
  {
    if offset == |file| then s
    else
      var end := Min(|file|, offset + CHUNK_SIZE);
      var chunk := file[offset..end];
      AllPut(PutStep(s, session, id, offset, chunk, Checksum(chunk), WORKING).0, session, id, file, end)
  }

  /** The upload stands at `offset`, with exactly that much of the file in its part. */
  predicate StandsAt(s: Server, session: Session, id: Id, file: seq<U8>, offset: nat) {
    && s.enabled && s.session == Some(session)
    && id in s.uploads && s.uploads[id].session == session
    && s.uploads[id].size == |file| && s.uploads[id].received == offset <= |file|
    && id in s.staging && s.staging[id] == file[..offset]
  }

  /** The rest of the server. */
  predicate SameElse(s: Server, t: Server, id: Id) {
    && t == s.(uploads := t.uploads, staging := t.staging)
    && t.uploads - {id} == s.uploads - {id} && t.staging - {id} == s.staging - {id}
  }

  lemma OwnChecksumMatches(chunk: seq<U8>)
    requires |chunk| <= CHUNK_SIZE
    ensures ChecksumMatches(chunk, Checksum(chunk))
  {
    hide Fips.Sha256Hex;
  }

  lemma OnePut(s: Server, session: Session, id: Id, file: seq<U8>, offset: nat, end: nat)
    requires StandsAt(s, session, id, file, offset) && offset < end <= |file| && end - offset <= CHUNK_SIZE
    ensures var chunk := file[offset..end];
      var (t, r) := PutStep(s, session, id, offset, chunk, Checksum(chunk), WORKING);
      && r == Progressed(end, |file|) && StandsAt(t, session, id, file, end) && SameElse(s, t, id)
      && t.uploads[id] == s.uploads[id].(received := end)
  {
    hide ChecksumMatches, Checksum;
    var chunk := file[offset..end];
    OwnChecksumMatches(chunk);
    assert WrittenAt(file[..offset], offset, chunk) == file[..end];
  }

  lemma {:induction false} AllPutsArrive(s: Server, session: Session, id: Id, file: seq<U8>, offset: nat)
    requires StandsAt(s, session, id, file, offset)
    ensures var t := AllPut(s, session, id, file, offset);
      && StandsAt(t, session, id, file, |file|) && SameElse(s, t, id)
      && t.uploads[id] == s.uploads[id].(received := |file|)
    decreases |file| - offset
  {
    hide PutStep, StandsAt, Checksum;
    Standing(s, session, id, file, offset);
    if offset < |file| {
      var end := Min(|file|, offset + CHUNK_SIZE);
      OnePut(s, session, id, file, offset, end);
      var chunk := file[offset..end];
      var t := PutStep(s, session, id, offset, chunk, Checksum(chunk), WORKING).0;
      AllPutsArrive(t, session, id, file, end);
    }
  }

  lemma Standing(s: Server, session: Session, id: Id, file: seq<U8>, offset: nat)
    requires StandsAt(s, session, id, file, offset)
    ensures id in s.uploads && s.uploads[id].received == offset <= |file|
  {
  }

  /** A server that can take an upload of this size. */
  predicate Accepts(s: Server, session: Session, id: Id, size: nat) {
    && s.enabled && s.session == Some(session) && size <= s.maxSize
    && id !in s.uploads && id !in s.staging && |s.uploads| < MAX_ACTIVE_UPLOADS
    && FindTicket(s.tickets, session, id).None?
  }

  lemma CreationStands(s: Server, session: Session, id: Id, name: string, mime: string, file: seq<U8>)
    requires Accepts(s, session, id, |file|)
    ensures var (t, r) := CreateStep(s, session, id, Some(name), mime, |file|, WORKING);
      && r == Created(name, |file|, 0) && StandsAt(t, session, id, file, 0)
      && t.uploads == s.uploads[id := Record(s.created, session, name, mime, |file|, 0)]
      && t.staging == s.staging[id := []] && t == s.(uploads := t.uploads, staging := t.staging, created := s.created + 1)
  {
    hide FindTicket;
    assert file[..0] == [];
  }

  lemma CompletionPublishes(s: Server, session: Session, id: Id, file: seq<U8>, io: Outcome)
    requires StandsAt(s, session, id, file, |file|) && FindTicket(s.tickets, session, id).None? && io.disk.Works?
    ensures CompleteStep(s, session, id, io) == Publish(s, session, id, io.fallback)
    ensures s.staging[id] == file
  {
    hide FindTicket, Publish;
    assert file[..|file|] == file;
  }

  /** When every request arrives and the disk works, an accepted upload ends with the whole file in the
      inbox, under its name if that was free; the answer says so, and nothing else on the server has changed. */
  lemma WholeUploadSucceeds(s: Server, session: Session, id: Id, name: string, mime: string, file: seq<U8>, fallback: string)
    requires Accepts(s, session, id, |file|)
    ensures var created := CreateStep(s, session, id, Some(name), mime, |file|, WORKING).0;
      var put := AllPut(created, session, id, file, 0);
      var (done, answer) := CompleteStep(put, session, id, Outcome(Works, fallback));
      var saved := UniqueDestination(s.inbox.Keys, name, fallback);
      && answer == Completed(Ticket(session, id, saved, |file|, Checksum(file)))
      && (name !in s.inbox ==> saved == name)
      && done.inbox == s.inbox[saved := file]
      && done.uploads == s.uploads && done.staging == s.staging
      && done.published == s.published + [Publication(s.created, id, saved, file)]
      && done.uploadsCompleted == s.uploadsCompleted + 1
  {
    hide StandsAt, Checksum, FindTicket, UniqueDestination, CreateStep, CompleteStep, NumberedDestination;
    CreationStands(s, session, id, name, mime, file);
    var created := CreateStep(s, session, id, Some(name), mime, |file|, WORKING).0;
    AllPutsArrive(created, session, id, file, 0);
    var put := AllPut(created, session, id, file, 0);
    CompletionPublishes(put, session, id, file, Outcome(Works, fallback));
    Standing(put, session, id, file, |file|);
    assert put.uploads - {id} == s.uploads by { WithoutNew(s.uploads, id, created.uploads[id]); }
    assert put.staging - {id} == s.staging by { WithoutNew(s.staging, id, []); }
    FreeNameIsKept(s.inbox.Keys, name, fallback);
  }

  lemma FreeNameIsKept(taken: set<string>, name: string, fallback: string)
    ensures name !in taken ==> UniqueDestination(taken, name, fallback) == name
  {
  }

  lemma WithoutNew<K, V>(m: map<K, V>, k: K, v: V)
    requires k !in m
    ensures m[k := v] - {k} == m
  {
  }
}
