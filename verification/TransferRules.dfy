/** What the server asks of a request before it changes anything, and how its counters keep the books. */
module TransferRules {
  import opened Bytes
  import opened Transfer
  import opened TransferWorld

  /** There is a record of the upload, and it is this pairing's. */
  predicate IsOpen(s: Server, session: Session, id: Id) {
    id in s.uploads && s.uploads[id].session == session
  }

  predicate Answered(s: Server, session: Session, id: Id) { exists t :: t in s.tickets && t.session == session && t.id == id }

  /** What a request must be like to change anything. */
  predicate MayChange(s: Server, session: Session, id: Id, request: Request) {
    && s.session == Some(session)
    && match request
       case Create(name, _, size) =>
         s.enabled && name.Some? && size <= s.maxSize && id !in s.uploads && |s.uploads| < 32
       case Put(offset, chunk, sha256) =>
         && s.enabled && |chunk| <= 1024 * 1024 && ChecksumMatches(chunk, sha256) && IsOpen(s, session, id)
         && offset == s.uploads[id].received && offset + |chunk| <= s.uploads[id].size
       case Progress => false
       case Complete =>
         && s.enabled && !Answered(s, session, id) && IsOpen(s, session, id)
         && s.uploads[id].received == s.uploads[id].size
       case Cancel => !Answered(s, session, id) && IsOpen(s, session, id)
  }

  /** Nothing else changes anything: not while switched off, not under another pairing, no chunk that is too large,
      damaged or in the wrong place, nothing incomplete and nothing of another pairing. */
  lemma ChangesAreAllowed(s: Server, session: Session, id: Id, request: Request, io: Outcome)
    requires Serve(s, session, id, request, io).0 != s
    ensures MayChange(s, session, id, request)
  {
    hide ChecksumMatches, Publish, Store, FindTicket;
    if FindTicket(s.tickets, session, id).None? { NotAnswered(s, session, id); }
  }

  lemma NotAnswered(s: Server, session: Session, id: Id)
    requires FindTicket(s.tickets, session, id).None?
    ensures !Answered(s, session, id)
  {
    forall t | t in s.tickets ensures !(t.session == session && t.id == id) {
      var k :| 0 <= k < |s.tickets| && s.tickets[k] == t;
    }
  }

  /** A creation is granted if it opens a record, or repeats the request that opened it, word for word. */
  lemma CreatedIff(s: Server, session: Session, id: Id, name: Option<string>, mime: string, size: nat, io: Outcome)
    ensures var r := Serve(s, session, id, Create(name, mime, size), io).1;
      && (r.Created? <==>
            && s.session == Some(session) && s.enabled && name.Some? && size <= s.maxSize
            && if id in s.uploads
               then s.uploads[id].session == session && Some(s.uploads[id].name) == name
                    && s.uploads[id].mime == mime && s.uploads[id].size == size
               else |s.uploads| < 32 && id !in s.staging && io.disk.Works?)
      && (r.Created? ==> r.uploaded == if id in s.uploads then s.uploads[id].received else 0)
  {
  }

  /** The stored answer `t` of the upload is what every later request about it is answered from. */
  ghost predicate Repeats(s: Server, session: Session, id: Id, t: Ticket, io: Outcome) {
    && t in s.tickets && t.session == session && t.id == id
    && Serve(s, session, id, Progress, io) == (s, Progressed(t.size, t.size))
    && (s.enabled ==> Serve(s, session, id, Complete, io) == (s, Completed(t)))
    && Serve(s, session, id, Cancel, io) == (s, Canceled)
  }

  /** While its answer is stored, a finished upload is reported complete, completed again with the same answer, and
      its cancellation accepted, all without any change. */
  lemma AnsweredAgain(s: Server, session: Session, id: Id, io: Outcome)
    requires s.session == Some(session) && Answered(s, session, id)
    ensures exists t :: Repeats(s, session, id, t, io)
  {
    hide FindTicket;
    var t :| t in s.tickets && t.session == session && t.id == id;
    var k :| 0 <= k < |s.tickets| && s.tickets[k] == t;
    assert FindTicket(s.tickets, session, id).Some?;
    assert Repeats(s, session, id, FindTicket(s.tickets, session, id).value, io);
  }

  /** How a chunk is refused, the first reason that applies: it is too large, damaged, of no record, in the wrong
      place, or too long; a conflict names where to go on. */
  lemma ChunkRefusals(s: Server, session: Session, id: Id, offset: nat, chunk: seq<U8>, sha256: string, io: Outcome)
    requires s.session == Some(session) && s.enabled
    ensures var r := Serve(s, session, id, Put(offset, chunk, sha256), io).1;
      if |chunk| > 1024 * 1024 then r == Failed(TooLarge, None)
      else if !ChecksumMatches(chunk, sha256) then r == Failed(Conflict, Some(offset))
      else if id !in s.uploads then r == Failed(NotFound, None)
      else if s.uploads[id].session != session then r == Failed(Unauthorized, None)
      else if offset != s.uploads[id].received then r == Failed(Conflict, Some(s.uploads[id].received))
      else offset + |chunk| > s.uploads[id].size ==> r == Failed(Invalid, None)
  {
    hide ChecksumMatches, Store;
  }

  /** How the other requests are refused. */
  lemma OtherRefusals(s: Server, session: Session, id: Id, io: Outcome)
    requires s.session == Some(session) && !Answered(s, session, id)
    ensures id !in s.uploads ==> Serve(s, session, id, Progress, io).1 == Failed(NotFound, None) == Serve(s, session, id, Cancel, io).1
    ensures s.enabled && id !in s.uploads ==> Serve(s, session, id, Complete, io).1 == Failed(NotFound, None)
    ensures s.enabled && IsOpen(s, session, id) && s.uploads[id].received != s.uploads[id].size ==>
      Serve(s, session, id, Complete, io).1 == Failed(Conflict, Some(s.uploads[id].received))
    ensures IsOpen(s, session, id) ==> Serve(s, session, id, Cancel, io).1 == Canceled
    ensures !s.enabled ==> Serve(s, session, id, Complete, io).1 == Failed(Disabled, None)
  {
    hide Publish;
  }

  /** And the creations, the first reason that applies. */
  lemma CreationRefusals(s: Server, session: Session, id: Id, name: Option<string>, mime: string, size: nat, io: Outcome)
    ensures var r := Serve(s, session, id, Create(name, mime, size), io).1;
      if s.session != Some(session) then r == Failed(Unauthorized, None)
      else if !s.enabled then r == Failed(Disabled, None)
      else if size > s.maxSize then r == Failed(TooLarge, None)
      else if name.None? then r == Failed(Invalid, None)
      else if id in s.uploads then r.Created? || r == Failed(Conflict, None)
      else if |s.uploads| >= 32 then r == Failed(Conflict, None)
      else r.Created? || r == Failed(Io, None)
  {
  }

  // ----- the books -----

  /** Records opened that are neither live nor counted as completed or cancelled. */
  function Balance(s: Server): int { s.created - |s.uploads| - s.uploadsCompleted - s.canceled }

  lemma OneLess<V>(m: map<Id, V>, id: Id)
    requires id in m
    ensures |m - {id}| == |m| - 1
  {
    assert m == (m - {id})[id := m[id]];
  }

  lemma FewerRecords<V>(m: map<Id, V>, ids: set<Id>)
    requires ids <= m.Keys
    ensures |m - ids| == |m| - |ids|
  {
    assert (m - ids).Keys == m.Keys - ids;
    assert m.Keys == (m.Keys - ids) + ids;
  }

  lemma ServeBalances(s: Server, session: Session, id: Id, request: Request, io: Outcome)
    ensures Balance(Serve(s, session, id, request, io).0) == Balance(s)
  {
    hide ChecksumMatches, FindTicket, UniqueDestination, Checksum, WrittenAt;
    if id in s.uploads { OneLess(s.uploads, id); }
  }

  lemma StepBalances(w: World, e: Event)
    requires !e.RestartProcess?
    ensures Balance(Apply(w, e).server) == Balance(w.server)
  {
    hide Serve, WithoutSession;
    match e
    case Deliver(m, payload, io) => ServeBalances(w.server, m.session, m.id, Arriving(m.request, payload), io);
    case EndPairing =>
      if w.server.session.Some? { FewerRecords(w.server.uploads, OfSession(w.server.uploads, w.server.session.value)); }
    case _ =>
  }

  /** Every record that is opened while the process runs is live, or was counted once, as completed or as
      cancelled. */
  lemma {:induction false} EveryRecordIsCounted(w: World, events: seq<Event>)
    requires forall e :: e in events ==> !e.RestartProcess?
    ensures var s, s' := w.server, Run(w, events).server;
      s'.created - s.created == (|s'.uploads| - |s.uploads|) + (s'.uploadsCompleted - s.uploadsCompleted) + (s'.canceled - s.canceled)
    decreases |events|
  {
    hide Apply;
    if events != [] {
      StepBalances(w, events[0]);
      EveryRecordIsCounted(Apply(w, events[0]), events[1..]);
    }
  }
}
