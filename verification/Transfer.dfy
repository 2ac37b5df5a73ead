/** The upload side of `FileTransferManager` as a state and the step each request takes on it. One
    manager call is one step; what the disk does is the argument `io`. */
module Transfer {
  import opened Bytes
  import Fips

  const CHUNK_SIZE := 0x10_0000
  const MAX_ACTIVE_UPLOADS := 32
  const MAX_TICKETS := 100

  type Id = nat
  type Session = nat

  /** The hexadecimal SHA-256 of some bytes; FIPS 180-4 defines none from 2^61 bytes on. */
  function Checksum(m: seq<U8>): string {
    if |m| < 0x2000_0000_0000_0000 then Fips.Sha256Hex(m) else ""
  }

  /** An upload in progress. `incarnation` numbers the records ever created: an identifier can come
      back, a record cannot. */
  datatype Record = Record(
    incarnation: nat, session: Session, name: string, mime: string, size: nat, received: nat)

  /** The answer to a finished upload. */
  datatype Ticket = Ticket(session: Session, id: Id, name: string, size: nat, sha256: string)

  /** An entry of the history of published files. */
  datatype Publication = Publication(incarnation: nat, id: Id, name: string, bytes: seq<U8>)

  datatype Server = Server(
    enabled: bool,
    maxSize: nat,
    session: Option<Session>,
    uploads: map<Id, Record>,
    staging: map<Id, seq<U8>>,
    inbox: map<string, seq<U8>>,
    tickets: seq<Ticket>,
    uploadsCompleted: nat,
    canceled: nat,
    created: nat,
    published: seq<Publication>)

  datatype Request =
    | Create(name: Option<string>, mime: string, size: nat)
    | Put(offset: nat, chunk: seq<U8>, sha256: string)
    | Progress
    | Complete
    | Cancel

  datatype Kind = Disabled | Unauthorized | NotFound | Invalid | TooLarge | Conflict | Io

  datatype Response =
    | Created(name: string, size: nat, uploaded: nat)
    | Progressed(uploaded: nat, total: nat)
    | Completed(ticket: Ticket)
    | Canceled
    | Failed(kind: Kind, expected: Option<nat>)

  /** What the disk and the pacing do during a step: everything works, an operation fails after
      `written` bytes of the chunk are in the file, or the chunk is written and accounted for but
      pacing then refuses to go on. `fallback` is the name with a fresh UUID in it. */
  datatype Outcome = Outcome(disk: Disk, fallback: string)
  datatype Disk = Works | Breaks(written: nat) | PacingStops(kind: Kind)

  type Answer = (Server, Response)

  function Refuse(s: Server, kind: Kind): Answer { (s, Failed(kind, None)) }

  // ----- create -----

  function CreateStep(s: Server, session: Session, id: Id, name: Option<string>, mime: string, size: nat, io: Outcome): Answer {
    if !s.enabled then Refuse(s, Disabled)
    else if s.session != Some(session) then Refuse(s, Unauthorized)
    else if size > s.maxSize then Refuse(s, TooLarge)
    else if name.None? then Refuse(s, Invalid)
    else if id in s.uploads then
      var r := s.uploads[id];
      if r.session == session && r.name == name.value && r.mime == mime && r.size == size
      then (s, Created(r.name, r.size, r.received))
      else Refuse(s, Conflict)
    else if |s.uploads| >= MAX_ACTIVE_UPLOADS then Refuse(s, Conflict)
    else if id in s.staging || !io.disk.Works? then Refuse(s, Io)
    else
      (s.(uploads := s.uploads[id := Record(s.created, session, name.value, mime, size, 0)],
          staging := s.staging[id := []],
          created := s.created + 1),
       Created(name.value, size, 0))
  }

  // ----- lookup -----

  /** The stored answer of a finished upload, the most recent one first. */
  function FindTicket(tickets: seq<Ticket>, session: Session, id: Id): (t: Option<Ticket>)
    ensures t.Some? ==> t.value in tickets && t.value.session == session && t.value.id == id
    ensures t.None? ==> forall k :: 0 <= k < |tickets| ==> !(tickets[k].session == session && tickets[k].id == id)
  {
    if tickets == [] then None
    else if tickets[0].session == session && tickets[0].id == id then Some(tickets[0])
    else FindTicket(tickets[1..], session, id)
  }

  function RecordError(s: Server, session: Session, id: Id): Option<Kind> {
    if id !in s.uploads then Some(NotFound)
    else if s.uploads[id].session != session then Some(Unauthorized)
    else None
  }

  function ProgressStep(s: Server, session: Session, id: Id): Answer {
    var ticket := FindTicket(s.tickets, session, id);
    if ticket.Some? then (s, Progressed(ticket.value.size, ticket.value.size))
    else if RecordError(s, session, id).Some? then Refuse(s, RecordError(s, session, id).value)
    else (s, Progressed(s.uploads[id].received, s.uploads[id].size))
  }

  // ----- write -----

  function Lower(c: char): char { if 'A' <= c <= 'Z' then (c as int + 32) as char else c }

  predicate EqualIgnoringCase(a: string, b: string) {
    |a| == |b| && forall i :: 0 <= i < |a| ==> Lower(a[i]) == Lower(b[i])
  }

  predicate ChecksumMatches(chunk: seq<U8>, expected: string) {
    |expected| == 64 && EqualIgnoringCase(Checksum(chunk), expected)
  }

  /** A file after `bytes` were written at `offset`. */
  function WrittenAt(file: seq<U8>, offset: nat, bytes: seq<U8>): seq<U8>
    requires offset <= |file|
  {
    file[..offset] + bytes + (if offset + |bytes| <= |file| then file[offset + |bytes|..] else [])
  }

  function Min(a: nat, b: nat): nat { if a <= b then a else b }

  /** An accepted chunk on its way to the part file. */
  function Store(s: Server, id: Id, chunk: seq<U8>, disk: Disk): Answer
    requires id in s.uploads
  {
    var r := s.uploads[id];
    if id !in s.staging || r.received > |s.staging[id]| then Refuse(s, Io)
    else if disk.Breaks? then
      var written := chunk[..Min(disk.written, |chunk|)];
      (s.(staging := s.staging[id := WrittenAt(s.staging[id], r.received, written)]), Failed(Io, None))
    else
      var next := r.received + |chunk|;
      (s.(staging := s.staging[id := WrittenAt(s.staging[id], r.received, chunk)],
          uploads := s.uploads[id := r.(received := next)]),
       if disk.PacingStops? then Failed(disk.kind, None) else Progressed(next, r.size))
  }

  function PutStep(s: Server, session: Session, id: Id, offset: nat, chunk: seq<U8>, sha256: string, io: Outcome): Answer {
    if !s.enabled then Refuse(s, Disabled)
    else if s.session != Some(session) then Refuse(s, Unauthorized)
    else if |chunk| > CHUNK_SIZE then Refuse(s, TooLarge)
    else if !ChecksumMatches(chunk, sha256) then (s, Failed(Conflict, Some(offset)))
    else if RecordError(s, session, id).Some? then Refuse(s, RecordError(s, session, id).value)
    else if offset != s.uploads[id].received then (s, Failed(Conflict, Some(s.uploads[id].received)))
    else if offset + |chunk| > s.uploads[id].size then Refuse(s, Invalid)
    else Store(s, id, chunk, io.disk)
  }

  // ----- complete -----

  /** `Path::file_stem` and `Path::extension` of a plain file name: the last dot splits it, unless it
      is the first character. */
  function LastDot(name: string): (k: int)
    ensures -1 <= k < |name|
  {
    if name == "" then -1
    else if name[|name| - 1] == '.' then |name| - 1
    else LastDot(name[..|name| - 1])
  }

  function Decimal(n: nat): string {
    if n < 10 then [('0' as int + n) as char] else Decimal(n / 10) + [('0' as int + n % 10) as char]
  }

  function Candidate(name: string, suffix: nat): string {
    var dot := LastDot(name);
    if dot <= 0 then name + " (" + Decimal(suffix) + ")"
    else name[..dot] + " (" + Decimal(suffix) + ")" + name[dot..]
  }

  const LAST_SUFFIX := 100_000

  /** The first numbered name from `suffix` on that is not taken. */
  function NumberedDestination(taken: set<string>, name: string, suffix: nat, fallback: string): (d: string)
    ensures d in taken ==> d == fallback
    decreases LAST_SUFFIX - suffix
  {
    if suffix >= LAST_SUFFIX then fallback
    else if Candidate(name, suffix) !in taken then Candidate(name, suffix)
    else NumberedDestination(taken, name, suffix + 1, fallback)
  }

  function UniqueDestination(taken: set<string>, name: string, fallback: string): (d: string)
    ensures d in taken ==> d == fallback
  {
    if name !in taken then name else NumberedDestination(taken, name, 1, fallback)
  }

  function Truncated(tickets: seq<Ticket>): (t: seq<Ticket>)
    ensures |t| <= MAX_TICKETS
  {
    if |tickets| <= MAX_TICKETS then tickets else tickets[..MAX_TICKETS]
  }

  /** The rename into the inbox and everything recorded with it. */
  function Publish(s: Server, session: Session, id: Id, fallback: string): Answer
    requires id in s.uploads && id in s.staging
  {
    var r, bytes := s.uploads[id], s.staging[id];
    var name := UniqueDestination(s.inbox.Keys, r.name, fallback);
    var ticket := Ticket(session, id, name, r.size, Checksum(bytes));
    (s.(uploads := s.uploads - {id},
        staging := s.staging - {id},
        inbox := s.inbox[name := bytes],
        tickets := Truncated([ticket] + s.tickets),
        uploadsCompleted := s.uploadsCompleted + 1,
        published := s.published + [Publication(r.incarnation, id, name, bytes)]),
     Completed(ticket))
  }

  function CompleteStep(s: Server, session: Session, id: Id, io: Outcome): Answer {
    if !s.enabled then Refuse(s, Disabled)
    else if s.session != Some(session) then Refuse(s, Unauthorized)
    else
      var ticket := FindTicket(s.tickets, session, id);
      if ticket.Some? then (s, Completed(ticket.value))
      else if RecordError(s, session, id).Some? then Refuse(s, RecordError(s, session, id).value)
      else if s.uploads[id].received != s.uploads[id].size then (s, Failed(Conflict, Some(s.uploads[id].received)))
      else if id !in s.staging || !io.disk.Works? then Refuse(s, Io)
      else Publish(s, session, id, io.fallback)
  }

  // ----- cancel -----

  function CancelStep(s: Server, session: Session, id: Id): Answer {
    if FindTicket(s.tickets, session, id).Some? then (s, Canceled)
    else if RecordError(s, session, id).Some? then Refuse(s, RecordError(s, session, id).value)
    else (s.(uploads := s.uploads - {id}, staging := s.staging - {id}, canceled := s.canceled + 1), Canceled)
  }

  function OfSession(uploads: map<Id, Record>, session: Session): (ids: set<Id>)
    ensures ids <= uploads.Keys
  {
    set id | id in uploads && uploads[id].session == session
  }

  function WithoutSession(tickets: seq<Ticket>, session: Session): (r: seq<Ticket>)
    ensures |r| <= |tickets|
    ensures forall t :: t in r <==> t in tickets && t.session != session
  {
    if tickets == [] then []
    else (if tickets[0].session == session then [] else [tickets[0]]) + WithoutSession(tickets[1..], session)
  }

  /** `cancel_session_uploads`. */
  function CancelSession(s: Server, session: Session): Server {
    var ids := OfSession(s.uploads, session);
    s.(uploads := s.uploads - ids,
       staging := s.staging - ids,
       tickets := WithoutSession(s.tickets, session),
       canceled := s.canceled + |ids|)
  }

  // ----- one HTTP request -----

  /** The session check of the HTTP layer, then the manager. */
  function Serve(s: Server, session: Session, id: Id, request: Request, io: Outcome): Answer {
    if s.session != Some(session) then Refuse(s, Unauthorized)
    else
      match request
      case Create(name, mime, size) => CreateStep(s, session, id, name, mime, size, io)
      case Put(offset, chunk, sha256) => PutStep(s, session, id, offset, chunk, sha256, io)
      case Progress => ProgressStep(s, session, id)
      case Complete => CompleteStep(s, session, id, io)
      case Cancel => CancelStep(s, session, id)
  }

  /** A pairing ends: its uploads are cancelled and its token is void. */
  function EndSession(s: Server): Server {
    if s.session.None? then s else CancelSession(s, s.session.value).(session := None)
  }

  /** The process starts again over the same directories: memory is lost, staged parts are removed. */
  function Restart(s: Server): Server {
    s.(session := None, uploads := map[], staging := map[], tickets := [], uploadsCompleted := 0, canceled := 0)
  }
}
