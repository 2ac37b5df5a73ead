/** The upload protocol over every run: clients send honest requests for their own files; the network
    loses, repeats, delays and reorders them and may damage the bytes of a chunk; the disk fails at any
    point; pairings end and the process restarts. `files` tells which file each identifier stands for. */
module TransferWorld {
  import opened Bytes
  import opened Transfer

  type Files = Id -> seq<U8>
  type Inbox = map<string, seq<U8>>

  datatype Message = Message(session: Session, id: Id, request: Request)

  datatype World = World(server: Server, sent: set<Message>)

  /** Delivering does not use a message up: what was sent can arrive any number of times, or never. */
  datatype Event =
    | Send(message: Message)
    | Deliver(message: Message, payload: seq<U8>, io: Outcome)
    | Configure(enabled: bool, maxSize: nat)
    | Pair(session: Session)
    | EndPairing
    | RestartProcess

  /** A client asks for its own file: its size, its bytes at the offset it names, their checksum. */
  predicate Honest(m: Message, files: Files) {
    match m.request
    case Create(_, _, size) => size == |files(m.id)|
    case Put(offset, chunk, sha256) =>
      offset + |chunk| <= |files(m.id)| && chunk == files(m.id)[offset..offset + |chunk|] && sha256 == Checksum(chunk)
    case _ => true
  }

  /** What arrives when the bytes of a chunk become `payload` on the way. */
  function Arriving(request: Request, payload: seq<U8>): Request {
    if request.Put? then request.(chunk := payload) else request
  }

  /** Damage never hits another input with the same SHA-256, and UUIDs are fresh. */
  predicate Possible(w: World, e: Event, files: Files) {
    match e
    case Send(m) => Honest(m, files)
    case Deliver(m, payload, io) =>
      && m in w.sent
      && (m.request.Put? ==> payload == m.request.chunk || Checksum(payload) != Checksum(m.request.chunk))
      && io.fallback !in w.server.inbox
    case Pair(_) => w.server.session.None?
    case _ => true
  }

  function Apply(w: World, e: Event): World {
    match e
    case Send(m) => w.(sent := w.sent + {m})
    case Deliver(m, payload, io) => w.(server := Serve(w.server, m.session, m.id, Arriving(m.request, payload), io).0)
    case Configure(enabled, maxSize) => w.(server := w.server.(enabled := enabled, maxSize := maxSize))
    case Pair(session) => w.(server := w.server.(session := Some(session)))
    case EndPairing => w.(server := EndSession(w.server))
    case RestartProcess => w.(server := Restart(w.server))
  }

  function Run(w: World, events: seq<Event>): World
    decreases |events|
  {
    if events == [] then w else Run(Apply(w, events[0]), events[1..])
  }

  predicate PossibleRun(w: World, events: seq<Event>, files: Files)
    decreases |events|
  {
    events == [] || (Possible(w, events[0], files) && PossibleRun(Apply(w, events[0]), events[1..], files))
  }

  /** The process has just started over an inbox that may hold anything. */
  predicate Start(w: World, inbox: Inbox) {
    && w.sent == {}
    && w.server.inbox == inbox
    && w.server.session.None? && w.server.uploads == map[] && w.server.staging == map[]
    && w.server.tickets == [] && w.server.published == []
  }

  // ----- what every reachable state satisfies -----

  /** Part files and live records go together, and there are never more than 32. */
  predicate Staged(s: Server) { s.staging.Keys == s.uploads.Keys && |s.uploads| <= MAX_ACTIVE_UPLOADS }

  /** The part file is a prefix of the client's file, at least as long as the server believes. */
  predicate IsPart(file: seq<U8>, r: Record, part: seq<U8>) {
    r.size == |file| && r.received <= |part| <= |file| && part == file[..|part|]
  }

  predicate Parts(s: Server, files: Files) {
    forall id :: id in s.uploads && id in s.staging ==> IsPart(files(id), s.uploads[id], s.staging[id])
  }

  /** Records and stored answers belong to the current pairing. */
  predicate Owned(s: Server) {
    && (forall id :: id in s.uploads ==> s.session == Some(s.uploads[id].session))
    && (forall t :: t in s.tickets ==> s.session == Some(t.session))
  }

  /** No two live records, and no live and published one, are the same record. */
  predicate Incarnations(s: Server) {
    && (forall id :: id in s.uploads ==> s.uploads[id].incarnation < s.created)
    && (forall i, j :: i in s.uploads && j in s.uploads && i != j ==> s.uploads[i].incarnation != s.uploads[j].incarnation)
    && (forall p :: p in s.published ==> p.incarnation < s.created)
    && (forall p, id :: p in s.published && id in s.uploads ==> p.incarnation != s.uploads[id].incarnation)
  }

  /** Each record is published at most once, each name used at most once. */
  predicate PublishedOnce(published: seq<Publication>) {
    forall i, j :: 0 <= i < j < |published| ==>
      published[i].incarnation != published[j].incarnation && published[i].name != published[j].name
  }

  /** A published file is the client's whole file, under a name that was free. */
  predicate IsWhole(p: Publication, s: Server, files: Files, inbox: Inbox) {
    p.bytes == files(p.id) && p.name in s.inbox && s.inbox[p.name] == p.bytes && p.name !in inbox
  }

  /** The inbox is what it was at the start, with the published files added. */
  predicate InboxGrew(s: Server, files: Files, inbox: Inbox) {
    && (forall n :: n in inbox ==> n in s.inbox && s.inbox[n] == inbox[n])
    && (forall p :: p in s.published ==> IsWhole(p, s, files, inbox))
    && (forall n :: n in s.inbox ==> n in inbox || exists p :: p in s.published && p.name == n)
  }

  /** A stored answer tells the truth about a published file. */
  predicate TellsTruth(t: Ticket, s: Server, files: Files) {
    && t.size == |files(t.id)| && t.sha256 == Checksum(files(t.id))
    && exists p :: p in s.published && p.id == t.id && p.name == t.name
  }

  predicate TicketsTrue(s: Server, files: Files) {
    |s.tickets| <= MAX_TICKETS && forall t :: t in s.tickets ==> TellsTruth(t, s, files)
  }

  /** What holds of the uploads in progress. */
  predicate LiveSafe(s: Server, files: Files) { Staged(s) && Parts(s, files) && Owned(s) && Incarnations(s) }

  /** What holds of everything published so far. */
  predicate PastSafe(s: Server, files: Files, inbox: Inbox) {
    PublishedOnce(s.published) && InboxGrew(s, files, inbox) && TicketsTrue(s, files)
  }

  predicate Safe(s: Server, files: Files, inbox: Inbox) { LiveSafe(s, files) && PastSafe(s, files, inbox) }

  predicate AllHonest(sent: set<Message>, files: Files) { forall m :: m in sent ==> Honest(m, files) }

  // ----- every step keeps it -----

  lemma SmallerMap<K, V>(m: map<K, V>, n: map<K, V>)
    requires n.Keys <= m.Keys
    ensures |n| <= |m|
  {
    SmallerSet(n.Keys, m.Keys);
  }

  lemma {:induction false} SmallerSet<K>(a: set<K>, b: set<K>)
    requires a <= b
    ensures |a| <= |b|
  {
    if a != {} {
      var x :| x in a;
      SmallerSet(a - {x}, b - {x});
    }
  }

  /** What is said about the past depends on the inbox, the history and the stored answers only. */
  lemma SamePast(s: Server, s': Server, files: Files, inbox: Inbox)
    requires PastSafe(s, files, inbox)
    requires s'.inbox == s.inbox && s'.published == s.published
    requires |s'.tickets| <= |s.tickets| && forall t :: t in s'.tickets ==> t in s.tickets
    ensures PastSafe(s', files, inbox)
  {
    forall p | p in s'.published ensures IsWhole(p, s', files, inbox) { assert IsWhole(p, s, files, inbox); }
    forall t | t in s'.tickets ensures TellsTruth(t, s', files) { assert TellsTruth(t, s, files); }
  }

  lemma IncarnationsKeep(s: Server, s': Server, id: Id, r: Record)
    requires Incarnations(s)
    requires s'.uploads == s.uploads[id := r] && s'.published == s.published
    requires if id in s.uploads then r.incarnation == s.uploads[id].incarnation && s'.created == s.created
             else r.incarnation == s.created && s'.created == s.created + 1
    ensures Incarnations(s')
  {
  }

  lemma OwnedKeeps(s: Server, s': Server, id: Id, r: Record)
    requires Owned(s) && s'.uploads == s.uploads[id := r]
    requires s'.tickets == s.tickets && s'.session == s.session == Some(r.session)
    ensures Owned(s')
  {
  }

  lemma PartsKeep(s: Server, s': Server, id: Id, r: Record, part: seq<U8>, files: Files)
    requires Parts(s, files) && IsPart(files(id), r, part)
    requires s'.uploads == s.uploads[id := r] && s'.staging == s.staging[id := part]
    requires s.staging.Keys == s.uploads.Keys
    ensures Parts(s', files)
  {
    hide IsPart;
    forall other | other in s'.uploads && other in s'.staging
      ensures IsPart(files(other), s'.uploads[other], s'.staging[other])
    {
    }
  }

  lemma KeysGrow(uploads: map<Id, Record>, staging: map<Id, seq<U8>>, id: Id, r: Record, part: seq<U8>)
    requires staging.Keys == uploads.Keys
    ensures staging[id := part].Keys == uploads[id := r].Keys
  {
    assert staging[id := part].Keys == staging.Keys + {id} == uploads[id := r].Keys;
  }

  /** Adding a new record, or moving on an old one. */
  lemma RecordKeeps(s: Server, s': Server, id: Id, r: Record, part: seq<U8>, files: Files)
    requires LiveSafe(s, files)
    requires s'.uploads == s.uploads[id := r] && s'.staging == s.staging[id := part]
    requires s'.tickets == s.tickets && s'.published == s.published && s'.session == s.session == Some(r.session)
    requires |s'.uploads| <= MAX_ACTIVE_UPLOADS && IsPart(files(id), r, part)
    requires if id in s.uploads then r.incarnation == s.uploads[id].incarnation && s'.created == s.created
             else r.incarnation == s.created && s'.created == s.created + 1
    ensures LiveSafe(s', files)
  {
    hide Parts, Incarnations, IsPart, Owned;
    IncarnationsKeep(s, s', id, r);
    PartsKeep(s, s', id, r, part, files);
    OwnedKeeps(s, s', id, r);
    KeysGrow(s.uploads, s.staging, id, r, part);
  }

  lemma CreateKeeps(s: Server, session: Session, id: Id, name: Option<string>, mime: string, io: Outcome,
                    files: Files, inbox: Inbox)
    requires Safe(s, files, inbox)
    ensures Safe(CreateStep(s, session, id, name, mime, |files(id)|, io).0, files, inbox)
  {
    hide LiveSafe, PastSafe;
    var s' := CreateStep(s, session, id, name, mime, |files(id)|, io).0;
    if s' != s {
      RecordKeeps(s, s', id, Record(s.created, session, name.value, mime, |files(id)|, 0), [], files);
      SamePast(s, s', files, inbox);
    }
  }

  lemma WrittenPrefix(file: seq<U8>, part: seq<U8>, offset: nat, bytes: seq<U8>)
    requires |part| <= |file| && part == file[..|part|] && offset <= |part|
    requires offset + |bytes| <= |file| && bytes == file[offset..offset + |bytes|]
    ensures var after := WrittenAt(part, offset, bytes);
      |part| <= |after| <= |file| && offset + |bytes| <= |after| && after == file[..|after|]
  {
  }

  /** What reaches the part file of a chunk of the right bytes, whether all of it was written or not. */
  function Stored(chunk: seq<U8>, disk: Disk): seq<U8> {
    if disk.Breaks? then chunk[..Min(disk.written, |chunk|)] else chunk
  }

  lemma StoredPart(file: seq<U8>, r: Record, part: seq<U8>, chunk: seq<U8>, disk: Disk)
    requires IsPart(file, r, part)
    requires r.received + |chunk| <= |file| && chunk == file[r.received..r.received + |chunk|]
    ensures var after := WrittenAt(part, r.received, Stored(chunk, disk));
      IsPart(file, if disk.Breaks? then r else r.(received := r.received + |chunk|), after)
  {
    var written := Stored(chunk, disk);
    assert written == file[r.received..r.received + |written|];
    WrittenPrefix(file, part, r.received, written);
  }

  lemma StoreKeeps(s: Server, id: Id, chunk: seq<U8>, disk: Disk, files: Files, inbox: Inbox)
    requires Safe(s, files, inbox) && id in s.uploads
    requires var at := s.uploads[id].received; at + |chunk| <= |files(id)| && chunk == files(id)[at..at + |chunk|]
    ensures Safe(Store(s, id, chunk, disk).0, files, inbox)
  {
    hide LiveSafe, PastSafe, WrittenAt, IsPart;
    var s' := Store(s, id, chunk, disk).0;
    LiveRecord(s, id, files);
    var r, part := s.uploads[id], s.staging[id];
    if r.received <= |part| {
      StoredPart(files(id), r, part, chunk, disk);
      var r' := if disk.Breaks? then r else r.(received := r.received + |chunk|);
      assert s'.uploads == s.uploads[id := r'];
      assert s'.uploads.Keys == s.uploads.Keys;
      SmallerMap(s.uploads, s'.uploads);
      RecordKeeps(s, s', id, r', WrittenAt(part, r.received, Stored(chunk, disk)), files);
      SamePast(s, s', files, inbox);
    }
  }

  lemma LiveRecord(s: Server, id: Id, files: Files)
    requires LiveSafe(s, files) && id in s.uploads
    ensures |s.uploads| <= MAX_ACTIVE_UPLOADS && id in s.staging && s.session == Some(s.uploads[id].session)
    ensures IsPart(files(id), s.uploads[id], s.staging[id])
  {
  }

  lemma HexIgnoresCase(a: string, b: string)
    requires forall c :: c in a ==> c in "0123456789abcdef"
    requires forall c :: c in b ==> c in "0123456789abcdef"
    requires EqualIgnoringCase(a, b)
    ensures a == b
  {
    forall i | 0 <= i < |a| ensures a[i] == b[i] {
      assert a[i] in a && b[i] in b;
      assert Lower(a[i]) == a[i] && Lower(b[i]) == b[i];
    }
  }

  lemma MatchingChecksumIsEqual(payload: seq<U8>, chunk: seq<U8>)
    requires ChecksumMatches(payload, Checksum(chunk))
    ensures Checksum(payload) == Checksum(chunk)
  {
    HexIgnoresCase(Checksum(payload), Checksum(chunk));
  }

  /** A damaged chunk is never stored. */
  lemma PutKeeps(s: Server, session: Session, id: Id, offset: nat, chunk: seq<U8>, payload: seq<U8>, io: Outcome,
                 files: Files, inbox: Inbox)
    requires Safe(s, files, inbox)
    requires Honest(Message(session, id, Put(offset, chunk, Checksum(chunk))), files)
    requires payload == chunk || Checksum(payload) != Checksum(chunk)
    ensures Safe(PutStep(s, session, id, offset, payload, Checksum(chunk), io).0, files, inbox)
  {
    hide Safe, Store, ChecksumMatches, Checksum;
    if ChecksumMatches(payload, Checksum(chunk)) {
      MatchingChecksumIsEqual(payload, chunk);
      if id in s.uploads && offset == s.uploads[id].received {
        StoreKeeps(s, id, chunk, io.disk, files, inbox);
      }
    }
  }

  /** A file that has just been moved into the inbox under a free name. */
  lemma InboxWithFile(s: Server, s': Server, p: Publication, files: Files, inbox: Inbox)
    requires InboxGrew(s, files, inbox) && p.name !in s.inbox && p.bytes == files(p.id)
    requires s'.inbox == s.inbox[p.name := p.bytes] && s'.published == s.published + [p]
    ensures InboxGrew(s', files, inbox)
  {
    forall q | q in s'.published ensures IsWhole(q, s', files, inbox) {
      assert q == p || IsWhole(q, s, files, inbox);
    }
    assert p in s'.published && forall q :: q in s.published ==> q in s'.published;
    forall n | n in s'.inbox ensures n in inbox || exists q :: q in s'.published && q.name == n {
      if n == p.name { assert p.name == n; } else { assert n in s.inbox; }
    }
  }

  lemma OnceMore(published: seq<Publication>, p: Publication)
    requires PublishedOnce(published)
    requires forall q :: q in published ==> q.incarnation != p.incarnation && q.name != p.name
    ensures PublishedOnce(published + [p])
  {
  }

  lemma TruthWithFile(s: Server, s': Server, p: Publication, t: Ticket, files: Files)
    requires TicketsTrue(s, files) && s'.published == s.published + [p]
    requires s'.tickets == Truncated([t] + s.tickets)
    requires p.id == t.id && p.name == t.name && t.size == |files(t.id)| && t.sha256 == Checksum(files(t.id))
    ensures TicketsTrue(s', files)
  {
    hide Checksum;
    forall u | u in s'.tickets ensures TellsTruth(u, s', files) {
      assert p in s'.published && forall q :: q in s.published ==> q in s'.published;
      assert u == t || (u in s.tickets && TellsTruth(u, s, files));
    }
  }

  lemma PublishKeepsPast(s: Server, session: Session, id: Id, fallback: string, files: Files, inbox: Inbox)
    requires Safe(s, files, inbox) && id in s.uploads && s.uploads[id].received == s.uploads[id].size
    requires fallback !in s.inbox
    ensures PastSafe(Publish(s, session, id, fallback).0, files, inbox)
  {
    var r, bytes := s.uploads[id], s.staging[id];
    assert IsPart(files(id), r, bytes);
    assert bytes == files(id);
    var s' := Publish(s, session, id, fallback).0;
    var name := UniqueDestination(s.inbox.Keys, r.name, fallback);
    var p := Publication(r.incarnation, id, name, bytes);
    forall q | q in s.published ensures q.incarnation != r.incarnation && q.name != name {
      assert IsWhole(q, s, files, inbox);
    }
    hide InboxGrew, PublishedOnce, TicketsTrue, LiveSafe, Checksum, UniqueDestination;
    InboxWithFile(s, s', p, files, inbox);
    OnceMore(s.published, p);
    TruthWithFile(s, s', p, Ticket(session, id, name, r.size, Checksum(bytes)), files);
  }

  lemma PublishedIncarnation(s: Server, s': Server, id: Id)
    requires Incarnations(s) && id in s.uploads && s'.created == s.created
    requires s'.uploads == s.uploads - {id} && |s'.published| == |s.published| + 1
    requires s'.published[..|s.published|] == s.published
    requires s'.published[|s.published|].incarnation == s.uploads[id].incarnation
    ensures Incarnations(s')
  {
    assert forall p :: p in s'.published ==> p in s.published || p == s'.published[|s.published|];
  }

  lemma PublishKeepsLive(s: Server, session: Session, id: Id, fallback: string, files: Files)
    requires LiveSafe(s, files) && id in s.uploads && s.session == Some(session)
    ensures LiveSafe(Publish(s, session, id, fallback).0, files)
  {
    hide UniqueDestination, Checksum, IsPart, Incarnations;
    var s' := Publish(s, session, id, fallback).0;
    SmallerMap(s.uploads, s'.uploads);
    assert forall t :: t in s'.tickets ==> t in s.tickets || t.session == session;
    PublishedIncarnation(s, s', id);
  }

  lemma CompleteKeeps(s: Server, session: Session, id: Id, io: Outcome, files: Files, inbox: Inbox)
    requires Safe(s, files, inbox) && io.fallback !in s.inbox
    ensures Safe(CompleteStep(s, session, id, io).0, files, inbox)
  {
    hide Publish, LiveSafe, PastSafe;
    var s' := CompleteStep(s, session, id, io).0;
    if s' != s {
      PublishKeepsPast(s, session, id, io.fallback, files, inbox);
      PublishKeepsLive(s, session, id, io.fallback, files);
    }
  }

  /** Removing records, with their parts, and stored answers. */
  lemma RemovalKeeps(s: Server, s': Server, files: Files, inbox: Inbox)
    requires Safe(s, files, inbox)
    requires s'.inbox == s.inbox && s'.published == s.published && s'.created == s.created
    requires s'.staging.Keys == s'.uploads.Keys <= s.uploads.Keys
    requires forall id :: id in s'.uploads ==> s'.uploads[id] == s.uploads[id] && s'.staging[id] == s.staging[id]
    requires |s'.tickets| <= |s.tickets| && forall t :: t in s'.tickets ==> t in s.tickets
    requires Owned(s')
    ensures Safe(s', files, inbox)
  {
    hide LiveSafe, PastSafe, Owned;
    RemovalKeepsLive(s, s', files);
    SamePast(s, s', files, inbox);
  }

  lemma RemovalKeepsLive(s: Server, s': Server, files: Files)
    requires LiveSafe(s, files) && Owned(s')
    requires s'.published == s.published && s'.created == s.created
    requires s'.staging.Keys == s'.uploads.Keys <= s.uploads.Keys
    requires forall id :: id in s'.uploads ==> s'.uploads[id] == s.uploads[id] && s'.staging[id] == s.staging[id]
    ensures LiveSafe(s', files)
  {
    hide IsPart, Owned;
    SmallerMap(s.uploads, s'.uploads);
  }

  lemma CancelKeeps(s: Server, session: Session, id: Id, files: Files, inbox: Inbox)
    requires Safe(s, files, inbox)
    ensures Safe(CancelStep(s, session, id).0, files, inbox)
  {
    hide PastSafe, Parts, Incarnations;
    var s' := CancelStep(s, session, id).0;
    if s' != s {
      RemovalKeeps(s, s', files, inbox);
    }
  }

  lemma FirstIsMember<T>(s: seq<T>)
    ensures s == [] || s[0] in s
  {
  }

  /** Without a pairing there are no records and no stored answers. */
  lemma NothingWithoutPairing(s: Server)
    requires Owned(s) && s.session.None?
    ensures s.uploads == map[] && s.tickets == []
  {
    assert forall id :: id !in s.uploads;
    FirstIsMember(s.tickets);
  }

  lemma EndSessionKeeps(s: Server, files: Files, inbox: Inbox)
    requires Safe(s, files, inbox)
    ensures Safe(EndSession(s), files, inbox)
    ensures EndSession(s).uploads == map[] && EndSession(s).tickets == []
  {
    hide PastSafe, Parts, Incarnations;
    if s.session.Some? {
      var s' := EndSession(s);
      assert OfSession(s.uploads, s.session.value) == s.uploads.Keys;
      assert s'.uploads == map[] && s'.staging == map[];
      FirstIsMember(s'.tickets);
      RemovalKeeps(s, s', files, inbox);
    } else {
      NothingWithoutPairing(s);
    }
  }

  lemma DeliveryKeeps(s: Server, m: Message, payload: seq<U8>, io: Outcome, files: Files, inbox: Inbox)
    requires Safe(s, files, inbox) && Honest(m, files) && io.fallback !in s.inbox
    requires m.request.Put? ==> payload == m.request.chunk || Checksum(payload) != Checksum(m.request.chunk)
    ensures Safe(Serve(s, m.session, m.id, Arriving(m.request, payload), io).0, files, inbox)
  {
    hide Safe, CreateStep, PutStep, CompleteStep, CancelStep, Checksum;
    match m.request
    case Create(name, mime, size) => CreateKeeps(s, m.session, m.id, name, mime, io, files, inbox);
    case Put(offset, chunk, sha256) => PutKeeps(s, m.session, m.id, offset, chunk, payload, io, files, inbox);
    case Progress =>
    case Complete => CompleteKeeps(s, m.session, m.id, io, files, inbox);
    case Cancel => CancelKeeps(s, m.session, m.id, files, inbox);
  }

  /** A pairing begins over no records and no stored answers. */
  lemma PairKeeps(s: Server, session: Session, files: Files, inbox: Inbox)
    requires Safe(s, files, inbox) && s.session.None?
    ensures Safe(s.(session := Some(session)), files, inbox)
  {
    hide Parts, Incarnations, PastSafe;
    var s' := s.(session := Some(session));
    NothingWithoutPairing(s);
    RemovalKeeps(s, s', files, inbox);
  }

  lemma ConfigureKeeps(s: Server, enabled: bool, maxSize: nat, files: Files, inbox: Inbox)
    requires Safe(s, files, inbox)
    ensures Safe(s.(enabled := enabled, maxSize := maxSize), files, inbox)
  {
    hide Parts, Incarnations, PastSafe;
    RemovalKeeps(s, s.(enabled := enabled, maxSize := maxSize), files, inbox);
  }

  lemma RestartKeeps(s: Server, files: Files, inbox: Inbox)
    requires Safe(s, files, inbox)
    ensures Safe(Restart(s), files, inbox)
  {
    hide Parts, Incarnations, PastSafe;
    RemovalKeeps(s, Restart(s), files, inbox);
  }

  lemma StepIsSafe(w: World, e: Event, files: Files, inbox: Inbox)
    requires Safe(w.server, files, inbox) && AllHonest(w.sent, files) && Possible(w, e, files)
    ensures Safe(Apply(w, e).server, files, inbox) && AllHonest(Apply(w, e).sent, files)
  {
    hide Safe, Serve, Checksum, EndSession, Restart;
    match e
    case Send(m) =>
    case Deliver(m, payload, io) => DeliveryKeeps(w.server, m, payload, io, files, inbox);
    case Configure(enabled, maxSize) => ConfigureKeeps(w.server, enabled, maxSize, files, inbox);
    case Pair(session) => PairKeeps(w.server, session, files, inbox);
    case EndPairing => EndSessionKeeps(w.server, files, inbox);
    case RestartProcess => RestartKeeps(w.server, files, inbox);
  }

  lemma {:induction false} RunKeepsSafe(w: World, events: seq<Event>, files: Files, inbox: Inbox)
    requires Safe(w.server, files, inbox) && AllHonest(w.sent, files) && PossibleRun(w, events, files)
    ensures Safe(Run(w, events).server, files, inbox) && AllHonest(Run(w, events).sent, files)
    decreases |events|
  {
    hide Safe, AllHonest, Possible, Apply;
    if events != [] {
      StepIsSafe(w, events[0], files, inbox);
      RunKeepsSafe(Apply(w, events[0]), events[1..], files, inbox);
    }
  }

  /** Every reachable state is safe. */
  lemma EveryRunIsSafe(w: World, events: seq<Event>, files: Files, inbox: Inbox)
    requires Start(w, inbox) && PossibleRun(w, events, files)
    ensures Safe(Run(w, events).server, files, inbox)
  {
    assert Safe(w.server, files, inbox);
    RunKeepsSafe(w, events, files, inbox);
  }
}
