/** The browser's side of an upload: the chunk loop, the retries, the reconciliation of offsets and the
    clean-up, run against the server of module Transfer over a network that may do anything module
    TransferWorld allows between any two steps of the client. */
module Upload {
  import opened Bytes
  import opened Transfer
  import opened TransferWorld
  import Fips
  import Sha256
  import TransferFates
  import TransferSuccess

  /** One call of `uploadFile`: a fresh identifier, the token of the pairing it runs under, and what the
      browser says about the file. */
  datatype Job = Job(id: Id, session: Session, name: Option<string>, mime: string)

  /** How far the client is: no ticket yet, sending from an offset, or past the last chunk. */
  datatype Phase = Creating | Sending(offset: nat) | Finishing

  /** Everything on the network that is about this upload is from this client, which has neither
      completed nor cancelled it yet. */
  predicate Unfinished(w: World, job: Job) {
    forall m :: m in w.sent && m.id == job.id ==>
      m.session == job.session && !m.request.Complete? && !m.request.Cancel?
  }

  /** While the pairing lasts, the server has the record and has received at least `offset` bytes. */
  predicate Running(s: Server, job: Job, offset: nat) {
    s.session == Some(job.session) ==>
      job.id in s.uploads && s.uploads[job.id].session == job.session && offset <= s.uploads[job.id].received
  }

  predicate NoAnswerYet(s: Server, job: Job) {
    s.session == Some(job.session) ==> FindTicket(s.tickets, job.session, job.id).None?
  }

  predicate InPhase(w: World, job: Job, phase: Phase) {
    && (!phase.Finishing? ==> Unfinished(w, job) && NoAnswerYet(w.server, job))
    && (phase.Sending? ==> Running(w.server, job, phase.offset))
  }

  predicate Sound(w: World, files: Files, inbox: Inbox) { Safe(w.server, files, inbox) && AllHonest(w.sent, files) }

  /** What others may do: anything, except speak for this upload or pair again with the same token. */
  predicate Foreign(e: Event, job: Job) {
    match e
    case Send(m) => m.id != job.id
    case Pair(session) => session != job.session
    case _ => true
  }

  predicate AllForeign(events: seq<Event>, job: Job) { forall e :: e in events ==> Foreign(e, job) }

  // ----- what others do leaves the client's view right -----

  lemma DeliveryKeepsPhase(s: Server, m: Message, request: Request, io: Outcome, job: Job, phase: Phase)
    requires m.id == job.id ==> m.session == job.session && !request.Complete? && !request.Cancel?
    requires NoAnswerYet(s, job) && (phase.Sending? ==> Running(s, job, phase.offset))
    ensures var s' := Serve(s, m.session, m.id, request, io).0;
      NoAnswerYet(s', job) && (phase.Sending? ==> Running(s', job, phase.offset))
  {
    hide ChecksumMatches, FindTicket, Publish, WrittenAt;
    match request
    case Create(_, _, _) =>
    case Put(_, _, _) =>
    case Progress =>
    case Complete =>
      if m.id in s.uploads && m.id in s.staging { PublishKeepsPhase(s, m, io.fallback, job, phase); }
    case Cancel =>
  }

  lemma PublishKeepsPhase(s: Server, m: Message, fallback: string, job: Job, phase: Phase)
    requires m.id != job.id && m.id in s.uploads && m.id in s.staging
    requires NoAnswerYet(s, job) && (phase.Sending? ==> Running(s, job, phase.offset))
    ensures var s' := Publish(s, m.session, m.id, fallback).0;
      NoAnswerYet(s', job) && (phase.Sending? ==> Running(s', job, phase.offset))
  {
    hide UniqueDestination, Checksum, FindTicket;
    var (s', r) := Publish(s, m.session, m.id, fallback);
    if FindTicket(s'.tickets, job.session, job.id).Some? {
      TransferFates.FoundAmongMore(s.tickets, r.ticket, job.session, job.id);
    }
  }

  lemma StepKeepsPhase(w: World, e: Event, job: Job, phase: Phase)
    requires InPhase(w, job, phase) && Foreign(e, job) && (e.Deliver? ==> e.message in w.sent)
    ensures InPhase(Apply(w, e), job, phase)
  {
    hide Serve, FindTicket;
    if e.Deliver? && !phase.Finishing? {
      DeliveryKeepsPhase(w.server, e.message, Arriving(e.message.request, e.payload), e.io, job, phase);
    }
  }

  lemma {:induction false} RunKeepsPhase(w: World, events: seq<Event>, job: Job, phase: Phase, files: Files)
    requires InPhase(w, job, phase) && AllForeign(events, job) && PossibleRun(w, events, files)
    ensures InPhase(Run(w, events), job, phase)
    decreases |events|
  {
    hide InPhase, Apply;
    if events != [] {
      StepKeepsPhase(w, events[0], job, phase);
      RunKeepsPhase(Apply(w, events[0]), events[1..], job, phase, files);
    }
  }

  lemma TruthLasts(s: Server, s': Server, t: Ticket, files: Files)
    requires TransferFates.Extends(s', s) && TellsTruth(t, s, files)
    ensures TellsTruth(t, s', files)
  {
    var p :| p in s.published && p.id == t.id && p.name == t.name;
    assert p in s'.published;
  }

  // ----- what an answer tells the client -----

  /** The number of received bytes that an answer names, other than the one the client asked with. */
  function Claimed(request: Request, r: Response): Option<nat> {
    match r
    case Created(_, _, uploaded) => Some(uploaded)
    case Progressed(uploaded, _) => Some(uploaded)
    case Failed(_, Some(expected)) => if request.Put? && expected != request.offset then r.expected else None
    case _ => None
  }

  predicate Asks(request: Request, phase: Phase, job: Job, files: Files) {
    && Honest(Message(job.session, job.id, request), files)
    && (request.Complete? || request.Cancel? ==> phase.Finishing?)
    && (request.Put? ==> phase == Sending(request.offset) && 0 < |request.chunk| <= CHUNK_SIZE)
    && (request.Progress? ==> phase.Sending?)
    && (request.Create? ==> phase.Creating? && request == Create(job.name, job.mime, |files(job.id)|))
  }

  /** An answer that names a number of bytes names one the server has; to a chunk it names a larger one
      than the client had. */
  predicate Informs(request: Request, r: Response, w: World, job: Job, phase: Phase, files: Files) {
    && (phase.Sending? && Claimed(request, r).Some? ==>
          && InPhase(w, job, Sending(Claimed(request, r).value))
          && phase.offset <= Claimed(request, r).value
          && (request.Put? ==> phase.offset < Claimed(request, r).value))
    && (r.Created? ==> InPhase(w, job, Sending(r.uploaded)))
    && (r.Completed? ==> r.ticket.id == job.id && TellsTruth(r.ticket, w.server, files))
    && (!r.Failed? ==> (request.Create? <==> r.Created?) && (request.Complete? <==> r.Completed?)
                       && (request.Put? || request.Progress? <==> r.Progressed?))
  }

  lemma PutInforms(s: Server, job: Job, offset: nat, chunk: seq<U8>, sha256: string, io: Outcome)
    requires Running(s, job, offset) && chunk != []
    ensures var request := Put(offset, chunk, sha256);
      var (s', r) := Serve(s, job.session, job.id, request, io);
      && !r.Created? && !r.Completed? && (!r.Failed? ==> r.Progressed?)
      && (Claimed(request, r).Some? ==> Running(s', job, Claimed(request, r).value) && offset < Claimed(request, r).value)
  {
    hide ChecksumMatches, WrittenAt;
  }

  /** A damaged chunk is refused with the offset the client sent, from which it learns nothing. */
  lemma DamagedPutInforms(s: Server, job: Job, offset: nat, chunk: seq<U8>, payload: seq<U8>, io: Outcome)
    requires Checksum(payload) != Checksum(chunk)
    ensures var (s', r) := Serve(s, job.session, job.id, Put(offset, payload, Checksum(chunk)), io);
      s' == s && r.Failed? && Claimed(Put(offset, chunk, Checksum(chunk)), r).None?
  {
    hide ChecksumMatches, Checksum;
    if ChecksumMatches(payload, Checksum(chunk)) { MatchingChecksumIsEqual(payload, chunk); }
  }

  lemma CreateInforms(s: Server, job: Job, request: Request, io: Outcome)
    requires request.Create?
    ensures var (s', r) := Serve(s, job.session, job.id, request, io);
      (r.Created? || r.Failed?) && (r.Created? ==> Running(s', job, r.uploaded))
      && (Claimed(request, r).Some? ==> r.Created?)
  {
  }

  lemma ProgressInforms(s: Server, job: Job, offset: nat, io: Outcome)
    requires Running(s, job, offset) && NoAnswerYet(s, job)
    ensures var (s', r) := Serve(s, job.session, job.id, Progress, io);
      s' == s && (r.Progressed? || (r.Failed? && Claimed(Progress, r).None?))
      && (r.Progressed? ==> offset <= r.uploaded && Running(s, job, r.uploaded))
  {
    hide FindTicket;
  }

  lemma CompleteInforms(w: World, job: Job, io: Outcome, files: Files, inbox: Inbox)
    requires Sound(w, files, inbox) && io.fallback !in w.server.inbox
    ensures var (s', r) := Serve(w.server, job.session, job.id, Complete, io);
      (r.Completed? || r.Failed?) && (r.Completed? ==> r.ticket.id == job.id && TellsTruth(r.ticket, s', files))
  {
    hide CompleteStep, Safe, TellsTruth;
    TransferFates.CompletedIsTrue(w.server, job.session, job.id, io, files, inbox);
    CompleteAnswers(w.server, job, io);
  }

  lemma CompleteAnswers(s: Server, job: Job, io: Outcome)
    ensures var r := CompleteStep(s, job.session, job.id, io).1; r.Completed? || r.Failed?
  {
    hide FindTicket, UniqueDestination, Checksum;
  }

  lemma ServerInforms(w: World, job: Job, phase: Phase, request: Request, payload: seq<U8>, io: Outcome,
                      files: Files, inbox: Inbox)
    requires Sound(w, files, inbox) && InPhase(w, job, phase) && Asks(request, phase, job, files)
    requires var e := Deliver(Message(job.session, job.id, request), payload, io);
      Possible(w, e, files) && InPhase(Apply(w, e), job, phase)
    ensures var e := Deliver(Message(job.session, job.id, request), payload, io);
      var r := Serve(w.server, job.session, job.id, Arriving(request, payload), io).1;
      Informs(request, r, Apply(w, e), job, phase, files)
  {
    hide Sound, Serve, Unfinished, Running, NoAnswerYet, Checksum, TellsTruth;
    match request
    case Create(_, _, _) => CreateInforms(w.server, job, request, io);
    case Put(offset, chunk, sha256) =>
      if payload == chunk { PutInforms(w.server, job, offset, chunk, sha256, io); }
      else { DamagedPutInforms(w.server, job, offset, chunk, payload, io); }
    case Progress => ProgressInforms(w.server, job, phase.offset, io);
    case Complete => CompleteInforms(w, job, io, files, inbox);
    case Cancel => CancelAnswers(w.server, job, io);
  }

  lemma CancelAnswers(s: Server, job: Job, io: Outcome)
    ensures var r := Serve(s, job.session, job.id, Cancel, io).1; r.Canceled? || r.Failed?
  {
  }

  // ----- when an upload succeeds -----

  /** Every creation request for this identifier is this client's, nobody has cancelled, and a record of it has
      the client's name and type: the identifier is fresh, and stays the client's own. */
  predicate Mine(w: World, job: Job, files: Files) {
    && (forall m :: m in w.sent && m.id == job.id ==>
          !m.request.Cancel? && (m.request.Create? ==> m.request == Create(job.name, job.mime, |files(job.id)|)))
    && (job.id in w.server.uploads ==>
          Some(w.server.uploads[job.id].name) == job.name && w.server.uploads[job.id].mime == job.mime)
  }

  predicate OfJob(t: Ticket, job: Job) { t.session == job.session && t.id == job.id }

  /** A stored answer for this upload, behind at most `later` others. */
  predicate StoredWithin(tickets: seq<Ticket>, job: Job, later: nat) {
    exists k :: 0 <= k < |tickets| && k <= later && OfJob(tickets[k], job)
  }

  /** Every byte has arrived and waits to be published, or the upload has been published, after the first
      `base` publications, and its answer is stored as long as fewer than a hundred came later. */
  predicate Ending(s: Server, job: Job, size: nat, base: nat) {
    s.session == Some(job.session) ==>
      || (job.id in s.uploads && s.uploads[job.id].session == job.session
          && s.uploads[job.id].received == s.uploads[job.id].size == size)
      || (base < |s.published| && (|s.published| <= base + MAX_TICKETS ==> StoredWithin(s.tickets, job, |s.published| - base - 1)))
  }

  lemma DeliveryKeepsMine(s: Server, m: Message, request: Request, io: Outcome, job: Job)
    requires job.id in s.uploads ==> Some(s.uploads[job.id].name) == job.name && s.uploads[job.id].mime == job.mime
    requires m.id == job.id && request.Create? ==> request.name == job.name && request.mime == job.mime
    ensures var s' := Serve(s, m.session, m.id, request, io).0;
      job.id in s'.uploads ==> Some(s'.uploads[job.id].name) == job.name && s'.uploads[job.id].mime == job.mime
  {
    hide FindTicket, ChecksumMatches, UniqueDestination, Checksum, WrittenAt;
  }

  lemma StepKeepsMine(w: World, e: Event, job: Job, files: Files)
    requires Mine(w, job, files) && Foreign(e, job) && (e.Deliver? ==> e.message in w.sent)
    ensures Mine(Apply(w, e), job, files)
  {
    hide Serve;
    if e.Deliver? { DeliveryKeepsMine(w.server, e.message, Arriving(e.message.request, e.payload), e.io, job); }
  }

  lemma StoredLater(tickets: seq<Ticket>, t: Ticket, job: Job, later: nat)
    requires StoredWithin(tickets, job, later) && later + 1 < MAX_TICKETS
    ensures StoredWithin(Truncated([t] + tickets), job, later + 1)
  {
    var k :| 0 <= k < |tickets| && k <= later && OfJob(tickets[k], job);
    assert ([t] + tickets)[k + 1] == tickets[k];
    assert OfJob(Truncated([t] + tickets)[k + 1], job);
  }

  lemma StoredFirst(tickets: seq<Ticket>, t: Ticket, job: Job, later: nat)
    requires OfJob(t, job)
    ensures StoredWithin(Truncated([t] + tickets), job, later)
  {
    assert OfJob(Truncated([t] + tickets)[0], job);
  }

  lemma PublishKeepsEnding(s: Server, m: Message, fallback: string, job: Job, size: nat, base: nat)
    requires Ending(s, job, size, base) && m.id in s.uploads && m.id in s.staging && base <= |s.published|
    requires s.session == Some(m.session) && s.uploads[m.id].session == m.session
    ensures Ending(Publish(s, m.session, m.id, fallback).0, job, size, base)
  {
    hide UniqueDestination, Checksum, StoredWithin, Truncated;
    var (s', r) := Publish(s, m.session, m.id, fallback);
    assert |s'.published| == |s.published| + 1;
    if s.session == Some(job.session) {
      var later := |s.published| - base;
      if m.id == job.id {
        StoredFirst(s.tickets, r.ticket, job, later);
      } else if later > 0 && later < MAX_TICKETS && StoredWithin(s.tickets, job, later - 1) {
        StoredLater(s.tickets, r.ticket, job, later - 1);
      }
    }
  }

  lemma DeliveryKeepsEnding(s: Server, m: Message, request: Request, io: Outcome, job: Job, size: nat, base: nat)
    requires Ending(s, job, size, base) && base <= |s.published| && (m.id == job.id ==> !request.Cancel?)
    ensures Ending(Serve(s, m.session, m.id, request, io).0, job, size, base)
  {
    hide ChecksumMatches, FindTicket, Publish, StoredWithin, WrittenAt;
    if request.Complete? && s.session == Some(m.session) && m.id in s.uploads && m.id in s.staging
       && s.uploads[m.id].session == m.session {
      PublishKeepsEnding(s, m, io.fallback, job, size, base);
    }
  }

  lemma StepKeepsEnding(w: World, e: Event, job: Job, files: Files, size: nat, base: nat)
    requires Ending(w.server, job, size, base) && base <= |w.server.published|
    requires Mine(w, job, files) && Foreign(e, job) && (e.Deliver? ==> e.message in w.sent)
    ensures Ending(Apply(w, e).server, job, size, base)
  {
    hide Serve, StoredWithin;
    if e.Deliver? {
      DeliveryKeepsEnding(w.server, e.message, Arriving(e.message.request, e.payload), e.io, job, size, base);
    }
  }

  /** What holds of the client's upload besides its phase. */
  predicate Kept(w: World, job: Job, files: Files, base: nat) { Mine(w, job, files) && base <= |w.server.published| }

  predicate Ends(w: World, job: Job, files: Files, base: nat) {
    Kept(w, job, files, base) && Ending(w.server, job, |files(job.id)|, base)
  }

  lemma {:induction false} RunKeepsKept(w: World, events: seq<Event>, job: Job, files: Files, base: nat)
    requires Kept(w, job, files, base) && AllForeign(events, job) && PossibleRun(w, events, files)
    ensures Kept(Run(w, events), job, files, base)
    ensures Ends(w, job, files, base) ==> Ends(Run(w, events), job, files, base)
    decreases |events|
  {
    hide Mine, Ending, Apply, TransferFates.Extends;
    if events != [] {
      OneStepKept(w, events[0], job, files, base);
      RunKeepsKept(Apply(w, events[0]), events[1..], job, files, base);
    }
  }

  lemma OneStepKept(w: World, e: Event, job: Job, files: Files, base: nat)
    requires Kept(w, job, files, base) && Foreign(e, job) && Possible(w, e, files)
    ensures Kept(Apply(w, e), job, files, base)
    ensures Ends(w, job, files, base) ==> Ends(Apply(w, e), job, files, base)
  {
    hide Mine, Ending, Apply;
    StepKeepsMine(w, e, job, files);
    TransferFates.StepExtends(w, e, files);
    if Ending(w.server, job, |files(job.id)|, base) { StepKeepsEnding(w, e, job, files, |files(job.id)|, base); }
  }

  lemma SendKeepsKept(w: World, request: Request, job: Job, files: Files, base: nat)
    requires Kept(w, job, files, base) && !request.Cancel?
    requires request.Create? ==> request == Create(job.name, job.mime, |files(job.id)|)
    ensures var w' := Apply(w, Send(Message(job.session, job.id, request)));
      Kept(w', job, files, base) && (Ends(w, job, files, base) ==> Ends(w', job, files, base))
  {
    hide Ending;
  }

  /** What becomes of one exchange: whether its answer came back, whether its bytes arrived intact, what the disk
      did, and how the server stood when the request reached it. */
  datatype Fate = Fate(
    request: Request, answered: bool, intact: bool, disk: Disk, enabled: bool, paired: bool, room: bool)

  /** A creation request needs an acceptable name and size and, unless it is repeated, a free place. */
  predicate HasRoom(s: Server, job: Job, request: Request) {
    request.Create? ==>
      job.name.Some? && request.size <= s.maxSize && (job.id in s.uploads || |s.uploads| < MAX_ACTIVE_UPLOADS)
  }

  function FateOf(s: Server, job: Job, request: Request, payload: seq<U8>, io: Outcome, answered: bool): Fate {
    Fate(request, answered, request.Put? ==> payload == request.chunk, io.disk,
         s.enabled, s.session == Some(job.session), HasRoom(s, job, request))
  }

  /** The request was answered by a server that is switched on and paired, over a disk that works. */
  predicate Served(f: Fate) {
    f.answered && f.intact && f.disk.Works? && f.enabled && f.paired && f.room
  }

  /** Losing an exchange is no harm, and neither is a switched-off server or a failing disk; what the client does
      not try again is a chunk refused as damaged and an answer that the pairing, the name, the size or the number
      of uploads is not accepted. It ignores what becomes of its questions about progress. */
  predicate Tolerable(f: Fate) {
    f.request.Progress? || f.request.Cancel? || !f.answered ||
    (f.intact && f.paired && f.room && (f.disk.PacingStops? ==> f.disk.kind.Disabled? || f.disk.kind.Io?))
  }

  predicate SameKind(a: Request, b: Request) {
    || (a.Create? && b.Create?) || (a.Put? && b.Put?) || (a.Progress? && b.Progress?)
    || (a.Complete? && b.Complete?) || (a.Cancel? && b.Cancel?)
  }

  /** How many exchanges of this kind in a row were not served, at the end. */
  function Streak(fates: seq<Fate>, request: Request): nat {
    if fates == [] then 0
    else
      var front, last := fates[..|fates| - 1], fates[|fates| - 1];
      if !SameKind(last.request, request) then Streak(front, request)
      else if Served(last) then 0
      else Streak(front, request) + 1
  }

  const ATTEMPTS := 4

  /** Nothing happens that the client does not try again, and of four creations, chunks or completions in a row
      one is served. */
  predicate Fair(fates: seq<Fate>) {
    fates == [] ||
    (var last := fates[|fates| - 1];
     Fair(fates[..|fates| - 1]) && Tolerable(last)
     && (last.request.Progress? || last.request.Cancel? || Streak(fates, last.request) < ATTEMPTS))
  }

  /** When every exchange is served, nothing stands in the way. */
  lemma {:induction false} AllServedIsFair(fates: seq<Fate>, request: Request)
    requires forall f :: f in fates ==> Served(f)
    ensures Fair(fates) && Streak(fates, request) == 0
  {
    if fates != [] {
      var front, last := fates[..|fates| - 1], fates[|fates| - 1];
      assert last in fates && forall f :: f in front ==> f in fates;
      AllServedIsFair(front, request);
      AllServedIsFair(front, last.request);
    }
  }

  lemma FairSoFar(fates: seq<Fate>, f: Fate)
    ensures Fair(fates + [f]) ==> Fair(fates) && Tolerable(f)
    ensures Fair(fates + [f]) && !f.request.Progress? && !f.request.Cancel? ==> Streak(fates + [f], f.request) < ATTEMPTS
  {
    assert (fates + [f])[..|fates|] == fates;
  }

  lemma StreakMore(fates: seq<Fate>, f: Fate, request: Request)
    ensures Streak(fates + [f], request) ==
      if !SameKind(f.request, request) then Streak(fates, request) else if Served(f) then 0 else Streak(fates, request) + 1
  {
    assert (fates + [f])[..|fates|] == fates;
  }

  predicate Retryable(r: Response) { r.Failed? && (r.kind.Disabled? || r.kind.Io?) }

  /** A conflict that tells the client where to go on. */
  predicate Redirects(request: Request, r: Response) {
    request.Put? && r.Failed? && r.expected.Some? && r.expected != Some(request.offset)
  }

  /** An exchange that is served is answered with what was asked, or where to go on; a tolerable one with that or
      with an error that is tried again. */
  predicate Helps(request: Request, r: Response, f: Fate) {
    && (Served(f) ==> !r.Failed? || Redirects(request, r))
    && (Tolerable(f) && !request.Progress? ==> !r.Failed? || Redirects(request, r) || Retryable(r))
  }

  /** A creation is granted, first or repeated. */
  lemma CreateHelps(w: World, job: Job, io: Outcome, files: Files, inbox: Inbox)
    requires Sound(w, files, inbox) && Mine(w, job, files)
    ensures var request := Create(job.name, job.mime, |files(job.id)|);
      Helps(request, Serve(w.server, job.session, job.id, request, io).1,
            FateOf(w.server, job, request, [], io, true))
  {
    hide PastSafe, Incarnations;
    if job.id in w.server.uploads { LiveRecord(w.server, job.id, files); }
  }

  /** A chunk is taken, or the client is told what has been received instead. */
  lemma PutHelps(w: World, job: Job, offset: nat, chunk: seq<U8>, payload: seq<U8>, io: Outcome, files: Files, inbox: Inbox)
    requires Sound(w, files, inbox) && Running(w.server, job, offset) && 0 < |chunk| <= CHUNK_SIZE
    requires Honest(Message(job.session, job.id, Put(offset, chunk, Checksum(chunk))), files)
    ensures var request := Put(offset, chunk, Checksum(chunk));
      Helps(request, Serve(w.server, job.session, job.id, Arriving(request, payload), io).1,
            FateOf(w.server, job, request, payload, io, true))
  {
    hide PastSafe, Incarnations, ChecksumMatches, Checksum, WrittenAt;
    TransferSuccess.OwnChecksumMatches(chunk);
    if w.server.session == Some(job.session) { LiveRecord(w.server, job.id, files); }
  }

  /** A question about progress is answered with what has been received. */
  lemma ProgressHelps(s: Server, job: Job, offset: nat, io: Outcome)
    requires Running(s, job, offset) && NoAnswerYet(s, job)
    ensures var r := Serve(s, job.session, job.id, Progress, io).1;
      && Helps(Progress, r, FateOf(s, job, Progress, [], io, true))
      && (s.session == Some(job.session) ==> r == Progressed(s.uploads[job.id].received, s.uploads[job.id].size))
  {
    hide FindTicket;
  }

  lemma StoredIsFound(tickets: seq<Ticket>, job: Job, later: nat)
    requires StoredWithin(tickets, job, later)
    ensures FindTicket(tickets, job.session, job.id).Some?
  {
  }

  lemma CompleteIsAnswered(s: Server, job: Job, io: Outcome)
    requires s.session == Some(job.session)
    requires FindTicket(s.tickets, job.session, job.id).Some? ||
      (job.id in s.uploads && job.id in s.staging && s.uploads[job.id].session == job.session
       && s.uploads[job.id].received == s.uploads[job.id].size)
    ensures var r := CompleteStep(s, job.session, job.id, io).1;
      (r.Completed? || Retryable(r)) && (s.enabled && io.disk.Works? ==> r.Completed?)
  {
    hide FindTicket, Publish;
    PublishAnswers(s, job, io.fallback);
  }

  /** A completion is answered, first or repeated. */
  lemma CompleteHelps(w: World, job: Job, io: Outcome, files: Files, inbox: Inbox, base: nat)
    requires Sound(w, files, inbox) && Ends(w, job, files, base) && |w.server.published| <= base + MAX_TICKETS
    ensures Helps(Complete, Serve(w.server, job.session, job.id, Complete, io).1,
                  FateOf(w.server, job, Complete, [], io, true))
  {
    hide PastSafe, Incarnations, FindTicket, StoredWithin, CompleteStep, Mine;
    var s := w.server;
    if s.session == Some(job.session) {
      if job.id in s.uploads && s.uploads[job.id].received == s.uploads[job.id].size == |files(job.id)| {
        LiveRecord(s, job.id, files);
      } else {
        StoredIsFound(s.tickets, job, |s.published| - base - 1);
      }
      CompleteIsAnswered(s, job, io);
    }
  }

  lemma PublishAnswers(s: Server, job: Job, fallback: string)
    ensures job.id in s.uploads && job.id in s.staging ==> Publish(s, job.session, job.id, fallback).1.Completed?
  {
    hide UniqueDestination, Checksum;
  }

  /** All bytes received, nothing completed: the upload is ready to be published. */
  lemma SendingEnds(w: World, job: Job, offset: nat, files: Files, inbox: Inbox, base: nat)
    requires Sound(w, files, inbox) && InPhase(w, job, Sending(offset)) && Kept(w, job, files, base)
    requires offset >= |files(job.id)|
    ensures Ends(w, job, files, base)
  {
    hide PastSafe, Incarnations, Mine, StoredWithin, Unfinished, NoAnswerYet;
    if w.server.session == Some(job.session) { LiveRecord(w.server, job.id, files); }
  }

  lemma ServerHelps(w: World, job: Job, phase: Phase, request: Request, payload: seq<U8>, io: Outcome,
                    files: Files, inbox: Inbox, base: nat)
    requires Sound(w, files, inbox) && InPhase(w, job, phase) && Asks(request, phase, job, files)
    requires Kept(w, job, files, base) && !request.Cancel?
    requires request.Complete? ==> Ends(w, job, files, base) && |w.server.published| <= base + MAX_TICKETS
    ensures Helps(request, Serve(w.server, job.session, job.id, Arriving(request, payload), io).1,
                  FateOf(w.server, job, request, payload, io, true))
  {
    hide Sound, Serve, Unfinished, Running, NoAnswerYet, Checksum, Helps, Mine, Ending;
    match request
    case Create(_, _, _) => CreateHelps(w, job, io, files, inbox);
    case Put(offset, chunk, _) => PutHelps(w, job, offset, chunk, payload, io, files, inbox);
    case Progress => ProgressHelps(w.server, job, phase.offset, io);
    case Complete => CompleteHelps(w, job, io, files, inbox, base);
  }

  // ----- the network -----

  /** What a request comes to: an answer, or a network error, which tells nothing about the server. */
  datatype Reply = Answered(response: Response) | Lost

  /** The answer is the server's own, in the state in which the request reached it. */
  predicate AnswerOf(s: Server, job: Job, request: Request, payload: seq<U8>, io: Outcome, r: Response, f: Fate) {
    r == Serve(s, job.session, job.id, Arriving(request, payload), io).1 && f == FateOf(s, job, request, payload, io, true)
  }

  ghost predicate IsAnswer(job: Job, request: Request, r: Response, f: Fate) {
    exists s: Server, payload: seq<U8>, io: Outcome :: AnswerOf(s, job, request, payload, io, r, f)
  }

  class Network {
    const job: Job
    const files: Files
    ghost const inbox: Inbox
    ghost const start: nat
    var world: World
    ghost var fates: seq<Fate>
    ghost var aborted: bool

    constructor (job: Job, files: Files, inbox: Inbox, world: World)
      ensures this.job == job && this.files == files && this.inbox == inbox && this.world == world
      ensures start == |world.server.published| && fates == [] && !aborted
    {
      this.job, this.files, this.inbox, this.world := job, files, inbox, world;
      start, fates, aborted := |world.server.published|, [], false;
    }

    ghost predicate Holds(phase: Phase)
      reads `world
    {
      Sound(world, files, inbox) && InPhase(world, job, phase)
    }

    /** The identifier is this client's own. */
    ghost predicate Own()
      reads `world
    {
      Kept(world, job, files, start)
    }

    /** All bytes have been received. */
    ghost predicate Whole()
      reads `world
    {
      Ends(world, job, files, start)
    }

    /** Why an upload may fail: it was aborted, the network or the server were not fair to it, or more than a
        hundred files were published meanwhile. */
    ghost predicate Excused()
      reads `world, `fates, `aborted
    {
      aborted || !Fair(fates) || |world.server.published| > start + MAX_TICKETS
    }

    ghost predicate Ready(request: Request)
      reads `world
    {
      Own() && !request.Cancel? && (request.Complete? ==> Whole())
    }

    /** Any events at all that are not this client's. */
    method Environment()
      requires Sound(world, files, inbox)
      modifies `world
      ensures Sound(world, files, inbox) && TransferFates.Extends(world.server, old(world.server))
      ensures old(world.sent) <= world.sent
      ensures forall phase :: InPhase(old(world), job, phase) ==> InPhase(world, job, phase)
      ensures old(Own()) ==> Own() && (old(Whole()) ==> Whole())
    {
      hide Kept, Ends, InPhase, Sound;
      var events: seq<Event> := *;
      if PossibleRun(world, events, files) && AllForeign(events, job) {
        RunStaysSound(world, events, files, inbox);
        TransferFates.RunExtends(world, events, files);
        RunKeepsSent(world, events);
        forall phase | InPhase(world, job, phase) ensures InPhase(Run(world, events), job, phase) {
          RunKeepsPhase(world, events, job, phase, files);
        }
        if Own() { RunKeepsKept(world, events, job, files, start); }
        world := Run(world, events);
      } else {
        ExtendsItself(world.server);
      }
    }

    /** The request is on its way, and anything may happen before it and until it arrives. */
    method Ask(request: Request, ghost phase: Phase)
      requires Holds(phase) && Asks(request, phase, job, files)
      modifies `world
      ensures Holds(phase) && Message(job.session, job.id, request) in world.sent
      ensures |old(world.server.published)| <= |world.server.published|
      ensures old(Ready(request)) ==> Ready(request)
    {
      hide Sound, Safe, InPhase, Kept, Ends, TransferFates.Extends;
      Environment();
      var m := Message(job.session, job.id, request);
      SendKeepsPhase(world, m, job, phase, files, inbox);
      if Ready(request) { SendKeepsKept(world, request, job, files, start); }
      PublishedGrows(world.server, old(world.server));
      world := Apply(world, Send(m));
      label Asked:
      Environment();
      PublishedGrows(world.server, old@Asked(world.server));
    }

    /** The request arrives and is answered, and anything may happen until the answer is back. */
    method Reach(request: Request, ghost phase: Phase, payload: seq<U8>, io: Outcome) returns (r: Response)
      requires Holds(phase) && Asks(request, phase, job, files)
      requires Possible(world, Deliver(Message(job.session, job.id, request), payload, io), files)
      modifies `world
      ensures Holds(phase) && Message(job.session, job.id, request) in world.sent
      ensures Informs(request, r, world, job, phase, files)
      ensures r == Serve(old(world.server), job.session, job.id, Arriving(request, payload), io).1
      ensures |old(world.server.published)| <= |world.server.published|
      ensures old(Ready(request)) ==> Ready(request)
      ensures old(Ready(request)) && |world.server.published| <= start + MAX_TICKETS ==>
        Helps(request, r, FateOf(old(world.server), job, request, payload, io, true))
    {
      hide Sound, Safe, InPhase, Informs, Serve, TellsTruth, Kept, Ends, FateOf, Helps, TransferFates.Extends;
      var e := Deliver(Message(job.session, job.id, request), payload, io);
      ServerKeeps(world, e, job, phase, files, inbox);
      ServerInforms(world, job, phase, request, payload, io, files, inbox);
      if Ready(request) {
        OneStepFromSent(world, e, job, files, start);
        if |world.server.published| <= start + MAX_TICKETS {
          ServerHelps(world, job, phase, request, payload, io, files, inbox, start);
        }
      }
      TransferFates.StepExtends(world, e, files);
      PublishedGrows(Apply(world, e).server, world.server);
      r := Serve(world.server, job.session, job.id, Arriving(request, payload), io).1;
      world := Apply(world, e);
      ghost var answeredIn := world;
      Environment();
      PublishedGrows(world.server, answeredIn.server);
      InformsLasts(request, r, answeredIn, world, job, phase, files);
    }

    /** One request of the client: it may never arrive, arrive with its chunk damaged, or be answered in
        vain; and anything may happen before it, on its way, and before the answer is back. */
    method Exchange(request: Request, ghost phase: Phase) returns (reply: Reply)
      requires Holds(phase) && Asks(request, phase, job, files)
      modifies `world, `fates
      ensures Holds(phase) && Message(job.session, job.id, request) in world.sent
      ensures reply.Answered? ==> Informs(request, reply.response, world, job, phase, files)
      ensures |fates| == |old(fates)| + 1 && fates == old(fates) + [fates[|old(fates)|]]
      ensures var f := fates[|old(fates)|]; f.request == request && (f.answered <==> reply.Answered?)
      ensures reply.Answered? ==> IsAnswer(job, request, reply.response, fates[|old(fates)|])
      ensures old(Excused()) ==> Excused()
      ensures old(Ready(request)) ==> Ready(request)
      ensures old(Ready(request)) && reply.Answered? && !Excused() ==> Helps(request, reply.response, fates[|old(fates)|])
    {
      hide InPhase, Asks, Informs, Sound, Serve, Kept, Ends, Fair, FateOf, Helps, IsAnswer, Apply, Possible;
      Ask(request, phase);
      reply := Lost;
      var payload: seq<U8> := *;
      var io: Outcome := *;
      ghost var fate := FateOf(world.server, job, request, payload, io, false);
      FateIs(world.server, job, request, payload, io, false);
      if Possible(world, Deliver(Message(job.session, job.id, request), payload, io), files) {
        ghost var server := world.server;
        var r := Reach(request, phase, payload, io);
        var arrives: bool := *;
        if arrives {
          reply := Answered(r);
          fate := FateOf(server, job, request, payload, io, true);
          FateIs(server, job, request, payload, io, true);
          AnswerIs(server, job, request, payload, io);
        }
      }
      FairSoFar(fates, fate);
      fates := fates + [fate];
      assert fates[|old(fates)|] == fate;
    }
  }

  lemma RunStaysSound(w: World, events: seq<Event>, files: Files, inbox: Inbox)
    requires Sound(w, files, inbox) && PossibleRun(w, events, files)
    ensures Sound(Run(w, events), files, inbox)
  {
    RunKeepsSafe(w, events, files, inbox);
  }

  lemma ExtendsItself(s: Server)
    ensures TransferFates.Extends(s, s)
  {
  }

  lemma PublishedGrows(s': Server, s: Server)
    requires TransferFates.Extends(s', s)
    ensures |s.published| <= |s'.published|
  {
  }

  lemma FateIs(s: Server, job: Job, request: Request, payload: seq<U8>, io: Outcome, answered: bool)
    ensures var f := FateOf(s, job, request, payload, io, answered); f.request == request && f.answered == answered
  {
  }

  lemma AnswerIs(s: Server, job: Job, request: Request, payload: seq<U8>, io: Outcome)
    ensures IsAnswer(job, request, Serve(s, job.session, job.id, Arriving(request, payload), io).1,
                     FateOf(s, job, request, payload, io, true))
  {
    hide Serve;
    var r, f := Serve(s, job.session, job.id, Arriving(request, payload), io).1, FateOf(s, job, request, payload, io, true);
    assert AnswerOf(s, job, request, payload, io, r, f);
  }

  /** A request of the client's own keeps what is the client's own. */
  lemma OneStepFromSent(w: World, e: Event, job: Job, files: Files, base: nat)
    requires Kept(w, job, files, base) && e.Deliver? && Possible(w, e, files)
    ensures Kept(Apply(w, e), job, files, base)
    ensures Ends(w, job, files, base) ==> Ends(Apply(w, e), job, files, base)
  {
    OneStepKept(w, e, job, files, base);
  }

  lemma {:induction false} RunKeepsSent(w: World, events: seq<Event>)
    ensures w.sent <= Run(w, events).sent
    decreases |events|
  {
    if events != [] { RunKeepsSent(Apply(w, events[0]), events[1..]); }
  }

  lemma ServerKeeps(w: World, e: Event, job: Job, phase: Phase, files: Files, inbox: Inbox)
    requires Sound(w, files, inbox) && InPhase(w, job, phase) && e.Deliver? && Possible(w, e, files)
    ensures Sound(Apply(w, e), files, inbox) && InPhase(Apply(w, e), job, phase)
  {
    hide Safe, Serve, InPhase;
    StepIsSafe(w, e, files, inbox);
    StepKeepsPhase(w, e, job, phase);
  }

  lemma InformsLasts(request: Request, r: Response, w: World, w': World, job: Job, phase: Phase, files: Files)
    requires Informs(request, r, w, job, phase, files)
    requires TransferFates.Extends(w'.server, w.server)
    requires forall p :: InPhase(w, job, p) ==> InPhase(w', job, p)
    ensures Informs(request, r, w', job, phase, files)
  {
    hide InPhase, TellsTruth, TransferFates.Extends;
    if r.Completed? { TruthLasts(w.server, w'.server, r.ticket, files); }
  }

  lemma SendKeepsPhase(w: World, m: Message, job: Job, phase: Phase, files: Files, inbox: Inbox)
    requires Sound(w, files, inbox) && InPhase(w, job, phase)
    requires m.session == job.session && m.id == job.id && Asks(m.request, phase, job, files)
    ensures var w' := Apply(w, Send(m)); Sound(w', files, inbox) && InPhase(w', job, phase)
  {
    hide Safe, FindTicket, Checksum;
  }

  // ----- the client -----

  datatype UploadError = Aborted | NetworkError | Refused(kind: Kind, expected: Option<nat>)

  /** The statuses from 400 to 499: all of the server's errors but 503 for Disabled and 500 for Io. */
  predicate IsClientError(e: UploadError) { e.Refused? && e.kind != Disabled && e.kind != Io }

  /** An error of the server as the answer it came from. */
  predicate ErrorRedirects(request: Request, e: UploadError) {
    e.Refused? && Redirects(request, Failed(e.kind, e.expected))
  }

  /** `requestJson`: an error status becomes an error. */
  method RequestJson(net: Network, request: Request, ghost phase: Phase) returns (r: Result<Response, UploadError>)
    requires net.Holds(phase) && Asks(request, phase, net.job, net.files)
    modifies net`world, net`fates
    ensures net.Holds(phase)
    ensures r.Ok? ==> !r.value.Failed? && Informs(request, r.value, net.world, net.job, phase, net.files)
    ensures r.Err? && r.error.Refused? ==>
      Informs(request, Failed(r.error.kind, r.error.expected), net.world, net.job, phase, net.files)
    ensures r.Err? ==> r.error != Aborted
    ensures old(net.Excused()) ==> net.Excused()
    ensures old(net.Ready(request)) ==> net.Ready(request)
    ensures |net.fates| == |old(net.fates)| + 1 && net.fates == old(net.fates) + [net.fates[|old(net.fates)|]]
    ensures net.fates[|old(net.fates)|].request == request
    ensures old(net.Ready(request)) && r.Err? && !net.Excused() ==>
      ErrorRedirects(request, r.error) ||
      (!Served(net.fates[|old(net.fates)|]) && (request.Progress? || !IsClientError(r.error)))
  {
    hide Informs, Fair, Kept, Ends;
    var reply := net.Exchange(request, phase);
    LastIsTolerable(net.fates, old(net.fates), net.fates[|old(net.fates)|]);
    match reply
    case Lost => return Err(NetworkError);
    case Answered(response) =>
      if response.Failed? { return Err(Refused(response.kind, response.expected)); }
      return Ok(response);
  }

  lemma LastIsTolerable(fates: seq<Fate>, before: seq<Fate>, f: Fate)
    requires fates == before + [f]
    ensures Fair(fates) ==> Tolerable(f)
  {
    FairSoFar(before, f);
  }

  /** The abort signal of the page, which can come at any moment. */
  method IsAborted(net: Network) returns (aborted: bool)
    modifies net`aborted
    ensures net.aborted <==> old(net.aborted) || aborted
  {
    aborted := *;
    net.aborted := net.aborted || aborted;
  }

  lemma TriedOnceMore(before: seq<Fate>, fates: seq<Fate>, request: Request)
    requires |fates| == |before| + 1 && fates == before + [fates[|before|]] && fates[|before|].request == request
    requires !Served(fates[|before|]) && !request.Progress? && !request.Cancel?
    ensures Streak(fates, request) == Streak(before, request) + 1
    ensures Fair(fates) ==> Streak(fates, request) < ATTEMPTS
  {
    StreakMore(before, fates[|before|], request);
    FairSoFar(before, fates[|before|]);
  }

  /** It gives up only for one of the reasons for which an upload may fail. */
  method RetryJson(net: Network, request: Request, ghost phase: Phase) returns (r: Result<Response, UploadError>)
    requires net.Holds(phase) && Asks(request, phase, net.job, net.files)
    modifies net
    ensures net.Holds(phase)
    ensures r.Ok? ==> !r.value.Failed? && Informs(request, r.value, net.world, net.job, phase, net.files)
    ensures old(net.Excused()) ==> net.Excused()
    ensures old(net.Ready(request)) ==> net.Ready(request)
    ensures old(net.Ready(request)) && (request.Create? || request.Complete?) && r.Err? ==> net.Excused()
  {
    hide Informs, Kept, Ends, Fair, Served, Streak;
    ghost var ready := net.Ready(request);
    for attempt := 1 to ATTEMPTS + 1
      invariant net.Holds(phase)
      invariant attempt <= ATTEMPTS
      invariant old(net.Excused()) ==> net.Excused()
      invariant ready ==> net.Ready(request)
      invariant ready && (request.Create? || request.Complete?) ==>
        net.Excused() || Streak(net.fates, request) >= attempt - 1
    {
      var aborted := IsAborted(net);
      if aborted { return Err(Aborted); }
      ghost var before := net.fates;
      r := RequestJson(net, request, phase);
      if r.Ok? { return; }
      if ready && (request.Create? || request.Complete?) && !net.Excused() {
        TriedOnceMore(before, net.fates, request);
      }
      aborted := IsAborted(net);
      if aborted { return Err(Aborted); }
      if attempt >= ATTEMPTS || IsClientError(r.error) { return; }
      aborted := IsAborted(net);
      if aborted { return Err(Aborted); }
    }
    assert false;
  }

  lemma ChunkAsks(job: Job, offset: nat, end: nat, files: Files)
    requires offset < end <= |files(job.id)| && end - offset <= CHUNK_SIZE
    ensures var chunk := files(job.id)[offset..end];
      Asks(Put(offset, chunk, Fips.Sha256Hex(chunk)), Sending(offset), job, files)
  {
    hide Fips.Sha256Hex;
    var chunk := files(job.id)[offset..end];
    assert files(job.id)[offset..offset + |chunk|] == chunk;
  }

  lemma ProgressAsks(job: Job, offset: nat, files: Files)
    ensures Asks(Progress, Sending(offset), job, files)
  {
  }

  lemma PutAnswer(put: Request, r: Response, w: World, job: Job, offset: nat, files: Files)
    requires put.Put? && put.offset == offset && Informs(put, r, w, job, Sending(offset), files)
    ensures !r.Failed? ==> r.Progressed? && offset < r.uploaded && InPhase(w, job, Sending(r.uploaded))
    ensures r.Failed? && r.expected.Some? && r.expected != Some(offset) ==>
      offset < r.expected.value && InPhase(w, job, Sending(r.expected.value))
  {
    hide InPhase, TellsTruth;
  }

  lemma ProgressAnswer(r: Response, w: World, job: Job, offset: nat, files: Files)
    requires !r.Failed? && Informs(Progress, r, w, job, Sending(offset), files)
    ensures r.Progressed? && offset <= r.uploaded && InPhase(w, job, Sending(r.uploaded))
  {
    hide InPhase, TellsTruth;
  }

  /** The question about progress after a chunk that was not taken. */
  method UploadedSoFar(net: Network, offset: nat, ghost put: Request) returns (status: Result<nat, UploadError>)
    requires net.Holds(Sending(offset)) && put.Put?
    modifies net`world, net`fates
    ensures net.Holds(Sending(offset))
    ensures status.Ok? ==> offset <= status.value && net.Holds(Sending(status.value))
    ensures old(net.Excused()) ==> net.Excused()
    ensures old(net.Own()) ==> net.Own()
    ensures Streak(net.fates, put) == Streak(old(net.fates), put)
  {
    hide Sound, InPhase, Asks, Informs, Kept, Ends, Fair, Served, Streak, ErrorRedirects, IsClientError;
    ProgressAsks(net.job, offset, net.files);
    var r := RequestJson(net, Progress, Sending(offset));
    StreakMore(old(net.fates), net.fates[|old(net.fates)|], put);
    if r.Err? { return Err(r.error); }
    ProgressAnswer(r.value, net.world, net.job, offset, net.files);
    return Ok(r.value.uploaded);
  }

  lemma NotRedirected(put: Request, e: UploadError, offset: nat)
    requires put.Put? && put.offset == offset && !(e.Refused? && e.expected.Some? && e.expected != Some(offset))
    ensures !ErrorRedirects(put, e)
  {
  }

  /** One pass of the chunk loop. It always ends with an error or with a larger offset, one that the
      server has reached; it never falls out of its four attempts with neither. And it ends with an error only
      for one of the reasons for which an upload may fail. */
  method SendChunk(net: Network, offset: nat) returns (r: Result<nat, UploadError>)
    requires net.Holds(Sending(offset)) && offset < |net.files(net.job.id)|
    modifies net
    ensures r.Ok? ==> offset < r.value && net.Holds(Sending(r.value))
    ensures r.Err? ==> net.Holds(Sending(offset))
    ensures old(net.Excused()) ==> net.Excused()
    ensures old(net.Own()) ==> net.Own() && (r.Err? ==> net.Excused())
  {
    hide Sound, InPhase, Asks, Informs, Checksum, Kept, Ends, Fair, Served, Streak, ErrorRedirects, IsClientError, Fips.Sha256Hex;
    ghost var own := net.Own();
    var file := net.files(net.job.id);
    var end := Min(|file|, offset + CHUNK_SIZE);
    var chunk := file[offset..end];
    var checksum := Sha256.Sha256HexOf(chunk);
    ChunkAsks(net.job, offset, end, net.files);
    var put := Put(offset, chunk, checksum);
    var attempt := 1;
    while attempt <= ATTEMPTS
      invariant attempt <= ATTEMPTS && net.Holds(Sending(offset))
      invariant old(net.Excused()) ==> net.Excused()
      invariant own ==> net.Own() && (net.Excused() || Streak(net.fates, put) >= attempt - 1)
      decreases ATTEMPTS - attempt
    {
      var aborted := IsAborted(net);
      if aborted { return Err(Aborted); }
      ghost var before := net.fates;
      var reply := RequestJson(net, put, Sending(offset));
      if reply.Ok? {
        PutAnswer(put, reply.value, net.world, net.job, offset, net.files);
        return Ok(reply.value.uploaded);
      }
      aborted := IsAborted(net);
      if aborted { return Err(Aborted); }
      if reply.error.Refused? && reply.error.expected.Some? && reply.error.expected != Some(offset) {
        PutAnswer(put, Failed(reply.error.kind, reply.error.expected), net.world, net.job, offset, net.files);
        return Ok(reply.error.expected.value);
      }
      NotRedirected(put, reply.error, offset);
      if own && !net.Excused() { TriedOnceMore(before, net.fates, put); }
      if attempt >= ATTEMPTS || IsClientError(reply.error) { return Err(reply.error); }
      aborted := IsAborted(net);
      if aborted { return Err(Aborted); }
      var status := UploadedSoFar(net, offset, put);
      if status.Ok? {
        if status.value != offset { return Ok(status.value); }
      }
      if status.Err? {
        aborted := IsAborted(net);
        if aborted { return Err(Aborted); }
        if attempt >= ATTEMPTS { assert false; }
      }
      attempt := attempt + 1;
    }
    assert false;
  }

  /** Everything inside the `try`. */
  method SendFile(net: Network) returns (r: Result<Ticket, UploadError>)
    requires net.Holds(Creating)
    modifies net
    ensures net.Holds(Finishing)
    ensures r.Ok? ==> r.value.id == net.job.id && TellsTruth(r.value, net.world.server, net.files)
    ensures old(net.Excused()) ==> net.Excused()
    ensures old(net.Own()) ==> net.Own() && (r.Err? ==> net.Excused())
  {
    hide Sound, TellsTruth, Kept, Ends, Fair;
    ghost var own := net.Own();
    var file := net.files(net.job.id);
    var created := RetryJson(net, Create(net.job.name, net.job.mime, |file|), Creating);
    if created.Err? { return Err(created.error); }
    var offset := created.value.uploaded;
    while offset < |file|
      invariant net.Holds(Sending(offset))
      invariant old(net.Excused()) ==> net.Excused()
      invariant own ==> net.Own()
      decreases |file| - offset
    {
      var aborted := IsAborted(net);
      if aborted { return Err(Aborted); }
      var sent := SendChunk(net, offset);
      if sent.Err? { return Err(sent.error); }
      offset := sent.value;
    }
    if own { SendingEnds(net.world, net.job, offset, net.files, net.inbox, net.start); }
    var completed := RetryJson(net, Complete, Finishing);
    if completed.Err? { return Err(completed.error); }
    return Ok(completed.value.ticket);
  }

  /** The file under which an upload was published, as its answer says. */
  predicate Delivered(t: Ticket, s: Server, id: Id, file: seq<U8>) {
    && t.id == id && t.size == |file| && t.sha256 == Checksum(file)
    && t.name in s.inbox && s.inbox[t.name] == file
  }

  lemma TruthIsDelivered(w: World, t: Ticket, files: Files, inbox: Inbox)
    requires Sound(w, files, inbox) && TellsTruth(t, w.server, files)
    ensures Delivered(t, w.server, t.id, files(t.id))
  {
    hide Checksum, Incarnations, Parts, TicketsTrue, PublishedOnce;
    var p :| p in w.server.published && p.id == t.id && p.name == t.name;
    assert IsWhole(p, w.server, files, inbox);
  }

  /** `uploadFile`: it always ends; when it succeeds the whole file is in the inbox under the name and
      with the digest it returns; when it fails after it has begun, the cancellation is on its way. It fails
      only if it is aborted, if a request is answered with an error that is not tried again or of four
      creations, chunks or completions in a row none is served, or if more than a hundred files are published
      meanwhile. */
  method UploadFile(net: Network) returns (r: Result<Ticket, UploadError>)
    requires net.Holds(Creating)
    modifies net
    ensures net.Holds(Finishing)
    ensures r.Ok? ==> Delivered(r.value, net.world.server, net.job.id, net.files(net.job.id))
    ensures r.Err? ==> net.world == old(net.world) || Message(net.job.session, net.job.id, Cancel) in net.world.sent
    ensures old(net.Own()) && r.Err? ==> net.Excused()
  {
    hide Sound, TellsTruth, Delivered, Informs, Kept, Fair;
    var aborted := IsAborted(net);
    if aborted { return Err(Aborted); }
    r := SendFile(net);
    if r.Ok? {
      TruthIsDelivered(net.world, r.value, net.files, net.inbox);
    } else {
      var _ := net.Exchange(Cancel, Finishing);
    }
  }
}
