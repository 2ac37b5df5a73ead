/** What becomes of an upload: what an answer promises, how long it can be asked for again, and what a
    cancellation leaves behind. */
module TransferFates {
  import opened Bytes
  import opened Transfer
  import opened TransferWorld

  // ----- answers -----

  predicate Received(s: Server, id: Id, count: nat) {
    id in s.uploads && id in s.staging && s.uploads[id].received == count <= |s.staging[id]|
  }

  /** An answer tells the client the truth about its own file: a finished upload is published whole, a
      progress report never claims more than the part file holds. */
  predicate AnswerIsTrue(r: Response, s: Server, id: Id, files: Files) {
    match r
    case Completed(t) => t.id == id && TellsTruth(t, s, files)
    case Created(_, size, uploaded) => size == |files(id)| && Received(s, id, uploaded)
    case Progressed(uploaded, total) =>
      total == |files(id)| && (Received(s, id, uploaded) || (uploaded == total && exists t :: t in s.tickets && t.id == id))
    case _ => true
  }

  lemma PastTickets(s: Server, files: Files, inbox: Inbox)
    requires PastSafe(s, files, inbox)
    ensures forall t :: t in s.tickets ==> TellsTruth(t, s, files)
  {
  }

  lemma PublishedTicket(s: Server, session: Session, id: Id, fallback: string)
    requires id in s.uploads && id in s.staging
    ensures var (s', r) := Publish(s, session, id, fallback);
      r.Completed? && r.ticket.id == id && r.ticket in s'.tickets
  {
    hide UniqueDestination, Checksum;
    var (s', r) := Publish(s, session, id, fallback);
    assert s'.tickets[0] == r.ticket;
  }

  lemma CompletedIsTrue(s: Server, session: Session, id: Id, io: Outcome, files: Files, inbox: Inbox)
    requires Safe(s, files, inbox) && io.fallback !in s.inbox
    ensures var (s', r) := CompleteStep(s, session, id, io); AnswerIsTrue(r, s', id, files)
  {
    hide Publish, PastSafe, TellsTruth, Parts, Incarnations, Owned;
    var (s', r) := CompleteStep(s, session, id, io);
    PastTickets(s, files, inbox);
    if id in s.uploads && id in s.staging {
      PublishedTicket(s, session, id, io.fallback);
      if FindTicket(s.tickets, session, id).None? && r.Completed? {
        PublishKeepsPast(s, session, id, io.fallback, files, inbox);
        PastTickets(s', files, inbox);
      }
    }
  }

  lemma StoredIsTrue(s: Server, id: Id, chunk: seq<U8>, disk: Disk, files: Files)
    requires LiveSafe(s, files) && id in s.uploads && s.uploads[id].received + |chunk| <= s.uploads[id].size
    ensures var (s', r) := Store(s, id, chunk, disk); AnswerIsTrue(r, s', id, files)
  {
    LiveRecord(s, id, files);
  }

  /** Every answer is true in the state it leaves behind. */
  lemma AnswersAreTrue(s: Server, session: Session, id: Id, request: Request, io: Outcome, files: Files, inbox: Inbox)
    requires Safe(s, files, inbox) && io.fallback !in s.inbox
    requires request.Create? ==> request.size == |files(id)|
    ensures var (s', r) := Serve(s, session, id, request, io); AnswerIsTrue(r, s', id, files)
  {
    hide CompleteStep, Store, ChecksumMatches, PastSafe, TellsTruth, Owned, Incarnations;
    match request
    case Create(name, mime, size) => if id in s.uploads { LiveRecord(s, id, files); }
    case Put(offset, chunk, sha256) =>
      if id in s.uploads && offset == s.uploads[id].received && offset + |chunk| <= s.uploads[id].size {
        StoredIsTrue(s, id, chunk, io.disk, files);
      }
    case Progress =>
      var ticket := FindTicket(s.tickets, session, id);
      if ticket.Some? {
        TicketSize(s, ticket.value, files, inbox);
        assert ticket.value in s.tickets && ticket.value.id == id;
      } else if id in s.uploads {
        LiveRecord(s, id, files);
      }
    case Complete => CompletedIsTrue(s, session, id, io, files, inbox);
    case Cancel =>
  }

  lemma TicketSize(s: Server, t: Ticket, files: Files, inbox: Inbox)
    requires PastSafe(s, files, inbox) && t in s.tickets
    ensures t.size == |files(t.id)|
  {
    PastTickets(s, files, inbox);
  }

  // ----- how long a stored answer lasts -----

  /** No upload has two stored answers. */
  predicate DistinctAnswers(tickets: seq<Ticket>) {
    forall i, j :: 0 <= i < j < |tickets| ==> !SameUpload(tickets[i], tickets[j])
  }

  predicate SameUpload(t: Ticket, u: Ticket) { t.session == u.session && t.id == u.id }

  /** The answer `t` is stored with `later` newer ones before it, or is gone when a hundred came after. */
  predicate Remembered(s: Server, t: Ticket, later: nat) {
    && t.name in s.inbox
    && (t in s.tickets <==> later < MAX_TICKETS)
    && (later < MAX_TICKETS ==> later < |s.tickets| && s.tickets[later] == t)
  }

  lemma {:induction false} FoundAnswer(tickets: seq<Ticket>, i: nat)
    requires DistinctAnswers(tickets) && i < |tickets|
    ensures FindTicket(tickets, tickets[i].session, tickets[i].id) == Some(tickets[i])
  {
    if i > 0 {
      assert !SameUpload(tickets[0], tickets[i]);
      DistinctTail(tickets);
      FoundAnswer(tickets[1..], i - 1);
    }
  }

  lemma DistinctTail(tickets: seq<Ticket>)
    requires DistinctAnswers(tickets) && tickets != []
    ensures DistinctAnswers(tickets[1..])
  {
    hide SameUpload;
    forall i, j | 0 <= i < j < |tickets[1..]| ensures !SameUpload(tickets[1..][i], tickets[1..][j]) {
      assert !SameUpload(tickets[i + 1], tickets[j + 1]);
    }
  }

  lemma PushKeepsAnswers(tickets: seq<Ticket>, u: Ticket)
    requires DistinctAnswers(tickets) && FindTicket(tickets, u.session, u.id).None?
    ensures DistinctAnswers(Truncated([u] + tickets))
  {
    var all := [u] + tickets;
    forall i, j | 0 <= i < j < |all| ensures !SameUpload(all[i], all[j]) {
      if i > 0 { assert !SameUpload(tickets[i - 1], tickets[j - 1]); }
    }
  }

  lemma PublishMovesAnswer(s: Server, session: Session, id: Id, fallback: string, t: Ticket, later: nat)
    requires id in s.uploads && id in s.staging && fallback !in s.inbox && |s.tickets| <= MAX_TICKETS
    requires DistinctAnswers(s.tickets) && FindTicket(s.tickets, session, id).None?
    requires Remembered(s, t, later)
    ensures var s' := Publish(s, session, id, fallback).0;
      DistinctAnswers(s'.tickets) && Remembered(s', t, later + 1) && |s'.tickets| <= MAX_TICKETS
  {
    hide UniqueDestination, DistinctAnswers, FindTicket, Checksum;
    var (s', r) := Publish(s, session, id, fallback);
    var u := r.ticket;
    PushKeepsAnswers(s.tickets, u);
    assert u.name !in s.inbox;
    var all := [u] + s.tickets;
    if later < MAX_TICKETS { assert all[later + 1] == t; }
    if t in s'.tickets {
      var k :| 0 <= k < |s'.tickets| && s'.tickets[k] == t;
      assert k > 0 && s.tickets[k - 1] == t;
      assert later < MAX_TICKETS;
      if later + 1 >= MAX_TICKETS { OnlyPlace(s.tickets, k - 1, later); }
    }
  }

  lemma OnlyPlace(tickets: seq<Ticket>, i: nat, j: nat)
    requires DistinctAnswers(tickets) && i < |tickets| && j < |tickets| && tickets[i] == tickets[j]
    ensures i == j
  {
    if i < j { assert SameUpload(tickets[i], tickets[j]); } else if j < i { assert SameUpload(tickets[j], tickets[i]); }
  }

  /** Events that do not void the pairing. */
  predicate KeepsPairing(e: Event) { !e.EndPairing? && !e.RestartProcess? }

  function Publications(w: World): nat { |w.server.published| }

  lemma DeliveryMovesAnswer(s: Server, m: Message, request: Request, io: Outcome, t: Ticket, later: nat)
    requires io.fallback !in s.inbox && |s.tickets| <= MAX_TICKETS
    requires DistinctAnswers(s.tickets) && Remembered(s, t, later)
    ensures var s' := Serve(s, m.session, m.id, request, io).0;
      && DistinctAnswers(s'.tickets) && |s'.tickets| <= MAX_TICKETS && |s.published| <= |s'.published|
      && Remembered(s', t, later + |s'.published| - |s.published|)
  {
    hide Publish, DistinctAnswers, ChecksumMatches, Remembered;
    var s' := Serve(s, m.session, m.id, request, io).0;
    if request.Complete? && s' != s {
      PublishMovesAnswer(s, m.session, m.id, io.fallback, t, later);
      OnePublication(s, m.session, m.id, io.fallback);
    } else {
      assert s'.published == s.published && s'.tickets == s.tickets && s'.inbox == s.inbox;
      SameMemory(s, s', t, later);
    }
  }

  lemma OnePublication(s: Server, session: Session, id: Id, fallback: string)
    requires id in s.uploads && id in s.staging
    ensures |Publish(s, session, id, fallback).0.published| == |s.published| + 1
  {
  }

  lemma SameMemory(s: Server, s': Server, t: Ticket, later: nat)
    requires s'.tickets == s.tickets && s'.inbox == s.inbox && Remembered(s, t, later)
    ensures Remembered(s', t, later)
  {
  }

  lemma StepMovesAnswer(w: World, e: Event, files: Files, t: Ticket, later: nat)
    requires Possible(w, e, files) && KeepsPairing(e) && |w.server.tickets| <= MAX_TICKETS
    requires DistinctAnswers(w.server.tickets) && Remembered(w.server, t, later)
    ensures var w' := Apply(w, e);
      && DistinctAnswers(w'.server.tickets) && |w'.server.tickets| <= MAX_TICKETS
      && Publications(w) <= Publications(w')
      && Remembered(w'.server, t, later + Publications(w') - Publications(w))
  {
    hide DistinctAnswers, Serve, Remembered;
    if e.Deliver? {
      DeliveryMovesAnswer(w.server, e.message, Arriving(e.message.request, e.payload), e.io, t, later);
    } else {
      SameMemory(w.server, Apply(w, e).server, t, later);
    }
  }

  predicate PairingKept(events: seq<Event>) { forall e :: e in events ==> KeepsPairing(e) }

  lemma {:induction false} RunMovesAnswer(w: World, events: seq<Event>, files: Files, t: Ticket, later: nat)
    requires PossibleRun(w, events, files) && PairingKept(events) && |w.server.tickets| <= MAX_TICKETS
    requires DistinctAnswers(w.server.tickets) && Remembered(w.server, t, later)
    ensures var w' := Run(w, events);
      && DistinctAnswers(w'.server.tickets) && Publications(w) <= Publications(w')
      && Remembered(w'.server, t, later + Publications(w') - Publications(w))
    decreases |events|
  {
    hide Possible, Apply, DistinctAnswers, Remembered;
    if events != [] {
      StepMovesAnswer(w, events[0], files, t, later);
      RunMovesAnswer(Apply(w, events[0]), events[1..], files, t,
                     later + Publications(Apply(w, events[0])) - Publications(w));
    }
  }

  lemma FirstAnswer(s: Server, session: Session, id: Id, io: Outcome)
    requires DistinctAnswers(s.tickets) && |s.tickets| <= MAX_TICKETS
    requires FindTicket(s.tickets, session, id).None? && CompleteStep(s, session, id, io).1.Completed?
    ensures var (s', r) := CompleteStep(s, session, id, io);
      && DistinctAnswers(s'.tickets) && |s'.tickets| <= MAX_TICKETS && Remembered(s', r.ticket, 0)
      && r.ticket.session == session && r.ticket.id == id
  {
    hide UniqueDestination, Checksum, DistinctAnswers, FindTicket;
    var (s', r) := CompleteStep(s, session, id, io);
    PushKeepsAnswers(s.tickets, r.ticket);
    assert s'.tickets[0] == r.ticket;
  }

  /** Once an upload has been completed, completing it again in the same pairing gives the same answer
      and changes nothing for as long as fewer than a hundred other uploads have been completed since;
      from the hundredth on the answer is forgotten. */
  lemma AnswerLastsForAHundred(w: World, session: Session, id: Id, io: Outcome, events: seq<Event>, files: Files,
                               again: Outcome)
    requires DistinctAnswers(w.server.tickets) && |w.server.tickets| <= MAX_TICKETS
    requires FindTicket(w.server.tickets, session, id).None?
    requires CompleteStep(w.server, session, id, io).1.Completed?
    requires var w1 := w.(server := CompleteStep(w.server, session, id, io).0);
      PossibleRun(w1, events, files) && PairingKept(events)
    ensures var (s1, answer) := CompleteStep(w.server, session, id, io);
      var s2 := Run(w.(server := s1), events).server;
      && |s1.published| <= |s2.published|
      && (answer.ticket in s2.tickets <==> |s2.published| < |s1.published| + MAX_TICKETS)
      && (|s2.published| < |s1.published| + MAX_TICKETS && s2.enabled && s2.session == Some(session) ==>
            CompleteStep(s2, session, id, again) == (s2, answer))
  {
    hide DistinctAnswers, Possible, Apply, Publish, PossibleRun;
    FirstAnswer(w.server, session, id, io);
    var (s1, answer) := CompleteStep(w.server, session, id, io);
    var w1 := w.(server := s1);
    RunMovesAnswer(w1, events, files, answer.ticket, 0);
    var s2 := Run(w1, events).server;
    var later := |s2.published| - |s1.published|;
    if later < MAX_TICKETS { FoundAnswer(s2.tickets, later); }
  }

  /** Every reachable state stores at most one answer per upload. */
  lemma StepKeepsAnswersDistinct(w: World, e: Event, files: Files)
    requires DistinctAnswers(w.server.tickets)
    ensures DistinctAnswers(Apply(w, e).server.tickets)
  {
    hide DistinctAnswers, ChecksumMatches, UniqueDestination, Checksum, FindTicket;
    var s, s' := w.server, Apply(w, e).server;
    if s'.tickets == s.tickets {
    } else if e.EndPairing? {
      FewerAnswers(s.tickets, s.session.value);
    } else if e.RestartProcess? {
      assert s'.tickets == [];
      assert DistinctAnswers([]) by { NoAnswers(); }
    } else {
      var t := CompleteStep(s, e.message.session, e.message.id, e.io).1.ticket;
      assert s'.tickets == Truncated([t] + s.tickets);
      PushKeepsAnswers(s.tickets, t);
    }
  }

  lemma NoAnswers()
    ensures DistinctAnswers([])
  {
  }

  lemma {:induction false} FewerAnswers(tickets: seq<Ticket>, session: Session)
    requires DistinctAnswers(tickets)
    ensures DistinctAnswers(WithoutSession(tickets, session))
  {
    if tickets != [] {
      var rest := WithoutSession(tickets[1..], session);
      DistinctTail(tickets);
      FewerAnswers(tickets[1..], session);
      if tickets[0].session != session {
        var all := [tickets[0]] + rest;
        forall i, j | 0 <= i < j < |all| ensures !SameUpload(all[i], all[j]) {
          if i == 0 {
            assert rest[j - 1] in tickets[1..];
            var k :| 0 <= k < |tickets[1..]| && tickets[1..][k] == rest[j - 1];
            assert !SameUpload(tickets[0], tickets[k + 1]);
          } else {
            assert !SameUpload(rest[i - 1], rest[j - 1]);
          }
        }
      }
    }
  }

  lemma {:induction false} EveryRunKeepsAnswersDistinct(w: World, events: seq<Event>, files: Files)
    requires DistinctAnswers(w.server.tickets)
    ensures DistinctAnswers(Run(w, events).server.tickets)
    decreases |events|
  {
    hide DistinctAnswers, Apply;
    if events != [] {
      StepKeepsAnswersDistinct(w, events[0], files);
      EveryRunKeepsAnswersDistinct(Apply(w, events[0]), events[1..], files);
    }
  }

  // ----- what stays in the inbox -----

  /** The history was only added to, and every file of the inbox is still there, unchanged. */
  predicate Extends(s': Server, s: Server) {
    && s.published <= s'.published
    && forall n :: n in s.inbox ==> n in s'.inbox && s'.inbox[n] == s.inbox[n]
  }

  lemma StepExtends(w: World, e: Event, files: Files)
    requires Possible(w, e, files)
    ensures Extends(Apply(w, e).server, w.server)
  {
    hide Serve;
    if e.Deliver? { DeliveryExtends(w.server, e.message, Arriving(e.message.request, e.payload), e.io); }
  }

  lemma DeliveryExtends(s: Server, m: Message, request: Request, io: Outcome)
    requires io.fallback !in s.inbox
    ensures Extends(Serve(s, m.session, m.id, request, io).0, s)
  {
    hide ChecksumMatches, FindTicket, Checksum, UniqueDestination, Publish;
    if request.Complete? && m.id in s.uploads && m.id in s.staging {
      PublishExtends(s, m.session, m.id, io.fallback);
    }
  }

  lemma PublishExtends(s: Server, session: Session, id: Id, fallback: string)
    requires id in s.uploads && id in s.staging && fallback !in s.inbox
    ensures Extends(Publish(s, session, id, fallback).0, s)
  {
    hide UniqueDestination, Checksum;
  }

  /** Nothing that happens removes or changes a file of the inbox, published or there from before. */
  lemma {:induction false} RunExtends(w: World, events: seq<Event>, files: Files)
    requires PossibleRun(w, events, files)
    ensures Extends(Run(w, events).server, w.server)
    decreases |events|
  {
    hide Possible, Apply;
    if events != [] {
      StepExtends(w, events[0], files);
      RunExtends(Apply(w, events[0]), events[1..], files);
    }
  }

  // ----- what a cancellation leaves -----

  /** The upload was finished, and a creation request for it arrived after that: there is a stored
      answer and an unfinished record under one identifier. */
  predicate Revived(s: Server, session: Session, id: Id) {
    id in s.uploads && FindTicket(s.tickets, session, id).Some?
  }

  predicate Gone(s: Server, id: Id) { id !in s.uploads && id !in s.staging }

  /** After a cancellation under the current pairing no record and no part file is left, exactly unless
      the upload had been revived; whatever of it was published is the whole file, and nothing else in
      the state has changed. */
  lemma CancellationLeavesNothing(s: Server, session: Session, id: Id, io: Outcome, files: Files, inbox: Inbox)
    requires Safe(s, files, inbox) && s.session == Some(session)
    ensures var (s', r) := Serve(s, session, id, Cancel, io);
      && (Gone(s', id) <==> !Revived(s, session, id))
      && (r == Canceled || (r == Failed(NotFound, None) && s' == s))
      && (forall p :: p in s'.published && p.id == id ==> IsWhole(p, s', files, inbox))
      && s'.published == s.published && s'.inbox == s.inbox && s'.tickets == s.tickets
      && s'.uploads - {id} == s.uploads - {id} && s'.staging - {id} == s.staging - {id}
  {
    hide IsWhole, LiveSafe, PastSafe, InboxGrew, FindTicket;
    Published(s, files, inbox);
    var s' := Serve(s, session, id, Cancel, io).0;
    if id in s.uploads { LiveRecord(s, id, files); } else { NotStaged(s, id, files); }
    forall p | p in s'.published && p.id == id ensures IsWhole(p, s', files, inbox) {
      SameWhole(p, s, s', files, inbox);
    }
  }

  lemma Published(s: Server, files: Files, inbox: Inbox)
    requires PastSafe(s, files, inbox)
    ensures forall p :: p in s.published ==> IsWhole(p, s, files, inbox)
  {
  }

  lemma SameWhole(p: Publication, s: Server, s': Server, files: Files, inbox: Inbox)
    requires IsWhole(p, s, files, inbox) && s'.inbox == s.inbox
    ensures IsWhole(p, s', files, inbox)
  {
  }

  lemma NotStaged(s: Server, id: Id, files: Files)
    requires LiveSafe(s, files) && id !in s.uploads
    ensures id !in s.staging
  {
  }

  /** A creation request arrives for an upload that is gone, and the server opens it. */
  predicate Opens(s: Server, e: Event, id: Id) {
    && e.Deliver? && e.message.id == id && e.message.request.Create?
    && s.enabled && s.session == Some(e.message.session)
    && e.message.request.name.Some? && e.message.request.size <= s.maxSize
    && |s.uploads| < MAX_ACTIVE_UPLOADS && e.io.disk.Works?
  }

  lemma StepStaysGone(w: World, e: Event, id: Id)
    requires Gone(w.server, id)
    ensures Gone(Apply(w, e).server, id) <==> !Opens(w.server, e, id)
  {
    hide FindTicket, UniqueDestination, Checksum, ChecksumMatches;
  }

  lemma {:induction false} RunOneMore(w: World, events: seq<Event>, e: Event)
    ensures Run(w, events + [e]) == Apply(Run(w, events), e)
    decreases |events|
  {
    hide Apply;
    if events == [] {
      assert [] + [e] == [e] && [e][1..] == [];
    } else {
      assert (events + [e])[0] == events[0] && (events + [e])[1..] == events[1..] + [e];
      RunOneMore(Apply(w, events[0]), events[1..], e);
    }
  }

  /** The upload is gone after every part of the run. */
  ghost predicate GoneThroughout(w: World, events: seq<Event>, id: Id) {
    forall k :: 0 <= k <= |events| ==> Gone(Run(w, events[..k]).server, id)
  }

  /** Nowhere in the run is the upload opened. */
  ghost predicate NeverOpens(w: World, events: seq<Event>, id: Id) {
    forall k :: 0 <= k < |events| ==> !Opens(Run(w, events[..k]).server, events[k], id)
  }

  lemma GoneSoFar(w: World, events: seq<Event>, id: Id, k: nat)
    requires k < |events| && Gone(Run(w, events[..k]).server, id)
    ensures Gone(Run(w, events[..k + 1]).server, id) <==> !Opens(Run(w, events[..k]).server, events[k], id)
  {
    hide Gone, Opens, Apply, Run;
    assert events[..k + 1] == events[..k] + [events[k]];
    RunOneMore(w, events[..k], events[k]);
    StepStaysGone(Run(w, events[..k]), events[k], id);
  }

  /** What is gone stays gone, over any run, if and only if no creation request for it is delivered that the
      server accepts. */
  lemma StaysGoneIff(w: World, events: seq<Event>, id: Id)
    requires Gone(w.server, id)
    ensures GoneThroughout(w, events, id) <==> NeverOpens(w, events, id)
  {
    hide Gone, Opens, Apply, Run;
    assert events[..0] == [] && Run(w, []) == w by { NothingHappens(w); }
    if NeverOpens(w, events, id) {
      for k := 0 to |events|
        invariant forall j :: 0 <= j <= k ==> Gone(Run(w, events[..j]).server, id)
      {
        GoneSoFar(w, events, id, k);
      }
    }
    if GoneThroughout(w, events, id) {
      forall k | 0 <= k < |events| ensures !Opens(Run(w, events[..k]).server, events[k], id) {
        GoneSoFar(w, events, id, k);
      }
    }
  }

  lemma NothingHappens(w: World)
    ensures Run(w, []) == w
  {
  }

  /** A cancellation lasts: once a client's DELETE has been processed its upload has no record and no part
      file ever after, if and only if the upload had not been revived and no creation request for it that
      the server accepts is delivered later. */
  lemma CancellationLasts(w: World, session: Session, id: Id, io: Outcome, events: seq<Event>, files: Files, inbox: Inbox)
    requires Safe(w.server, files, inbox) && w.server.session == Some(session)
    ensures var w1 := Apply(w, Deliver(Message(session, id, Cancel), [], io));
      GoneThroughout(w1, events, id) <==> !Revived(w.server, session, id) && NeverOpens(w1, events, id)
  {
    hide Gone, Opens, Run, Serve, Safe, Revived, NeverOpens;
    CancellationLeavesNothing(w.server, session, id, io, files, inbox);
    var w1 := Apply(w, Deliver(Message(session, id, Cancel), [], io));
    assert events[..0] == [] && Run(w1, []) == w1 by { NothingHappens(w1); }
    if Gone(w1.server, id) { StaysGoneIff(w1, events, id); }
  }

  /** An upload is revived by a creation request that arrives after its completion, and in no other way. */
  lemma OnlyALateCreateRevives(w: World, e: Event, session: Session, id: Id)
    requires !Revived(w.server, session, id) && Revived(Apply(w, e).server, session, id)
    ensures e.Deliver? && e.message.id == id && e.message.request.Create?
    ensures FindTicket(w.server.tickets, session, id).Some?
  {
    hide Serve;
    if e.Deliver? {
      DeliveryRevives(w.server, e.message, Arriving(e.message.request, e.payload), e.io, session, id);
    }
  }

  lemma DeliveryRevives(s: Server, m: Message, request: Request, io: Outcome, session: Session, id: Id)
    requires !Revived(s, session, id) && Revived(Serve(s, m.session, m.id, request, io).0, session, id)
    ensures m.id == id && request.Create? && FindTicket(s.tickets, session, id).Some?
  {
    hide ChecksumMatches, UniqueDestination, Checksum, FindTicket;
    match request
    case Create(_, _, _) =>
    case Put(_, _, _) =>
    case Progress =>
    case Cancel =>
    case Complete =>
      if Serve(s, m.session, m.id, request, io).0 != s {
        FoundAmongMore(s.tickets, CompleteStep(s, m.session, m.id, io).1.ticket, session, id);
      }
  }

  lemma FoundAmongMore(tickets: seq<Ticket>, t: Ticket, session: Session, id: Id)
    requires FindTicket(Truncated([t] + tickets), session, id).Some?
    ensures FindTicket(tickets, session, id).Some? || (t.session == session && t.id == id)
  {
    var u := FindTicket(Truncated([t] + tickets), session, id).value;
    assert u in [t] + tickets;
  }

  lemma CreatedThenCompleted(s: Server, name: string, io: Outcome)
    requires s.enabled && s.session == Some(1) && s.tickets == [] && s.uploads == map[] && s.staging == map[]
    requires s.inbox == map[] && io.disk.Works?
    ensures var s1 := CreateStep(s, 1, 0, Some(name), "", 0, io).0;
      var s2 := CompleteStep(s1, 1, 0, io).0;
      var s3 := CreateStep(s2, 1, 0, Some(name), "", 0, io).0;
      && s1.inbox == map[] && s2.inbox.Keys == {name} == s3.inbox.Keys
      && s1.session == s2.session == s3.session == Some(1)
      && 0 in s3.uploads && 0 in s3.staging && FindTicket(s3.tickets, 1, 0).Some?
  {
    hide Checksum;
    var s1 := CreateStep(s, 1, 0, Some(name), "", 0, io).0;
    var s2 := CompleteStep(s1, 1, 0, io).0;
    assert s2.uploads == map[] && s2.staging == map[];
    assert s2.tickets == Truncated([CompleteStep(s1, 1, 0, io).1.ticket] + []);
  }

  lemma RunOne(w: World, e: Event, rest: seq<Event>, files: Files)
    ensures Run(w, [e] + rest) == Run(Apply(w, e), rest)
    ensures PossibleRun(w, [e] + rest, files) <==> Possible(w, e, files) && PossibleRun(Apply(w, e), rest, files)
  {
    assert ([e] + rest)[1..] == rest;
  }

  /** The condition is needed: an empty file, a creation request delivered twice, the second time after
      the completion. The cancellation is answered as done and the part file stays. */
  lemma ALateCreateSurvivesCancellation(files: Files, io: Outcome, name: string)
    requires files(0) == [] && io.disk.Works? && io.fallback != name
    ensures var w := World(Server(true, 0, None, map[], map[], map[], [], 0, 0, 0, []), {});
      var create := Message(1, 0, Create(Some(name), "", 0));
      var complete, cancel := Message(1, 0, Complete), Message(1, 0, Cancel);
      var events := [Pair(1)] + ([Send(create)] + ([Send(complete)] + ([Deliver(create, [], io)] + ([Deliver(complete, [], io)]
                    + ([Deliver(create, [], io)] + ([Send(cancel)] + ([Deliver(cancel, [], io)] + [])))))));
      && Start(w, map[]) && PossibleRun(w, events, files)
      && 0 in Run(w, events).server.staging && 0 in Run(w, events).server.uploads
  {
    hide CreateStep, CompleteStep, FindTicket, PossibleRun, Run;
    var w := World(Server(true, 0, None, map[], map[], map[], [], 0, 0, 0, []), {});
    var create := Message(1, 0, Create(Some(name), "", 0));
    var complete, cancel := Message(1, 0, Complete), Message(1, 0, Cancel);
    var e8 := [Deliver(cancel, [], io)] + [];
    var e7 := [Send(cancel)] + e8;
    var e6 := [Deliver(create, [], io)] + e7;
    var e5 := [Deliver(complete, [], io)] + e6;
    var e4 := [Deliver(create, [], io)] + e5;
    var e3 := [Send(complete)] + e4;
    var w3 := AfterThree(w, create, complete);
    CreatedThenCompleted(w3.server, name, io);
    var w4 := Apply(w3, Deliver(create, [], io));
    var w5 := Apply(w4, Deliver(complete, [], io));
    var w6 := Apply(w5, Deliver(create, [], io));
    var w7 := Apply(w6, Send(cancel));
    var w8 := Apply(w7, Deliver(cancel, [], io));
    RunOne(w, Pair(1), [Send(create)] + e3, files);
    RunOne(Apply(w, Pair(1)), Send(create), e3, files);
    RunOne(Apply(Apply(w, Pair(1)), Send(create)), Send(complete), e4, files);
    RunOne(w3, Deliver(create, [], io), e5, files);
    RunOne(w4, Deliver(complete, [], io), e6, files);
    RunOne(w5, Deliver(create, [], io), e7, files);
    RunOne(w6, Send(cancel), e8, files);
    RunOne(w7, Deliver(cancel, [], io), [], files);
    RunNone(w8, files);
    assert w8.server == w6.server;
  }

  /** And the other condition: the creation request is overtaken by the cancellation, which finds nothing.
      When it arrives it opens an upload, and nobody is there to finish or cancel it. */
  lemma AnOvertakenCreateStays(files: Files, io: Outcome, name: string)
    requires files(0) == [] && io.disk.Works?
    ensures var w := World(Server(true, 0, None, map[], map[], map[], [], 0, 0, 0, []), {});
      var create, cancel := Message(1, 0, Create(Some(name), "", 0)), Message(1, 0, Cancel);
      var events := [Pair(1)] + ([Send(create)] + ([Send(cancel)] + ([Deliver(cancel, [], io)] + ([Deliver(create, [], io)] + []))));
      && Start(w, map[]) && PossibleRun(w, events, files)
      && CancelStep(AfterThree(w, create, cancel).server, 1, 0).1 == Failed(NotFound, None)
      && 0 in Run(w, events).server.staging && 0 in Run(w, events).server.uploads && Run(w, events).server.tickets == []
  {
    hide PossibleRun, Run;
    var w := World(Server(true, 0, None, map[], map[], map[], [], 0, 0, 0, []), {});
    var create, cancel := Message(1, 0, Create(Some(name), "", 0)), Message(1, 0, Cancel);
    var e5 := [Deliver(create, [], io)] + [];
    var e4 := [Deliver(cancel, [], io)] + e5;
    var e3 := [Send(cancel)] + e4;
    var w1 := Apply(w, Pair(1));
    var w2 := Apply(w1, Send(create));
    var w3 := Apply(w2, Send(cancel));
    var w4 := Apply(w3, Deliver(cancel, [], io));
    RunOne(w, Pair(1), [Send(create)] + e3, files);
    RunOne(w1, Send(create), e3, files);
    RunOne(w2, Send(cancel), e4, files);
    RunOne(w3, Deliver(cancel, [], io), e5, files);
    RunOne(w4, Deliver(create, [], io), [], files);
    RunNone(Apply(w4, Deliver(create, [], io)), files);
  }

  function AfterThree(w: World, create: Message, complete: Message): World {
    Apply(Apply(Apply(w, Pair(1)), Send(create)), Send(complete))
  }

  lemma RunNone(w: World, files: Files)
    ensures Run(w, []) == w && PossibleRun(w, [], files)
  {
  }
}
