/** Downloads: what `open_download` sets up, what the body stream does when it is polled, and what
    dropping its guard records; then the whole floor of concurrent downloads. */
module Download {
  import opened Bytes
  import Transfer
  import Ranges

  const BUFFER := 0x1_0000

  type Id = Transfer.Id
  type Session = Transfer.Session

  datatype Outgoing = Outgoing(name: string, content: seq<U8>)

  /** One body stream with its guard. `emitted` is what it has handed out so far. */
  datatype Stream = Stream(
    id: Id, session: Session, content: seq<U8>, start: nat, expected: nat, removeAfter: bool,
    remaining: nat, transferred: nat, emitted: seq<U8>)

  datatype Status = Completed | Interrupted | SessionEnded

  /** What is recorded of the stream with this number when it ends, and whether its file left the queue. */
  datatype End = End(number: nat, stream: Stream, status: Status, removed: bool)

  /** The download side of the manager. `begun` numbers the streams, `emptied` counts the downloads of
      empty files, `ended` is the history. */
  datatype Desk = Desk(
    enabled: bool, session: Option<Session>, outbox: map<Id, Outgoing>,
    completed: nat, failed: nat, active: nat, begun: nat, emptied: nat, ended: seq<End>)

  datatype Refusal = Disabled | Unauthorized | NotFound | Conflict | Range | Io
  datatype Opening = Refused(kind: Refusal) | Empty | Streaming(stream: Stream)

  /** The queued file when it is opened. */
  datatype OnDisk = Intact | Missing | Changed | Unreadable

  function OpenStep(d: Desk, id: Id, session: Session, header: Option<string>, removeAfter: bool, disk: OnDisk): (Desk, Opening) {
    if !d.enabled then (d, Refused(Disabled))
    else if d.session != Some(session) then (d, Refused(Unauthorized))
    else if id !in d.outbox || disk.Missing? then (d, Refused(NotFound))
    else if disk.Changed? then (d, Refused(Conflict))
    else
      var content := d.outbox[id].content;
      var requested := Ranges.ParseRange(header, |content|);
      if requested.Err? then (d, Refused(Range))
      else if |content| == 0 then
        (d.(completed := d.completed + 1, emptied := d.emptied + 1,
            outbox := if removeAfter then d.outbox - {id} else d.outbox), Empty)
      else
        var range := if requested.value.Some? then requested.value.value else Ranges.ByteRange(0, |content| - 1);
        if disk.Unreadable? then (d, Refused(Io))
        else
          var length := range.end - range.start + 1;
          var whole := removeAfter && range.start == 0 && range.end == |content| - 1;
          (d.(active := d.active + 1, begun := d.begun + 1),
           Streaming(Stream(id, session, content, range.start, length, whole, length, 0, [])))
  }

  /** What a read gives: a number of bytes, or an error of the pacing or of the file. */
  datatype Read = Got(count: nat) | Fails

  datatype Item = Chunk(bytes: seq<U8>) | Error | Finished

  /** One chunk: at most 64 KiB and never past the end of the range. */
  function ReadStep(s: Stream, read: Read): (Stream, Item)
    requires s.start + s.transferred + s.remaining <= |s.content|
  {
    var amount := Transfer.Min(s.remaining, BUFFER);
    if read.Fails? || read.count == 0 then (s, Error)
    else
      var count := Transfer.Min(read.count, amount);
      var at := s.start + s.transferred;
      var bytes := s.content[at..at + count];
      (s.(remaining := s.remaining - count, transferred := s.transferred + count, emitted := s.emitted + bytes), Chunk(bytes))
  }

  /** What the guard records when the stream goes away: the stream ran to its end, or was dropped. */
  function StatusOf(d: Desk, s: Stream, ranOut: bool): Status {
    if ranOut then Completed
    else if d.session != Some(s.session) then SessionEnded
    else if s.transferred < s.expected then Interrupted
    else Completed
  }

  function EndStep(d: Desk, number: nat, s: Stream, ranOut: bool): Desk
    requires d.active > 0
  {
    var status := StatusOf(d, s, ranOut);
    var removed := status.Completed? && s.removeAfter;
    d.(active := d.active - 1,
       completed := d.completed + (if status.Completed? then 1 else 0),
       failed := d.failed + (if status.Completed? then 0 else 1),
       outbox := if removed then d.outbox - {s.id} else d.outbox,
       ended := d.ended + [End(number, s, status, removed)])
  }

  // ----- the objects -----

  class Manager {
    var enabled: bool
    var session: Option<Session>
    var outbox: map<Id, Outgoing>
    var completed: nat
    var failed: nat
    var active: nat
    var begun: nat
    var emptied: nat
    var ended: seq<End>

    function State(): Desk
      reads this
    {
      Desk(enabled, session, outbox, completed, failed, active, begun, emptied, ended)
    }

    method OpenDownload(id: Id, sessionId: Session, header: Option<string>, removeAfterComplete: bool, disk: OnDisk)
        returns (r: Opening, body: BodyStream?)
      modifies this
      ensures (State(), r) == OpenStep(old(State()), id, sessionId, header, removeAfterComplete, disk)
      ensures r.Streaming? <==> body != null
      ensures body != null ==> fresh(body) && body.manager == this && body.number == old(begun)
                               && !body.completed && body.Value() == r.stream
    {
      body := null;
      if !enabled { return Refused(Disabled), null; }
      if session != Some(sessionId) { return Refused(Unauthorized), null; }
      if id !in outbox || disk.Missing? { return Refused(NotFound), null; }
      var record := outbox[id];
      if disk.Changed? { return Refused(Conflict), null; }
      var size := |record.content|;
      var requested := Ranges.ParseRange(header, size);
      if requested.Err? { return Refused(Range), null; }
      if size == 0 {
        completed, emptied := completed + 1, emptied + 1;
        if removeAfterComplete { outbox := outbox - {id}; }
        return Empty, null;
      }
      var range := if requested.value.Some? then requested.value.value else Ranges.ByteRange(0, size - 1);
      if range.start >= size || range.end >= size || range.start > range.end { assert false; }
      if disk.Unreadable? { return Refused(Io), null; }
      var number := begun;
      active, begun := active + 1, begun + 1;
      var length := range.end - range.start + 1;
      body := new BodyStream(this, number, id, sessionId, record.content, range.start, length,
                             removeAfterComplete && range.start == 0 && range.end == size - 1);
      r := Streaming(body.Value());
    }
  }

  /** The stream state and its `DownloadGuard`. */
  class BodyStream {
    const manager: Manager
    const number: nat
    const id: Id
    const session: Session
    const content: seq<U8>
    const start: nat
    const expected: nat
    const removeAfter: bool
    var remaining: nat
    var transferred: nat
    var emitted: seq<U8>
    var completed: bool

    function Value(): Stream
      reads this
    {
      Stream(id, session, content, start, expected, removeAfter, remaining, transferred, emitted)
    }

    constructor (manager: Manager, number: nat, id: Id, session: Session, content: seq<U8>, start: nat, length: nat,
                 removeAfter: bool)
      ensures this.manager == manager && this.number == number && !completed
      ensures Value() == Stream(id, session, content, start, length, removeAfter, length, 0, [])
    {
      this.manager, this.number, this.id, this.session, this.content := manager, number, id, session, content;
      this.start, this.expected, this.removeAfter := start, length, removeAfter;
      this.remaining, this.transferred, this.emitted, this.completed := length, 0, [], false;
    }

    /** `DownloadGuard::complete`. */
    method Complete()
      requires !completed && manager.active > 0
      modifies this`completed, manager`completed, manager`outbox
      ensures completed && manager.completed == old(manager.completed) + 1
      ensures manager.outbox == if removeAfter then old(manager.outbox) - {id} else old(manager.outbox)
    {
      completed := true;
      manager.completed := manager.completed + 1;
      if removeAfter { manager.outbox := manager.outbox - {id}; }
    }

    /** `Drop for DownloadGuard`. */
    method Drop()
      requires manager.active > 0
      modifies manager
      ensures manager.State() ==
        if old(completed) then old(manager.State()).(active := old(manager.active) - 1,
                                 ended := old(manager.ended) + [End(number, old(Value()), Completed, removeAfter)])
        else EndStep(old(manager.State()), number, old(Value()), false)
    {
      manager.active := manager.active - 1;
      if !completed {
        var status := if manager.session != Some(session) then SessionEnded
                      else if transferred < expected then Interrupted
                      else Completed;
        if status == Completed {
          manager.completed := manager.completed + 1;
          if removeAfter { manager.outbox := manager.outbox - {id}; }
        } else {
          manager.failed := manager.failed + 1;
        }
        manager.ended := manager.ended + [End(number, Value(), status, status == Completed && removeAfter)];
      } else {
        manager.ended := manager.ended + [End(number, Value(), Completed, removeAfter)];
      }
    }

    /** One poll of the body. At the end of the range the guard completes and is dropped. */
    method Next(read: Read) returns (item: Item)
      requires !completed && manager.active > 0 && start + transferred + remaining <= |content|
      modifies this, manager
      ensures old(remaining) == 0 ==>
        item.Finished? && manager.State() == EndStep(old(manager.State()), number, old(Value()), true)
      ensures old(remaining) > 0 ==>
        && (Value(), item) == ReadStep(old(Value()), read)
        && manager.State() == old(manager.State()) && completed == old(completed)
    {
      if remaining == 0 {
        Complete();
        Drop();
        return Finished;
      }
      var amount := Transfer.Min(remaining, BUFFER);
      if read.Fails? || read.count == 0 { return Error; }
      var count := Transfer.Min(read.count, amount);
      var bytes := content[start + transferred..start + transferred + count];
      remaining := remaining - count;
      transferred := transferred + count;
      emitted := emitted + bytes;
      return Chunk(bytes);
    }
  }
}
