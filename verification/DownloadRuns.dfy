/** Any number of downloads at once, polled and dropped in any order while the queue, the switch and the
    pairing change: what the counters, the history and the queue come to. */
module DownloadRuns {
  import opened Bytes
  import Ranges
  import Transfer
  import opened Download

  datatype Floor = Floor(desk: Desk, streams: map<nat, Stream>)

  datatype Event =
    | Open(id: Id, session: Session, header: Option<string>, removeAfter: bool, disk: OnDisk)
    | Poll(number: nat, read: Read)
    | Drop(number: nat)
    | Queue(id: Id, file: Outgoing)
    | Remove(id: Id)
    | Configure(enabled: bool)
    | SetSession(current: Option<Session>)

  /** Streams that exist are polled and dropped; a queued file has a new identifier. */
  predicate Possible(f: Floor, e: Event) {
    match e
    case Poll(number, _) => number in f.streams
    case Drop(number) => number in f.streams
    case Queue(id, _) => id !in f.desk.outbox && forall k :: k in f.streams ==> f.streams[k].id != id
    case _ => true
  }

  // ----- what holds all the time -----

  /** What was handed out are the first `transferred` bytes of the range, the rest is to come; only a
      download of the whole file may take it off the queue. */
  predicate GoodStream(s: Stream, outbox: map<Id, Outgoing>) {
    && s.transferred + s.remaining == s.expected
    && s.start + s.expected <= |s.content|
    && s.emitted == s.content[s.start..s.start + s.transferred]
    && (s.removeAfter ==> s.start == 0 && s.expected == |s.content|)
    && (s.id in outbox ==> outbox[s.id].content == s.content)
  }

  /** A completed download handed out its whole range, one that removed its file the whole file. */
  predicate GoodEnd(e: End) {
    && e.stream.start + e.stream.expected <= |e.stream.content|
    && (e.status.Completed? ==> e.stream.emitted == e.stream.content[e.stream.start..e.stream.start + e.stream.expected])
    && (e.removed ==> e.status.Completed? && e.stream.emitted == e.stream.content)
  }

  predicate EndedOnce(ended: seq<End>) {
    forall i, j :: 0 <= i < j < |ended| ==> ended[i].number != ended[j].number
  }

  function Count(ended: seq<End>, completed: bool): nat {
    if ended == [] then 0
    else Count(ended[..|ended| - 1], completed) + (if ended[|ended| - 1].status.Completed? == completed then 1 else 0)
  }

  predicate EndedKnown(f: Floor) {
    && (forall k :: k in f.streams ==> k < f.desk.begun)
    && (forall e :: e in f.desk.ended ==> e.number < f.desk.begun && e.number !in f.streams)
  }

  predicate Counted(f: Floor) {
    && f.desk.active == |f.streams|
    && f.desk.begun == |f.streams| + |f.desk.ended|
    && f.desk.completed == f.desk.emptied + Count(f.desk.ended, true)
    && f.desk.failed == Count(f.desk.ended, false)
  }

  predicate Good(f: Floor) {
    && Counted(f) && EndedKnown(f) && EndedOnce(f.desk.ended)
    && GoodStreams(f.streams, f.desk.outbox) && GoodEnds(f.desk.ended)
  }

  predicate GoodStreams(streams: map<nat, Stream>, outbox: map<Id, Outgoing>) {
    forall k :: k in streams ==> GoodStream(streams[k], outbox)
  }

  predicate GoodEnds(ended: seq<End>) { forall e :: e in ended ==> GoodEnd(e) }

  // ----- runs -----

  function Ending(f: Floor, number: nat, ranOut: bool): Floor
    requires number in f.streams && f.desk.active > 0
  {
    Floor(EndStep(f.desk, number, f.streams[number], ranOut), f.streams - {number})
  }

  function Apply(f: Floor, e: Event): Floor
    requires Good(f) && Possible(f, e)
  {
    match e
    case Open(id, session, header, removeAfter, disk) =>
      var (desk, opening) := OpenStep(f.desk, id, session, header, removeAfter, disk);
      Floor(desk, if opening.Streaming? then f.streams[f.desk.begun := opening.stream] else f.streams)
    case Poll(number, read) =>
      StreamsAreActive(f, number);
      if f.streams[number].remaining == 0 then Ending(f, number, true)
      else f.(streams := f.streams[number := ReadStep(f.streams[number], read).0])
    case Drop(number) =>
      StreamsAreActive(f, number);
      Ending(f, number, false)
    case Queue(id, file) => f.(desk := f.desk.(outbox := f.desk.outbox[id := file]))
    case Remove(id) => f.(desk := f.desk.(outbox := f.desk.outbox - {id}))
    case Configure(enabled) => f.(desk := f.desk.(enabled := enabled))
    case SetSession(current) => f.(desk := f.desk.(session := current))
  }

  lemma StreamsAreActive(f: Floor, number: nat)
    requires Good(f) && number in f.streams
    ensures f.desk.active > 0 && GoodStream(f.streams[number], f.desk.outbox)
  {
    assert f.streams.Keys != {};
  }

  lemma {:induction false} CountSum(ended: seq<End>)
    ensures Count(ended, true) + Count(ended, false) == |ended|
  {
    if ended != [] { CountSum(ended[..|ended| - 1]); }
  }

  /** Opening starts a good stream, or counts an empty download, or changes nothing. */
  lemma OpeningEffect(d: Desk, id: Id, session: Session, header: Option<string>, removeAfter: bool, disk: OnDisk)
    ensures var (d', opening) := OpenStep(d, id, session, header, removeAfter, disk);
      match opening
      case Refused(_) => d' == d
      case Empty => d' == d.(completed := d.completed + 1, emptied := d.emptied + 1, outbox := d'.outbox)
                    && d'.outbox.Keys <= d.outbox.Keys && (forall k :: k in d'.outbox ==> d'.outbox[k] == d.outbox[k])
      case Streaming(s) => d' == d.(active := d.active + 1, begun := d.begun + 1) && GoodStream(s, d'.outbox)
  {
    hide Ranges.ParseRange;
  }

  lemma SmallerQueue(s: Stream, outbox: map<Id, Outgoing>, outbox': map<Id, Outgoing>)
    requires GoodStream(s, outbox) && outbox'.Keys <= outbox.Keys
    requires forall k :: k in outbox' ==> outbox'[k] == outbox[k]
    ensures GoodStream(s, outbox')
  {
  }

  lemma SmallerQueueForAll(streams: map<nat, Stream>, outbox: map<Id, Outgoing>, outbox': map<Id, Outgoing>)
    requires GoodStreams(streams, outbox) && outbox'.Keys <= outbox.Keys
    requires forall k :: k in outbox' ==> outbox'[k] == outbox[k]
    ensures GoodStreams(streams, outbox')
  {
    hide GoodStream;
    forall k | k in streams ensures GoodStream(streams[k], outbox') {
      SmallerQueue(streams[k], outbox, outbox');
    }
  }

  lemma OpeningKeeps(f: Floor, id: Id, session: Session, header: Option<string>, removeAfter: bool, disk: OnDisk)
    requires Good(f)
    ensures Good(Apply(f, Open(id, session, header, removeAfter, disk)))
  {
    hide Count, EndedOnce, GoodEnds, OpenStep, GoodStream, GoodStreams;
    var f' := Apply(f, Open(id, session, header, removeAfter, disk));
    OpeningEffect(f.desk, id, session, header, removeAfter, disk);
    var opening := OpenStep(f.desk, id, session, header, removeAfter, disk).1;
    SmallerQueueForAll(f.streams, f.desk.outbox, f'.desk.outbox);
    if opening.Streaming? {
      OneMoreStream(f.streams, f'.desk.outbox, f.desk.begun, opening.stream);
      assert f'.streams.Keys == f.streams.Keys + {f.desk.begun};
    }
  }

  lemma OneMoreStream(streams: map<nat, Stream>, outbox: map<Id, Outgoing>, number: nat, s: Stream)
    requires GoodStreams(streams, outbox) && GoodStream(s, outbox)
    ensures GoodStreams(streams[number := s], outbox)
  {
    hide GoodStream;
  }

  lemma ReadIsGood(s: Stream, read: Read, outbox: map<Id, Outgoing>)
    requires GoodStream(s, outbox)
    ensures GoodStream(ReadStep(s, read).0, outbox)
  {
    var s' := ReadStep(s, read).0;
    assert s'.emitted == s.content[s.start..s.start + s'.transferred];
  }

  lemma ReadingKeeps(f: Floor, number: nat, read: Read)
    requires Good(f) && number in f.streams && f.streams[number].remaining > 0
    ensures Good(Apply(f, Poll(number, read)))
  {
    hide Count, EndedOnce, GoodEnds, GoodStream, ReadStep;
    StreamsAreActive(f, number);
    ReadIsGood(f.streams[number], read, f.desk.outbox);
    assert Apply(f, Poll(number, read)).streams.Keys == f.streams.Keys;
  }

  lemma EndIsGood(d: Desk, number: nat, s: Stream, ranOut: bool)
    requires GoodStream(s, d.outbox) && (ranOut ==> s.remaining == 0)
    ensures var status := StatusOf(d, s, ranOut); GoodEnd(End(number, s, status, status.Completed? && s.removeAfter))
  {
  }

  lemma OneMoreEnd(ended: seq<End>, e: End)
    requires GoodEnds(ended) && EndedOnce(ended) && GoodEnd(e)
    requires forall x :: x in ended ==> x.number != e.number
    ensures GoodEnds(ended + [e]) && EndedOnce(ended + [e])
    ensures forall completed :: Count(ended + [e], completed) ==
              Count(ended, completed) + (if e.status.Completed? == completed then 1 else 0)
  {
    hide GoodEnd;
    assert (ended + [e])[..|ended|] == ended;
  }

  lemma EndingKeeps(f: Floor, number: nat, ranOut: bool)
    requires Good(f) && number in f.streams && f.desk.active > 0 && (ranOut ==> f.streams[number].remaining == 0)
    ensures Good(Ending(f, number, ranOut))
  {
    hide GoodEnd, GoodEnds, EndedOnce, StatusOf, GoodStream, Count;
    var f', s := Ending(f, number, ranOut), f.streams[number];
    StreamsAreActive(f, number);
    EndIsGood(f.desk, number, s, ranOut);
    OneMoreEnd(f.desk.ended, f'.desk.ended[|f.desk.ended|]);
    assert f'.streams.Keys == f.streams.Keys - {number};
    SmallerQueueForAll(f.streams, f.desk.outbox, f'.desk.outbox);
  }

  lemma LargerQueue(streams: map<nat, Stream>, outbox: map<Id, Outgoing>, id: Id, file: Outgoing)
    requires GoodStreams(streams, outbox) && forall k :: k in streams ==> streams[k].id != id
    ensures GoodStreams(streams, outbox[id := file])
  {
    forall k | k in streams ensures GoodStream(streams[k], outbox[id := file]) {
      assert GoodStream(streams[k], outbox);
    }
  }

  lemma StepKeepsGood(f: Floor, e: Event)
    requires Good(f) && Possible(f, e)
    ensures Good(Apply(f, e))
  {
    hide Count, EndedOnce, GoodEnds, GoodStreams, Ending, OpenStep, ReadStep;
    match e
    case Open(id, session, header, removeAfter, disk) => OpeningKeeps(f, id, session, header, removeAfter, disk);
    case Poll(number, read) =>
      StreamsAreActive(f, number);
      if f.streams[number].remaining == 0 { EndingKeeps(f, number, true); } else { ReadingKeeps(f, number, read); }
    case Drop(number) =>
      StreamsAreActive(f, number);
      EndingKeeps(f, number, false);
    case Queue(id, file) => LargerQueue(f.streams, f.desk.outbox, id, file);
    case Remove(id) => SmallerQueueForAll(f.streams, f.desk.outbox, f.desk.outbox - {id});
    case _ =>
  }

  predicate PossibleRun(f: Floor, events: seq<Event>)
    requires Good(f)
    decreases |events|
  {
    events == [] || (Possible(f, events[0]) && (StepKeepsGood(f, events[0]); PossibleRun(Apply(f, events[0]), events[1..])))
  }

  function Run(f: Floor, events: seq<Event>): Floor
    requires Good(f) && PossibleRun(f, events)
    decreases |events|
  {
    if events == [] then f else (StepKeepsGood(f, events[0]); Run(Apply(f, events[0]), events[1..]))
  }

  lemma {:induction false} RunKeepsGood(f: Floor, events: seq<Event>)
    requires Good(f) && PossibleRun(f, events)
    ensures Good(Run(f, events))
    decreases |events|
  {
    if events != [] {
      StepKeepsGood(f, events[0]);
      RunKeepsGood(Apply(f, events[0]), events[1..]);
    }
  }

  /** No download has happened yet. */
  function Start(enabled: bool): (f: Floor)
    ensures Good(f)
  {
    Floor(Desk(enabled, None, map[], 0, 0, 0, 0, 0, []), map[])
  }

  /** After any run every stream ever opened has ended exactly once or is still open, the three counters
      add up to the streams and the empty downloads, and every completed download handed out its range. */
  lemma EveryRunBalances(enabled: bool, events: seq<Event>)
    requires PossibleRun(Start(enabled), events)
    ensures var f := Run(Start(enabled), events);
      && f.desk.begun + f.desk.emptied == f.desk.completed + f.desk.failed + f.desk.active
      && f.desk.active == |f.streams|
      && EndedOnce(f.desk.ended) && EndedKnown(f) && f.desk.begun == |f.streams| + |f.desk.ended|
      && GoodStreams(f.streams, f.desk.outbox) && GoodEnds(f.desk.ended)
  {
    hide GoodEnds, GoodStreams;
    RunKeepsGood(Start(enabled), events);
    CountSum(Run(Start(enabled), events).desk.ended);
  }

  /** A file leaves the queue only when it is removed by hand, when it is empty and downloaded, or when a
      download that was to remove it has handed out every byte of it. */
  lemma OnlyWholeDownloadsRemove(f: Floor, e: Event, id: Id)
    requires Good(f) && Possible(f, e) && id in f.desk.outbox && id !in Apply(f, e).desk.outbox
    ensures
      || e == Remove(id)
      || (e.Open? && e.id == id && e.removeAfter && f.desk.outbox[id].content == [])
      || ((e.Poll? || e.Drop?) && f.streams[e.number].id == id && f.streams[e.number].removeAfter
          && f.streams[e.number].emitted == f.desk.outbox[id].content)
  {
    hide Ranges.ParseRange, EndedOnce, EndedKnown, GoodEnds, Counted;
    if e.Poll? || e.Drop? { assert GoodStream(f.streams[e.number], f.desk.outbox); }
  }

  /** A stream polled until nothing remains, when every read gives as much as was asked for. */
  function Drained(s: Stream): Stream
    requires s.start + s.transferred + s.remaining <= |s.content|
    decreases s.remaining
  {
    if s.remaining == 0 then s else Drained(ReadStep(s, Got(BUFFER)).0)
  }

  /** Reading on to the end hands out the whole range; ending then counts as completed even if the pairing
      has changed, while a drop at that moment counts as completed only if it has not. */
  lemma {:induction false} DrainingHandsOutTheRange(s: Stream, outbox: map<Id, Outgoing>, d: Desk)
    requires GoodStream(s, outbox)
    ensures var t := Drained(s);
      && t.remaining == 0 && t.emitted == s.content[s.start..s.start + s.expected]
      && StatusOf(d, t, true) == Completed
      && (StatusOf(d, t, false) == Completed <==> d.session == Some(s.session))
    decreases s.remaining
  {
    if s.remaining > 0 {
      ReadIsGood(s, Got(BUFFER), outbox);
      DrainingHandsOutTheRange(ReadStep(s, Got(BUFFER)).0, outbox, d);
    }
  }

  // ----- from the header to the bytes -----

  /** The bytes at the positions asked for among the first n, in order. */
  function AskedBytes(content: seq<U8>, w: Ranges.Wanted, n: nat): seq<U8>
    requires n <= |content|
  {
    if n == 0 then []
    else AskedBytes(content, w, n - 1) + (if Ranges.Asks(w, |content|, n - 1) then [content[n - 1]] else [])
  }

  lemma {:induction false} AskedIsSlice(content: seq<U8>, w: Ranges.Wanted, r: Ranges.ByteRange, n: nat)
    requires Ranges.Covers(r, w, |content|) && r.start <= r.end < |content| && n <= |content|
    ensures AskedBytes(content, w, n) == content[Transfer.Min(r.start, n)..Transfer.Min(r.end + 1, n)]
  {
    hide Ranges.Asks;
    if n > 0 {
      AskedIsSlice(content, w, r, n - 1);
      assert Ranges.Asks(w, |content|, n - 1) <==> r.start <= n - 1 <= r.end;
    }
  }

  /** A stream over a range of the file, with nothing handed out yet, and what reading it to its end gives. */
  lemma StreamGives(d: Desk, id: Id, session: Session, removeAfter: bool, range: Ranges.ByteRange, header: Option<string>)
    requires d.enabled && d.session == Some(session) && id in d.outbox && d.outbox[id].content != []
    requires var size := |d.outbox[id].content|;
      && Ranges.ParseRange(header, size).Ok? && range.start <= range.end < size
      && range == (if Ranges.ParseRange(header, size).value.Some? then Ranges.ParseRange(header, size).value.value
                   else Ranges.ByteRange(0, size - 1))
    ensures var content, opening := d.outbox[id].content, OpenStep(d, id, session, header, removeAfter, Intact).1;
      && opening.Streaming? && GoodStream(opening.stream, d.outbox)
      && Drained(opening.stream).emitted == content[range.start..range.end + 1]
      && (opening.stream.removeAfter <==> removeAfter && content[range.start..range.end + 1] == content)
  {
    hide Ranges.ParseRange;
    OpeningEffect(d, id, session, header, removeAfter, Intact);
    var s := OpenStep(d, id, session, header, removeAfter, Intact).1.stream;
    DrainingHandsOutTheRange(s, d.outbox, d);
  }

  /** What a client gets for a range header: if it writes down a range that can be granted, exactly the bytes at
      the positions the range asks for, in order, and otherwise a refusal. The file is to be removed afterwards
      only if these are all its bytes. */
  lemma DownloadIsAsked(d: Desk, id: Id, session: Session, h: string, removeAfter: bool)
    requires d.enabled && d.session == Some(session) && id in d.outbox
    ensures var content, opening := d.outbox[id].content, OpenStep(d, id, session, Some(h), removeAfter, Intact).1;
      && (opening.Streaming? <==> exists w :: Ranges.Writes(h, w) && Ranges.Grantable(w, |content|))
      && (!opening.Streaming? ==> opening == Refused(Range))
      && (opening.Streaming? ==>
            && GoodStream(opening.stream, d.outbox)
            && forall w :: Ranges.Writes(h, w) ==>
                 && Drained(opening.stream).emitted == AskedBytes(content, w, |content|)
                 && (opening.stream.removeAfter <==> removeAfter && AskedBytes(content, w, |content|) == content))
  {
    hide Ranges.ParseSpec, Ranges.Writes, Ranges.Grantable, Ranges.Covers;
    var content := d.outbox[id].content;
    Ranges.GrantedIsAsked(h, |content|);
    if Ranges.ParseRange(Some(h), |content|).Ok? {
      var range := Ranges.ParseRange(Some(h), |content|).value.value;
      StreamGives(d, id, session, removeAfter, range, Some(h));
      forall w | Ranges.Writes(h, w) ensures AskedBytes(content, w, |content|) == content[range.start..range.end + 1] {
        AskedIsSlice(content, w, range, |content|);
      }
    }
  }

  /** Without a header a client gets the whole file. */
  lemma WholeDownload(d: Desk, id: Id, session: Session, removeAfter: bool)
    requires d.enabled && d.session == Some(session) && id in d.outbox
    ensures var content, opening := d.outbox[id].content, OpenStep(d, id, session, None, removeAfter, Intact).1;
      if content == [] then opening == Empty
      else opening.Streaming? && Drained(opening.stream).emitted == content && opening.stream.removeAfter == removeAfter
  {
    var content := d.outbox[id].content;
    if content != [] {
      StreamGives(d, id, session, removeAfter, Ranges.ByteRange(0, |content| - 1), None);
      assert content[0..|content|] == content;
    }
  }

  /** Nothing is given away otherwise: not while switched off, not under another pairing, not of a file that is no
      longer queued, is gone, has changed or cannot be read. */
  lemma OnlyIntactFilesAreGiven(d: Desk, id: Id, session: Session, header: Option<string>, removeAfter: bool, disk: OnDisk)
    ensures var (d', opening) := OpenStep(d, id, session, header, removeAfter, disk);
      && (!opening.Refused? ==> d.enabled && d.session == Some(session) && id in d.outbox && !disk.Missing? && !disk.Changed?)
      && (opening.Streaming? ==> disk.Intact? && opening.stream.session == session && opening.stream.id == id)
      && (opening.Refused? ==> d' == d)
  {
    hide Ranges.ParseRange;
  }

  /** A stream dropped before its end failed: the pairing had ended, or the client went away. */
  lemma DroppedEarly(d: Desk, s: Stream, outbox: map<Id, Outgoing>)
    requires GoodStream(s, outbox) && s.remaining > 0
    ensures StatusOf(d, s, false) == if d.session == Some(s.session) then Interrupted else SessionEnded
  {
  }

  /** A read that fails, or finds the file shorter than it was, gives an error and moves nothing; any other gives
      the next bytes of the range, at most 64 KiB. */
  lemma ReadGives(s: Stream, read: Read, outbox: map<Id, Outgoing>)
    requires GoodStream(s, outbox) && s.remaining > 0
    ensures var (s', item) := ReadStep(s, read);
      if read.Fails? || read.count == 0 then s' == s && item == Error
      else
        && item.Chunk? && 0 < |item.bytes| <= 64 * 1024 && |item.bytes| <= read.count
        && s'.emitted == s.emitted + item.bytes && s'.remaining + |item.bytes| == s.remaining && GoodStream(s', outbox)
  {
    ReadIsGood(s, read, outbox);
  }
}
