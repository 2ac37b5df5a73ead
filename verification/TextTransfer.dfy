/** Typed text: the browser cuts it into messages, the host turns every message into key events. */
module TextTransfer {
  import opened Bytes
  import opened Unicode
  import opened Floats
  import Protocol
  import WireTheorems
  import BrowserCodec

  // ----- the host: text to key events -----

  datatype KeyEvent =
    | Virtual(key: U16, up: bool)
    | Unit(unit: U16, up: bool)

  const RETURN: U16 := 0x0D

  function Enter(): seq<KeyEvent> { [Virtual(RETURN, false), Virtual(RETURN, true)] }

  function UnitEvents(units: seq<U16>): (events: seq<KeyEvent>)
    ensures |events| == 2 * |units|
  {
    if units == [] then [] else [Unit(units[0], false), Unit(units[0], true)] + UnitEvents(units[1..])
  }

  function CharacterEvents(c: Scalar, afterReturn: bool): seq<KeyEvent> {
    if c == CR then Enter()
    else if c == LF then if afterReturn then [] else Enter()
    else UnitEvents(Utf16Char(c))
  }

  /** The key events of a text whose predecessor ended in a carriage return, or did not. */
  function Events(text: Text, afterReturn: bool): seq<KeyEvent> {
    if text == [] then [] else CharacterEvents(text[0], afterReturn) + Events(text[1..], text[0] == CR)
  }

  /** The inner loop: a down and an up for every code unit of one character. */
  method InjectUnits(before: seq<KeyEvent>, units: seq<U16>) returns (inputs: seq<KeyEvent>)
    ensures inputs == before + UnitEvents(units)
  {
    inputs := before;
    assert units[0..] == units;
    for i := 0 to |units|
      invariant inputs + UnitEvents(units[i..]) == before + UnitEvents(units)
    {
      ghost var pair := [Unit(units[i], false), Unit(units[i], true)];
      assert units[i..][0] == units[i] && units[i..][1..] == units[i + 1..];
      assert inputs + (pair + UnitEvents(units[i + 1..])) == inputs + pair + UnitEvents(units[i + 1..]);
      inputs := inputs + [Unit(units[i], false)];
      inputs := inputs + [Unit(units[i], true)];
    }
    assert units[|units|..] == [] && inputs + [] == inputs;
  }

  lemma Regroup(a: seq<KeyEvent>, b: seq<KeyEvent>, c: seq<KeyEvent>)
    ensures a + (b + c) == a + b + c
  {
  }

  method InjectText(text: Text) returns (inputs: seq<KeyEvent>)
    ensures inputs == Events(text, false)
  {
    hide UnitEvents, Utf16Char, Events;
    inputs := [];
    var previousWasReturn := false;
    assert text[0..] == text && [] + Events(text, false) == Events(text, false);
    for i := 0 to |text|
      invariant inputs + Events(text[i..], previousWasReturn) == Events(text, false)
    {
      var character := text[i];
      ghost var rest := text[i + 1..];
      NextCharacter(text, i, previousWasReturn);
      if character == CR || character == LF {
        if character == LF && previousWasReturn {
          assert [] + Events(rest, false) == Events(rest, false);
          previousWasReturn := false;
          continue;
        }
        Regroup(inputs, Enter(), Events(rest, character == CR));
        inputs := inputs + [Virtual(RETURN, false)];
        inputs := inputs + [Virtual(RETURN, true)];
        previousWasReturn := character == CR;
        continue;
      }
      previousWasReturn := false;
      Regroup(inputs, UnitEvents(Utf16Char(character)), Events(rest, false));
      inputs := InjectUnits(inputs, Utf16Char(character));
    }
    assert text[|text|..] == [] && inputs + [] == inputs;
    NoCharacter(previousWasReturn);
  }

  lemma NextCharacter(text: Text, i: nat, afterReturn: bool)
    requires i < |text|
    ensures Events(text[i..], afterReturn) == CharacterEvents(text[i], afterReturn) + Events(text[i + 1..], text[i] == CR)
  {
    assert text[i..][0] == text[i] && text[i..][1..] == text[i + 1..];
  }

  lemma NoCharacter(afterReturn: bool)
    ensures Events([], afterReturn) == []
  {
  }

  // ----- what the events type -----

  function UnitsOf(event: KeyEvent): seq<U16> {
    if event.up then [] else match event case Virtual(_, _) => [LF] case Unit(u, _) => [u]
  }

  /** The code units a text field receives: one per key going down, LF for Enter. */
  function Units(events: seq<KeyEvent>): seq<U16> {
    if events == [] then [] else UnitsOf(events[0]) + Units(events[1..])
  }

  function FromUtf16(units: seq<U16>): Option<Text> {
    if units == [] then Some([])
    else
      match FirstOfUtf16(units)
      case None => None
      case Some(c) =>
        match FromUtf16(units[|Utf16Char(c)|..])
        case None => None
        case Some(rest) => Some([c] + rest)
  }

  /** The text with CR LF, CR and LF unified. */
  function Unified(text: Text): Text {
    if text == [] then []
    else if text[0] == CR && |text| > 1 && text[1] == LF then [LF] + Unified(text[2..])
    else [if text[0] == CR then LF else text[0]] + Unified(text[1..])
  }

  lemma {:induction false} UnitsAppend(a: seq<KeyEvent>, b: seq<KeyEvent>)
    ensures Units(a + b) == Units(a) + Units(b)
  {
    hide UnitsOf;
    if a == [] {
      assert a + b == b;
    } else {
      assert (a + b)[0] == a[0] && (a + b)[1..] == a[1..] + b;
      UnitsAppend(a[1..], b);
    }
  }

  lemma {:induction false} UnitsOfUnitEvents(units: seq<U16>)
    ensures Units(UnitEvents(units)) == units
  {
    if units != [] {
      var events := UnitEvents(units);
      assert events[1..][1..] == UnitEvents(units[1..]);
      assert events[1..][0] == Unit(units[0], true);
      UnitsOfUnitEvents(units[1..]);
      assert [units[0]] + units[1..] == units;
    }
  }

  /** Putting one character in front of decodable units. */
  lemma FromUtf16Step(c: Scalar, units: seq<U16>)
    requires FromUtf16(units).Some?
    ensures FromUtf16(Utf16Char(c) + units) == Some([c] + FromUtf16(units).value)
  {
    FirstOfUtf16Encoding(c, units);
    assert (Utf16Char(c) + units)[|Utf16Char(c)|..] == units;
  }

  lemma {:induction false} EventsTypeText(text: Text, afterReturn: bool)
    ensures FromUtf16(Units(Events(text, afterReturn))) ==
      Some(Unified(if afterReturn && text != [] && text[0] == LF then text[1..] else text))
    decreases |text|
  {
    if text != [] {
      var rest := text[1..];
      if text[0] == CR {
        EventsTypeText(rest, true);
        UnitsAppend(Enter(), Events(rest, true));
        EnterTypesLineFeed();
        FromUtf16Step(LF, Units(Events(rest, true)));
        if rest != [] && rest[0] == LF { assert text[2..] == rest[1..]; }
      } else if text[0] == LF {
        EventsTypeText(rest, false);
        if afterReturn {
          assert [] + Events(rest, false) == Events(rest, false);
        } else {
          UnitsAppend(Enter(), Events(rest, false));
          EnterTypesLineFeed();
          FromUtf16Step(LF, Units(Events(rest, false)));
        }
      } else {
        EventsTypeText(rest, false);
        UnitsAppend(UnitEvents(Utf16Char(text[0])), Events(rest, false));
        UnitsOfUnitEvents(Utf16Char(text[0]));
        FromUtf16Step(text[0], Units(Events(rest, false)));
      }
    }
  }

  lemma EnterTypesLineFeed()
    ensures Units(Enter()) == [LF]
  {
    assert Enter()[1..] == [Virtual(RETURN, true)];
    assert [Virtual(RETURN, true)][1..] == [];
    assert Units([Virtual(RETURN, true)]) == [];
    assert [LF] + [] == [LF];
  }

  /** The key events of one message type its text, with the three line endings unified. */
  lemma MessageTypesItsText(text: Text)
    ensures FromUtf16(Units(Events(text, false))) == Some(Unified(text))
  {
    EventsTypeText(text, false);
  }

  // ----- the browser: text to messages -----

  function Concat(chunks: seq<Text>): Text {
    if chunks == [] then [] else chunks[0] + Concat(chunks[1..])
  }

  lemma {:induction false} ConcatAppend(chunks: seq<Text>, last: Text)
    ensures Concat(chunks + [last]) == Concat(chunks) + last
  {
    if chunks == [] {
      assert Concat([last]) == last + Concat([last][1..]) == last;
    } else {
      assert (chunks + [last])[0] == chunks[0] && (chunks + [last])[1..] == chunks[1..] + [last];
      ConcatAppend(chunks[1..], last);
      assert chunks[0] + (Concat(chunks[1..]) + last) == (chunks[0] + Concat(chunks[1..])) + last;
    }
  }

  /** The first character of the next chunk would not have fitted. */
  predicate IsTight(chunk: Text, next: Text, maximum: nat) {
    next != [] && |Utf8(chunk)| + |Utf8Char(next[0])| > maximum
  }

  /** Every chunk has content and fits, and none could have been longer. */
  ghost predicate IsGreedy(chunks: seq<Text>, maximum: nat) {
    && (forall i :: 0 <= i < |chunks| ==> chunks[i] != [] && |Utf8(chunks[i])| <= maximum)
    && (forall i, j :: 0 <= i && j == i + 1 < |chunks| ==> IsTight(chunks[i], chunks[j], maximum))
  }

  lemma OneCharacter(current: Text, character: Scalar)
    ensures |Utf8(current + [character])| == |Utf8(current)| + |Utf8Char(character)|
  {
    Utf8Append(current, [character]);
    assert [character][1..] == [];
    assert Utf8([character]) == Utf8Char(character) + [];
  }

  lemma EmptyText()
    ensures Utf8([]) == [] && Concat([]) == []
  {
  }

  lemma OneMoreChunk(chunks: seq<Text>, current: Text, maximum: nat)
    requires IsGreedy(chunks, maximum) && current != [] && |Utf8(current)| <= maximum
    requires chunks != [] ==> IsTight(chunks[|chunks| - 1], current, maximum)
    ensures IsGreedy(chunks + [current], maximum)
  {
    hide Utf8, Utf8Char, IsTight;
  }

  lemma StillTight(last: Text, current: Text, character: Scalar, maximum: nat)
    requires current != [] ==> IsTight(last, current, maximum)
    requires current == [] ==> |Utf8(last)| + |Utf8Char(character)| > maximum
    ensures IsTight(last, current + [character], maximum)
  {
    hide Utf8, Utf8Char;
  }

  method Utf8Chunks(text: Text, maximum: nat) returns (chunks: seq<Text>)
    requires maximum >= 4
    ensures Concat(chunks) == text
    ensures IsGreedy(chunks, maximum)
  {
    hide Utf8, Utf8Char, Concat, IsGreedy, IsTight;
    chunks := [];
    EmptyText();
    assert IsGreedy(chunks, maximum) by { NoChunks(maximum); }
    var current: Text := [];
    var currentBytes := 0;
    for i := 0 to |text|
      invariant Concat(chunks) + current == text[..i]
      invariant currentBytes == |Utf8(current)| <= maximum
      invariant IsGreedy(chunks, maximum)
      invariant chunks != [] ==> current != [] && IsTight(chunks[|chunks| - 1], current, maximum)
    {
      var character := text[i];
      var bytes := |Utf8Char(character)|;
      assert text[..i + 1] == text[..i] + [character];
      ghost var last := if chunks != [] then chunks[|chunks| - 1] else [];
      if currentBytes + bytes > maximum && |current| > 0 {
        ConcatAppend(chunks, current);
        OneMoreChunk(chunks, current, maximum);
        last := current;
        chunks := chunks + [current];
        current := [];
        currentBytes := 0;
      }
      OneCharacter(current, character);
      if chunks != [] { StillTight(last, current, character, maximum); }
      assert (Concat(chunks) + current) + [character] == Concat(chunks) + (current + [character]);
      current := current + [character];
      currentBytes := currentBytes + bytes;
    }
    assert text[..|text|] == text;
    if |current| > 0 {
      ConcatAppend(chunks, current);
      OneMoreChunk(chunks, current, maximum);
      chunks := chunks + [current];
    }
  }

  lemma NoChunks(maximum: nat)
    ensures IsGreedy([], maximum)
  {
  }

  // ----- chunks and events together -----

  function EventsOfChunks(chunks: seq<Text>): seq<KeyEvent> {
    if chunks == [] then [] else Events(chunks[0], false) + EventsOfChunks(chunks[1..])
  }

  predicate EndsWithReturn(text: Text) { text != [] && text[|text| - 1] == CR }

  /** How many chunk boundaries fall between a CR and its LF. */
  function SplitPairs(chunks: seq<Text>): nat {
    if |chunks| < 2 then 0
    else (if EndsWithReturn(chunks[0]) && chunks[1] != [] && chunks[1][0] == LF then 1 else 0) + SplitPairs(chunks[1..])
  }

  lemma {:induction false} EventsAppend(a: Text, b: Text, afterReturn: bool)
    ensures Events(a + b, afterReturn) ==
      Events(a, afterReturn) + Events(b, if a == [] then afterReturn else EndsWithReturn(a))
    decreases |a|
  {
    if a == [] {
      assert a + b == b;
    } else {
      hide CharacterEvents;
      var c, rest := a[0], a[1..];
      assert (a + b)[0] == c && (a + b)[1..] == rest + b;
      EventsAppend(rest, b, c == CR);
      Regroup(CharacterEvents(c, afterReturn), Events(rest, c == CR), Events(b, EndsWithReturn(a)));
      assert rest != [] ==> rest[|rest| - 1] == a[|a| - 1];
    }
  }

  lemma AfterReturn(b: Text)
    ensures b != [] && b[0] == LF ==> Events(b, false) == Enter() + Events(b, true)
    ensures !(b != [] && b[0] == LF) ==> Events(b, false) == Events(b, true)
  {
  }

  lemma {:induction false} ChunksKeepEvents(chunks: seq<Text>)
    requires forall i :: 0 <= i < |chunks| ==> chunks[i] != []
    ensures |EventsOfChunks(chunks)| == |Events(Concat(chunks), false)| + 2 * SplitPairs(chunks)
    ensures SplitPairs(chunks) == 0 ==> EventsOfChunks(chunks) == Events(Concat(chunks), false)
  {
    if chunks != [] {
      var rest := chunks[1..];
      ChunksKeepEvents(rest);
      EventsAppend(chunks[0], Concat(rest), false);
      AfterReturn(Concat(rest));
      if rest != [] {
        assert Concat(rest)[0] == rest[0][0];
      }
    }
  }

  /** Every boundary between a carriage return and its line feed costs one Enter too many. */
  lemma EventsOfChunksIff(chunks: seq<Text>)
    requires forall i :: 0 <= i < |chunks| ==> chunks[i] != []
    ensures EventsOfChunks(chunks) == Events(Concat(chunks), false) <==> SplitPairs(chunks) == 0
    ensures |EventsOfChunks(chunks)| == |Events(Concat(chunks), false)| + 2 * SplitPairs(chunks)
  {
    ChunksKeepEvents(chunks);
  }

  // ----- where a text is cut -----

  /** As many characters as fit into a message. */
  function ChunkLength(text: Text, maximum: nat): (n: nat)
    ensures n <= |text|
  {
    if text == [] || |Utf8Char(text[0])| > maximum then 0
    else 1 + ChunkLength(text[1..], maximum - |Utf8Char(text[0])|)
  }

  /** Whether a message ends before character k, when every message takes as many characters as fit. */
  predicate CutAt(text: Text, maximum: nat, k: nat)
    decreases |text|
  {
    var n := ChunkLength(text, maximum);
    0 < n < |text| && (k == n || (k > n && CutAt(text[n..], maximum, k - n)))
  }

  predicate SplitsAt(text: Text, maximum: nat, k: nat) {
    0 < k < |text| && text[k - 1] == CR && text[k] == LF && CutAt(text, maximum, k)
  }

  /** A carriage return and its line feed go into different messages. */
  ghost predicate SplitsReturn(text: Text, maximum: nat) { exists k: nat :: SplitsAt(text, maximum, k) }

  /** A chunk that fits and is followed by what does not fit, or by nothing, is as long as it can be. */
  lemma {:induction false} TightLength(chunk: Text, rest: Text, maximum: nat)
    requires |Utf8(chunk)| <= maximum && (rest == [] || |Utf8(chunk)| + |Utf8Char(rest[0])| > maximum)
    ensures ChunkLength(chunk + rest, maximum) == |chunk|
    decreases |chunk|
  {
    hide Utf8Char;
    if chunk == [] {
      assert chunk + rest == rest;
    } else {
      assert (chunk + rest)[0] == chunk[0] && (chunk + rest)[1..] == chunk[1..] + rest;
      TightLength(chunk[1..], rest, maximum - |Utf8Char(chunk[0])|);
    }
  }

  lemma GreedyTail(chunks: seq<Text>, maximum: nat)
    requires IsGreedy(chunks, maximum) && chunks != []
    ensures IsGreedy(chunks[1..], maximum)
    ensures |chunks| > 1 ==> chunks[1..] != [] && chunks[1] != [] && IsTight(chunks[0], chunks[1], maximum)
    ensures chunks[0] != [] && |Utf8(chunks[0])| <= maximum
  {
    hide IsTight, Utf8;
    forall i, j | 0 <= i && j == i + 1 < |chunks[1..]| ensures IsTight(chunks[1..][i], chunks[1..][j], maximum) {
      assert IsTight(chunks[i + 1], chunks[j + 1], maximum);
    }
    if |chunks| > 1 { assert IsTight(chunks[0], chunks[1], maximum); }
  }

  /** The first of greedy chunks is the longest that fits. */
  lemma GreedyLength(chunks: seq<Text>, maximum: nat)
    requires IsGreedy(chunks, maximum) && chunks != []
    ensures ChunkLength(Concat(chunks), maximum) == |chunks[0]|
    ensures Concat(chunks) == chunks[0] + Concat(chunks[1..])
    ensures |chunks| > 1 ==> Concat(chunks[1..]) != [] && Concat(chunks[1..])[0] == chunks[1][0]
    ensures |chunks| == 1 ==> Concat(chunks[1..]) == []
  {
    hide Utf8, Utf8Char, ChunkLength;
    GreedyTail(chunks, maximum);
    TightLength(chunks[0], Concat(chunks[1..]), maximum);
  }

  /** There is one way only to cut a text greedily. */
  lemma {:induction false} GreedyIsUnique(a: seq<Text>, b: seq<Text>, maximum: nat)
    requires IsGreedy(a, maximum) && IsGreedy(b, maximum) && Concat(a) == Concat(b)
    ensures a == b
  {
    hide IsGreedy;
    if a != [] && b != [] {
      GreedyLength(a, maximum);
      GreedyLength(b, maximum);
      assert a[0] == Concat(a)[..|a[0]|] == b[0];
      assert Concat(a[1..]) == Concat(a)[|a[0]|..] == Concat(b[1..]);
      GreedyTail(a, maximum);
      GreedyTail(b, maximum);
      GreedyIsUnique(a[1..], b[1..], maximum);
      assert a == [a[0]] + a[1..] && b == [b[0]] + b[1..];
    } else if a != [] {
      GreedyTail(a, maximum);
    } else if b != [] {
      GreedyTail(b, maximum);
    }
  }

  /** The pairs that chunks split are the pairs at the cuts of the text. */
  lemma {:induction false} SplitsAreAtCuts(chunks: seq<Text>, maximum: nat)
    requires IsGreedy(chunks, maximum)
    ensures SplitPairs(chunks) > 0 <==> SplitsReturn(Concat(chunks), maximum)
  {
    hide IsGreedy, Utf8, Utf8Char, IsTight, ChunkLength;
    if chunks != [] {
      var text, n, rest := Concat(chunks), |chunks[0]|, Concat(chunks[1..]);
      GreedyTail(chunks, maximum);
      GreedyLength(chunks, maximum);
      SplitsAreAtCuts(chunks[1..], maximum);
      assert text[n..] == rest;
      if |chunks| > 1 {
        assert SplitsAt(text, maximum, n) <==> EndsWithReturn(chunks[0]) && chunks[1][0] == LF;
        forall k: nat ensures SplitsAt(rest, maximum, k) ==> SplitsAt(text, maximum, n + k) {}
        forall k: nat ensures SplitsAt(text, maximum, k) ==> k == n || (k > n && SplitsAt(rest, maximum, k - n)) {}
      }
    }
  }

  /** Sending a text in greedy chunks types the same keys as sending it whole if and only if no message ends
      between a carriage return and its line feed. */
  lemma ChunkedTextTypesTheSame(text: Text, chunks: seq<Text>, maximum: nat)
    requires Concat(chunks) == text && IsGreedy(chunks, maximum)
    ensures EventsOfChunks(chunks) == Events(text, false) <==> !SplitsReturn(text, maximum)
    ensures |EventsOfChunks(chunks)| == |Events(text, false)| + 2 * SplitPairs(chunks)
  {
    EventsOfChunksIff(chunks);
    SplitsAreAtCuts(chunks, maximum);
  }

  lemma {:induction false} AsciiLength(text: Text, maximum: nat)
    requires maximum <= |text| && forall i :: 0 <= i < maximum ==> text[i] < 0x80
    ensures ChunkLength(text, maximum) == maximum
  {
    if maximum > 0 {
      assert forall i :: 0 <= i < maximum - 1 ==> text[1..][i] == text[i + 1];
      AsciiLength(text[1..], maximum - 1);
    }
  }

  /** A text of 4095 letters and then CR LF is cut there, and types one Enter more. */
  lemma ALongLineIsSplit(letters: Text, chunks: seq<Text>)
    requires |letters| == 4095 && forall c :: c in letters ==> 'a' as int <= c <= 'z' as int
    requires Concat(chunks) == letters + [CR, LF] && IsGreedy(chunks, Protocol.MAX_TEXT)
    ensures EventsOfChunks(chunks) != Events(letters + [CR, LF], false)
  {
    hide IsGreedy, Concat, Events, EventsOfChunks, ChunkLength;
    var text := letters + [CR, LF];
    forall i | 0 <= i < 4096 ensures text[i] < 0x80 {
      if i < 4095 { assert text[i] == letters[i] && letters[i] in letters; }
    }
    AsciiLength(text, 4096);
    assert SplitsAt(text, Protocol.MAX_TEXT, 4096);
    ChunkedTextTypesTheSame(text, chunks, Protocol.MAX_TEXT);
  }

  lemma {:induction false} NoReturnNoSplit(chunks: seq<Text>)
    requires CR !in Concat(chunks)
    ensures SplitPairs(chunks) == 0
  {
    if |chunks| >= 2 {
      assert forall c :: c in Concat(chunks[1..]) ==> c in Concat(chunks);
      NoReturnNoSplit(chunks[1..]);
      assert forall c :: c in chunks[0] ==> c in Concat(chunks);
    }
  }

  /** Text without carriage returns always survives being cut. */
  lemma TextWithoutReturnsSurvives(chunks: seq<Text>)
    requires forall i :: 0 <= i < |chunks| ==> chunks[i] != []
    requires CR !in Concat(chunks)
    ensures EventsOfChunks(chunks) == Events(Concat(chunks), false)
  {
    NoReturnNoSplit(chunks);
    ChunksKeepEvents(chunks);
  }

  // ----- end to end -----

  /** The packet decodes to the chunk it carries. */
  predicate Carries(packet: seq<U8>, sequence: U32, time: U64, chunk: Text) {
    Protocol.Decode(packet) == Ok(Protocol.TextMessage(Protocol.TextInput(sequence, time, chunk)))
  }

  lemma PacketCarriesChunk(input: Protocol.TextInput)
    requires Protocol.Encodable(Protocol.TextMessage(input))
    ensures Carries(Protocol.TextBytes(input), input.sequence, input.time, input.text)
  {
    WireTheorems.LayoutParses(Protocol.TextMessage(input));
    hide Protocol.Parse;
  }

  lemma ContentHasBytes(chunk: Text)
    requires chunk != []
    ensures |Utf8(chunk)| >= 1
  {
  }

  lemma GreedyChunkFits(chunks: seq<Text>, i: nat, maximum: nat)
    requires IsGreedy(chunks, maximum) && i < |chunks|
    ensures chunks[i] != [] && 1 <= |Utf8(chunks[i])| <= maximum
  {
    hide Utf8;
    ContentHasBytes(chunks[i]);
  }

  /** `sendText`: one packet a chunk, numbered from `sequence` on. Every packet decodes on the host to
      its own chunk, and the chunks make up the text. */
  method SendText(text: Text, time: F64, sequence: U32) returns (packets: seq<seq<U8>>, chunks: seq<Text>)
    ensures Concat(chunks) == text && IsGreedy(chunks, Protocol.MAX_TEXT) && |packets| == |chunks|
    ensures forall i :: 0 <= i < |packets| ==>
      Carries(packets[i], (sequence + i) % TWO32, BrowserCodec.Milliseconds(time), chunks[i])
  {
    hide Carries, Utf8, Utf16, WellFormed, IsGreedy, Concat, Protocol.TextBytes, BrowserCodec.Milliseconds;
    var parts := Utf8Chunks(text, 4096);
    chunks := parts;
    packets := [];
    var next := sequence;
    for i := 0 to |parts|
      invariant |packets| == i && next == (sequence + i) % TWO32
      invariant forall j :: 0 <= j < i ==>
        Carries(packets[j], (sequence + j) % TWO32, BrowserCodec.Milliseconds(time), parts[j])
    {
      ghost var input := Protocol.TextInput(next, BrowserCodec.Milliseconds(time), parts[i]);
      GreedyChunkFits(parts, i, 4096);
      PacketCarriesChunk(input);
      WellFormedStays(parts[i]);
      assert BrowserCodec.TypedText(next, time, Utf16(parts[i])) == input;
      var buffer := BrowserCodec.EncodeTextInput(next, time, Utf16(parts[i]));
      packets := packets + [buffer.value[..]];
      next := (next + 1) % TWO32;
    }
  }
}
