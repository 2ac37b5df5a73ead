# A verified model of the remote-drawing host and its browser client

The repository is a Windows host that shows its screen in a browser on a tablet and takes the tablet's pen, touch,
mouse, keyboard and file input. This project models the parts whose correctness depends on state, arithmetic or
interleaving, and proves what they are for. Everything is over all inputs, all runs or all interleavings.

- **File transfer.** `Transfer` gives the step that each request takes on the server; `FileTransferManager` is the
  object with its maps, queue and directories, proved to take those steps. `TransferWorld` runs the server against a
  network that loses, repeats, delays, reorders and damages, and a disk that stops partway; `TransferFates` says what
  answers promise, how long they last and what a cancellation leaves, `TransferRules` what a request must be like to
  change anything, `TransferSuccess` what a run without faults achieves, and `FileNames` how the published name is
  numbered. `Upload` is the browser's loop run against all of that: what it delivers when it succeeds, and the only
  reasons for which it fails. `Ranges`, `Download` and `DownloadRuns` are the way back.
- **SHA-256.** `Fips` is sections 4 to 6 of FIPS 180-4, `FipsConstants` where its constants come from, `Sha256` the
  browser's in-place implementation.
- **Wire format.** `Protocol` says which bytes a message has and what any bytes mean; `RustCodec` and `BrowserCodec`
  are the programs' encoders and decoders; `WireTheorems` has the round trips, `WireCanonical` what the decoder
  accepts, and `Arrival` what arrives of each field, in terms of the numbers that were put into it. `Floats` treats
  numbers as IEEE 754 bit patterns with exact values, `Rounding` is rounding to the nearest, `Twist` the two programs'
  ways of wrapping an angle; `Unicode` has UTF-8 and UTF-16, `Bytes` the integers.
- **Pointer input.** `PointerEngine` in the browser, `Metrics` on the host, `PointerActions` and `Lifecycle` for what
  each of them means by itself, `PointerSync` for one event, and `PointerSystem` for runs with a channel between them;
  `PointerWire` carries it over the wire format.
- **Injection.** `Injection` is the host's injector over a record and what Windows holds (`Desktop`, `VirtualKeys`),
  `PointerInjector` the object, `InjectionSafety` the theorem that a reset lets go of everything, `InjectionRules` its
  switches, palm rejection, commands and batches. `TextTransfer` follows typed text from the browser's chunks to the
  key events.
- **Video.** `Mailbox` and `VideoPipeline` (three threads), `SurfacePool`, `EncodeLoop` (generations, labels, the
  keyframe gate and the forwarding to a peer).
- **Choices and arithmetic.** `Selection`, `Score`, `Geometry`.

The style is the same throughout: what the source changes in place is a class whose methods are proved equal to a step
function, and the properties are lemmas about the step functions and runs of them.

## Where the code does less than it might seem

Each of these is stated as an exact condition.

- A cancelled upload can come back. A creation request that arrives after its upload was completed revives the upload,
  and the client's cancellation is then answered from the stored result; a creation request that arrives after the
  cancellation opens the upload anew (`TransferFates.CancellationLasts`). Either way a part file can stay until the pairing
  ends.
- A twist of at most 2^-16 degrees below a whole number of turns is wrapped to 360 by the sender and to 0 by the receiver
  (`Twist.WrapIs360Iff`, `WireTheorems.RoundTripIsExact`).
- The two encoders differ in a zero's sign: the browser's clamp turns -0 into +0, the host's keeps it. And they wrap
  negative whole turns and twists very close to a whole number of turns differently (`Twist.WrapsAgreeIff`,
  `BrowserCodec.PointerBytesAgree`).
- A message that ends between CR and LF makes the text have one Enter too many
  (`TextTransfer.ChunkedTextTypesTheSame`).
- Three kinds of events put the host's view of the pointers out of step (`PointerSync.InStepIff`).
- Something Windows holds can be lost from the injector's record, and no reset lets go of it then: by an ending mouse
  sample that names buttons, a refused key-up, a refused pen release, and by mouse, text and chord inputs that Windows
  takes only in part (`InjectionSafety.CleanIff`; for each kind `TerminalMouseIff`, `FailedKeyUpIff`,
  `FailedPenReleaseIff`, `CutMouseIff`, `TextIff`, `ChordIff`).
- A byte range whose last position has more than 64 bits is refused, where section 14.1.2 of RFC 9110 would cut it to
  the file (`Ranges.GrantedIsAsked`).
- The generation of the video settings is compared modulo 2^64 (`EncodeLoop.LabelIsRightIff`); a frame captured after
  the preprocessing loop has ended stays in its mailbox (`VideoPipeline.StopDrains`).
- docs/PROTOCOL.md says that a packet with a non-finite number or an invalid key field is rejected (line 91), and that a
  code is ASCII (line 54). The decoder takes a non-finite number as zero (`Arrival.EveryFieldArrives`), and any UTF-8 of
  1 to 64 bytes as a code; only the host's own encoder asks for ASCII (`WireCanonical.EncodeRefusals`). A twist is
  documented as 0 to 359 degrees (line 29); any remainder below 360 arrives, and both programs can send 360 itself.
- The score's lower bound of 32.8 needs a requested rate of at least 1 fps (`Score.SlowRequestsScoreLess`); desktops wider
  than 65536 pixels share coordinates (`Geometry.CoordinatesAreDistinctIff`).

## Model

| member | source | states |
|---|---|---|
| TransferWorld.EveryRunIsSafe | crates/transport/src/file_transfer.rs:488-727 | In every state any run can reach, with messages lost, repeated, delayed, reordered or damaged, writes that stop partway, pairings that end and restarts: each part file is a prefix of the client's file at least as long as `received`; part files and live records correspond one to one and are at most 32; every record is published at most once, whole, under a name that was free; every stored answer carries the digest of the client's file; files already in the inbox are unchanged |
| TransferWorld.StepIsSafe | crates/transport/src/file_transfer.rs:488-727 | Each single event keeps that invariant |
| TransferWorld.PutKeeps | crates/transport/src/file_transfer.rs:567-629 | A chunk write keeps it, wherever the disk stops; a chunk whose bytes were damaged on the way is never stored |
| TransferWorld.StoredPart | crates/transport/src/file_transfer.rs:605-620 | What reaches the part file, all of a chunk or some of it, leaves the file a prefix of the client's file, no shorter than what is accounted for |
| TransferWorld.PublishKeepsPast | crates/transport/src/file_transfer.rs:646-687 | Publishing a complete upload puts the client's whole file into the inbox under a free name, once per record, and the answer stored for it is true |
| TransferWorld.CompleteKeeps | crates/transport/src/file_transfer.rs:631-687 | Completing keeps the invariant, whether it publishes, answers again or refuses |
| TransferWorld.CancelKeeps | crates/transport/src/file_transfer.rs:689-707 | So does cancelling |
| TransferWorld.EndSessionKeeps | crates/transport/src/file_transfer.rs:709-727 | Ending the pairing keeps it and leaves no record and no stored answer |
| TransferFates.AnswersAreTrue | crates/transport/src/file_transfer.rs:488-687 | Every answer of the server is true of the state it leaves behind: a finished upload is published whole with its digest, a progress report never claims more than the part file holds |
| TransferFates.AnswerLastsForAHundred | crates/transport/src/file_transfer.rs:875-882 | While the pairing lasts, completing a finished upload again gives the same answer and changes nothing as long as fewer than a hundred uploads were published since; the answer is stored exactly that long |
| TransferFates.EveryRunKeepsAnswersDistinct | crates/transport/src/file_transfer.rs:678-687 | No run ever stores two answers for one upload |
| TransferFates.RunExtends | crates/transport/src/file_transfer.rs:1203-1222 | No run removes or changes a file of the inbox or an entry of the history |
| TransferFates.CancellationLeavesNothing | crates/transport/src/file_transfer.rs:689-707 | Just after a cancellation there is no record and no part file of the upload if and only if it had not been created again after its completion; whatever of it was published is whole, and nothing else changed |
| TransferFates.StaysGoneIff | crates/transport/src/file_transfer.rs:488-549 | An upload without record and part file stays without them over any run if and only if no creation request for it that the server accepts is delivered in it |
| TransferFates.CancellationLasts | crates/transport/src/file_transfer.rs:488-707 | Once a cancellation has been processed the upload has no record and no part file ever after if and only if it had not been created again after its completion and no creation request for it is accepted later |
| TransferFates.OnlyALateCreateRevives | crates/transport/src/file_transfer.rs:509-548 | The exception arises from a creation request delivered after the completion, and from nothing else |
| TransferFates.ALateCreateSurvivesCancellation | crates/transport/src/file_transfer.rs:689-692 | A reachable run in which it does: the cancellation is answered as done and the part file stays |
| TransferFates.AnOvertakenCreateStays | apps/ipad-web/src/file-transfer.ts:230-237 | A reachable run in which the cancellation overtakes the creation request: it finds nothing, and the part file that is created then stays |
| TransferRules.ChangesAreAllowed | crates/transport/src/file_transfer.rs:488-707 | A request changes the server only if it is switched on (or the request is a cancellation), the pairing is current, and: a creation names a new upload, acceptably and below the limits; a chunk of at most 1 MiB is intact, of this pairing and at the received offset, and fits; a completion is of all its bytes and the first; a cancellation is of an upload without stored answer |
| TransferRules.CreatedIff | crates/transport/src/file_transfer.rs:488-549 | A creation is granted if and only if it opens a record or repeats word for word the request that opened it, and is then told what has been received |
| TransferRules.AnsweredAgain | crates/transport/src/file_transfer.rs:551-692 | While its answer is stored a finished upload is reported complete, completed again with that answer, and its cancellation accepted, without any change |
| TransferRules.EveryRecordIsCounted | crates/transport/src/file_transfer.rs:488-727 | Over every run without a restart: records opened = change of the live ones + counted as completed + counted as cancelled |
| TransferRules.StepBalances | crates/transport/src/file_transfer.rs:488-727 | Each event keeps these books, the end of a pairing for all its records at once |
| FileNames.NumberedKeepsExtension | crates/transport/src/file_transfer.rs:1203-1222 | A numbered name keeps the stem, with the number behind it, and the extension: what follows the last dot, unless that is the first character |
| FileNames.NumbersDiffer | crates/transport/src/file_transfer.rs:1203-1222 | Different numbers make different names |
| FileNames.FirstFreeName | crates/transport/src/file_transfer.rs:1203-1222 | Published under its own name if free, else under the first free number from 1 to 99,999, else, if none of them is free, under the fallback |
| FileTransferManager.Manager.constructor | crates/transport/src/file_transfer.rs:292-345 | A manager starts without records and with the part files of its predecessor removed |
| FileTransferManager.Manager.CreateUpload | crates/transport/src/file_transfer.rs:488-549 | Takes the creation step of the specification: every refusal, the repeated request that is answered with the received count, the limit of 32, the part file that must be new |
| FileTransferManager.Manager.UploadProgress | crates/transport/src/file_transfer.rs:551-565 | Reports a finished upload as complete, else the received count, else the error |
| FileTransferManager.Manager.WriteUploadChunk | crates/transport/src/file_transfer.rs:567-629 | Takes the write step: size, checksum, owner, offset and length checks in their order, then the write, which may stop partway without being accounted for |
| FileTransferManager.Manager.FreeName | crates/transport/src/file_transfer.rs:1203-1222 | Finds the name itself, else the first free numbered one, else the fresh one |
| FileTransferManager.Manager.FindCompleted | crates/transport/src/file_transfer.rs:875-882 | The first stored answer for the upload and pairing |
| FileTransferManager.Manager.CompleteUpload | crates/transport/src/file_transfer.rs:631-687 | Takes the completion step: the stored answer first, then the checks |
| FileTransferManager.Manager.PublishUpload | crates/transport/src/file_transfer.rs:646-687 | Hash, free name, rename, removal of the record, counters, and the stored answers cut to a hundred |
| FileTransferManager.Manager.CancelUpload | crates/transport/src/file_transfer.rs:689-707 | Takes the cancellation step |
| FileTransferManager.Manager.CancelSessionUploads | crates/transport/src/file_transfer.rs:709-727 | In whatever order the map gives the records: removes exactly the records, parts and stored answers of that pairing and counts them |
| Upload.UploadFile | apps/ipad-web/src/file-transfer.ts:135-238 | Against that server and any network: always ends. On success the whole file is in the inbox under the name and digest returned. It fails only if it is aborted, if of four creations, chunks or completions in a row none is served, if an answer is one it does not try again (pairing ended, name, size or number of uploads not accepted, chunk damaged), or if more than a hundred files are published meanwhile; and then the DELETE has been sent, unless it was aborted before anything was |
| Upload.SendFile | apps/ipad-web/src/file-transfer.ts:144-229 | The loop over chunks ends with measure file size minus offset; the offset never exceeds what the server has received while the pairing lasts; fails only for one of those reasons |
| Upload.SendChunk | apps/ipad-web/src/file-transfer.ts:157-220 | Each pass of the chunk loop ends with an error or with a strictly larger offset that the server has reached; the four attempts never run out without either; an error has one of those reasons, of which four chunks in a row that are not served is one, whatever becomes of the questions about progress in between |
| Upload.RetryJson | apps/ipad-web/src/file-transfer.ts:240-263 | Ends with an answer or an error within four attempts; with an error to a creation or a completion only for one of those reasons |
| Upload.Network.Exchange | apps/ipad-web/src/file-transfer.ts:339-345 | One request over the network: it may be lost, damaged or answered in vain, with anything happening in between. An answer that comes back is the one the server gives in the state the request reaches, and still holds of the server's state then; if the exchange is served it is what was asked, or where to go on |
| Upload.ServerInforms | crates/transport/src/file_transfer.rs:551-629 | An answer that names a number of received bytes names one the server has, and to a chunk a larger one than the client had |
| Upload.ServerHelps | crates/transport/src/file_transfer.rs:488-687 | A creation by the owner of the identifier, first or repeated, is granted; a chunk is taken or the client is told what has been received; a question about progress and a completion of what is whole, first or repeated, are answered: whenever the exchange is served. When it merely is one the client tolerates, the answer is one of these or an error that is tried again |
| Upload.RunKeepsKept | apps/ipad-web/src/file-transfer.ts:135-229 | Whatever others do, the identifier stays the client's own, and what is whole stays published or ready to be, with its answer stored for a hundred publications |
| Upload.AllServedIsFair | apps/ipad-web/src/file-transfer.ts:240-263 | If every exchange is served the network is fair to the upload, so that it can fail only by an abort or a hundred other files |
| Upload.RunKeepsPhase | apps/ipad-web/src/file-transfer.ts:157-220 | Whatever others do, the server's record of this upload stays and its received count does not fall below the client's offset while the pairing lasts |
| TransferSuccess.WholeUploadSucceeds | apps/ipad-web/src/file-transfer.ts:144-229 | When every request arrives and the disk works, an accepted upload ends with the whole file in the inbox, under its own name if free, with a true answer and nothing else on the server changed |
| TransferSuccess.AllPutsArrive | apps/ipad-web/src/file-transfer.ts:157-163 | Chunks of at most 1 MiB put one after the other bring the part file to the whole file |
| Ranges.GrantedIsAsked | crates/transport/src/file_transfer.rs:1053-1106 | Any header is granted if and only if it writes down, with leading zeros and plus signs or without, a range that asks for some byte of the file in numbers below 2^64, and what is granted are exactly the bytes it asks for |
| Ranges.HeaderIsGranted | crates/transport/src/file_transfer.rs:1053-1106 | The same of a header that writes a range in the plain way |
| Ranges.ParseRange | crates/transport/src/file_transfer.rs:1053-1106 | Whatever is granted lies within the file |
| Download.Manager.OpenDownload | crates/transport/src/file_transfer.rs:729-799 | Takes the opening step: checks in order, the empty file counted as completed at once, otherwise a stream that starts at the range's first byte, with the removal flag only for the whole file; the range check after `parse_range` never fires |
| Download.BodyStream.Next | crates/transport/src/file_transfer.rs:811-838 | One poll: at the end the guard completes and is dropped; otherwise at most 64 KiB of the range, in order, or an error that changes nothing |
| Download.BodyStream.Complete | crates/transport/src/file_transfer.rs:1001-1019 | Counts a completed download and removes the file if it was to be removed |
| Download.BodyStream.Drop | crates/transport/src/file_transfer.rs:1022-1051 | A stream dropped early is recorded as ended by the pairing, interrupted or completed, and counted once |
| DownloadRuns.EveryRunBalances | crates/transport/src/file_transfer.rs:786-838 | Over every run of concurrent downloads: streams opened plus empty downloads = completed + failed + active; every stream ended exactly once or is still open; open streams have handed out a prefix of their range, completed ones all of it |
| DownloadRuns.OnlyWholeDownloadsRemove | crates/transport/src/file_transfer.rs:1016-1018 | A file leaves the queue only by hand, as an empty download, or when a download of the whole file has handed out every byte |
| DownloadRuns.StepKeepsGood | crates/transport/src/file_transfer.rs:1001-1051 | Every event keeps that accounting |
| DownloadRuns.DrainingHandsOutTheRange | crates/transport/src/file_transfer.rs:811-838 | Reading on to the end hands out the whole range; the end then counts as completed whatever the pairing, a drop at that moment only if the pairing is the same |
| DownloadRuns.DownloadIsAsked | crates/transport/src/file_transfer.rs:729-838 | A download with any range header streams if and only if the header writes down a range that asks for some byte of the file, and is refused as such otherwise; read to its end it has handed out exactly the bytes at the positions the range asks for, in order, and removes the file only if these are all of it |
| DownloadRuns.WholeDownload | crates/transport/src/file_transfer.rs:729-838 | Without a header it hands out the whole file; an empty file is downloaded at once |
| DownloadRuns.OnlyIntactFilesAreGiven | crates/transport/src/file_transfer.rs:729-770 | Nothing is given away while switched off, under another pairing, or of a file that is not queued, gone, changed or unreadable, and what is refused changes nothing |
| DownloadRuns.DroppedEarly | crates/transport/src/file_transfer.rs:1022-1051 | A stream dropped with bytes to come failed: by the end of the pairing if that has changed, else interrupted |
| DownloadRuns.ReadGives | crates/transport/src/file_transfer.rs:811-838 | A read gives the next bytes of the range, at most 64 KiB and at least one, or an error that moves nothing |
| Sha256.Sha256HexOf | apps/ipad-web/src/file-transfer.ts:274-337 | For every byte array shorter than 2^50 the in-place loops compute the 64 hexadecimal digits of FIPS 180-4 |
| Sha256.PaddedBuffer | apps/ipad-web/src/file-transfer.ts:275-285 | The buffer is the padded message of section 5.1.1 of FIPS 180-4 |
| Sha256.Schedule | apps/ipad-web/src/file-transfer.ts:293-301 | The word array is the message schedule of section 6.2.2 |
| Sha256.Compress | apps/ipad-web/src/file-transfer.ts:302-325 | The 64 rounds over eight variables are the rounds of section 6.2.2 |
| Sha256.PassIsRound | apps/ipad-web/src/file-transfer.ts:311-324 | One pass of the round loop, in JavaScript's number operations, is one round |
| Sha256.AddToHash | apps/ipad-web/src/file-transfer.ts:326-333 | The eight sums modulo 2^32 |
| Sha256.JoinHex | apps/ipad-web/src/file-transfer.ts:335-336 | Each word becomes eight hexadecimal digits |
| Fips.PadCanBeUndone | apps/ipad-web/src/file-transfer.ts:276-285 | Padding can be undone: the message is recovered from it |
| Fips.DigestTextIsInjective | apps/ipad-web/src/file-transfer.ts:336-336 | Different digests have different texts |
| FipsConstants.RoundConstantsAreCubeRoots | apps/ipad-web/src/file-transfer.ts:388-397 | The 64 constants of a round are the first 32 bits of the fractional parts of the cube roots of the first 64 primes (section 4.2.2 of FIPS 180-4) |
| FipsConstants.InitialHashIsSquareRoots | apps/ipad-web/src/file-transfer.ts:287-290 | The initial hash value comes from the square roots of the first eight (section 5.3.3) |
| WireTheorems.RoundTrip | crates/protocol/src/remote.rs:26-44 | Every encodable message of all five kinds decodes from its encoding, as itself sanitised by sender and receiver |
| WireTheorems.RoundTripIsExact | crates/protocol/src/packet.rs:100-116 | The decoded message is the sanitised one if and only if no twist lies at most 2^-16 degrees below a whole number of turns |
| WireTheorems.ATwistIsLost | crates/protocol/src/packet.rs:108-108 | At -2^-16 degrees it is not: the twist is 360 for the sender and 0 for the receiver |
| Twist.RemainderIsExact | crates/protocol/src/packet.rs:108-108 | The remainder modulo 360 of a binary32 number is one itself, so that only the sum in `rem_euclid` rounds |
| Twist.WrapIs360Iff | crates/protocol/src/packet.rs:108-108 | `rem_euclid(360.0)` gives 360 itself if and only if the twist's exact remainder is at least -2^-16 and below 0; any other result is wrapped to itself again |
| Twist.WrapIsStableIff | crates/protocol/src/packet.rs:108-108 | Wrapping a wrapped twist again changes nothing if and only if the first wrapping did not round up to 360 |
| Twist.WrapIsBounded | crates/protocol/src/packet.rs:108-108 | A wrapped twist is a number from 0 to 360 |
| Twist.WrapKeeps | crates/protocol/src/packet.rs:108-108 | Twists from 0 to below 360 stay as they are |
| Twist.WrapsAgreeIff | apps/ipad-web/src/protocol.ts:229-231 | On the same twist `rem_euclid` and the browser's `positiveModulo`, written as binary32, give the same bits except if the exact remainder is 0 and the twist negative, or the remainder is at least -2^-45 and below 0, or it is positive and no multiple of 2^-44; and only then they differ |
| Twist.TwistsDiffer | apps/ipad-web/src/protocol.ts:229-231 | One twist of each kind, -0, -2^-45 and 2^-45 degrees, with what each program writes for it |
| WireTheorems.OtherLengthsAreRefused | crates/protocol/src/remote.rs:301-319 | No proper prefix and no extension of an encoding decodes |
| WireTheorems.LayoutIsInjective | crates/protocol/src/remote.rs:69-269 | Different messages have different packets |
| Arrival.BatchLayout | docs/PROTOCOL.md:5-13 | The batch header has its fields at the documented offsets, in little-endian order |
| Arrival.SampleLayout | docs/PROTOCOL.md:15-32 | And so have the 44 bytes of a sample |
| Arrival.WheelLayout | docs/PROTOCOL.md:34-48 | The 32 bytes of a wheel message |
| Arrival.KeyboardLayout | docs/PROTOCOL.md:52-69 | A keyboard message, with code and key behind its header |
| Arrival.TextLayout | docs/PROTOCOL.md:73-85 | A text message |
| Arrival.CommandLayout | docs/PROTOCOL.md:87-89 | The 16 bytes of a command |
| Arrival.EveryFieldArrives | crates/protocol/src/remote.rs:26-67 | Every message the host can encode is decoded, and field by field what arrives is the number that was put into that field, the nearest bound if it was out of bounds, or zero if it was none; a twist as its exact remainder modulo 360, a negative one rounded once, 360 as zero; integers, kinds and texts as they are |
| Arrival.MessagesWithinStay | crates/protocol/src/packet.rs:100-116 | A message whose numbers are finite and within their bounds, twists from 0 to below 360, is decoded from its encoding exactly |
| Arrival.EveryBrowserFieldArrives | apps/ipad-web/src/protocol.ts:88-134 | Every pointer batch of the browser is decoded by the host, each binary64 number as itself, or the nearest bound, rounded to binary32, integers modulo their width |
| Arrival.EveryBrowserWheelArrives | apps/ipad-web/src/protocol.ts:136-149 | Likewise every wheel message |
| Arrival.EveryBrowserKeyArrives | apps/ipad-web/src/protocol.ts:151-174 | Likewise every key message, its time in whole milliseconds and its names with unpaired surrogates replaced |
| Arrival.EveryBrowserTextArrives | apps/ipad-web/src/protocol.ts:176-191 | Likewise every text message |
| Arrival.EveryBrowserCommandArrives | apps/ipad-web/src/protocol.ts:193-203 | Likewise every command |
| Arrival.TimesAreNearest | apps/ipad-web/src/protocol.ts:168-168 | A time that is not negative is written as the nearest whole millisecond, from halfway on the later |
| WireCanonical.AcceptedIsEncoding | crates/protocol/src/remote.rs:26-44 | Whatever bytes the decoder accepts are, apart from the reserved bytes and the value of the repeat flag, the encoding of the message it gives |
| WireCanonical.AcceptedIsWithinLimits | crates/protocol/src/remote.rs:149-216 | And that message keeps the limits: 512 samples, 1 to 64 bytes of code, at most 64 of key, 1 to 4096 of text |
| RustCodec.EncodeBatch | crates/protocol/src/packet.rs:146-174 | Pushes exactly the bytes of the specification, or refuses more than 512 samples |
| RustCodec.EncodeWheel | crates/protocol/src/remote.rs:69-81 | Likewise for a wheel message |
| RustCodec.EncodeKeyboard | crates/protocol/src/remote.rs:131-147 | Likewise for a keyboard message, with its field checks |
| RustCodec.EncodeText | crates/protocol/src/remote.rs:186-198 | Likewise for a text message, with its length check |
| RustCodec.EncodeCommand | crates/protocol/src/remote.rs:251-257 | Likewise for a command |
| RustCodec.Cursor.TakeSlice | crates/protocol/src/remote.rs:335-343 | Takes the next bytes, or reports how many are missing and stays where it is |
| RustCodec.DecodeSample | crates/protocol/src/packet.rs:212-232 | Reads one sample field by field |
| RustCodec.DecodeBatch | crates/protocol/src/packet.rs:176-240 | Gives exactly the specified answer for any bytes, every error included |
| RustCodec.DecodeKeyboard | crates/protocol/src/remote.rs:149-175 | Likewise |
| RustCodec.DecodeText | crates/protocol/src/remote.rs:200-216 | Likewise |
| RustCodec.DecodeWheel | crates/protocol/src/remote.rs:83-97 | Likewise |
| RustCodec.DecodeCommand | crates/protocol/src/remote.rs:259-269 | Likewise |
| RustCodec.DecodeMessage | crates/protocol/src/remote.rs:26-44 | Dispatches on version and type and gives exactly the specified answer |
| BrowserCodec.EncodePointerBatch | apps/ipad-web/src/protocol.ts:88-134 | Fills the buffer with the specified packet of the sanitised batch, any binary64 numbers clamped, wrapped and rounded, or refuses more than 512 samples |
| BrowserCodec.EncodeWheelInput | apps/ipad-web/src/protocol.ts:136-149 | Likewise for a wheel message |
| BrowserCodec.EncodeKeyboardInput | apps/ipad-web/src/protocol.ts:151-174 | Likewise for a keyboard message, any time rounded to a whole 64-bit number and unpaired surrogates replaced; refuses exactly what the other program refuses |
| BrowserCodec.WholeTimesStay | apps/ipad-web/src/protocol.ts:168-168 | A whole time of 64 bits is written as it is |
| BrowserCodec.EncodeTextInput | apps/ipad-web/src/protocol.ts:176-191 | Likewise for text |
| BrowserCodec.EncodeCommandInput | apps/ipad-web/src/protocol.ts:193-203 | Likewise for a command |
| BrowserCodec.PointerBytesAgree | apps/ipad-web/src/protocol.ts:205-231 | Given the same numbers both programs write the same bytes for a pointer batch if and only if the send time is finite, no position or pressure is -0 and no twist is one they wrap differently |
| BrowserCodec.WheelBytesAgree | apps/ipad-web/src/protocol.ts:136-149 | For a wheel message, if and only if neither coordinate is -0 |
| Floats.ClampMeaning | crates/protocol/src/packet.rs:102-116 | Clamping bit patterns is clamping the numbers they stand for |
| Floats.JsClampAgrees | apps/ipad-web/src/protocol.ts:225-227 | On the same number the browser's clamp in binary64, written as binary32, and the host's in binary32 differ only at -0 with the lower bound 0 |
| Floats.SingleOfSame | apps/ipad-web/src/protocol.ts:119-130 | Writing a number as binary32 gives the same number if binary32 has it |
| Floats.SingleMeaning | apps/ipad-web/src/protocol.ts:119-130 | Writing a number as binary32 gives the nearest one, ties to even, and infinity only beyond the largest |
| Floats.JsClampMeaning | apps/ipad-web/src/protocol.ts:225-227 | The browser's clamp gives the number itself or the nearer bound |
| Twist.WrapMeaning | crates/protocol/src/packet.rs:108-108 | A wrapped twist is the exact remainder modulo 360, of a negative one the remainder plus 360 rounded once |
| Unicode.WellFormedStays | apps/ipad-web/src/protocol.ts:152-154 | `TextEncoder` replaces nothing in the UTF-16 form of a text |
| Unicode.Utf8RoundTrip | crates/protocol/src/remote.rs:295-299 | Decoding UTF-8 undoes encoding it |
| Unicode.Utf8IsCanonical | crates/protocol/src/remote.rs:295-299 | Whatever decodes is the encoding of its text |
| TextTransfer.Utf8Chunks | apps/ipad-web/src/remote-input.ts:448-467 | The chunks are not empty, at most the maximum long, each as long as it could be, and concatenate to the text |
| TextTransfer.SendText | apps/ipad-web/src/remote-input.ts:264-270 | Every chunk becomes one packet that decodes to it, with consecutive numbers |
| TextTransfer.InjectText | crates/host-windows/src/input.rs:370-392 | The host's loop produces exactly the specified key events |
| TextTransfer.MessageTypesItsText | crates/host-windows/src/input.rs:370-392 | The events of one message type its text with CRLF, CR and LF each as one Enter |
| TextTransfer.GreedyIsUnique | apps/ipad-web/src/remote-input.ts:448-467 | There is one way only to cut a text into chunks each as long as it could be |
| TextTransfer.ChunkedTextTypesTheSame | apps/ipad-web/src/remote-input.ts:264-270 | The chunks type what the whole text types if and only if no greedy cut of the text falls between a CR and its LF; each that does adds one Enter |
| TextTransfer.ALongLineIsSplit | apps/ipad-web/src/remote-input.ts:448-467 | A text of 4095 letters, CR and LF is cut there |
| TextTransfer.TextWithoutReturnsSurvives | apps/ipad-web/src/remote-input.ts:264-270 | Text without carriage returns is typed the same in chunks as whole |
| PointerEngine.PointerEngine.HandlePointer | apps/ipad-web/src/pointer-engine.ts:123-217 | Takes the specified step for every event: ignoring, starting, moving, ending, numbering, discarding, and the exception for more than 512 samples |
| PointerEngine.PointerEngine.ToSamples | apps/ipad-web/src/pointer-engine.ts:156-166 | Numbers exactly the points that normalise, in order |
| PointerEngine.PointerEngine.ChooseActions | apps/ipad-web/src/pointer-engine.ts:171-198 | Rewrites the actions in place: one Down first for a pointer that comes down, Up last for one that is lifted, Cancel last for one that is cancelled, moves between |
| PointerEngine.PointerEngine.SendSamples | apps/ipad-web/src/pointer-engine.ts:250-258 | Uses up a batch number even when encoding throws |
| PointerEngine.PointerEngine.CancelAll | apps/ipad-web/src/pointer-engine.ts:79-99 | One packet with one Cancel for each active pointer, in their order, consecutively numbered |
| PointerEngine.PointerEngine.AbandonAll | apps/ipad-web/src/pointer-engine.ts:101-106 | Every active pointer becomes interrupted and none is active |
| PointerActions.SentIsTold | apps/ipad-web/src/pointer-engine.ts:145-198 | Every sent packet has one sample for each point that normalises, in their order, with its device, pointer and next number; the actions in terms of the event and its points only: Down first if the pointer comes down, Up last for a PointerUp, Cancel last for a PointerCancel, Hover for a pen or mouse that neither presses nor has a button down, Move otherwise |
| PointerActions.EndsAreTold | apps/ipad-web/src/pointer-engine.ts:188-198 | In particular the end of an active pointer: all moves, then one Up for a PointerUp and one Cancel for a PointerCancel |
| PointerActions.SentIffHeard | apps/ipad-web/src/pointer-engine.ts:123-217 | An event sends a packet if and only if it is of a pen, a mouse or an enabled touch, its pointer was not interrupted, some and at most 512 of its points normalise, and if it ends a stroke there is one |
| PointerActions.KeptPointsIff | apps/ipad-web/src/pointer-engine.ts:148-166 | A point becomes a sample if and only if the rectangle is positive and the point is on the picture, or its pointer is down, or the picture fills the view |
| PointerActions.InterruptedIff | apps/ipad-web/src/pointer-engine.ts:101-140 | A pointer is interrupted by being abandoned while down, until an event ends it |
| PointerActions.QueuedIsCaused | apps/ipad-web/src/pointer-engine.ts:79-217 | Over every run: each Up on its way comes from a PointerUp of that pointer, each Cancel from a PointerCancel of it or from `cancelAll`, each Down from a PointerDown or a move of it |
| PointerActions.SilentUntilItEnds | apps/ipad-web/src/pointer-engine.ts:101-140 | Over every run: of an interrupted pointer nothing is sent until an event ends it |
| Metrics.Metrics.InputBatch | crates/core/src/metrics.rs:188-252 | Replays a batch on the sequence counters, the active set and the error count as specified |
| Metrics.Metrics.ResetInputContinuity | crates/core/src/metrics.rs:284-289 | Forgets expectations and active pointers, keeps the counters |
| Metrics.Metrics.HasActivePointers | crates/core/src/metrics.rs:292-294 | True exactly when some pointer is down |
| Lifecycle.LifeIsHistory | crates/core/src/metrics.rs:232-250 | Over any sequence of samples: a pointer is active if and only if the last Down, Up or Cancel of it was a Down, and the error count is the number of second Downs and of moves and ends of pointers that are not down |
| Metrics.Counter.ObserveSequence | crates/core/src/metrics.rs:457-471 | The comparison modulo 2^32 |
| Metrics.WrappingIsExact | crates/core/src/metrics.rs:457-471 | Following the wrapped numbers is following unbounded ones if and only if what arrives is within 2^31 of what is expected |
| Metrics.GapsAreTheMissing | crates/core/src/metrics.rs:457-471 | A counter that sees everything sent in order counts as gaps exactly the numbers handed out and not sent between the first and the last sent one, and none as late, given fewer than 2^31 unsent in a row |
| Metrics.EveryNumberIsAccounted | crates/core/src/metrics.rs:457-471 | Numbers handed out = sent + missing between + before the first + after the last |
| PointerSync.InStepIff | apps/ipad-web/src/pointer-engine.ts:123-217 | One event keeps the host's active pointers equal to the browser's without a lifecycle error if and only if it is none of three kinds: an active pointer ending over a rectangle that is not positive, a stroke beginning with more than 512 samples, a pointer that is not down moving with samples that claim contact |
| PointerSync.AnEndIsMissed | apps/ipad-web/src/pointer-engine.ts:133-166 | A reachable event of the first kind: the finger is lifted while the rectangle is not positive, the browser forgets it and sends nothing |
| PointerSync.ALongBeginningIsMissed | apps/ipad-web/src/pointer-engine.ts:171-183 | One of the second: a first touch with 513 points makes the encoder throw, and the browser holds the finger down |
| PointerSync.AStrayMoveIsAnError | apps/ipad-web/src/pointer-engine.ts:145-187 | One of the third: a coalesced point with a button pressed in a move without, which the host counts as an error |
| PointerSync.BeginningIff | apps/ipad-web/src/pointer-engine.ts:171-183 | Its case of a beginning stroke |
| PointerSync.EndingIff | apps/ipad-web/src/pointer-engine.ts:188-211 | Its case of an ending one |
| PointerSync.MovingIff | apps/ipad-web/src/pointer-engine.ts:145-187 | Its case of moves |
| PointerSync.DownAfterIff | apps/ipad-web/src/pointer-engine.ts:123-217 | When a pointer is down after an event of its own |
| PointerSystem.EveryRunAgrees | crates/core/src/metrics.rs:232-250 | Over every run of other events, with cancelAll, interruptions paired with a host reset, and deliveries in order: no lifecycle error ever; with nothing on its way the host holds exactly the browser's active pointers; the gap counter has grown since the last interruption by exactly the discarded numbers between two sent ones |
| PointerSystem.StepKeeps | apps/ipad-web/src/pointer-engine.ts:79-217 | Each step keeps that invariant |
| PointerWire.WireKeepsPackets | crates/protocol/src/packet.rs:176-240 | Whatever the encoder is given, the decoded batch has the same number, and its samples the same devices, actions, pointers and numbers |
| InjectionSafety.EveryRunCanBeReset | crates/host-windows/src/input.rs:482-507 | After any run of clean calls everything Windows holds is recorded, and a reset that succeeds leaves nothing held. Clean, in terms of the record and of how much Windows takes: a recorded pen that is put away and a recorded key that is let go really are, or another recorded code stands for the key; inputs cut short leave nothing down that is not recorded; an ending mouse sample names no button |
| InjectionSafety.StepKeeps | crates/host-windows/src/input.rs:160-412 | Every clean call keeps everything held on record |
| InjectionSafety.CleanIff | crates/host-windows/src/input.rs:160-412 | Where everything recorded is held, a call keeps the record right if and only if it is clean |
| InjectionSafety.EveryQuietRunIsExact | crates/host-windows/src/input.rs:160-412 | Everything recorded is held after every run of clean calls that succeed and lift no key that stays recorded |
| InjectionSafety.SendIff | crates/host-windows/src/input.rs:572-582 | However much Windows takes of a call that records nothing, the record stays right if and only if what the accepted inputs leave down is recorded |
| InjectionSafety.CutMouseIff | crates/host-windows/src/input.rs:325-334 | A mouse sample cut short keeps the record right if and only if no button was pressed before the cut |
| InjectionSafety.TextIff | crates/host-windows/src/input.rs:370-392 | However much Windows takes of a text, the record stays right if and only if the cut is not just after Enter went down, or Enter is recorded |
| InjectionSafety.ChordIff | crates/host-windows/src/input.rs:584-593 | However much Windows takes of a chord, the record stays right if and only if every key that went down has come up again or is recorded |
| InjectionSafety.KeyboardKeeps | crates/host-windows/src/input.rs:353-368 | Key events keep it although several codes stand for one key |
| InjectionSafety.ChordFelt | crates/host-windows/src/input.rs:584-593 | A command chord leaves its own keys up and no other changed, so it may release recorded keys but holds none |
| InjectionSafety.TextFelt | crates/host-windows/src/input.rs:370-392 | Typing text holds nothing and lets go of Enter at most |
| InjectionSafety.MouseFollowsFlags | crates/host-windows/src/input.rs:325-334 | After a mouse sample the buttons held are among those it names |
| InjectionSafety.ResetKeeps | crates/host-windows/src/input.rs:482-507 | A reset keeps the record right when it fails and leaves nothing held when it succeeds |
| InjectionSafety.KeysTakeEffect | crates/host-windows/src/input.rs:353-368 | A successful key event presses or lifts exactly the key of its code and records it |
| InjectionSafety.ButtonsTakeEffect | crates/host-windows/src/input.rs:325-334 | After a successful mouse sample exactly the buttons it names are held, given an exact record |
| InjectionSafety.PenTakesEffect | crates/host-windows/src/input.rs:176-243 | A pen is in contact from a down through its moves, and no other pen is |
| InjectionSafety.TouchTakesEffect | crates/host-windows/src/input.rs:253-322 | After a touch sample other than a hover exactly the recorded touches are held |
| InjectionSafety.TerminalMouseIff | crates/host-windows/src/input.rs:325-334 | A mouse sample that ends a stroke leaves the record right if and only if it names none of the five buttons |
| InjectionSafety.FailedKeyUpIff | crates/host-windows/src/input.rs:363-365 | Where the recorded keys are held, a key-up that Windows refuses leaves the record right if and only if another recorded code stands for the key |
| InjectionSafety.FailedPenReleaseIff | crates/host-windows/src/input.rs:816-848 | A refused release of a recorded pen leaves the record right if and only if the pen is not recorded in contact |
| InjectionSafety.ACutChordIsLost | crates/host-windows/src/input.rs:584-593 | From the start, one accepted input of the chord for the next application leaves Alt held and nothing recorded |
| InjectionSafety.ACutTextIsLost | crates/host-windows/src/input.rs:370-392 | One accepted input of a line feed leaves Enter held and nothing recorded |
| InjectionSafety.ATerminalMouseIsLost | crates/host-windows/src/input.rs:325-334 | A first mouse sample that ends a stroke and names a button leaves it held and nothing recorded |
| InjectionSafety.ARefusedKeyUpIsLost | crates/host-windows/src/input.rs:363-365 | A key that goes down and whose release is refused stays held and unrecorded |
| InjectionSafety.ARefusedPenReleaseIsLost | crates/host-windows/src/input.rs:816-848 | So does a pen whose release is refused |
| InjectionSafety.ResetLiftsNothing | crates/host-windows/src/input.rs:674-690 | With nothing recorded a reset lifts nothing, whatever is held |
| InjectionRules.SwitchedOffDoesNothing | crates/host-windows/src/input.rs:160-412 | A call of a kind that the settings switch off changes nothing and succeeds; a reset command is never switched off |
| InjectionRules.PalmsAreRejected | crates/host-windows/src/input.rs:425-436 | While Windows has a pen in contact, palm rejection keeps every touch away from it; otherwise a touch takes effect |
| InjectionRules.CommandsPress | crates/host-windows/src/input.rs:394-412 | The next application is Alt+Tab, the previous one Alt+Shift+Tab, and Windows+Tab opens Task View, each with its releases in reverse; minimizing presses nothing |
| InjectionRules.BatchStops | crates/host-windows/src/input.rs:415-439 | A batch is injected one sample after the other up to the first that fails, which is tried, and none after it |
| Desktop.ChangesFelt | crates/host-windows/src/input.rs:608-662 | The button changes turn the recorded buttons into the wanted ones and touch nothing else |
| PointerInjector.PointerInjector.InjectPenSample | crates/host-windows/src/input.rs:160-245 | Takes the specified pen step, releasing another pen first |
| PointerInjector.PointerInjector.InjectTouchSample | crates/host-windows/src/input.rs:247-323 | Takes the specified touch step |
| PointerInjector.PointerInjector.TouchFrames | crates/host-windows/src/input.rs:271-309 | The frame puts every recorded contact down and lifts the one that ends, in whatever order the map gives them |
| PointerInjector.PointerInjector.InjectMouseSample | crates/host-windows/src/input.rs:325-334 | Takes the specified mouse step |
| PointerInjector.PointerInjector.AppendMouseButtonChanges | crates/host-windows/src/input.rs:608-662 | Appends the changes of the five buttons in order |
| PointerInjector.PointerInjector.InjectBatch | crates/host-windows/src/input.rs:415-439 | Injects sample by sample and stops at the first that fails |
| PointerInjector.PointerInjector.InjectKeyboardNative | crates/host-windows/src/input.rs:353-368 | Takes the specified keyboard step: recorded after a key-down, forgotten before a key-up |
| PointerInjector.PointerInjector.InjectTextNative | crates/host-windows/src/input.rs:370-392 | Sends the events of the text |
| PointerInjector.PointerInjector.SendChord | crates/host-windows/src/input.rs:584-593 | Sends all downs, then all ups in reverse |
| PointerInjector.PointerInjector.ReleasePenContact | crates/host-windows/src/input.rs:816-848 | Drops the record, then tries the release |
| PointerInjector.PointerInjector.ReleaseRemote | crates/host-windows/src/input.rs:674-690 | Lets go of every recorded button and key, and forgets them only if all of it was taken |
| PointerInjector.PointerInjector.Reset | crates/host-windows/src/input.rs:482-507 | Pen, touches, then buttons and keys, stopping at the first failure |
| PointerInjector.PointerInjector.InjectCommandInput | crates/host-windows/src/input.rs:394-412 | Takes the specified command step |
| Mailbox.LatestFrame.Submit | crates/host-windows/src/capture.rs:84-90 | The newest frame replaces a pending one, which is counted as dropped; submitted = replaced + taken + occupied |
| Mailbox.LatestFrame.Take | crates/host-windows/src/capture.rs:92-98 | Gives the pending frame and empties the slot; gives none only when stopped |
| VideoPipeline.EveryRunKeepsOrder | crates/host-windows/src/capture.rs:935-1037 | In every interleaving of capture, preprocessing, encoding and stop the encoder gets captured frames in strictly increasing order, and every captured frame was encoded, skipped, replaced or is on its way |
| VideoPipeline.StopDrains | crates/host-windows/src/capture.rs:1051-1135 | After stop and without further captures: at most eighteen more steps, no deadlock before both loops have ended, and then nothing pending unless a frame was captured after the first loop had ended |
| VideoPipeline.StepKeeps | crates/host-windows/src/capture.rs:83-134 | Each step keeps order and accounting |
| VideoPipeline.TakesTheNewest | crates/host-windows/src/capture.rs:83-134 | What a worker takes from its mailbox is the newest frame captured |
| SurfacePool.GpuSurfacePool.AcquireSurface | crates/host-windows/src/gpu_preprocess.rs:65-124 | Takes the specified step: clear on a new key, first free surface, limit, creation |
| SurfacePool.NeverHandsOutWhatIsHeld | crates/host-windows/src/gpu_preprocess.rs:90-92 | What is handed out has the key asked for and was held by nobody else |
| SurfacePool.ExhaustedIff | crates/host-windows/src/gpu_preprocess.rs:90-123 | None is given if and only if four surfaces of this key are pooled and all are held elsewhere; it fails if and only if fewer are pooled, all are held and none can be created |
| SurfacePool.RunKeepsGood | crates/host-windows/src/gpu_preprocess.rs:59-124 | Over every run pooled surfaces match the key, are different and at most four |
| SurfacePool.HeldSurfacesStayApart | crates/host-windows/src/gpu_preprocess.rs:65-124 | A surface to which some reference remains throughout is not handed out again, across key changes, creation failures and other references taken and let go |
| EncodeLoop.VideoLoop.EncodeNext | crates/host-windows/src/capture.rs:935-1033 | One round of the encoder loop: rebuild on a new generation, create, encode, broadcast, drop the encoder on failure |
| EncodeLoop.EveryFrameIsLabelledRight | crates/host-windows/src/capture.rs:583-588 | Whatever the settings do and encoders fail, every broadcast frame is labelled with the codec of the encoder that made it, given fewer than 2^64 changes between two rounds |
| EncodeLoop.LabelIsRightIff | crates/host-windows/src/capture.rs:942-949 | After any number of changes the next label is right if and only if the number is no multiple of 2^64 or the codec is unchanged |
| EncodeLoop.BroadcastFromHistory | crates/host-windows/src/capture.rs:935-1033 | After any history a round broadcasts one frame if and only if encoding gives a packet and an encoder can be created now, or could in an earlier round since which neither the settings changed nor encoding failed; the frame has, and is labelled with, the codec of the mode chosen last |
| EncodeLoop.RequestsWait | crates/host-windows/src/capture.rs:935-1033 | A request for a keyframe is used up by the next round if that has an encoder, kept or created, and waits otherwise |
| EncodeLoop.StartupKeyframeGate.Admit | crates/transport/src/webrtc_session.rs:58-74 | Admits from the first keyframe on |
| EncodeLoop.ForwardVideo | crates/transport/src/webrtc_session.rs:232-265 | Writes exactly the frames of the negotiated codec from the first keyframe on, in order, and counts what it leaves out |
| EncodeLoop.PeerGetsItsCodec | crates/transport/src/webrtc_session.rs:229-265 | What a peer is given was made by its codec, stands in the broadcast in the same order since it subscribed, lagging or not, and begins with a keyframe |
| Selection.BestCandidateIsBest | crates/host-windows/src/capture.rs:788-822 | The maximum of the maxima scores at least as much as every eligible pair of an encoder and a result, and is one |
| Selection.SelectedIsUsable | crates/host-windows/src/capture.rs:823-851 | Whatever is selected is usable, and of the mode asked for by hand |
| Selection.SelectionSucceedsIff | crates/host-windows/src/capture.rs:823-851 | When a selection succeeds |
| Selection.AutoPicksTheBest | crates/host-windows/src/capture.rs:788-850 | Auto selects an encoder that has a result no worse than any eligible one |
| Selection.LastOfEqualResults | crates/host-windows/src/capture.rs:788-822 | Of equally good results of an encoder the last one stands |
| Selection.LastOfEqualEncoders | crates/host-windows/src/capture.rs:788-822 | Of encoders with equally good results the last |
| Selection.ModeIsOfCodecIff | crates/core/src/video.rs:86-95 | An encoder's mode is one of its codec if and only if the codec is H.264 or it works in hardware |
| Selection.HandPicksItsCodec | crates/host-windows/src/capture.rs:823-835 | What is selected by hand has the codec of the mode asked for, in hardware unless software was asked for, and one the browser plays if it has reported |
| Selection.AutoPrefersHardware | crates/host-windows/src/capture.rs:836-850 | Auto without an eligible result selects HEVC in hardware if the browser plays it, else H.264, and that in hardware if there is any |
| Score.ScoreIsBounded | crates/core/src/video.rs:270-337 | A score that passes the gates lies between 9.8 + 23 max(0, min(rate, 1)) and 100, where the rate is the requested one; that is 32.8 from one frame a second on |
| Score.LowestScoreIsReached | crates/core/src/video.rs:270-337 | The lower bound is reached at every requested rate |
| Score.SlowRequestsScoreLess | crates/core/src/video.rs:309-309 | Every measurement at a requested rate that passes the gates scores at least 32.8 if and only if the rate is at least one frame a second |
| Score.BetterScoresNoLess | crates/core/src/video.rs:270-337 | Improving any measurement never rejects and never lowers the score |
| Score.MissingIsWorth | crates/core/src/video.rs:270-337 | A missing measurement counts as a quarter of the processor used, 512 MiB of memory used, or half of the best quality |
| Score.TermsAreWeighted | crates/core/src/video.rs:270-337 | What the best and the worst measurements are worth, and from where on they are worst |
| Geometry.ContentRectFits | apps/ipad-web/src/geometry.ts:15-41 | The picture keeps its proportions and is centred; Fit shows all of it, Fill covers the view, both touch two sides |
| Geometry.NormalizesIff | apps/ipad-web/src/geometry.ts:43-56 | Which browser points become input |
| Geometry.NormalizedIsPlaced | apps/ipad-web/src/geometry.ts:43-56 | A normalised point times the picture's size is the browser point's own offset in the picture, or with clamping that of the nearest point of it |
| Geometry.PointsLandOnTheMonitor | crates/protocol/src/mapping.rs:35-43 | Every browser point that becomes input maps to a pixel of the monitor, the nearest to its exact place: as far along the monitor, in proportion, as the nearest point of the picture is along the picture |
| Geometry.MappingIsMonotone | crates/protocol/src/mapping.rs:35-43 | The mapping is monotone on both axes |
| Geometry.CornersMeet | crates/protocol/src/mapping.rs:35-43 | The corners of the picture are the corner pixels |
| Geometry.EveryPixelIsReached | crates/protocol/src/mapping.rs:35-43 | Every pixel is the place of some point |
| Geometry.CoordinatesAreOrdered | crates/host-windows/src/input.rs:595-606 | The desktop coordinates run from 0 to 65535 in order |
| Geometry.CoordinatesAreProportional | crates/host-windows/src/input.rs:595-606 | Between the ends they are in proportion, rounded down |
| Geometry.CoordinatesAreDistinctIff | crates/host-windows/src/input.rs:595-606 | Different desktop pixels have different coordinates if and only if the extent is at most 65536 |

## Left out

- Win32, Direct3D, Media Foundation, OpenH264, WebRTC: what a call does is an argument of the step (it works, fails, or
  is done partway); what Windows holds is the state of module Desktop. A pointer is taken to be in contact after a
  frame exactly if the frame's in-contact flag is set.
- HTTP, JSON, cookies, the user interface: a request is a value, an answer is a value or is lost.
- Real time: pacing is a possible refusal after a chunk has been stored; rates, durations and latencies are not modelled.
- Randomness: identifiers of uploads, queued files and pairings, and the fallback file name, are fresh where a statement
  says so; damage to a chunk does not produce another input with the same SHA-256.
- Manager methods are atomic steps: a cancellation between the rename and the removal of the record in a completion
  (it does not take the completion's lock), and more than 32 creations that pass the limit at the same moment, are not
  modelled. The end of a pairing removes its uploads and its token in one step.
- File removals succeed; the copy that replaces a rename across volumes is not modelled, nor are changes to the inbox
  or to queued files from outside.
- `sanitize_filename` and `sanitize_mime`: the sanitised name is an argument, absent when it is rejected. Names are
  compared exactly, not by the file system's case rules. A creation request without an identifier of its own, which the
  browser never sends, is not modelled.
- FileTransferManager.Manager.WriteUploadChunk: `received` plus the chunk is an unbounded sum where the source saturates
  at 2^64; recent-transfer lists and byte totals are not modelled.
- Upload.UploadFile: progress callbacks and delays are left out; the abort signal may come at any check. That it does not
  fail is promised to an identifier nobody else uses, as the browser's random ones are.
- BrowserCodec.EncodePointerBatch: fields that hold integers, such as flags, identifiers and sequence numbers, are given
  integers; what `>>> 0` makes of other numbers is left out.
- TextTransfer.SendText: the text has no unpaired surrogates; `BrowserCodec.EncodeTextInput` takes any string.
- Metrics.Metrics.InputBatch: pressure and tilt ranges, arrival times and plain counts are left out.
- PointerSync.InStepIff: assumes that coalesced events belong to the pointer of their event and that a pointer keeps its
  device type, as the Pointer Events specification has it; pointer identifiers are 32-bit. Positions matter only as
  inside or outside the picture, which Geometry.NormalizesIff decides.
- PointerSystem.EveryRunAgrees: an interruption abandons the browser's pointers, loses what is on its way and resets the
  host in one step. A settings change that resets the host over HTTP while cancellations travel over the data channel is
  not modelled.
- Injection: positions, pressure, tilt and pen button flags of an injected pointer, and the remainder of wheel
  movements, are left out; they hold nothing down.
- Which key each DOM code stands for is a table in VirtualKeys; nothing is proved about its entries.
- EncodeLoop.VideoLoop.EncodeNext: whether the encoder obeys a keyframe request is up to the encoder.
- EncodeLoop.ForwardVideo: the gate concerns the first frame only; after the receiver lags, or after the codec has
  changed away and back, the source forwards without waiting for a keyframe, and so does the model.
- Score and Geometry are over the reals; rounding of binary32 and binary64 is not modelled.
- Selection: the text of reasons and errors is left out; None stands for every error.
- Settings files, revision checks, the browser's gestures and keyboard handling, learned benchmark storage: they would
  only add easy members.
