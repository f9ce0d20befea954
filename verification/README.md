# Models of the vendor hardware layer

Dafny models of the protocol, parsing and buffer code of this repository, with proofs of the
properties that code exists for. `dafny verify dfyconfig.toml` checks everything.

Most files have two halves. The first half says on plain values what the component is for: a log of
allocations, the lines of a stream, a queue, a printed list of fields, and the steps of both parties
as a state machine. The second half is a class with the fields, arrays and indices of the C code,
whose methods change them in place with the same branches and loops. Each method is proved to do to
its fields exactly what the first half says, and the theorems about every run are lemmas about the
first half.

* `CcbUplink.dfy`, `CcbDownlink.dfy`: the page rings that the application processor shares with the
  modem (`ccci/ccci_lib.c`). Uplink pages are finished in any order and published in allocation
  order; downlink pages are lent one at a time. Sequence numbers that only grow stand for positions;
  `RingIndex.Slot` gives the slot of a sequence number, and `RingIndex.SlotGap` is the only place
  where wrap-around arithmetic is needed. The modem is a step that moves only its own indices, by
  one, and never past the application's.
* `ShfCommunicator.dfy`, `TriggerRecord.dfy`, `ConditionMessage.dfy`: the sensor hub's framing
  without escapes, and the messages inside the frames (`sensorhub/`).
* `LineReader.dfy`, `AtResponse.dfy`, `AtSession.dfy`: reading lines from an AT channel, sorting them
  into the answer of the pending command, and the reader thread that does both
  (`c2kril/c2k-ril/atchannel.c`).
* `ChannelMux.dfy`: eight pseudo channels on four or eight physical ones
  (`c2kril/c2k-ril/atchannel_config.c`), with the mutex that `c2kril/c2k-ril/atchannel.c` takes.
* `SubmixRoutes.dfy`, `SubmixRead.dfy`: the route table and the read loop of the remote submix audio
  device (`audio_remote_submix/audio_hw.cpp`).
* `NfcRing.dfy`: the message rings of the NFC tasks (`nfc/mtk_nfc_sys.c`).
* `FcpTlv.dfy`, `AtTok.dfy`: searching tag-length-value lists, PIN status, and cutting AT responses
  into tokens (`c2kril/c2k-ril/`).

## What the proofs found

Where code and expectation differ the model follows the code:

* A sensor-hub payload whose second fragment starts like a header is never received. The receiver
  delivers the exact payload if and only if that does not happen
  (`ShfCommunicator.ExactPayloadOrNothing`), and `ShfCommunicator.SomePayloadIsLost` names such a payload.
* A downlink reader that holds two pages cannot give any back before a flush
  (`CcbDownlink.TwoHeldIsStuck`). From a fresh ring it gets into that state if and only if the ring
  has at least three pages (`CcbDownlink.StuckExactlyFromThreePages`).
* What line comes next can depend on how the stream is cut into reads. A "> " at the start of a line is
  handed out as a line of its own, with the cursor left behind the text that was read, if and only if
  some read ends right behind it (`LineReader.LineChannel.ReadLine`, `LineReader.PromptCutIsRead`).
  `LineReader.OneStreamTwoLines` reads the same bytes as a prompt and as another line.
* Opening a submix stream by the empty address puts the stream into a slot that still counts as
  free. The table stays in order exactly for non-empty addresses and when no slot is free
  (`SubmixRoutes.OpenKeepsInvExactlyIfNamed`); the very first call can break it
  (`SubmixRoutes.SomeOpenBreaksTheTable`).
* The submix pipe always carries two samples a frame, but for a mono output the reader counts a frame
  as one sample: of the block of every read it uses the first half and loses the second. What it uses
  is all it took if and only if the output is stereo or nothing was taken
  (`SubmixRead.KeptExactlyIfStereo`). A mono output read in stereo also always leaves silence at the
  end (`SubmixRead.SubmixInput.Read`).
* The loop that reads the physical channels loads the route before it reads, and by then the channel
  may belong to another pseudo channel. Every answer of a run reaches its issuer if and only if each
  read that carries an answer goes to the route of that moment (`ChannelMux.RightExactlyIfOrderly`).
  Runs whose loads and reads are not separated are such runs, and so are runs whose reads take one
  token each; there is a run with one larger read that ends with an answer at the wrong pseudo channel
  (`ChannelMux.AtomicRunsAreOrderly`, `OneTokenReadsAreOrderly`, `SomeAnswerStrays`).
* An NFC sender whose signal fails is told of an error although its message stays queued
  (`NfcRing.NfcMessages.Send`).
* The template search computes the size of an entry in one byte. At a skipped value of 254 bytes it
  stays for ever (`FcpTlv.StuckForEver`, `FcpTlv.SomeSearchSticks`); on values of at most 254 bytes it
  ends if and only if it has none of 254 bytes to skip (`FcpTlv.SearchEndsExactlyIfSkippable`). In a
  skipped value of 255 bytes it can find what is no entry (`FcpTlv.SomeValueIsWrong`).
* A last AT field that is printed as nothing is not seen by a reader who asks whether there is more
  (`AtTok.FieldsComeBack`).

## Model

| member | source | states |
|---|---|---|
| RingIndex.SlotGap | ccci/ccci_lib.c:963-981 | two positions less than a lap apart differ in their slots by their distance, taken around the ring |
| CcbUplink.Published | ccci/ccci_lib.c:1047-1061 | the published pages are a completed prefix of the allocations, and the next allocation is unfinished |
| CcbUplink.PublishedIsLongest | ccci/ccci_lib.c:1047-1061 | no longer completed prefix exists |
| CcbUplink.PublishedIsStable | ccci/ccci_lib.c:945-1071 | no step of either side takes back or changes a published page |
| CcbUplink.StepKeepsInv | ccci/ccci_lib.c:945-1071 | every step keeps freed, read and published in order and fewer than a ring of pages outstanding |
| CcbUplink.ModemSeesAllocationOrder | ccci/ccci_lib.c:945-1071 | over every interleaving of allocations, completions in any order, modem reads and frees and re-registrations the modem receives each page once, in allocation order, with its final length |
| CcbUplink.GrantIsExclusive | ccci/ccci_lib.c:963-981 | a granted page is none of those allocated, published or read but not yet freed |
| CcbUplink.PendingIsUnique | ccci/ccci_lib.c:1019-1033 | at most one allocation of a page is unfinished, so a completion is unambiguous |
| CcbUplink.DoneEffect | ccci/ccci_lib.c:1034-1035 | a completion fills in that one allocation and nothing else |
| CcbUplink.GrantPublishesNothing | ccci/ccci_lib.c:974-981 | a grant leaves the published pages as they were |
| CcbUplink.GrantsFillTheRing | ccci/ccci_lib.c:963-981 | from every state in order exactly as many further pages are granted as are missing to one less than the total |
| CcbUplink.ModemTakesThePublished | ccci/ccci_lib.c:1047-1061 | the modem can take every published page and no other |
| CcbUplink.ModemFreesTheTaken | ccci/ccci_lib.c:963-973 | it can free every page it has taken and no other |
| CcbUplink.ReregisterKeepsThePublished | ccci/ccci_lib.c:846-858 | registering again leaves exactly the published pages |
| CcbUplink.UplinkRing.PageBufferInjective | ccci/ccci_lib.c:934-939 | two slots never have the same data address |
| CcbUplink.UplinkRing.Available | ccci/ccci_lib.c:963-973 | the three-case count is the total less one less the outstanding pages |
| CcbUplink.UplinkRing.WriteAlloc | ccci/ccci_lib.c:945-990 | grants the next slot in allocation order if and only if both guard bands are set and fewer than the total less one pages are outstanding, and changes nothing otherwise |
| CcbUplink.UplinkRing.AcceptedPages | ccci/ccci_lib.c:1006-1033 | a completion is accepted if and only if both guard bands are set, the length fits a page and some allocated page has its data at the address |
| CcbUplink.UplinkRing.WriteDone | ccci/ccci_lib.c:992-1071 | completes the page at an address exactly if the ring is ready, the length fits and the page is allocated; afterwards everything is published or the page at the write index is still allocated |
| CcbUplink.UplinkRing.PublicationIsUpToDate | ccci/ccci_lib.c:1047-1061 | write index equals allocate index, or the page there is unfinished |
| CcbUplink.UplinkRing.FindSlot | ccci/ccci_lib.c:1019-1028 | finds the slot of a data address, or the end |
| CcbUplink.UplinkRing.Publish | ccci/ccci_lib.c:1047-1061 | the publish loop stops at the longest completed prefix |
| CcbUplink.UplinkRing.Reregister | ccci/ccci_lib.c:846-858 | unpublished allocations are dropped, everything published stays |
| CcbDownlink.RunKeepsOrder | ccci/ccci_lib.c:1148-1240 | in every run freed, read and written pages keep their order |
| CcbDownlink.LentInOrder | ccci/ccci_lib.c:1148-1190 | no page is lent twice or out of order in any run |
| CcbDownlink.LentWithoutGaps | ccci/ccci_lib.c:1148-1240 | without a flush every page is lent, none is skipped |
| CcbDownlink.TwoHeldIsStuck | ccci/ccci_lib.c:1192-1225 | once two pages are held nothing is freed until a flush |
| CcbDownlink.StuckExactlyFromThreePages | ccci/ccci_lib.c:1148-1225 | a run from a fresh ring that ends with two pages held exists if and only if the ring has at least three pages |
| CcbDownlink.AlternatingReaderNeverFails | ccci/ccci_lib.c:1148-1225 | a reader that alternates get and done holds exactly one page at each done |
| CcbDownlink.SendsFillTheRing | ccci/ccci_lib.c:1148-1240 | the modem finds room for exactly as many pages as are missing to one less than the total |
| CcbDownlink.ReaderCatchesUp | ccci/ccci_lib.c:1148-1225 | a reader that takes pages and gives each back gets all unread pages up to the first that is not written, and stops there |
| CcbDownlink.FlushDropsEverything | ccci/ccci_lib.c:1227-1240 | behind a flush nothing is unread or held, and no get lends anything before the modem sends again |
| CcbDownlink.DownlinkRing.Available | ccci/ccci_lib.c:1073-1079 | the wrapped difference is the number of unread pages |
| CcbDownlink.DownlinkRing.ReadGet | ccci/ccci_lib.c:1148-1190 | lends the oldest unread page with its length; the error tells a dead ring, a bad status and an empty ring apart |
| CcbDownlink.DownlinkRing.ReadDone | ccci/ccci_lib.c:1192-1225 | succeeds exactly when one page is held, and frees that page |
| CcbDownlink.DownlinkRing.ReadFlush | ccci/ccci_lib.c:1227-1240 | drops everything unread and everything held |
| ShfCommunicator.ChecksumGet | sensorhub/shf_communicator.cpp:13-21 | the loop computes the 16-bit sum of all bytes |
| ShfCommunicator.BuildFrame | sensorhub/shf_communicator.cpp:50-69 | lays out escape, size, payload, sum and tail in the shared buffer |
| ShfCommunicator.SendFragments | sensorhub/shf_communicator.cpp:70-82 | sends the pieces of 48 bytes in order, up to the first that fails |
| ShfCommunicator.ProtocolSend | sensorhub/shf_communicator.cpp:50-83 | the fragments handed to the device are the frame of the message, cut in order |
| ShfCommunicator.FrameHasShape | sensorhub/shf_communicator.cpp:50-69 | a frame of at most 96 bytes has the size, sum and tail the receiver checks, around exactly the payload |
| ShfCommunicator.FrameLayout | sensorhub/shf_communicator.cpp:50-69 | every byte of a frame: both escapes, both size bytes, the payload, the two bytes of the sum, the tail |
| ShfCommunicator.NotFollowedExactlyIf | sensorhub/shf_communicator.cpp:93-108 | a frame is lost if and only if its bytes 48 and 49 are the escape and byte 50 is between 5 and 96 |
| ShfCommunicator.CutOutweighs | sensorhub/shf_communicator.cpp:13-26 | the bytes that stay in the first fragment weigh more than one altered byte can add to the second |
| ShfCommunicator.TailIsNoMessage | sensorhub/shf_communicator.cpp:93-133 | a second fragment that looks like a header never checks out as a message of its own, even with one byte altered |
| ShfCommunicator.FeedWhole | sensorhub/shf_communicator.cpp:85-135 | from any state, feeding a frame with at most one altered byte comes down to checking it whole |
| ShfCommunicator.ExactPayloadOrNothing | sensorhub/shf_communicator.cpp:50-135 | from every reachable state a frame delivers exactly its payload once and leaves the receiver idle if its second fragment does not look like a header, and delivers nothing otherwise |
| ShfCommunicator.SingleByteDamageIsCaught | sensorhub/shf_communicator.cpp:13-135 | one altered payload byte is always noticed, from any state |
| ShfCommunicator.SomePayloadIsLost | sensorhub/shf_communicator.cpp:93-108 | a concrete payload that is never received |
| ShfCommunicator.FeedConcat | sensorhub/shf_communicator.cpp:85-135 | receiving is compositional over traffic |
| ShfCommunicator.SessionDelivers | sensorhub/shf_communicator.cpp:50-135 | after any garbage a session delivers exactly its receivable payloads, in order |
| ShfCommunicator.IntactIsFramed | sensorhub/shf_communicator.cpp:118-133 | what checks out is a frame around the bytes handed on |
| ShfCommunicator.DeliveredWasFramed | sensorhub/shf_communicator.cpp:85-135 | for arbitrary traffic a call hands on at most one payload, and the bytes collected are a frame around it |
| ShfCommunicator.IdleIgnoresStrays | sensorhub/shf_communicator.cpp:109-117 | without a new header nothing is handed on twice |
| ShfCommunicator.TrafficFits | sensorhub/shf_communicator.cpp:109-117 | sessions of frames of at most 96 bytes never leave the receive buffer |
| ShfCommunicator.ProtocolBuffer.ReceiveMessage | sensorhub/shf_communicator.cpp:85-135 | one transfer changes buffer, claim and state, and calls the handler, as the receiver state machine says |
| ShfCommunicator.ProtocolBuffer.HandOn | sensorhub/shf_communicator.cpp:118-133 | calls the handler exactly for a complete message with a right tail and sum |
| LineReader.NextLineIsFirstOfLines | c2kril/c2k-ril/atchannel.c:580-699 | taking next lines one by one gives exactly the stream split at NUL, CR and LF without empty pieces |
| LineReader.LinesKeepAllElse | c2kril/c2k-ril/atchannel.c:558-604 | no line is empty or holds CR or LF, and the lines with the unterminated rest are all other characters of the stream, in order |
| LineReader.CutLine | c2kril/c2k-ril/atchannel.c:558-569 | a line found in the buffered part is the next line of the whole stream, whatever follows |
| LineReader.NoLineYet | c2kril/c2k-ril/atchannel.c:558-569 | without a terminator there is no line |
| LineReader.RoomLeft | c2kril/c2k-ril/atchannel.c:622-629 | while lines fit, a partial line never fills the buffer |
| LineReader.RestKeepsShape | c2kril/c2k-ril/atchannel.c:694-699 | what stays behind a line is again a stream the reader handles |
| LineReader.LineChannel.SkipLeadingNewlines | c2kril/c2k-ril/atchannel.c:602-604 | skips newlines only, and all of them |
| LineReader.LineChannel.FindNextEol | c2kril/c2k-ril/atchannel.c:558-569 | finds the first newline of the buffered data, or the end of a bare prompt |
| LineReader.LineChannel.Append | c2kril/c2k-ril/atchannel.c:643-663 | puts what was read behind the data, NUL bytes as CR |
| LineReader.LineChannel.MoveUp | c2kril/c2k-ril/atchannel.c:608-617 | moves the partial line to the front unchanged |
| LineReader.PromptCutIsRead | c2kril/c2k-ril/atchannel.c:558-569 | a prompt is cut off if and only if after some number of reads all that was read, less leading newlines, is the prompt |
| LineReader.LineIsNoPrompt | c2kril/c2k-ril/atchannel.c:558-569 | once a line is complete no prompt is cut off, whatever is read behind it |
| LineReader.FullIsNoPrompt | c2kril/c2k-ril/atchannel.c:622-629 | while lines fit, no prompt ends where the buffer does, so a piece too long for the buffer makes no difference |
| LineReader.LineChannel.Read | c2kril/c2k-ril/atchannel.c:632-641 | hands over the piece that is there, as far as there is space, and nothing exactly at the end of the stream |
| LineReader.LineChannel.Take | c2kril/c2k-ril/atchannel.c:694-699 | hands out the next line of the stream and leaves the rest of the stream unread, or the prompt, with the cursor one place too far |
| LineReader.LineChannel.ReadLine | c2kril/c2k-ril/atchannel.c:580-699 | a prompt is returned early if and only if some read ends right behind it; otherwise, for every way the reads are cut, the line returned and the text left depend on the stream alone; no line longer than the buffer is ever returned |
| LineReader.FirstLine | c2kril/c2k-ril/atchannel.c:580-699 | the first line of any stream whose lines fit, in any pieces: the prompt exactly if a read ends behind it, else the first line, if there is one |
| LineReader.OneStreamTwoLines | c2kril/c2k-ril/atchannel.c:558-569 | one stream whose first line is a prompt when read in two pieces and another line when read at once |
| LineReader.LineChannel.ReadNext | c2kril/c2k-ril/atchannel.c:580-699 | of a stream without prompts whose lines fit, one call returns the first line and leaves the others, or finds that there is none |
| LineReader.LineChannel.ReaderLoop | c2kril/c2k-ril/atchannel.c:743-749 | the lines read until the end are the lines of the stream |
| AtSession.EveryLineIsSeen | c2kril/c2k-ril/atchannel.c:772-800 | as a multiset the lines of the stream are the plain lines, both halves of the pairs of SMS indication and text, and what is dropped; plain lines are no indications, first halves are |
| AtSession.OnlyLastIsDropped | c2kril/c2k-ril/atchannel.c:772-800 | only a last line is dropped, and only if it is an indication without text |
| AtSession.HandledInOrder | c2kril/c2k-ril/atchannel.c:772-800 | plain lines and pairs keep the order of the stream |
| AtSession.HandledAlone | c2kril/c2k-ril/atchannel.c:772-800 | one line is plain, or takes the next with it, or is dropped |
| AtSession.SmsIndications | c2kril/c2k-ril/atchannel.c:393-404 | exactly the three prefixes make a line an SMS indication |
| AtSession.IsSmsUnsolicited | c2kril/c2k-ril/atchannel.c:393-404 | tells SMS indications by their prefixes |
| AtSession.ReaderLoop | c2kril/c2k-ril/atchannel.c:737-806 | for every way the stream is cut into reads the pending command collects the run of the stream's plain lines, and the handler is given all SMS indications with their texts in order |
| AtResponse.EveryLineHasOnePlace | c2kril/c2k-ril/atchannel.c:426-549 | for every line sequence each line goes to exactly one of intermediate, unsolicited, ack, prompt and final, and each keeps arrival order; only power commands keep their OK lines besides |
| AtResponse.IntermediatesFitTheCommand | c2kril/c2k-ril/atchannel.c:498-546 | NO_RESULT collects nothing, NUMERIC and SINGLELINE at most one line of their kind, MULTILINE only prefixed lines |
| AtResponse.PowerIsNothingElse | c2kril/c2k-ril/atchannel.c:327-346 | power commands are none of the other special commands |
| AtResponse.OkIsNoted | c2kril/c2k-ril/atchannel.c:339-346 | in every run of a power command OK is noted exactly if some line began with it |
| AtResponse.PowerOnOrdering | c2kril/c2k-ril/atchannel.c:466-485 | a power command succeeds at a line exactly if that is its +VPON line and a line beginning with OK arrived strictly before |
| AtResponse.PowerSuccessNeedsOkFirst | c2kril/c2k-ril/atchannel.c:426-485 | success of a whole run implies that order |
| AtResponse.SameLetter | c2kril/c2k-ril/atchannel.c:298-355 | prefixes are compared without the case of letters, and other characters as they are |
| AtResponse.PlainOutcome | c2kril/c2k-ril/atchannel.c:298-355 | a command that waits for nothing but OK succeeds at a line if and only if it begins with OK, and fails if and only if it is one of the seven error responses, of which a lost carrier counts for dialling commands only |
| AtResponse.AwaitedOutcome | c2kril/c2k-ril/atchannel.c:443-485 | likewise for SMS, data and voice commands with the lines they wait for, and for the failures of power commands |
| AtResponse.SuccessIsTheLastFinal | c2kril/c2k-ril/atchannel.c:426-497 | a run succeeds if and only if the last line that ended the command is one it succeeds at |
| AtResponse.PlainRun | c2kril/c2k-ril/atchannel.c:426-497 | the final responses of a plain command are its OK and error lines, and it has succeeded exactly if the last of them is an OK |
| AtResponse.OtherLines | c2kril/c2k-ril/atchannel.c:419-549 | every other line is an acknowledgement, a prompt, collected or unsolicited by its text and the kind of the command |
| AtResponse.PowerIsRecorded | c2kril/c2k-ril/atchannel.c:466-480 | a power-on or power-off that succeeded changes the recorded power state, and nothing else does |
| AtResponse.PrefixedStep | c2kril/c2k-ril/atchannel.c:419-424 | what the unsolicited handler saw before does not influence the sorting |
| AtResponse.AtChannel.Begin | c2kril/c2k-ril/atchannel.c:1044-1067 | starts an empty response, or fails and clears the pending one |
| AtResponse.AtChannel.AddIntermediate | c2kril/c2k-ril/atchannel.c:266-282 | the line becomes the newest of the collected lines |
| AtResponse.AtChannel.FindOkInResponse | c2kril/c2k-ril/atchannel.c:1764-1785 | tells whether some collected line begins with OK |
| AtResponse.AtChannel.IsFinalResponseError | c2kril/c2k-ril/atchannel.c:298-313 | true exactly for the error responses, except a lost carrier outside calls |
| AtResponse.AtChannel.IsFinalResponseSuccess | c2kril/c2k-ril/atchannel.c:327-355 | OK ends ordinary commands and is only noted for power commands |
| AtResponse.AtChannel.ProcessLine | c2kril/c2k-ril/atchannel.c:426-549 | the line reaches its one place, the final response is the line that ended the command, a prompt is answered with the message text |
| AtResponse.AtChannel.ProcessAnswer | c2kril/c2k-ril/atchannel.c:443-497 | only a successful power command changes the modem's recorded power state |
| AtResponse.AtChannel.ProcessByKind | c2kril/c2k-ril/atchannel.c:498-546 | a line that ends nothing is collected or passed on by the kind of the command |
| AtResponse.AtChannel.ReverseIntermediates | c2kril/c2k-ril/atchannel.c:1022-1035 | the list read forwards afterwards is in arrival order |
| AtResponse.AtChannel.TakeResponse | c2kril/c2k-ril/atchannel.c:1095-1116 | the issuer gets success, final line and the intermediates in arrival order, and nothing is pending any more |
| AtResponse.AtChannel.Collect | c2kril/c2k-ril/atchannel.c:426-549 | processing the lines of a command one by one ends in the run of all of them |
| AtResponse.AtChannel.Issue | c2kril/c2k-ril/atchannel.c:1044-1116 | a whole command: response and unsolicited lines are those of the run of all its lines |
| ChannelMux.StepKeepsInv | c2kril/c2k-ril/atchannel_config.c:505-619 | every step of both loops, the modem and the senders keeps the invariant of all channels |
| ChannelMux.RunKeepsInv | c2kril/c2k-ril/atchannel_config.c:505-619 | so does every run |
| ChannelMux.LockKeepsInv | c2kril/c2k-ril/atchannel.c:1179-1196 | taking a free mutex finds nothing of an earlier command on the physical channel |
| ChannelMux.DownKeepsInv | c2kril/c2k-ril/atchannel_config.c:564-619 | re-routing a physical channel never strands an answer |
| ChannelMux.ReplyKeepsInv | c2kril/c2k-ril/atchannel_config.c:505-562 | the modem answers only the holder of the mutex |
| ChannelMux.DeliverKeepsInv | c2kril/c2k-ril/atchannel_config.c:539-551 | passing on a read of any number of tokens to the current route keeps every answer accounted for |
| ChannelMux.FinishKeepsInv | c2kril/c2k-ril/atchannel.c:1195-1196 | releasing the mutex leaves no answer behind |
| ChannelMux.FinishFreesTheMutex | c2kril/c2k-ril/atchannel.c:1195-1196 | when a command is finished every pseudo channel on its physical channel can take the mutex |
| ChannelMux.HolderIsLastOwner | c2kril/c2k-ril/atchannel.c:1179-1196 | in every run from the start a mutex is held by p if and only if the last Lock or Finish that succeeded on it is a Lock by p |
| ChannelMux.CommandGoesThrough | c2kril/c2k-ril/atchannel_config.c:505-619 | from every state in which a mutex is free a command on it can be sent, answered and finished: its issuer is given what was waiting and then the answer, and the mutex is free again |
| ChannelMux.ModemIsHeard | c2kril/c2k-ril/atchannel_config.c:505-562 | an answer or announcement of the modem waits behind those before it |
| ChannelMux.AnswersReachTheirIssuer | c2kril/c2k-ril/atchannel_config.c:505-619 | in every orderly run each answer written to a pseudo channel answers a command of that channel, and those written followed by those on their way are all the modem gave, once and in order |
| ChannelMux.FinishedIsComplete | c2kril/c2k-ril/atchannel.c:1179-1196 | in every orderly run a command that can finish has been sent completely and has received all its answers |
| ChannelMux.RouteStaysLinked | c2kril/c2k-ril/atchannel_config.c:564-619 | in every reachable state the pseudo channel a physical channel is routed to maps back to it |
| ChannelMux.RightExactlyIfOrderly | c2kril/c2k-ril/atchannel_config.c:539-551 | in a run no answer is written to a pseudo channel it is not for, if and only if each read that carries an answer is written to the route of that moment |
| ChannelMux.AtomicRunsAreOrderly | c2kril/c2k-ril/atchannel_config.c:539-551 | runs in which a read follows its load at once are orderly |
| ChannelMux.OneTokenReadsAreOrderly | c2kril/c2k-ril/atchannel_config.c:539-551 | runs whose reads take one token each are orderly, whatever comes between load and read |
| ChannelMux.SomeAnswerStrays | c2kril/c2k-ril/atchannel_config.c:539-551 | a run from the start after which a pseudo channel holds the answer to a command of another |
| ChannelMux.MappingsAgree | c2kril/c2k-ril/atchannel_config.c:688-743 | the two mapping switches fit together exactly for four and for eight physical channels |
| ChannelMux.MappingTables | c2kril/c2k-ril/atchannel_config.c:688-743 | the channel each pseudo and each physical channel is mapped to, for four and for eight channels |
| ChannelMux.Multiplexer.constructor | c2kril/c2k-ril/atchannel_config.c:387-449 | sets up both tables as the start of every run |
| ChannelMux.Multiplexer.ConstructChannelMapping | c2kril/c2k-ril/atchannel_config.c:437-449 | pseudo channels on one physical channel share its mutex |
| ChannelMux.Multiplexer.LockAndWrite | c2kril/c2k-ril/atchannel.c:1179-1194 | takes the mutex of the physical channel exactly if it is free |
| ChannelMux.Multiplexer.Unlock | c2kril/c2k-ril/atchannel.c:1195-1196 | releases the mutex exactly if the caller holds it and has its final answer |
| ChannelMux.Multiplexer.PseudoChannelPass | c2kril/c2k-ril/atchannel_config.c:564-619 | one turn of the loop is one forward for each readable pseudo channel, in order |
| ChannelMux.Multiplexer.LoadRoute | c2kril/c2k-ril/atchannel_config.c:541 | the first half of a forward notes the route |
| ChannelMux.Multiplexer.ReadAndWrite | c2kril/c2k-ril/atchannel_config.c:542-551 | the second half takes what a read gives and writes it to the route noted |
| ChannelMux.Multiplexer.ForwardOne | c2kril/c2k-ril/atchannel_config.c:539-551 | a forward is a load, any steps of other threads, and a read |
| ChannelMux.Multiplexer.PhysicalChannelPass | c2kril/c2k-ril/atchannel_config.c:505-562 | one turn of the loop is one such forward for each readable physical channel, in order |
| SubmixRoutes.Lookup | audio_remote_submix/audio_hw.cpp:661-687 | gives the slot of the address, else a free slot, and fails only if there is neither |
| SubmixRoutes.OpenOutputKeepsInv | audio_remote_submix/audio_hw.cpp:1523-1619 | opening an output keeps the table in order |
| SubmixRoutes.OpenInputKeepsInv | audio_remote_submix/audio_hw.cpp:1741-1866 | opening an input, anew or again, keeps the table in order |
| SubmixRoutes.CloseOutputKeepsInv | audio_remote_submix/audio_hw.cpp:1621-1637 | closing an output keeps the table in order |
| SubmixRoutes.CloseInputKeepsInv | audio_remote_submix/audio_hw.cpp:1868-1889 | closing an input keeps the table in order |
| SubmixRoutes.RunKeepsInv | audio_remote_submix/audio_hw.cpp:447-605 | after every sequence of opens and closes by non-empty addresses a slot has an address, a pipe and a stream together or not at all, addresses are distinct and streams point back |
| SubmixRoutes.RatesStayCompatible | audio_remote_submix/audio_hw.cpp:413-442 | whenever both directions of a route are open their rates are equal or the input is mono, in every run |
| SubmixRoutes.OpenKeepsInvExactlyIfNamed | audio_remote_submix/audio_hw.cpp:668-684 | opening keeps the table in order if and only if the address is not empty or no slot is free |
| SubmixRoutes.SomeOpenBreaksTheTable | audio_remote_submix/audio_hw.cpp:668-684 | a first call, to open an output or an input by the empty address, leaves the table out of order |
| SubmixRoutes.NoMemoryExactlyIfFull | audio_remote_submix/audio_hw.cpp:678-681 | a call runs out of slots if and only if ten other addresses are in use |
| SubmixRoutes.OutputOpensExactlyIf | audio_remote_submix/audio_hw.cpp:618-658 | an output opens if and only if no output is open on its address and an input there has its rate or is mono, or the address is new and a slot is free |
| SubmixRoutes.InputOpensExactlyIf | audio_remote_submix/audio_hw.cpp:618-658 | an input opens if and only if it is mono or has the rate of the pipe on its address, or the address is new and a slot is free |
| SubmixRoutes.OutputIsOpened | audio_remote_submix/audio_hw.cpp:1523-1619 | an output that opened has the slot of its address and a pipe of its rate; everything else stays |
| SubmixRoutes.InputIsOpened | audio_remote_submix/audio_hw.cpp:1741-1866 | an input that opened has the slot of its address; a pipe that is there keeps its rate; everything else stays |
| SubmixRoutes.OutputIsClosed | audio_remote_submix/audio_hw.cpp:575-605 | a closed output leaves its slot, and address and pipe go with the last stream |
| SubmixRoutes.InputIsClosed | audio_remote_submix/audio_hw.cpp:575-605 | a closed input loses one reference, leaves its slot with the last, and address and pipe go with the last stream |
| SubmixRoutes.SameAddress | audio_remote_submix/audio_hw.cpp:668-677 | addresses are told apart by their first 32 characters |
| SubmixRoutes.SupportedConfigs | audio_remote_submix/audio_hw.cpp:301-361 | which rates and masks are kept, and what the others are replaced by |
| SubmixRoutes.ReferencesAreOpensLessCloses | audio_remote_submix/audio_hw.cpp:1778-1807 | in every run an input's count is its opens less its closes, and it is open exactly while they differ |
| SubmixRoutes.SubmixDevice.GetRouteForAddress | audio_remote_submix/audio_hw.cpp:661-687 | the search loop finds the slot of the address, else the last free one |
| SubmixRoutes.SubmixDevice.OpenValidate | audio_remote_submix/audio_hw.cpp:618-658 | refuses exactly a second output, and a stream beside an open one when the rates differ and the input is not mono |
| SubmixRoutes.SubmixDevice.CreatePipe | audio_remote_submix/audio_hw.cpp:447-543 | ties the stream to the slot and gives it a pipe of the stream's rate if there is none |
| SubmixRoutes.SubmixDevice.OpenOutputStream | audio_remote_submix/audio_hw.cpp:1523-1619 | a failing call changes nothing; a successful one leaves a pipe of the output's rate |
| SubmixRoutes.SubmixDevice.OpenInputStream | audio_remote_submix/audio_hw.cpp:1741-1866 | an open input is returned again with one more reference |
| SubmixRoutes.SubmixDevice.DestroyPipe | audio_remote_submix/audio_hw.cpp:575-605 | drops the stream with its last reference, and the pipe with the last stream |
| SubmixRoutes.SubmixDevice.CloseOutputStream | audio_remote_submix/audio_hw.cpp:1621-1637 | keeps the table in order |
| SubmixRoutes.SubmixDevice.CloseInputStream | audio_remote_submix/audio_hw.cpp:1868-1889 | keeps the table in order |
| SubmixRead.ConvertConcat | audio_remote_submix/audio_hw.cpp:1342-1368 | converting piece by piece is converting the whole |
| SubmixRead.AverageIsMean | audio_remote_submix/audio_hw.cpp:1353-1354 | the average is the one number that is half the sum rounded towards zero |
| SubmixRead.ConvertedSamples | audio_remote_submix/audio_hw.cpp:1342-1368 | from stereo to mono every frame becomes its mean, from mono to stereo every sample is there twice |
| SubmixRead.MonoKeepsTheFront | audio_remote_submix/audio_hw.cpp:1312-1332 | with a mono output what is used of a read is the front of the block it took |
| SubmixRead.KeptExactlyIfStereo | audio_remote_submix/audio_hw.cpp:1312-1332 | what is used of the samples taken is all of them if and only if the output is stereo or nothing was taken |
| SubmixRead.KeptMore | audio_remote_submix/audio_hw.cpp:1312-1332 | one more read adds the used part of its block, converted, behind what there was |
| SubmixRead.SubmixInput.AverageInPlace | audio_remote_submix/audio_hw.cpp:1347-1355 | the forward loop leaves half the sum of both samples of each original frame, rounded towards zero, although it overwrites them |
| SubmixRead.SubmixInput.DoubleInPlace | audio_remote_submix/audio_hw.cpp:1356-1366 | the backward loop leaves every original sample twice |
| SubmixRead.SubmixInput.ReadOnce | audio_remote_submix/audio_hw.cpp:1312-1368 | one turn takes a block from the pipe and puts as many of its samples as there are frames of the output, converted, behind what is there |
| SubmixRead.SubmixInput.ReadPipe | audio_remote_submix/audio_hw.cpp:1337 | one non-blocking read takes whole frames from the front of the pipe, or nothing, and its result is recorded |
| SubmixRead.SubmixInput.ReadFromPipe | audio_remote_submix/audio_hw.cpp:1312-1405 | the loop ends when the buffer is full or exactly three of its reads gave nothing; the buffer is what the reads that gave any used of the samples taken, converted, in order |
| SubmixRead.SubmixInput.Read | audio_remote_submix/audio_hw.cpp:1210-1417 | the buffer holds the converted samples used of each read that gave any, in order, then silence, in all for as many frames as were asked for; every read asks for all that is missing; with a pipe there is silence only after exactly three reads of it gave nothing |
| NfcRing.RingIsQueue | nfc/mtk_nfc_sys.c:649-706 | for every interleaving of senders and receivers what a ring gave out, then what it holds, is what it accepted, at most 128 waiting |
| NfcRing.RingsDoNotInterfere | nfc/mtk_nfc_sys.c:574-602 | a ring is in the state it would be in if the other two were never used |
| NfcRing.OneRingEach | nfc/mtk_nfc_sys.c:649-706 | three tasks have a ring, each its own, and no other task has one |
| NfcRing.RingFills | nfc/mtk_nfc_sys.c:667-699 | an empty ring accepts the first 128 messages and no more |
| NfcRing.RingDrains | nfc/mtk_nfc_sys.c:884-904 | every waiting message can be taken, oldest first |
| NfcRing.MsgRing.PutMsg | nfc/mtk_nfc_sys.c:667-699 | accepts exactly below 128 messages and appends; count and pointers stay in agreement |
| NfcRing.MsgRing.TakeMsg | nfc/mtk_nfc_sys.c:884-904 | gives the oldest message if there is one; the slot is never null then |
| NfcRing.NfcMessages.constructor | nfc/mtk_nfc_sys.c:564-602 | three distinct empty rings |
| NfcRing.NfcMessages.Send | nfc/mtk_nfc_sys.c:636-816 | fails without effect for null messages, unknown tasks and a full ring; a message to the socket succeeds and leaves the rings alone; a failed signal fails the call but keeps the message |
| NfcRing.NfcMessages.Recv | nfc/mtk_nfc_sys.c:834-1060 | takes the oldest message, after waiting if the ring was empty, whatever other threads did meanwhile; for the socket it is what the socket gives, and the rings stay as they are |
| TriggerRecord.ConvertOfSave | sensorhub/shf_types.cpp:41-93 | a saved number is read back |
| TriggerRecord.SaveOfConvert | sensorhub/shf_types.cpp:41-93 | the bytes of a number read are saved back |
| TriggerRecord.NumbersOfBytes | sensorhub/shf_types.cpp:46-64 | four bytes are a number with the lowest first, eight are two of them with the lower first |
| TriggerRecord.RecordLayout | sensorhub/shf_hal.cpp:92-104 | where the fields of a record are |
| TriggerRecord.EntryLayout | sensorhub/shf_hal.cpp:105-136 | an entry is index, type and two numbers of four bytes for type 1, of eight for type 2 |
| TriggerRecord.ConvertUint8ToUint32 | sensorhub/shf_types.cpp:46-52 | four bytes, lowest first |
| TriggerRecord.ConvertUint8ToUint64 | sensorhub/shf_types.cpp:54-64 | eight bytes, lowest first |
| TriggerRecord.RoundTrip | sensorhub/shf_hal.cpp:92-141 | every record of up to eight entries is parsed back, whatever follows it |
| TriggerRecord.StrictPrefixIsRejected | sensorhub/shf_hal.cpp:96-134 | a record cut short anywhere is rejected |
| TriggerRecord.AcceptedIsEncoded | sensorhub/shf_hal.cpp:92-141 | what is accepted begins with the encoding of exactly the fields delivered |
| TriggerRecord.RecordArrivesWhole | sensorhub/shf_hal.cpp:514-533 | from any receiver state a framed record is parsed with all its fields, unless its second fragment looks like a header, when nothing arrives |
| TriggerRecord.SensorTriggerData.ReadEntry | sensorhub/shf_hal.cpp:105-136 | one turn of the loop reads one entry or finds the message too short |
| TriggerRecord.SensorTriggerData.ReadEntries | sensorhub/shf_hal.cpp:104-138 | the loop fills in exactly the entries of the message and leaves the others zero |
| TriggerRecord.SensorTriggerData.BuildTriggerData | sensorhub/shf_hal.cpp:92-141 | accepts exactly the messages that parse, whatever number of entries they announce, and holds their fields and nothing else |
| ConditionMessage.UnwrapOfWrapped | sensorhub/shf_hal.cpp:206-236 | a decoder of the model's own (the repository has only the writer) gets back the items before the first without operation and the actions before the first zero, so nothing of them is lost or confused |
| ConditionMessage.BodyLayout | sensorhub/shf_hal.cpp:206-236 | where the counts, the 16 bytes of each item and the actions are, and what ends items and actions |
| ConditionMessage.ConditionArrivesWhole | sensorhub/shf_hal.cpp:238-280 | adding or updating any condition makes a message that a receiver of frames gets whole, unless its second fragment looks like a header, when nothing arrives |
| ConditionMessage.WrapCondition | sensorhub/shf_hal.cpp:206-236 | writes exactly that message and nothing around it |
| ConditionMessage.CountItems | sensorhub/shf_hal.cpp:207-216 | counts the items before the first without operation |
| ConditionMessage.CountActions | sensorhub/shf_hal.cpp:217-224 | counts the actions before the first zero |
| FcpTlv.FirstIsFirst | c2kril/c2k-ril/csim_fcp_parser.c:72-105 | the first value is that of an entry with the tag and no entry before it has the tag; there is none exactly if no entry has it |
| FcpTlv.TurnAtEntry | c2kril/c2k-ril/csim_fcp_parser.c:84-98 | a turn of the search steps over an entry if and only if its value has at most 253 bytes; at 254 bytes it stays, at 255 it goes on inside the entry |
| FcpTlv.SearchFindsFirst | c2kril/c2k-ril/csim_fcp_parser.c:72-105 | on a list whose skipped values have at most 253 bytes the turns end at the first entry with the tag, or without result if there is none |
| FcpTlv.StuckForEver | c2kril/c2k-ril/csim_fcp_parser.c:84-98 | at a skipped value of 254 bytes the search is still there after every number of turns |
| FcpTlv.SearchEndsExactlyIfSkippable | c2kril/c2k-ril/csim_fcp_parser.c:84-98 | on values of at most 254 bytes the search ends if and only if it has none of 254 bytes to skip |
| FcpTlv.SomeSearchSticks | c2kril/c2k-ril/csim_fcp_parser.c:84-98 | a list whose second entry has the tag and is never reached |
| FcpTlv.SomeValueIsWrong | c2kril/c2k-ril/csim_fcp_parser.c:84-98 | lists without the tag on which the search returns a place inside a skipped value of 255 bytes |
| FcpTlv.TemplateTurn | c2kril/c2k-ril/csim_fcp_parser.c:84-98 | the body of the loop is one turn of the search |
| FcpTlv.FcpTlvSearchTags | c2kril/c2k-ril/csim_fcp_parser.c:72-105 | on any bytes on which the turns end inside the buffer, gives the place and length at which they end |
| FcpTlv.PropInfoTlvSearchTag | c2kril/c2k-ril/csim_fcp_parser.c:123-150 | finds the first entry with the tag in the bytes of any list |
| FcpTlv.FlagsAreDistinct | c2kril/c2k-ril/csim_fcp_parser.c:529-723 | two key references never share a flag |
| FcpTlv.FlagTable | c2kril/c2k-ril/csim_fcp_parser.c:529-723 | the flag of every key reference, and which references have none |
| FcpTlv.BitsFromTheTop | c2kril/c2k-ril/csim_fcp_parser.c:529-723 | the first status bit is the most significant, and each shift to the left moves the bits one place to the front |
| FcpTlv.EnabledIsStatusBit | c2kril/c2k-ril/csim_fcp_parser.c:490-742 | with cleared flags the PIN of the k-th of at most eight key references is enabled if and only if bit k of the status byte is set, and no other PIN is present |
| FcpTlv.NineKeyRefsAbort | c2kril/c2k-ril/csim_fcp_parser.c:525-528 | a ninth key reference aborts |
| FcpTlv.TemplateIsQueried | c2kril/c2k-ril/csim_fcp_parser.c:490-509 | on a list whose skipped values have at most 253 bytes the search for the PIN status ends, with the bytes of its entries if there is one |
| FcpTlv.PinStatus.PinStatusDoQuery | c2kril/c2k-ril/csim_fcp_parser.c:490-742 | finds the template and sets the flags of its entries; without it the present flags are cleared |
| FcpTlv.PinStatus.ScanEntries | c2kril/c2k-ril/csim_fcp_parser.c:511-732 | the loop goes through the bytes of the template entry by entry, with key references of any length |
| FcpTlv.PinStatus.KeyRef | c2kril/c2k-ril/csim_fcp_parser.c:529-723 | sets the flag of a key reference, and the enabled flag exactly if its bit is set |
| AtTok.FieldsComeBack | c2kril/c2k-ril/at_tok.c:48-193 | tokenizing a printed field list gives the texts of all fields, less a last one that is printed as nothing; quoted fields may hold commas |
| AtTok.ResponseComesBack | c2kril/c2k-ril/at_tok.c:28-193 | so does a whole response from its first colon on |
| AtTok.NextOfMany | c2kril/c2k-ril/at_tok.c:48-87 | the token of a field that is followed by another, and the text left |
| AtTok.NextOfLast | c2kril/c2k-ril/at_tok.c:48-87 | the token of the last field; only an unquoted one leaves no text |
| AtTok.SkipsAllSpace | c2kril/c2k-ril/at_tok.c:48-60 | skipping passes over the six white-space characters and stops at the first other |
| AtTok.Tokenizer.Start | c2kril/c2k-ril/at_tok.c:28-46 | moves behind the first colon, or fails |
| AtTok.Tokenizer.StrSep | c2kril/c2k-ril/at_tok.c:70-87 | cuts the text in place; the token ends in a NUL before the cursor, and nothing before it is written |
| AtTok.Tokenizer.NextTok | c2kril/c2k-ril/at_tok.c:70-87 | the next token, and text left, of the line |
| AtTok.Tokenizer.HasMore | c2kril/c2k-ril/at_tok.c:190-193 | tells whether text is left |
| AtTok.Tokenizer.AllTokens | c2kril/c2k-ril/at_tok.c:178-193 | all pointers handed out still point to their tokens when the whole line has been cut |

## Left out

- Devices, sockets, terminals, `mmap`, `select`, thread creation, property reads and logging: a step, a parameter or a nondeterministic result stands for each.
- The modem and the sensor hub: their side is a contract. The modem moves only its own ring indices, answers only commands it has received completely and sends nothing to a command after its final answer; the sensor hub sends at most eight trigger entries, and its size byte stays within 90, because an append is not checked against the 96 bytes of the receive buffer.
- `buffer_id`, `user`: the rings are modelled for a registered user and a `buffer_id` below the number of buffers (the code also lets the number itself pass), with at least two pages and pages larger than their header.
- Registration failures and the discovery of buffers in `ccci_ccb_register`, and the poll and debug calls beside them.
- ShfCommunicator.ExactPayloadOrNothing: whole frames of at most 96 bytes, as the comment at sensorhub/shf_communicator.cpp:137-142 assumes; the send buffer itself would take more.
- LineReader.LineChannel.ReadLine: promises a line only while every newline run, line and terminator fit the buffer; a longer line is dropped in part, by a branch that is in the body. Behind a prompt the cursor stands in old text, so a next call is not covered. Read errors other than the end of the stream are not modelled.
- LineReader.LineChannel.ReadNext: streams without a line that starts with "> " and with lines that fit, for the reasons given for `ReadLine`. A prompt that reaches `ProcessLine` is modelled.
- LineReader.LineChannel.ReaderLoop: such streams only.
- AtSession.ReaderLoop: such streams only, and one command to the end of the stream; the mode in which the reader goes on after the end of the stream is left out.
- ShfCommunicator.ProtocolBuffer.ReceiveMessage: an append that would leave the 96 bytes of the buffer is required not to occur, because the code writes it unchecked. `ShfCommunicator.TrafficFits` shows that frames of at most 96 bytes never cause one.
- The wait, retry and timeout handling around a pending AT command: the issuer wakes up after any number of further lines.
- AtResponse.AtChannel.Begin: commands of `at_send_command_full_ack` hold the mutex of the physical channel for the whole wait (c2kril/c2k-ril/atchannel.c:1179-1196), so none of them finds another pending. Only the handshake, which takes the command mutex alone (1515-1520), can; its error path then clears the response for which the other thread waits, and that thread reads it again at line 1074. What follows from the cleared pointer is not modelled, and the handshake is left out of `ChannelMux`.
- AtResponse.IntermediatesFitTheCommand: power commands are excluded, because their OK is collected too, and possibly twice.
- ChannelMux.AnswersReachTheirIssuer: orderly runs only; `RightExactlyIfOrderly` says that these are all in which no answer strays. Timeouts, write errors and channel resets are excluded.
- ChannelMux.FinishedIsComplete: orderly runs only, likewise.
- ChannelMux.Multiplexer.ReadAndWrite: a read takes whole tokens, any number of them, where the code takes up to 1023 bytes. The other direction is one step, `Down`, for a read and its write.
- Stream allocation failures, shutdown of the pipe through `out_set_parameters`, and `in_set_sample_rate`: the route invariant is about opens and closes. The 48000 stored as output rate before an output opens is in the model but in no theorem.
- SubmixRead.SubmixInput.Read: equal rates and whole frames. Resampling is floating point; pacing, latency and dump files are not modelled. MonoPipe is a FIFO whose reads may be short or fail, with two samples a frame; the caller's buffer has two samples for each frame asked for.
- NfcRing.NfcMessages.Send: the write to the socket, whose result the code does not look at, leaves no trace in the model. What a receive from the socket gives is a parameter; `mtk_nfc_sys_socket_read` and the NFC timer slots are left out.
- TriggerRecord.SensorTriggerData.BuildTriggerData: a message that announces more than eight entries and has the first two bytes of a ninth is required not to occur, because the code writes these behind the record.
- TriggerRecord.SensorTriggerData.ReadEntries: likewise.
- FcpTlv.SearchEndsExactlyIfSkippable: lists without values of 255 bytes. Behind the start of such a value the search reads its bytes as entries, so whether it ends depends on them; `TurnAtEntry` and `SomeValueIsWrong` say what it does there.
- FcpTlv.FcpTlvSearchTags: searches that do not end, or leave the buffer, are required not to occur; the lemmas about turns say which lists of entries they are, for values of at most 254 bytes in both directions.
- FcpTlv.PinStatus.PinStatusDoQuery: such searches, and templates in which a known key reference comes before its status byte, which the code would read through a null pointer or behind the status bytes. The flag words are modelled as the sets of their bits. The other queries on a template and `app_min_freq` are left out.
- FcpTlv.PinStatus.ScanEntries: such templates, likewise.
- Numbers among AT tokens (`strtol`): a token is its text.
- Boot control, lights, thermal, hardware composer, keymaster, sound trigger and similar parts of the repository: look-up tables, and wrappers that hand their arguments to a device or a library.
