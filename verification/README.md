# A model of pcapsipdump's call table, packet loop and text engine

pcapsipdump watches SIP signalling, keeps a table of the calls it has seen and
writes every call, with its media, to a dump file of its own. This project models
the parts on which that depends and proves what they promise.

## The parts

**The call table** (`Slots`, `CallTables`). A growing vector of slots. Adding a call
takes the first unused slot; a slot tracks at most four (address, port) flows, each
with the SSRC last seen on it; the sweep closes the files of expired calls and
zeroes their slots. `Slots` gives every operation as a function on tables.
`CallTables.CallTable` is the object itself, updated in place by loops, and every
method is proved to compute its function.

**The packet loop** (`Machine`, `Captures`, `Dispatchers`). `Machine` is a state
machine: the table, the fragment map, the sweep clock, the sampling counter and the
log of everything that was opened, written, closed, deleted or announced. `Captures`
says which actions one packet causes and what a run over a capture is.
`Dispatchers.Dispatcher` is the loop as the program writes it, with its mutable
fields, and is proved to take exactly the state machine's step for every packet.

**What holds after every capture** (`WholeRuns`, resting on `TableShape`,
`TableSize`, `Ownership`, `FileSplit`, `CaptureFiles`, `Sampling`, `FlowTracking`,
`FragmentRouting`, `SsrcSticky`, `Expiry`). Each of these modules finds the
invariant that one action keeps; `WholeRuns` turns them into statements about all
captures and all configurations, by one induction principle (`Captures.KeptByRun`).
On top of these stand `FragmentFiles` (when a fragment reaches an open file),
`SweepClock` (how often the sweep comes), `SteadyCalls` (which calls never expire)
and `CallCreation` (which packets add a call), and further `MediaSteps`, `OddPorts`
and `MarkerBit` (what becomes of media), `Messages`, `CallMessages` and `EndedCalls`
(what messages do to their calls, and a BYE in particular), `Endings` and `FileNames`
(how files end, and under which names).

**The text engine** (`Text`, `StrLib`, `HeaderList`, `PeerName`, `Sip`, `SipBytes`, `SdpBodies`,
`Template`). The header scanner, caller and callee extraction, the search for the SDP
body, the telephone-event scanner and the two-pass file-name template, each loop proved against a
specification, each specification tied by a round trip to the text that renders it.

**From text to file** (`CallStory`). Both halves together: a request is rendered,
arrives at any point of any capture, and is found again in the table, in the name of
its dump file and in the file; and media sent to the pair it announced follows it,
unless the port is odd and RTCP is saved (`OddPorts`).

**The build with lookup caches** (`CachedTables`, `CacheAgreement`). The same table
with its two indexes, and for each operation the exact condition under which the
cached build goes on answering like the linear scan.

`Shortfalls`, `MediaShortfalls`, `NameShortfalls` and `CacheShortfalls` hold the inputs
for the section that follows.

## Where the code falls short of what is promised

- *Cache and BYE.* `docs/ARCHITECTURE.md:95-96` says the cache drops the entry when a
  port is reused after a BYE. The code drops it, searches, finds nothing, and leaves
  a negative entry over a flow that is still tracked (calltable.cpp:168-173, 206); the
  ended call's own SSRC is then lost. `CacheAgreement.LookupKeepsAgreementIff` has
  the condition, `CacheShortfalls.NewSsrcAfterByeLosesFlow` the run.
- *Cache and expiry.* The sweep zeroes a slot before it reads from it which index
  entries to erase (calltable.cpp:232-244), so it erases no flow, and only the empty
  Call-ID. `CacheAgreement.SweepKeepsAgreementIff` and
  `CacheAgreement.SweepKeepsIdsIff` say when that does no harm, and
  `CacheShortfalls.SweepLeavesEntries` is a run in which it does.
- *Cache and long Call-IDs.* The index keeps the whole Call-ID, the table its first 32
  bytes and its length. `CacheAgreement.AddKeepsIdsIff` has the condition,
  `CacheShortfalls.LongIdsDiffer` the run.
- *Fragments and closed files.* The sweep closes a call's file but leaves the fragment
  map alone (calltable.cpp:220-232), so a follow-on fragment may be written to a file
  already closed (pcapsipdump.cpp:495-497). `FragmentFiles.FragmentFileOpenIff` says
  when its file is open, `FragmentFiles.OnlyOpenFilesAreWrittenIff` for which captures
  all writes go to open files, and `Shortfalls.FragmentToClosedFile` is a capture
  (one exists: `Shortfalls.FragmentToClosedFileExists`) that does otherwise.
- *Templates.* `%%` followed by f, t or i is a percent sign and a letter to the time
  pass, but a percent sign and a call field to the first pass.
  `Template.CleanTemplatesExactly` says for which templates the two passes mean one.
- *Odd ports.* `docs/ARCHITECTURE.md:81-82` says the announced pair is registered as a
  flow. It is, as announced (pcapsipdump.cpp:135), but in the default mode, which saves
  RTCP, lookups clear the port's lowest bit (pcapsipdump.cpp:574, 582, 597), so a pair
  with an odd port is never matched. `OddPorts.TrackedPairIsMatchedIff` and
  `OddPorts.SentToTrackedPairIff` have the condition; over captures no such flow is
  attributed anything (`OddPorts.NoOddAttribution`), and a call with no other flows
  records nothing and expires as idle (`OddPorts.OddFlowsRecordNothing`,
  `OddPorts.OddCallExpires`). `MediaShortfalls.OddPairIsLost` is a capture
  (`MediaShortfalls.OddPairIsLostExists`: there is one).
- *Telephone events.* `docs/ARCHITECTURE.md:82-83` says `-R rtpevent` can pick out
  DTMF. The whole second byte is compared (pcapsipdump.cpp:587, 601), so a packet whose
  marker bit is set, as in the first packet of an event, is not recorded.
  `MarkerBit.PickedOutIff` has the condition, `MarkerBit.MarkedIsNotRecorded` is the
  same over captures, `MediaShortfalls.MarkedEventIsLost` a case.
- *SSRC.* `docs/ARCHITECTURE.md:87-88` says RTP is matched by address, port and SSRC.
  The SSRC counts if and only if the call has ended (`SsrcSticky.SsrcMattersIff`).
- *Display names.* A display name with a scheme or an `@` in it disturbs the
  extraction, unless it names the same user between the two. `PeerName.UserBeforeAt`
  (and for an address without `@` `PeerName.UserBeforeBracket`) has the condition;
  `NameShortfalls.SchemeInDisplayName` and
  `NameShortfalls.AddressInDisplayName` are cases.
- *Interrupts.* The signal handlers sweep at time 0, which for ordinary times closes
  no file (`WholeRuns.InterruptClosesNothing`; `WholeRuns.InterruptChangesIff` has the
  condition); only the sweep at the end of the capture does, and `WholeRuns.FinalSweepLeaves` says what it leaves open.
- *Entries and methods.* `docs/ARCHITECTURE.md:80-81` says a matching method creates
  the entry. In the code any SIP message with a Call-ID and an admitted number does;
  the method only decides whether it counts towards a file. `CallCreation.StepAddsIff`
  says exactly which packets add a call, `CallCreation.MethodDecidesFileOnly` what is
  left to the method, and `Shortfalls.UnmatchedMethodAddsCall` is a case.
- *Long Call-IDs.* `docs/ARCHITECTURE.md:116` says two calls that share a 32-byte prefix
  collide. They do if and only if their Call-IDs have the same length
  (`TableShape.PrefixCollidesIff`).
- *Truncated names.* `docs/ARCHITECTURE.md:117` says long numbers are truncated in the
  file name. The code expands the file name from the 256-byte buffers; the 16-byte
  copies are the table's. `CallStory.FileNameIsUncutIff` says for which templates and
  names that shows, `Shortfalls.LongNameIsShownWhole` is a case.
- *Long file names.* `docs/ARCHITECTURE.md:118` says the 128-byte field limits the
  template. A longer name is opened in full (pcapsipdump.cpp:648-657), but the slot keeps
  its first 127 bytes, and these are deleted or announced (calltable.cpp:221-230).
  `FileNames.EndedNameIsOpenedIff` has the condition, `NameShortfalls.LongNameIsNotEnded`
  is a capture (`NameShortfalls.LongNameIsNotEndedExists`: there is one).
- *Clock.* `docs/ARCHITECTURE.md:100` says the sweep runs at most once per 15 s of
  capture time. Its 15 seconds are an unsigned difference (pcapsipdump.cpp:475), so a
  packet from before the last sweep causes another one at once
  (`SweepClock.StepBackSweepsAgain`). `SweepClock.SweepsAreApartIff` says for which
  captures the promise holds.
- *SDP types.* `docs/ARCHITECTURE.md:81-82` says the SDP body is parsed. A message
  whose content type has parameters, such as `application/sdp;charset=x`, is not
  searched for one (`SdpBodies.ParametersHideSdp`), while any beginning of the type is
  enough; `SdpBodies.SdpTypesAre` has the condition.

## Model

| member | source | states |
|---|---|---|
| Text.Search | pcapsipdump.cpp:837-848 | The least position of the needle, or -1 exactly when it stands nowhere |
| Text.Memmem | pcapsipdump.cpp:837-848 | The countdown loop finds the first occurrence |
| StrLib.GetTag | pcapsipdump_strlib.cpp:5-39 | The scanner terminates for any non-empty tag and returns the value of the least usable header, or NULL with length 0 |
| StrLib.TagValueExact | pcapsipdump_strlib.cpp:9-35 | NULL exactly when no line begins with the tag and is terminated; else the value follows the least such line start, without leading spaces, up to the first CR or LF |
| StrLib.UsableIs | pcapsipdump_strlib.cpp:19-28 | A usable header, byte by byte: the tag at the start of the buffer or behind a CR or LF, and a CR or LF behind it |
| StrLib.FirstUsableIsLeast | pcapsipdump_strlib.cpp:14-33 | No usable header lies before the one found |
| StrLib.UnterminatedEndsSearch | pcapsipdump_strlib.cpp:20-30 | Jumping past a match on an unterminated line loses no header |
| StrLib.SearchLosesNothing | pcapsipdump_strlib.cpp:14-18 | What the substring search skips holds no header |
| StrLib.SdpGetRtpmapEvent | pcapsipdump_strlib.cpp:41-60 | The scanner returns the payload type of the first rtpmap line if the event name follows at one of the three offsets, else 0 |
| StrLib.RtpmapRoundTrip | pcapsipdump_strlib.cpp:41-60 | A rendered telephone-event line, in any surrounding text in which it is the first rtpmap line, reads back as n for n up to 255 and as 0 for every larger n |
| StrLib.LongNumberUnmatched | pcapsipdump_strlib.cpp:50-52 | A number of four or more digits is never recognised |
| StrLib.AtolOfDecimal | pcapsipdump_strlib.cpp:53 | Reading a printed number gives the number, or the largest `long` when it is larger |
| StrLib.AtolOfSigned | pcapsipdump_strlib.cpp:53 | A sign before the number is heeded |
| HeaderList.HeaderRoundTrip | pcapsipdump_strlib.cpp:9-35 | Scanning rendered headers for a name gives the value of the first header of that name, and goes on behind them when there is none |
| HeaderList.MessageRoundTrip | tests/smoke/make_sip_pcap.py:58-65 | The same in a whole message with start line, empty line and body |
| HeaderList.AbsentFromMessageIff | pcapsipdump_strlib.cpp:36-37 | In a whole message the result is NULL exactly when neither the header list nor the body has a header of the name |
| HeaderList.OtherNameMisses | pcapsipdump_strlib.cpp:19-20 | Header names never match each other's lines |
| PeerName.GetSipPeername | pcapsipdump.cpp:745-766 | The caller's buffer holds the extracted name, or `empty`, NUL-terminated over its old content; the result is 0 exactly when a name was found |
| PeerName.UserBeforeAt | pcapsipdump.cpp:748-762 | For every display name, what is cut out of `disp<sip:user@host`; it is `user` if and only if the display name holds neither a scheme nor an `@`, or holds both with the same user between them |
| PeerName.UserBeforeBracket | pcapsipdump.cpp:753-756 | The same for `disp<sip:user>` in a value without any `@`, with the bracket as the end mark |
| PeerName.TelBeforeBracket | pcapsipdump.cpp:748-757 | In a value without `sip:` and `@`, the number of `disp<tel:number>` is the name |
| PeerName.PeerRoundTrip | pcapsipdump.cpp:745-766 | Through both scanners: the address `disp<sip:user@host` rendered in a message's first header of that name reads back as its user part |
| PeerName.BracketRoundTrip | pcapsipdump.cpp:745-766 | Through both scanners, for an address without `@` that a bracket ends |
| Sip.ReadName | pcapsipdump.cpp:611-621 | The 256-byte name buffer after the long header name and, only if that fails, the short one written over it |
| Sip.FindLongOrShort | pcapsipdump.cpp:622-623 | The long header name wins over the short one |
| SipBytes.IsSipIff | pcapsipdump.cpp:609-610 | A payload is SIP if and only if it begins `SIP/2.0 ` or with upper-case letters up to a space or the ninth byte |
| SipBytes.MethodNameIs | pcapsipdump.cpp:112-128 | The method is what these letters spell, and a status line has none |
| SipBytes.IsByeIff | pcapsipdump.cpp:673 | A BYE is a payload that begins `BYE ` and nothing else |
| SdpBodies.CallIdIs | pcapsipdump.cpp:622-623 | A rendered message's Call-ID is the value of its first `Call-ID` header, or else of its first `i` |
| CallStory.NamesAre | pcapsipdump.cpp:616-621 | A rendered message's caller stands under `From` or, if that gives none, `f`, its callee under `To` or `t`; else it is `empty` |
| SdpBodies.SdpBodyIs | pcapsipdump.cpp:678-687 | In a rendered message whose head has no NUL the body, with the empty line before it, is handed on exactly when the content type, under its long name or else its short one, may hold SDP |
| SdpBodies.SdpTypesAre | pcapsipdump.cpp:680-683 | Those types are, ignoring case, the beginnings of `application/sdp`, and what begins like, or is a beginning of, the multipart type |
| SdpBodies.EmptyLineEndsHeaders | pcapsipdump.cpp:681 | The first empty line found is the one that ends the headers |
| Template.ExpandFields | pcapsipdump_lib.cpp:45-87 | The in-place first pass leaves exactly the specified text, terminated, in a buffer of the template's length plus 256 |
| Template.PutField | pcapsipdump_lib.cpp:64-67 | Copying and then cleaning in place appends the sanitised field and keeps what was there |
| Template.Sanitised | pcapsipdump_lib.cpp:49-58 | A sanitised field has the same length and holds no `/`, no `%` and no NUL |
| Template.SanitisedIs | pcapsipdump_lib.cpp:49-58 | Character by character: letters, digits and the listed marks stay, any other 7-bit character becomes `_`, and a byte with its high bit set counts as its low seven bits |
| Template.PlainFieldStays | pcapsipdump_lib.cpp:64-67 | A field of characters that stay is expanded as itself |
| Template.PlainFieldsShow | pcapsipdump_lib.cpp:59-87 | Such fields stand in the rendering as they are, each where the template has its letter |
| Template.FieldShows | pcapsipdump_lib.cpp:62-80 | Behind literal text a field stands in its place, whatever follows |
| Template.LoneFieldFits | pcapsipdump_lib.cpp:46-63 | A field alone in the template is expanded if and only if it has at most 257 characters |
| Template.FitsInBuffer | pcapsipdump_lib.cpp:46-63 | Fields of at most 255 characters in all are all expanded, inside the buffer |
| Template.FieldsAddNothing | pcapsipdump_lib.cpp:59-87 | Expansion adds no directory separator, and leaves one percent sign fewer per field |
| Template.TwoPassesMeanOne | pcapsipdump_lib.cpp:59-89 | On a clean template the time pass over the expansion is the single left-to-right rendering with sanitised fields as literal text |
| Template.CleanTemplatesExactly | pcapsipdump_lib.cpp:59-89 | A template means the same in two passes as in one, for all short fields and all conversions, if and only if no `%%` is directly followed by f, t or i |
| Slots.FreeSlot | calltable.cpp:65-75 | The first unused slot, or the table's length when all are used |
| Slots.FindCall | calltable.cpp:116-124 | The first used slot with the same Call-ID length and first 32 bytes, or -1 exactly when there is none |
| Slots.FindMedia | calltable.cpp:187-202 | The lexicographically first eligible (slot, flow), or a miss exactly when none is eligible |
| CallTables.CallTable.constructor | calltable.cpp:50-56 | An empty table without time limit |
| CallTables.CallTable.Add | calltable.cpp:58-102 | The first unused slot, or a fresh one, holds the call; every other slot is unchanged |
| CallTables.CallTable.FindByCallId | calltable.cpp:104-126 | The scan finds the call's slot or -1 |
| CallTables.CallTable.AddIpPort | calltable.cpp:128-149 | A new pair becomes the next flow, a known pair or a fifth one changes nothing |
| CallTables.CallTable.FindIpPortSsrc | calltable.cpp:187-208 | The nested scan returns the first eligible flow and overwrites its SSRC only |
| CallTables.CallTable.CleanSlot | calltable.cpp:214-233 | An expired slot's file is closed, then the slot's copy of its name deleted, if T.38 is looked for and the call had none, or announced, and the slot zeroed; any other slot is left alone |
| CallTables.CallTable.DoCleanup | calltable.cpp:211-249 | The sweep zeroes exactly the expired slots and logs their endings in slot order |
| CallTables.CallTable.GetIpfrag | calltable.cpp:259-261 | Returns the recorded file or NULL, and inserts a null entry for an absent key |
| Captures.SipStartsOnce | pcapsipdump.cpp:634-669 | A SIP message starts at most one call, one that the table does not hold, before it does anything else |
| Captures.KeptByRun | pcapsipdump.cpp:456-729 | Whatever every action keeps holds after every run |
| Dispatchers.Dispatcher.TryMedia | pcapsipdump.cpp:580-608 | A packet to or from a tracked flow is attributed, and recorded when the call has a file and, in the mode for telephone events, its signed second byte is the announced payload type |
| Dispatchers.Dispatcher.SampleCall | pcapsipdump.cpp:641-659 | The counter decides whether a file is opened, and is reset when it is |
| Dispatchers.Dispatcher.ParseSdp | pcapsipdump.cpp:130-150 | What an SDP body changes, including the early return without an address |
| Dispatchers.Dispatcher.HandleCallMessage | pcapsipdump.cpp:671-709 | BYE, SDP, write and fragment record, in this order, are the plan's actions |
| Dispatchers.Dispatcher.HandleSip | pcapsipdump.cpp:609-709 | A SIP message does exactly what its plan says |
| Dispatchers.Dispatcher.HandleFollowOn | pcapsipdump.cpp:491-520 | A follow-on fragment is written where its key points; a last one clears the key |
| Dispatchers.Dispatcher.SweepIfDue | pcapsipdump.cpp:475-478 | The sweep happens when more than 15 seconds of unsigned time have passed |
| Dispatchers.Dispatcher.HandlePacket | pcapsipdump.cpp:456-729 | One packet is exactly one step of the state machine |
| Dispatchers.Dispatcher.Capture | pcapsipdump.cpp:456-731 | The loop over a capture and its final sweep is the state machine's run |
| TableShape.ShapeKept | calltable.cpp:58-249 | Every action keeps unused slots zero, flow counts bounded, flows distinct and call keys unique |
| TableShape.ScanFindsLiveSlots | calltable.cpp:187-202 | The media scan, which does not look at `is_used`, returns used slots only, and the first eligible one |
| TableShape.PrefixCollidesIff | calltable.cpp:118-120 | Two Call-IDs with the same first 32 bytes are one call if and only if they have the same length |
| TableShape.AddIsInsert | calltable.cpp:58-102 | Adding an absent call inserts its key into the map of calls and disturbs no other entry |
| TableShape.SweepIsFilter | calltable.cpp:211-249 | The sweep removes exactly the expired calls from the map |
| TableShape.ActionOnCalls | pcapsipdump.cpp:456-729 | No action but a new call and the sweep changes the map of calls |
| Ownership.FilesKept | calltable.cpp:211-249 | Every action keeps each file's history: opened once, closed once it has lost its owner, each closing deleted or announced but not both |
| Ownership.SweepCloses | calltable.cpp:217-231 | The sweep closes a file, and ends it one way, once per expiring slot that owns it, and opens nothing |
| FileSplit.CountsKept | pcapsipdump.cpp:585-594 | Every action keeps the packet counters equal to the media written to the file |
| CaptureFiles.DispatchWritesOnce | pcapsipdump.cpp:491-726 | One packet causes at most one writing action |
| CaptureFiles.FilesSelectTheCapture | pcapsipdump.cpp:491-726 | Every file is an in-order subsequence of the capture |
| CaptureFiles.WrittenAtMostOnce | pcapsipdump.cpp:491-726 | Over any capture every packet is written at most once, so files share no packet |
| WholeRuns.CallsAreAMap | calltable.cpp:104-126 | After any capture no two used slots share a key, and a lookup is the map's lookup or -1 |
| WholeRuns.ReuseLeavesNoTrace | calltable.cpp:72-88 | After any capture unused slots are all zero, a call in a recycled slot is in the state of one in a fresh slot, and the media scan hits used slots only |
| WholeRuns.FlowsAreFirstFour | calltable.cpp:128-149 | After any capture a call tracks exactly the first four distinct pairs offered to it since it was added, in order |
| FlowTracking.FirstDistinctMeaning | calltable.cpp:133-141 | That list has no duplicates, no pair that was not offered, at most four, and below four nothing is missing |
| FlowTracking.FirstDistinctGrows | calltable.cpp:142-147 | A pair once taken keeps its place |
| WholeRuns.TableIsHighWaterMark | docs/ARCHITECTURE.md:107-108 | After any capture the table's length is the largest number of calls ever tracked at once |
| WholeRuns.SlotsOwnOpenFiles | pcapsipdump.cpp:641-694 | After any capture a slot with a file is used, its file is open, and no other slot has it; every media and SIP write went to a file open at that point |
| FragmentFiles.FragmentFileOpenIff | pcapsipdump.cpp:495-497 | When a follow-on fragment is about to be written, its file is open if and only if a slot holds it and the sweep before the fragment does not end that call |
| FragmentFiles.OnlyOpenFilesAreWrittenIff | pcapsipdump.cpp:491-520 | Over any capture every write, fragments included, goes to an open file if and only if the target of every follow-on fragment is held when it arrives |
| Shortfalls.FragmentToClosedFile | calltable.cpp:220-232 | A recorded request in fragments, more than 300 s of silence and its last fragment: the file is closed, and the fragment is written to it |
| WholeRuns.FileIsClosedOnce | calltable.cpp:217-232 | After any capture a file was opened at most once, closed exactly once if it has no owner any more, and then ended one way, by a deletion or an announcement, not both |
| Endings.FilesEndAsTold | calltable.cpp:211-231 | Over any capture and its final sweep, a file that ends is that of a call which a sweep expires then; it is deleted if and only if T.38 is looked for and no message of that call since it was added told of it, and announced otherwise |
| FileNames.EndedNameIsOpenedIff | pcapsipdump.cpp:648-658 | Over any capture and its final sweep, the name that is deleted or announced for a file is the one it was opened with if and only if that has at most 127 characters, and else its first 127 |
| NameShortfalls.LongNameIsNotEnded | calltable.cpp:221-230 | A recorded call with a longer name: one name was opened, another one is deleted or announced |
| WholeRuns.FinalSweepLeaves | pcapsipdump.cpp:731 | After the final sweep a file is still open exactly when a call that is recent at the largest 32-bit time holds it |
| WholeRuns.FinalSweepClosesAll | pcapsipdump.cpp:731 | When all times are below INT32_MAX - 300 the final sweep leaves every file closed, ended once, and the table zero |
| WholeRuns.InterruptChangesIff | pcapsipdump.cpp:61-73 | The sweep at time 0 of the signal handlers changes nothing if and only if no call's last packet lies more than 300 s, and no call's first one more than the limit, before time 0 |
| WholeRuns.InterruptClosesNothing | pcapsipdump.cpp:61-73 | So it changes nothing after any capture of ordinary times |
| WholeRuns.CountersAreExact | pcapsipdump.cpp:585-608 | After any capture a slot's counter is the number of media packets written to its file |
| WholeRuns.AttemptsPerMatches | pcapsipdump.cpp:641-649 | Over any capture k matching new calls cause ceil(k / N) open attempts |
| WholeRuns.EveryNthCallIsRecorded | pcapsipdump.cpp:641-657 | The k-th matching new call gets an open attempt exactly when N divides k; no other packet causes one |
| WholeRuns.FragmentsFollowTheirFirst | pcapsipdump.cpp:491-520 | A follow-on fragment is written to the file recorded by the most recent first fragment of its key with no last fragment since, and nowhere otherwise |
| WholeRuns.OnlyFragmentsFollow | pcapsipdump.cpp:491-726 | No other packet is written through the fragment map |
| FragmentRouting.OrderedMapFinds | calltable.cpp:36-41 | Under the lexicographic key order a sorted map finds exactly the keys it holds, each at its own place |
| FragmentRouting.RoutesKept | calltable.cpp:251-261 | Despite null entries inserted by lookups, the map keeps answering like the history |
| WholeRuns.SsrcSticks | calltable.cpp:187-202 | Over any capture: once a packet has been attributed to a flow, the SSRC last attributed to that flow keeps finding it, before and after a BYE, until the call expires or a lower slot registers the same pair |
| SsrcSticky.SsrcMattersIff | calltable.cpp:191 | A tracked flow takes every SSRC if and only if its call has not ended |
| WholeRuns.EndedCallIsFrozen | pcapsipdump.cpp:673-677 | After a BYE the pairs and SSRCs of a call's registered flows never change until it expires |
| SsrcSticky.NoForeignSsrc | calltable.cpp:191 | An ended call is attributed no SSRC but the one it has |
| SsrcSticky.LookupResolves | calltable.cpp:191-198 | The flow a lookup finds is found again by the SSRC just attributed; on an ended call the table does not change |
| WholeRuns.NoCallIsOverdue | pcapsipdump.cpp:475-478 | With a non-decreasing clock, after each packet's sweep check no used slot is more than 315 s past its last recorded media or creation, nor more than the limit plus 15 s past creation |
| WholeRuns.ClocksTellTheHistory | pcapsipdump.cpp:585-608 | A slot's two times are those of its last recorded media packet, or creation, and of its creation; SIP messages refresh neither |
| Messages.SlotsAreTold | pcapsipdump.cpp:130-150 | After any capture a used slot has ended, has had T.38, and looks for the telephone events of the number (101 at first), exactly as the messages of its call have told since it was added |
| Messages.EndedIffBye | pcapsipdump.cpp:673-686 | It has ended if and only if one of these messages was a BYE, and has had T.38 if and only if T.38 is looked for and the parsed body of one of them names `udptl t38` |
| Messages.OtherPacketsGoBy | pcapsipdump.cpp:609-726 | A UDP packet that is neither media nor, by its bytes, SIP changes nothing |
| CallMessages.MessageIsHandled | pcapsipdump.cpp:671-709 | At any point of any capture a message of a tracked call is written to the call's file, notes what it tells, tracks the announced pair as far as there is room, and leaves the call's record and all other calls alone |
| CallMessages.RenderedIsHandled | pcapsipdump.cpp:609-709 | So is every rendered response or request with the Call-ID of a tracked call, with the pair that its body announces |
| EndedCalls.ByeEndsCall | pcapsipdump.cpp:673-677 | A BYE ends its call, at any point of any capture |
| EndedCalls.ByeShutsOutForeignMedia | calltable.cpp:191 | From a BYE on, until the call expires, a packet is attributed to one of the flows it had then only with that flow's SSRC |
| WholeRuns.StepExpiresIff | calltable.cpp:213-216 | A packet's step expires a slot exactly when the sweep is due and the slot overdue |
| SteadyCalls.SteadyCallSurvives | calltable.cpp:213-216 | At any point of any capture, a call whose recorded media is from then on at most 300 s apart, up to the last packet, and whose age stays within the limit, is expired by no sweep, as long as times do not decrease |
| SweepClock.SweepsAfterIff | pcapsipdump.cpp:475-478 | After a sweep the next one comes with the first packet more than 15 s later or from before it |
| SweepClock.SweepsAreApartIff | docs/ARCHITECTURE.md:100 | The sweep runs at most once per 15 s of capture time if and only if no packet is from before the last sweep |
| SweepClock.SteadyClockSweepsApart | docs/ARCHITECTURE.md:100 | With a non-decreasing clock any two sweeps are more than 15 s apart |
| SweepClock.StepBackSweepsAgain | pcapsipdump.cpp:475-478 | Two packets one second apart, the later one first, both cause a sweep |
| CallCreation.StepAddsIff | pcapsipdump.cpp:609-640 | In every state a packet adds a call if and only if, after its sweep, it is not media, is SIP, has a Call-ID that is not tracked, and an admitted number |
| CallCreation.MethodDecidesFileOnly | pcapsipdump.cpp:641-657 | A packet whose method does not match adds its call all the same and causes no open attempt; an open attempt takes an added call and a matching method |
| Shortfalls.UnmatchedMethodAddsCall | docs/ARCHITECTURE.md:80-81 | A capture in which such a packet adds a call |
| CallStory.RequestRead | pcapsipdump.cpp:611-627 | What the loop reads out of a well-rendered request (names, Call-ID) is what was rendered into it |
| CallStory.NameIsRendering | pcapsipdump.cpp:650-652 | The dump file's name is the template's one-pass rendering with the request's users and Call-ID |
| CallStory.MessageStory | pcapsipdump.cpp:671-707 | A message of a call is written to the call's file and leaves its record alone; a call without flows then tracks the announced pair and no other; a first fragment's key points to the call's file |
| CallStory.FileNameIsUncutIff | docs/ARCHITECTURE.md:117 | The file name differs from the one rendered with the 16-byte names of the table exactly when the template shows a name longer than that |
| CallStory.RequestStartsCall | pcapsipdump.cpp:609-707 | At any point of any capture an admitted new request takes the first unused slot, which then holds its key, caller, callee, times and cut file name, and as its only flow the pair that its body, as rendered, announces; if its turn has come and the file opens, that fresh file is opened under the rendered name and the request is written to it; a request not admitted leaves no trace |
| CallStory.TrackedMediaIsRecorded | pcapsipdump.cpp:580-594 | At any point of any capture, the whole state after a packet whose destination, with the port's lowest bit cleared when RTCP is saved, is a pair tracked by a live call and claimed by no lower slot: it is attributed to that flow and, if the call has a file and media is saved (in the mode for telephone events: if its second byte is below 128 and is the call's number), counted, written, and the idle clock set |
| CallStory.TrackedSourceIsRecorded | pcapsipdump.cpp:595-608 | The same for a packet from such a pair whose destination finds nothing |
| CallStory.SsrcRoundTrip | pcapsipdump.cpp:791-797 | The SSRC is the big-endian number in bytes 8 to 11 or, with RTCP saved and both ports odd, in bytes 4 to 7 |
| CallStory.PlainNamesShow | pcapsipdump.cpp:650-652 | Users and a Call-ID of characters that stay stand in the file name as they are |
| OddPorts.TrackedPairIsMatchedIff | pcapsipdump.cpp:570-584 | The lookup for a packet sent to a pair that only one live flow claims finds that flow if and only if the port is even or RTCP is not saved, and nothing otherwise |
| OddPorts.SentToTrackedPairIff | pcapsipdump.cpp:570-608 | The same at any point of any capture, for what the packet is attributed to |
| OddPorts.NoOddAttribution | pcapsipdump.cpp:574-597 | In the mode that saves RTCP no packet of any capture is attributed to a flow with an odd port |
| OddPorts.OddFlowsRecordNothing | pcapsipdump.cpp:585-608 | In that mode, after any capture, a call all of whose flows have odd ports has recorded no media, and its idle clock stands at its creation |
| OddPorts.OddCallExpires | calltable.cpp:213-216 | So the first sweep more than 300 s after its creation ends it |
| MediaShortfalls.OddPairIsLost | pcapsipdump.cpp:130-136 | A recorded call that announced an odd port: the pair is tracked, and a packet sent to it is not attributed to it |
| MediaSteps.StepMediaEvents | pcapsipdump.cpp:580-608 | In every state a packet's media events come from one media action, by its destination or source, or there are none |
| MediaSteps.SaveNoneSavesNothing | pcapsipdump.cpp:570-578 | When no media is to be saved, no packet of any capture is attributed, recorded or written as media |
| MarkerBit.PickedOutIff | pcapsipdump.cpp:585-587 | In the mode for telephone events a packet of the announced payload type is recorded if and only if its marker bit is clear |
| MarkerBit.MarkedIsNotRecorded | pcapsipdump.cpp:585-608 | In that mode no packet with its marker bit set is recorded, in any capture |
| NameShortfalls.SchemeInDisplayName | pcapsipdump.cpp:748-762 | A display name that begins with a quotation mark and a scheme, without `@`: what is cut out begins there |
| CachedTables.CachedCallTable.Add | calltable.cpp:58-102 | The cached build's add also indexes the whole Call-ID |
| CachedTables.CachedCallTable.FindByCallId | calltable.cpp:108-114 | Looks only at the index |
| CachedTables.CachedCallTable.AddIpPort | calltable.cpp:128-149 | Indexes a newly tracked pair with SSRC 0 |
| CachedTables.CachedCallTable.FindIpPortSsrc | calltable.cpp:161-208 | Answers from the index, negative entries included, or scans and caches the result |
| CachedTables.CachedCallTable.DoCleanup | calltable.cpp:211-249 | Zeroing first, it erases no flow and at most the empty Call-ID from the indexes |
| CacheAgreement.LookupAgrees | calltable.cpp:161-207 | On a coherent cache a lookup gives the scan's slot, flow and SSRC table |
| CacheAgreement.LookupKeepsAgreementIff | calltable.cpp:168-173 | After a lookup on a coherent cache the next lookup, whatever it asks, is answered like the scan's if and only if the first brought no new SSRC to a tracked flow of an ended call |
| CacheAgreement.OfferKeepsAgreementIff | calltable.cpp:142-147 | After registering a flow the next lookup, whatever it asks, is answered like the scan's if and only if no lower slot shadows the pair |
| CacheAgreement.SweepKeepsAgreementIff | calltable.cpp:232-240 | After a sweep the next lookup, whatever it asks, is answered like the scan's if and only if no call the sweep ended tracked a flow |
| CacheAgreement.AddKeepsIdsIff | calltable.cpp:89-94 | Adding an absent call keeps the Call-ID index in agreement if and only if its Call-ID has at most 32 bytes |
| CacheAgreement.SweepKeepsIdsIff | calltable.cpp:241-244 | A sweep keeps the Call-ID index in agreement if and only if every call it ends has the empty Call-ID |
| CacheAgreement.CachedRunAgrees | calltable.cpp:108-207 | Over any interleaving of adds, registrations, BYEs and lookups that is clean at every step, every cached answer is the scan's, and the tables, SSRCs included, end up the same |
| CacheShortfalls.NewSsrcAfterByeLosesFlow | calltable.cpp:168-173 | From the empty table: a call, its media, its BYE and a packet of another SSRC, after which the call's own SSRC is missed by the cache and found by the scan |
| CacheShortfalls.SweepLeavesEntries | calltable.cpp:232-244 | From the empty table: after a call has expired the cache still finds its flow, in a dead slot, and its Call-ID; the scan finds neither |
| CacheShortfalls.LongIdsDiffer | calltable.cpp:89-94 | From the empty table: for every call with a Call-ID longer than 32 bytes there is another Call-ID that the scan takes for it and the cache does not know |

## Left out

- libpcap, command-line parsing, forking, process launching and directory creation: effects outside the program's logic. Opening, writing, closing, deleting and announcing a file are events of the log; opening succeeds or fails as the packet says.
- The regular-expression filters, `strftime` and the SDP address parser (`inet_addr`, `atoi`): given functions, about which nothing is assumed. `strftime` is one text per one-letter conversion; its output limit of 1024 bytes and its failure are not modelled.
- Decoding of link, IP and fragment headers and the folding of IPv6 addresses to 32 bits: a packet starts decoded, with 32-bit addresses. TCP is not modelled.
- Flushing, `pcap_next_ex` timeouts, verbose printing, `parse_size_string` and the packaging: not logic.
- The open trigger: one runs whenever a call is added; it is not an event of its own, since it does not depend on a file.
- `global_last_packet_time`: it is written and never read.
- Handles: a file handle is never reused. An allocator may hand out a closed file's address again, and what a write to a closed file does is not modelled.
- Word sizes: times, packet counters and lengths do not overflow, except that the sweep's time difference is unsigned and the telephone-event number is cut to 8 bits.
- Dispatchers.Dispatcher.HandlePacket: assumes what the loop's fixed buffers assume, of a SIP packet that is not media: names shorter than 256 bytes (of the short header only if the long one fails) and, if a file is to be opened, an expanded template inside its work buffer. A Call-ID longer than 511 bytes, which the loop copies into a buffer of 512, is treated like any other. What the reads at fixed offsets see behind a payload shorter than 12 bytes is part of the packet.
- StrLib.AtolOfDecimal: a number beyond the type `long` reads as the nearest one, which the C standard leaves open.
- Template.ExpandFields: assumes that the expansion fits its buffer, which `Template.FitsInBuffer` guarantees for fields of at most 255 characters.
- PeerName.GetSipPeername: assumes that the name fits the caller's buffer.
- StrLib.SdpGetRtpmapEvent: comparing at an offset behind the terminating NUL counts as no match.
- CachedTables.CachedCallTable.FindIpPortSsrc: cached pointers are slot indices, so what becomes of them when the vector moves is not modelled.
- CacheAgreement.CachedRunAgrees: its runs have no sweeps; `CacheAgreement.SweepKeepsAgreementIff` says which sweeps could be added.
