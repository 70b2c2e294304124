# Verification of the Find My add-on

This Dafny project models the parts of the Find My add-on whose correctness is a
matter of protocol, state and byte layout, and proves what they promise.

| files | models |
|---|---|
| `uarp*.dfy` | the firmware transfer: windowed pull of a SuperBinary, asset state with hash and writer, transmit buffers |
| `settings_*.dfy`, `sector_*.dfy`, `nvs_*.dfy`, `zms_*.dfy`, `crc8.dfy`, `hex_image.dfy`, `ordered_dict.dfy` | the settings image tool: writer and reader of the NVS and ZMS formats |
| `keys*.dfy`, `separated_key.dfy` | the rolling-key service, its restore and the separated key |
| `packets.dfy`, `indication*.dfy` | packet fragmentation and the indication queue |
| `motion*.dfy` | unwanted-tracking motion detection |
| `network_selector.dfy` | the network selector and its crash-safe factory reset |
| `der.dfy`, `kdf.dfy` | DER signature decoding and the ANSI X9.63 key derivation |
| `bytes.dfy`, `wrappers.dfy` | bytes, fixed-width numbers, Option and Result |

Each component has a definition of its steps as functions, theorems about every
run of them, and a class or a loop method that updates its fields in place and is
proved equal to the steps. Calls whose outcome the code cannot control (sending,
allocation, flash, the writer) answer through parameters. Cryptographic functions
are parameters.

## Hypotheses of the run theorems

* Transfer (`UarpEvents.Fair`): a response carries the image's bytes at its offset,
  is not empty and not longer than the request message it answers, which is all that a
  controller has to see to; and if it answers a message of another pull it is not at
  the awaited offset. The second half is a condition on the accessory's state, because
  the code compares offset and whole request only
  (src/uarp/UARPDK/CoreUARPPlatformAccessory.c:1571-1577).
  `UarpLayout.LateResponsesAreHarmless` replaces it by one on the images: their parts do
  not overlap, and none begins where a part ends that is pulled later and may be the last
  one pulled. Images whose parts lie in the order of the pulls meet it
  (`UarpLayout.PullOrderIsLaidOut`), and so do images with all payload headers together
  if each payload is wanted and has metadata that fits the window
  (`UarpLayout.HeadersTogetherIsLaidOut`). `UarpLayout.LayoutIsNeeded` and
  `UarpLayout.LateResponseOverruns` say what happens otherwise.
* A link is lost only while the asset can be resumed, that is not between the selection
  of a payload and its header, and not after corrupt payload metadata;
  `UarpResume.ResumesRightIff` gives the exact states.
* Equal offers are offers of the same image, and the application accepts payloads by
  their headers alone (the two functions in `Uarp.Config`).
* Transmit buffers (`UarpTx.Bounded`): messages are not empty and not longer than the
  longest transmit message.
* Indications (`Indications.AllFit`): indications are not empty and fit the packet buffer.
* Keys (`KeysTheorems.EvalIndexLandsExactly`): the period is longer than the lower bound
  of accepted evaluation indices, and no request and no reboot comes in between.
* Motion (`Motion.Fair`): the separated state is entered only while detection is off.
* ZMS: the exact condition of the round trip is that of `ZmsExact.ReadsBackIff`;
  `ZmsSettings.NoFakeEntries`, that no block of the data area passes for an entry, is one
  that suffices.

## Findings

* A FAILED asset can be marked STAGED without being removed: `payload_ready`
  (src/uarp/fmna_uarp.c:643) does not check the state. `UarpExamples.FailsAndIsStaged`
  is a run from initialization, `UarpTheorems.FailedThenStaged` the general chain,
  `FailedToStaged` the exact event, `FailedUntilRemoved` the condition under which it
  cannot happen. What was counted is verified even then.
* A late response can be copied beyond the scratch buffer, for example between two pulls:
  `UarpExamples.RepeatedHeaderOverruns` is a run, `UarpLayout.LateResponseOverruns` the
  exact condition.
* The ZMS reader walks the data area, because the update of the data pointer at
  tools/ncsfmntools/scripts/settings/zms_utils.py:411 never reaches its caller;
  `ZmsFakeEntry.FakeEntryChangesSettings` is a dictionary that is read back changed, and
  `ZmsExact.ReadsBackIff` says for which dictionaries that happens.
* An asset orphaned while its payload header is outstanding resumes in the region of
  the payload before it (`UarpTheorems.OrphanedHeaderPull`; a run from initialization is
  `UarpExamples.LosesHeaderPull`).

* An error of the stack in the middle of an indication leaves its buffer busy for good
  (src/fmna_gatt_fmns.c:892): `IndicationProgress.GetsStuckIff` and `StuckForGood`.

## Model

| member | source | states |
|---|---|---|
| UarpTheorems.ReassembledExactly | src/uarp/UARPDK/CoreUARPPlatformAccessory.c:947-1003 | In every state of a fair run, with pauses, stale and duplicate responses, lost links and merges, the bytes passed to the payload callback are the payload up to `lengthPayloadRecvd`, and completion is signalled once, exactly at full length; of the payloads before it, one entry each in order, every wanted one was delivered whole and completed once, and of the others nothing was delivered |
| UarpCompletes.GoodImageIsStaged | src/uarp/fmna_uarp.c:544-923 | The update succeeds: for every good image (headers in range, readable metadata, right hashes) there is a run from initialization, an offer and then nothing but full truthful answers, that ends STAGED with exactly the wanted payloads written and counted, in their order; without any wanted payload it ends FAILED |
| UarpCompletes.AnswersComplete | src/uarp/UARPDK/CoreUARPPlatformAccessory.c:1545-1655 | The same from every state of a fair run in which a chunk of a good image is awaited: full answers bring the transfer to its end |
| UarpCompletes.AnswerLeadsOn | src/uarp/UARPDK/CoreUARPPlatformAccessory.c:1545-1655 | Each full answer leads to a later chunk, window or part, or to the end |
| UarpPlan.ResponseFollowsPlan | src/uarp/UARPDK/CoreUARPPlatformAccessory.c:1545-1655 | What every honest response leads to, in every active state and for every outcome of sending, notification and writer: the next chunk, or what a plan says of the image alone (next window or part, removal, failure, staging, application, or silence after corrupt metadata), with what is counted and whether the writer is busy; a response that is not taken changes nothing |
| UarpPlan.RequestRefused | src/uarp/UARPDK/CoreUARPPlatformAccessory.c:1661-1745 | A request is refused while another is outstanding or if its window is too long, changing nothing; one outside of its region leaves no pull in progress |
| UarpTheorems.RequestsFitTheLink | src/uarp/UARPDK/CoreUARPPlatformAccessory.c:1391-1451 | Every message of a fair run lies in one window and asks for at most `maxRxPayloadLength` and 0xFFFF bytes; it ends its window or asks for exactly that many |
| UarpExamples.ImageIsGood | src/uarp/UARPDK/CoreUARPPlatformAccessory.c:1193-1387 | For every hash function with digests of 32 bytes: a concrete good image with a wanted payload |
| UarpTheorems.ResponsesFitTheBuffer | src/uarp/UARPDK/CoreUARPPlatformAccessory.c:1571-1591 | In a fair run a truthful response to the pull in progress never leaves the scratch buffer when it is taken, although the code compares its length with the whole request; payload bytes are awaited only while the writer runs |
| UarpLayout.LateResponsesAreHarmless | src/uarp/UARPDK/CoreUARPPlatformAccessory.c:1545-1655 | If the parts of each offered SuperBinary do not overlap and none begins where a part ends that is pulled later and may be the last one, truthful responses are enough: every such run, late and repeated responses included, is fair, and no response ever leaves the scratch buffer |
| UarpLayout.LateResponseOverruns | src/uarp/UARPDK/CoreUARPPlatformAccessory.c:1571-1591 | In every state, which truthful responses the code takes and which of them leave the scratch buffer, both exactly: at the place awaited, which between two pulls is the end of the last one; no longer than the request; and not fitting behind the bytes received, which never happens to a response of the pull in progress |
| UarpLayout.PullOrderIsLaidOut | src/uarp/UARPDK/CoreUARPPlatformAccessory.c:1545-1655 | The layout condition holds for parts that lie in the order of the pulls |
| UarpLayout.HeadersTogetherIsLaidOut | src/uarp/UARPDK/CoreUARPPlatformAccessory.c:1545-1655 | It also holds for the ordinary order, all payload headers before all metadata and payloads, if no header may be the last part pulled |
| UarpLayout.LayoutIsNeeded | src/uarp/UARPDK/CoreUARPPlatformAccessory.c:1571-1591 | Where the condition fails: the first byte of a part that begins where the last pull ended, sent again, is taken and breaks the invariant |
| UarpOrder.NeverOverrun | src/uarp/UARPDK/CoreUARPPlatformAccessory.c:1583-1591 | In no fair run a response is copied beyond the scratch buffer |
| UarpOrder.RunKeepsOrdered | src/uarp/UARPDK/CoreUARPPlatformAccessory.c:1661-1745 | In every fair run the request messages ask for parts of the image in the order of the pulls, and after a pull the accessory awaits what follows its part |
| UarpExamples.RepeatedHeaderOverruns | src/uarp/UARPDK/CoreUARPPlatformAccessory.c:1571-1591 | For every hash function with digests of 32 bytes: a concrete run of truthful responses, from initialization, in which the repeated response to a payload header is copied beyond the scratch buffer of a STAGED asset |
| UarpTheorems.ResponseMakesProgress | src/uarp/UARPDK/CoreUARPPlatformAccessory.c:1582-1655 | Each accepted response lowers (payload bytes left, bytes remaining) lexicographically; a full window delivers exactly its bytes; the response that completes the payload leaves nothing of it and reports it complete, staying or going on to the next one, for which the completed payload is noted |
| UarpTheorems.ResumesAtRecvd | src/uarp/UARPDK/CoreUARPPlatformAccessory.c:827-857 | After a lost link and an equal offer the interrupted window is requested again from `lengthPayloadRecvd`; nothing is delivered or hashed twice |
| UarpOffers.NewOfferStarts | src/uarp/fmna_uarp.c:379-403 | From every connected state without an asset, or with an orphan of another SuperBinary: an acceptable offer makes the new asset ACTIVE, with nothing held, delivered or counted, and asks for its header from offset 0; it is released if that cannot be sent, and pending while transfers are not allowed |
| UarpOffers.OfferIgnored | src/uarp/fmna_uarp.c:321-423 | In every other state, and for an offer that is not acceptable, nothing changes |
| UarpOffers.EqualOfferAsksAgain | src/uarp/UARPDK/CoreUARPPlatformAccessory.c:419-506 | An equal offer to an orphan in any pull asks for the interrupted window again and keeps all that was delivered and counted; if that cannot be sent, the asset is released, or fails in a pull of metadata |
| UarpOffers.EqualOfferGoesOn | src/uarp/UARPDK/CoreUARPPlatformAccessory.c:419-506 | An equal offer to an orphan between two pulls asks for what follows what it holds |
| UarpOffers.LostLink | src/uarp/fmna_uarp.c:482-508 | A lost link by state: ACTIVE becomes ORPHANED as it is, STAGED and FAILED are removed, APPLIED stays |
| UarpOffers.ResumedAsksFor | src/uarp/UARPDK/CoreUARPPlatformAccessory.c:1825-1855 | A resumed transfer asks for exactly the chunk that is due, and a pause changes nothing else |
| UarpOffers.RescindAndApply | src/uarp/fmna_uarp.c:459-475 | A rescinded asset is removed; only a staged one is applied |
| UarpTheorems.OrphanedHeaderPull | src/uarp/UARPDK/CoreUARPPlatformAccessory.c:480-503 | Why the hypothesis on orphaning is needed: an asset orphaned while its payload header is outstanding goes on to pull payload bytes from the region of the header before it |
| UarpResume.ResumesRightIff | src/uarp/UARPDK/CoreUARPPlatformAccessory.c:466-506 | From every state in which a link can be lost: an equal offer resumes the asset right, or releases it, if and only if it is not between two payloads, its held header names no bytes, the request cannot be sent, or only corrupt metadata came before and the writer holds nothing |
| UarpResume.LostAnywhere | src/uarp/fmna_uarp.c:482-508 | Whatever an active asset of a fair run does when its link is lost, the state is one that ResumesRightIff speaks of |
| UarpExamples.LosesHeaderPull | src/uarp/UARPDK/CoreUARPPlatformAccessory.c:480-503 | For every hash function with digests of 32 bytes: a concrete run from initialization that loses the link in a header pull, meets the hypotheses of OrphanedHeaderPull, and goes wrong |
| UarpTheorems.StagedMeansVerified | src/uarp/fmna_uarp.c:863-923 | In every fair run STAGED or APPLIED implies at least one counted payload; of each exactly its bytes in the image were written and have the hash its metadata names; none is counted twice |
| UarpTheorems.FailedToStaged | src/uarp/fmna_uarp.c:643-733 | The exact event by which a FAILED asset is marked STAGED all the same: `payload_ready` does not look at the state (both directions, every state and event) |
| UarpTheorems.FailedThenStaged | src/uarp/fmna_uarp.c:601-619 | How it comes to that: a payload counted, the next header request not sent, a pause and a resume, an unwanted last header |
| UarpExamples.FailsAndIsStaged | src/uarp/fmna_uarp.c:643-733 | For every hash function with digests of 32 bytes: a concrete fair run from initialization in which an asset fails and is staged afterwards without having been removed |
| UarpTheorems.CountedThenFailed | src/uarp/fmna_uarp.c:904-922 | A counted payload whose successor's header cannot be requested leaves a FAILED asset with that pull pending |
| UarpTheorems.FailedUntilRemoved | src/uarp/fmna_uarp.c:510-542 | A FAILED asset that awaits no payload header, or has nothing counted, stays FAILED through any fair run until it is removed |
| UarpEvents.RunKeepsInv | src/uarp/UARPDK/CoreUARPPlatformAccessory.c:1007-1053 | The invariant of header, window, request, scratch buffer, log, hash and writer holds in every fair run |
| UarpEvents.StepKeepsInv | src/uarp/UARPDK/CoreUARPPlatformAccessory.c:1825-1855 | Every event, fair to the hypotheses, keeps that invariant: connections, offers, responses, pause, resume, rescind, apply |
| UarpEvents.TakeOnMergedRight | src/uarp/UARPDK/CoreUARPPlatformAccessory.c:466-506 | A merged asset goes on with the pull it was left with, and stays right |
| UarpResponses.ResponseFits | src/uarp/UARPDK/CoreUARPPlatformAccessory.c:1571-1578 | A response to the pull in progress answers exactly the awaited place and fits what is missing of the window |
| UarpResponses.OtherPullMisses | src/uarp/UARPDK/CoreUARPPlatformAccessory.c:1571-1578 | For a SuperBinary whose parts do not overlap, a late response to another pull is never at the awaited offset while a pull is in progress |
| UarpResponses.DataResponseRight | src/uarp/UARPDK/CoreUARPPlatformAccessory.c:1545-1655 | A response of any honest length keeps the invariant |
| UarpResponses.PullCompleteRight | src/uarp/UARPDK/CoreUARPPlatformAccessory.c:1859-1898 | Each completed pull holds the bytes of its image region and keeps the invariant |
| UarpResponses.MetadataParsed | src/uarp/UARPDK/CoreUARPPlatformAccessory.c:1066-1111 | The hash read from the pulled TLVs is the one the image's metadata names |
| UarpSteps.WindowCompleteRight | src/uarp/UARPDK/CoreUARPPlatformAccessory.c:986-1000 | After a full window the payload is complete or the next window is requested, right in both cases |
| UarpSteps.PayloadDataCompleteRight | src/uarp/fmna_uarp.c:863-923 | Counting a payload keeps the tally of verified payloads |
| UarpInvariant.RequestDataRight | src/uarp/UARPDK/CoreUARPPlatformAccessory.c:1661-1745 | A request that passes the checks starts a pull of the right window; one that fails leaves none in progress |
| UarpImage.SliceAppend | src/uarp/UARPDK/CoreUARPPlatformAccessory.c:1586-1589 | Consecutive responses concatenate to the region of the image, offsets wrapping at 2^32 |
| UarpFormat.SbHeaderRoundTrip | src/uarp/UARPDK/CoreUARPProtocolDefines.h:392-402 | The header of a SuperBinary, laid out in network byte order, is read back |
| UarpFormat.PayloadHeaderRoundTrip | src/uarp/UARPDK/CoreUARPProtocolDefines.h:405-414 | So is the header of a payload |
| UarpFormat.PaddedMetadataRead | src/uarp/UARPDK/CoreUARPPlatformAccessory.c:1066-1111 | Metadata is read as the TLVs it was made of, up to fewer bytes than a TLV header has |
| UarpFormat.CutOffIsCorrupt | src/uarp/UARPDK/CoreUARPPlatformAccessory.c:1094-1098 | A TLV that is cut off makes the metadata corrupt |
| UarpFormat.LastHashCounts | src/uarp/fmna_uarp.c:753-762 | The expected hash is the last hash TLV of 32 bytes |
| UarpFormat.LastFlagsCount | src/uarp/fmna_uarp.c:764-771 | The apply flags are the last such TLV of one byte |
| UarpAccessory.UarpDevice.constructor | src/uarp/fmna_uarp.c:1134-1188 | The initialized accessory has no asset and satisfies the invariant |
| UarpAccessory.UarpDevice.RequestDataContinue | src/uarp/UARPDK/CoreUARPPlatformAccessory.c:1391-1451 | Chunk of at most `maxRxPayloadLength` and 0xFFFF bytes, no request while paused: the state is that of the step function |
| UarpAccessory.UarpDevice.AssetRequestData | src/uarp/UARPDK/CoreUARPPlatformAccessory.c:1661-1745 | Region checks in their order, then the first chunk |
| UarpAccessory.UarpDevice.RequestPayload | src/uarp/UARPDK/CoreUARPPlatformAccessory.c:709-745 | The next window is `min(left, payloadWindowLength)` bytes at `lengthPayloadRecvd`, by the step function that ReassembledExactly is about |
| UarpAccessory.UarpDevice.SelectPayload | src/uarp/UARPDK/CoreUARPPlatformAccessory.c:596-636 | Selecting a payload drops its header and requests the next one |
| UarpAccessory.UarpDevice.Fail | src/uarp/fmna_uarp.c:510-542 | Failure by state: ACTIVE and STAGED fail, ORPHANED is removed, every other state stays |
| UarpAccessory.UarpDevice.RemoveAsset | src/uarp/fmna_uarp.c:431-457 | No asset and no busy writer afterwards, nothing else changed |
| UarpAccessory.UarpDevice.OnAssetReady | src/uarp/fmna_uarp.c:544-561 | Requests the metadata or, without it, selects the first payload; a failed request fails the asset |
| UarpAccessory.UarpDevice.OnAssetMetadataComplete | src/uarp/fmna_uarp.c:569-585 | The count of payloads starts at zero before the first one is selected |
| UarpAccessory.UarpDevice.OnPayloadReady | src/uarp/fmna_uarp.c:643-733 | A wanted payload resets hash and flags and goes on; an unwanted one is skipped, and the last one stages or fails the asset |
| UarpAccessory.UarpDevice.OnPayloadMetadataComplete | src/uarp/fmna_uarp.c:779-816 | The writer is finished if busy, then started |
| UarpAccessory.UarpDevice.OnPayloadTlv | src/uarp/fmna_uarp.c:735-777 | Hash and apply flags; wrong lengths fail the asset |
| UarpAccessory.UarpDevice.OnPayloadData | src/uarp/fmna_uarp.c:818-841 | The hash is fed and the bytes are written |
| UarpAccessory.UarpDevice.OnPayloadDataComplete | src/uarp/fmna_uarp.c:863-923 | Only an ACTIVE asset whose hash agrees and whose writer finishes is counted; then fast reset, next payload or staged |
| UarpAccessory.UarpDevice.MarkFullyStaged | src/uarp/fmna_uarp.c:621-641 | STAGED, or FAILED if the notification cannot be sent |
| UarpAccessory.UarpDevice.UpdateMetadata | src/uarp/UARPDK/CoreUARPPlatformAccessory.c:1066-1111 | The TLV loop equals reading the parsed TLVs in order, up to a corrupt one |
| UarpAccessory.UarpDevice.OnSbHeader | src/uarp/UARPDK/CoreUARPPlatformAccessory.c:1193-1289 | Header checks; a corrupt asset is removed |
| UarpAccessory.UarpDevice.OnPayloadHeader | src/uarp/UARPDK/CoreUARPPlatformAccessory.c:1293-1387 | Payload header checks; a corrupt asset is removed |
| UarpAccessory.UarpDevice.OnWindow | src/uarp/UARPDK/CoreUARPPlatformAccessory.c:947-1003 | Delivers the window, advances `lengthPayloadRecvd`, and completes or requests more, as WindowCompleteRight needs it |
| UarpAccessory.UarpDevice.CopyResponse | src/uarp/UARPDK/CoreUARPPlatformAccessory.c:1583-1587 | The bytes land behind those received, in place |
| UarpAccessory.UarpDevice.OnResponse | src/uarp/UARPDK/CoreUARPPlatformAccessory.c:1545-1655 | The response handler equals the step function, every guard of it met |
| UarpAccessory.UarpDevice.AcceptAsset | src/uarp/UARPDK/CoreUARPPlatformAccessory.c:419-506 | The decision by flags where a new or merged asset goes on |
| UarpAccessory.UarpDevice.OnOffer | src/uarp/fmna_uarp.c:321-423 | Accept, merge with an equal orphan, replace another orphan, or deny, by state; a new asset gets a scratch buffer of its own |
| UarpAccessory.UarpDevice.Disconnected | src/uarp/fmna_uarp.c:482-508 | ACTIVE is orphaned, STAGED and FAILED are removed; keeps the invariant |
| UarpAccessory.UarpDevice.ResponseReceived | src/uarp/UARPDK/CoreUARPAccessory.c:661-721 | A response event keeps the invariant and is the step of the model |
| UarpAccessory.UarpDevice.ResumeReceived | src/uarp/UARPDK/CoreUARPPlatformAccessory.c:1825-1855 | A resume repeats the pending request |
| UarpAccessory.UarpDevice.OfferReceived | src/uarp/fmna_uarp.c:321-423 | An offer event is the step of the model |
| UarpTx.BuffersConserved | src/uarp/fmna_uarp.c:109-125 | In every run each transmit buffer is freed exactly once or is one of at most two held; the service sends the first slot; none is held without a link |
| UarpTx.LinkOrder | src/uarp/UARPDK/CoreUARPAccessory.c:1200-1228 | Messages reach the link in the order of their numbers, one after the other; a message sent to its end is rebuilt exactly, of any other at most a beginning |
| UarpTx.ConsecutiveIds | src/uarp/UARPDK/CoreUARPAccessory.c:1216-1219 | The k-th message has number 1 + k modulo 2^16 |
| UarpTx.RunKeepsInv | src/uarp/fmna_uarp_service.c:186-217 | Sends, acknowledgements, errors and disconnects keep slots, numbering, order and delivery |
| UarpTxProgress.TakenIff | src/uarp/fmna_uarp.c:181-236 | In every run a message is taken exactly if there is a controller, a buffer and a free slot, behind those held; one that finds no slot has its buffer freed and takes no number |
| UarpTxProgress.AckEndsIff | src/uarp/fmna_uarp_service.c:186-217 | An acknowledgement ends the current message exactly at its end, on an error, on a closing link or a refused chunk, and the next one moves up; otherwise the next chunk goes out |
| UarpTxProgress.OthersIgnored | src/uarp/fmna_uarp_service.c:175-194 | Events of other connections change nothing |
| UarpTxProgress.LinkDown | src/uarp/fmna_uarp.c:109-125 | A lost link frees the held buffers in order and leaves nothing held |
| UarpTxProgress.LinkUp | src/uarp/fmna_uarp.c:94-107 | A new controller starts with message number 1 and free slots; a second one changes nothing |
| UarpTxProgress.ServiceBusy | src/uarp/fmna_uarp_service.c:147-158 | The service refuses a message exactly while one is held |
| UarpTxProgress.GoodLinkDelivers | src/uarp/fmna_uarp_service.c:186-217 | Over a good link every accepted message is sent whole and rebuilt exactly, or held in its turn |
| UarpTx.TxPath.TransmitBuffer | src/uarp/UARPDK/CoreUARPAccessory.c:1200-1228 | A message is stamped with the current number, which advances only if a slot takes it; otherwise its buffer is freed |
| UarpTx.TxPath.AccessorySend | src/uarp/fmna_uarp.c:212-236 | First slot and sending, second slot, or refused |
| UarpTx.TxPath.UarpSendMessage | src/uarp/fmna_uarp_service.c:147-158 | Refused while a buffer is being sent |
| UarpTx.TxPath.SendMessageComplete | src/uarp/fmna_uarp.c:238-260 | The slots shift, the buffer is freed, the next one starts |
| UarpTx.TxPath.HandleIndicationAck | src/uarp/fmna_uarp_service.c:186-217 | Sends the next chunk, or completes the message at its end, on an error, or on a closing link |
| UarpTx.TxPath.HandleDisconnect | src/uarp/fmna_uarp_service.c:175-184 | Frees the buffers of both slots and stops sending, for the active connection only |
| NvsSettings.NvsRoundTrip | tools/ncsfmntools/scripts/settings/core.py:243-264 | Reading the image of any dictionary that fits one sector, with any number of erased sectors behind it, returns the dictionary |
| NvsWriter.SettingsNvs.Write | tools/ncsfmntools/scripts/settings/core.py:65-97 | Succeeds exactly for settings that fit; then reading the image gives them back, whatever number of erased sectors follows |
| NvsWriter.SettingsNvs.WriteSingleDataRecord | tools/ncsfmntools/scripts/settings/nvs_utils.py:143-150 | Adds one record exactly if it fits; else it is left as an entry without data, as an entry with data, or not at all, by the test that failed |
| NvsWriter.HoldsExtends | tools/ncsfmntools/scripts/settings/nvs_utils.py:120-150 | A new record damages no older one, and nothing else is written |
| NvsSettings.WrittenSectorParsed | tools/ncsfmntools/scripts/settings/nvs_utils.py:163-224 | A written sector is OPEN with its records, the last write winning; an empty one is erased |
| NvsSettings.ParseSectorLoop | tools/ncsfmntools/scripts/settings/nvs_utils.py:163-224 | The parser loop computes the sector of the definition |
| NvsSettings.ParseAtesLoop | tools/ncsfmntools/scripts/settings/nvs_utils.py:163-224 | The walk over the entries computes the one of the definition, giving the sector up where the source does |
| NvsSettings.ReadPartition | tools/ncsfmntools/scripts/settings/core.py:243-264 | Reading a partition computes what the definition says |
| NvsAte.AteRoundTrip | tools/ncsfmntools/scripts/settings/nvs_utils.py:51-80 | A written entry is read back with its fields and is valid exactly if its data offset is inside the sector |
| NvsAte.CorruptAteRejected | tools/ncsfmntools/scripts/settings/nvs_utils.py:69-80 | No single-byte corruption of the protected bytes or the CRC leaves the entry valid |
| NvsAte.AteLayout | tools/ncsfmntools/scripts/settings/nvs_utils.py:51-67 | The bytes of an entry: ID, offset and length with the low byte first, an erased byte, the CRC of these seven, erased padding |
| NvsDamage.DamagedSectorParsed | tools/ncsfmntools/scripts/settings/nvs_utils.py:181-213 | A written sector in which one entry was replaced: one that is not valid costs its record only; one that contradicts the data before it or the entries makes the reader give the sector up; one that looks erased hides the records behind it |
| NvsDamage.SingleByteSkipped | tools/ncsfmntools/scripts/settings/nvs_utils.py:69-80 | Every change of a single byte of an entry is one that costs its record only |
| NvsDamage.DamagedEntryLost | tools/ncsfmntools/scripts/settings/core.py:207-264 | For a dictionary: a setting whose entry is not valid any more is not read, and all others are |
| SectorStatuses.NvsStatus | tools/ncsfmntools/scripts/settings/nvs_utils.py:154-224 | The status and records of every sector, told by the bytes of its last entry |
| NvsAte.SerializeAte | tools/ncsfmntools/scripts/settings/nvs_utils.py:60-67 | The serializer with its CRC loop computes the entry of the definition |
| ZmsSettings.ZmsRoundTrip | tools/ncsfmntools/scripts/settings/zms_utils.py:422-482 | The round trip for small and big records in their order, if no block of the data area passes for an entry |
| ZmsExact.ReadsBackIff | tools/ncsfmntools/scripts/settings/zms_utils.py:402-482 | For every dictionary that fits: it is read back if and only if no block of the data area makes the reader give up and the dictionary's settings are the winners among its records and those that the data area adds |
| ZmsExact.ReadsBackUndisturbed | tools/ncsfmntools/scripts/settings/zms_utils.py:402-482 | Undisturbed ids read back in order; and if the data area gives no name to another id, the dictionary is read back exactly if no id's name and value are disturbed |
| ZmsExact.ReadsAll | tools/ncsfmntools/scripts/settings/zms_utils.py:422-482 | For every written image: the settings of its records followed by those that the data area adds, or nothing if a block makes the reader give up |
| ZmsExact.EmptyReadsNothing | tools/ncsfmntools/scripts/settings/zms_utils.py:422-482 | The image of the empty dictionary reads as no settings at all |
| ZmsSettings.ZmsReadExactly | tools/ncsfmntools/scripts/settings/zms_utils.py:402-482 | What reading returns for every image, imitated entries included |
| ZmsDamage.DamageSkippedIff | tools/ncsfmntools/scripts/settings/zms_utils.py:330-336 | If the bytes of a big record are replaced by others of the same length, the reader skips it exactly if the stored checksum is not 0 and not that of the new bytes; else it takes them |
| ZmsDamage.DamagedRecordDropped | tools/ncsfmntools/scripts/settings/zms_utils.py:402-420 | Reading such an image gives the settings of all other records |
| ZmsDamage.DamagedSettingLost | tools/ncsfmntools/scripts/settings/core.py:207-241 | For a dictionary: a long name or value that was damaged is never read as good, and all other settings are read |
| SettingsDamage.KvLogAt | tools/ncsfmntools/scripts/settings/core.py:65-97 | The order of the records that are written: for each setting value, name and largest name id |
| SettingsDamage.OthersLeft | tools/ncsfmntools/scripts/settings/core.py:207-241 | Records without the value or name of one setting stand for exactly the other settings |
| ZmsFakeEntry.FakeEntryChangesSettings | tools/ncsfmntools/scripts/settings/zms_utils.py:402-420 | The exception is real: a value that contains an entry is read back under another name, since the data pointer is never advanced |
| ZmsSettings.WrittenSectorParsed | tools/ncsfmntools/scripts/settings/zms_utils.py:422-482 | A written sector is parsed to the walk over its entries and data area |
| ZmsSettings.ParseSectorLoop | tools/ncsfmntools/scripts/settings/zms_utils.py:422-482 | The parser computes the sector of the definition, raising where the source raises |
| ZmsSettings.ParseAtesLoop | tools/ncsfmntools/scripts/settings/zms_utils.py:456-476 | The walk over the entries computes the one of the definition |
| ZmsSettings.ReadPartition | tools/ncsfmntools/scripts/settings/core.py:243-264 | Reading a partition computes what the definition says |
| ZmsWriter.SettingsZms.Write | tools/ncsfmntools/scripts/settings/core.py:65-97 | Succeeds exactly for settings that fit; then the image holds their records and nothing else |
| ZmsWriter.SettingsZms.WriteSingleDataRecord | tools/ncsfmntools/scripts/settings/zms_utils.py:324-363 | Adds a small or a big record exactly if it fits; else what the failed test left of it is stated |
| ZmsAte.ZmsAteRoundTrip | tools/ncsfmntools/scripts/settings/zms_utils.py:184-228 | A serialized entry of any kind of content is read back |
| ZmsAte.CorruptZmsAteRejected | tools/ncsfmntools/scripts/settings/zms_utils.py:198-208 | No single-byte corruption of an entry leaves it valid |
| ZmsAte.ZmsAteLayout | tools/ncsfmntools/scripts/settings/zms_utils.py:98-112 | The bytes of an entry: CRC, cycle count, length, ID and content, low bytes first |
| ZmsAte.SpecialLayout | tools/ncsfmntools/scripts/settings/zms_utils.py:239-275 | The empty entry and a close entry, byte by byte |
| SectorStatuses.ZmsStatus | tools/ncsfmntools/scripts/settings/zms_utils.py:422-482 | The status and records of every sector, told by the fields of its two last entries; and where the reader raises |
| ZmsAte.SerializeAteZms | tools/ncsfmntools/scripts/settings/zms_utils.py:184-196 | The serializer with its CRC loop computes the entry of the definition |
| Crc8.Crc8CcittFromBytes | tools/ncsfmntools/scripts/settings/nvs_utils.py:40-49 | The nibble-table loop equals the bit-by-bit CRC of polynomial 0x07 for every buffer |
| Crc8.SingleByteErrorDetected | tools/ncsfmntools/scripts/settings/nvs_utils.py:40-49 | Two buffers that differ in one byte have different CRCs |
| SettingsTheorems.OrderSectorsIsRotation | tools/ncsfmntools/scripts/settings/core.py:188-205 | For a ring with one OPEN sector after a CLOSED one the order is a rotation that ends in the OPEN sector |
| SettingsTheorems.WrappedLogReadsChronologically | tools/ncsfmntools/scripts/settings/core.py:207-241 | The settings of a wrapped log are those of its records in chronological order, the last write winning |
| SettingsReading.ReadMeans | tools/ncsfmntools/scripts/settings/core.py:207-241 | The meaning of reading, for every log: a name has a value exactly if, of the ids that the log leaves this name, the one introduced last has the value |
| SettingsReading.ReadBackIff | tools/ncsfmntools/scripts/settings/core.py:207-241 | Whatever records are added behind those of a dictionary: it is read back exactly if its settings are the winners |
| SettingsReading.UndisturbedIff | tools/ncsfmntools/scripts/settings/core.py:207-241 | If no added record gives a name of the dictionary to another id: it is read back exactly if every id keeps its name and value, or has none as before |
| SettingsReading.UndisturbedReads | tools/ncsfmntools/scripts/settings/core.py:207-241 | Then it is read back in its order |
| SettingsReading.MovedPairIsReadBack | tools/ncsfmntools/scripts/settings/core.py:207-241 | That condition is needed: a pair that moves to another id is read back although its own id is disturbed |
| NvsRing.RingReadsChronologically | tools/ncsfmntools/scripts/settings/core.py:188-241 | Down to the bytes of the partition: whatever sector of the ring is open, the settings are those of all records from the oldest sector to the open one, as ReadMeans says |
| NvsRing.ClosedSectorParsed | tools/ncsfmntools/scripts/settings/nvs_utils.py:163-224 | A sector with a close entry is CLOSED with its records, the last write winning |
| SettingsTheorems.SettingsSurvive | tools/ncsfmntools/scripts/settings/core.py:207-241 | Consolidating the records written for a dictionary and mapping names to values gives the dictionary |
| SettingsTheorems.ReadableIsAll | tools/ncsfmntools/scripts/settings/core.py:207-241 | Nothing of a dictionary is lost if its names and values are not empty |
| SettingsCore.GetSectorsAdditionalMetadata | tools/ncsfmntools/scripts/settings/core.py:137-149 | The count and the first of the sectors with records |
| SettingsCore.FindNewestSectorId | tools/ncsfmntools/scripts/settings/core.py:151-166 | The OPEN sector behind the last change from CLOSED to OPEN in the ring; without one, the last sector |
| SettingsCore.OrderSectorsInPlace | tools/ncsfmntools/scripts/settings/core.py:188-205 | The ordering steps compute the order of the definition |
| SettingsCore.ParseSettingsLoop | tools/ncsfmntools/scripts/settings/core.py:207-241 | The two dictionary loops compute the settings of the definition |
| OrderedDict.LastWriteWins | tools/ncsfmntools/scripts/settings/core.py:207-227 | Filling a dictionary from a log leaves the last value of every key |
| OrderedDict.ConsolidateFirst | tools/ncsfmntools/scripts/settings/core.py:207-227 | Consolidating a sector's log before copying it is as good as copying the log, order included |
| HexImage.AlignData | tools/ncsfmntools/scripts/settings/nvs_utils.py:120-122 | Padding up to the write block size |
| KeysTheorems.RestoreRefinesRunning | src/fmna_keys.c:543-671 | After any run of rotations, requests and reboots, restoring from storage gives the keys, counters, public keys and LTK of the running service, for all periods |
| KeysTheorems.RunKeepsRunning | src/fmna_keys.c:301-368 | In every run the keys are those of the index, and checkpoint plus difference is the index |
| KeysTheorems.SecondaryKeySynced | src/fmna_keys.c:163-177 | The secondary index is primary / P + 1 after every roll, so the assertion never fires |
| KeysTheorems.OnlyRotationsMatter | src/fmna_keys.c:543-671 | Reboots and requests leave no trace in the keys |
| KeysTheorems.UnchangedSeparatedKey | src/fmna_keys.c:385-403 | A rotation that reports an unchanged separated key changes it only at a multiple of P with a non-zero delta, to the next secondary key |
| KeysTheorems.EvalIndexLandsExactly | src/fmna_keys.c:888-942 | After an accepted request the switch to the secondary key falls on the requested index, or one period later if it has passed; a latched key stays until then |
| KeysTheorems.EvalTargetAhead | src/fmna_keys.c:888-902 | That rotation is 1 to P ahead |
| SeparatedKeys.SeparatedKeyOfRun | src/fmna_keys.c:385-403 | The separated key of every run, on the key chains: the primary key of the index at which the latch was taken; without a latch the secondary key of the period once it is in use, and the present primary key until then |
| SeparatedKeys.ChangeReportedIff | src/fmna_keys.c:324-339 | In every run a rotation reports the separated key unchanged exactly if it is the secondary one, not latched, and the rotation does not end the period |
| SeparatedKeys.RunFollows | src/fmna_keys.c:888-942 | Latch, use of the secondary key and end of the period follow a plan without keys, in which requests are accepted exactly from four indices back to one period ahead |
| Keys.KeyService.constructor | src/fmna_keys.c:405-417 | After a reset RAM is cleared and storage is as it was |
| Keys.KeyService.KeyRotationWorkHandle | src/fmna_keys.c:301-368 | The rotation handler is the rotation of the model, and so is its flag |
| Keys.KeyService.RotatingKeyStorageUpdate | src/fmna_keys.c:206-247 | Stores both keys and the index, and a zero difference |
| Keys.KeyService.SeparatedKeyGet | src/fmna_keys.c:385-403 | The separated key: the latched one, else the secondary or the primary one |
| Keys.KeyService.SeparatedStateConfigure | src/fmna_keys.c:913-942 | A request outside the accepted range changes nothing; else the latch and the delta are those EvalIndexLandsExactly is about |
| Keys.KeyService.Start | src/fmna_keys.c:439-508 | The start establishes the state from which RunKeepsRunning holds |
| Keys.KeyService.RollFromCheckpoint | src/fmna_keys.c:600-620 | The restore loop makes the rolls since the checkpoint again |
| Keys.KeyService.PairedStateRestore | src/fmna_keys.c:543-671 | From reset RAM the restore yields the state that RestoreRefinesRunning compares with the running one |
| Packets.ChunksReassemble | src/fmna_gatt_pkt_manager.c:39-98 | Feeding the chunks of a packet to the receiver gives the packet, whole and once, whatever the usable length of each chunk, from 2 on |
| Packets.OnlyLastIsFinal | src/fmna_gatt_pkt_manager.c:74-98 | Every chunk fits, and only the last one signals completion |
| Packets.StreamReassembles | src/fmna_gatt_pkt_manager.c:39-98 | A stream of packets is rebuilt packet by packet |
| Packets.ChunkCount | src/fmna_gatt_pkt_manager.c:74-98 | With a constant usable length m there are ceil(L / (m - 1)) chunks |
| Packets.ProgressIffTwo | src/fmna_gatt_pkt_manager.c:74-98 | A chunk makes progress exactly if the usable length is at least 2 |
| Packets.NextChunkReceived | src/fmna_gatt_pkt_manager.c:74-98 | Each chunk moves bytes from the unsent rest to the receiver, none lost or doubled |
| Packets.CollectedIff | src/fmna_gatt_pkt_manager.c:39-72 | A chunk is collected exactly if it has one of the two headers and its bytes fit; it completes the packet exactly with the final one |
| Packets.ChunkFitsTheLink | src/fmna_gatt_pkt_manager.c:74-98 | A chunk fits the MTU beside the three bytes of the attribute protocol's header |
| Packets.RecoversAfterInvalid | src/uarp/fmna_uarp_service.c:219-258 | After an invalid chunk the next packet is received whole |
| Packets.NetBuf.ChunkPrepare | src/fmna_gatt_pkt_manager.c:74-98 | The chunk is cut in place over one byte already sent; no unsent byte changes |
| Packets.NetBuf.ChunkCollect | src/fmna_gatt_pkt_manager.c:39-72 | Appends the bytes behind the header and signals completion; an empty chunk, an unknown header or a full buffer changes nothing |
| Indications.NoInterleaving | src/fmna_gatt_fmns.c:844-965 | In every run an idle buffer means an empty FIFO, chunks of different indications do not interleave, and accepted ones go out in submission order, each rebuilt exactly or cut off |
| Indications.GoodLinkDelivers | src/fmna_gatt_fmns.c:873-897 | Only its own link can cut an indication off: what was accepted for a good link goes out whole |
| IndicationProgress.TakenIff | src/fmna_gatt_fmns.c:899-965 | In every run a fitting indication is accepted exactly if there is memory while the buffer is busy, or its link can send while it is idle; then it is the last one accepted and waiting, or its first chunk goes on the air; a refused one leaves no trace, and the result says which |
| IndicationProgress.GoodLinkServed | src/fmna_gatt_fmns.c:844-965 | For a good link with memory, the indications that are over and whole, current and waiting are exactly those submitted for it, in order |
| IndicationProgress.AckEndsIff | src/fmna_gatt_fmns.c:873-897 | An acknowledgement ends the indication exactly if all of it is out or its link closes; the buffer then goes to the first waiting indication that its link takes, and those before it are dropped |
| IndicationProgress.GetsStuckIff | src/fmna_gatt_fmns.c:887-895 | The queue gets stuck exactly when the stack refuses a chunk behind the first one |
| IndicationProgress.StuckForGood | src/fmna_gatt_fmns.c:887-895 | A stuck queue takes indications but never sends again |
| Indications.RunKeepsInv | src/fmna_gatt_fmns.c:844-965 | Every run keeps: accepted = finished, current, waiting; the chunks on the air are those of one after the other |
| Indications.IndicationSender.CpIndicate | src/fmna_gatt_fmns.c:899-965 | An idle buffer sends at once, a busy one queues; a refused indication leaves no trace |
| Indications.IndicationSender.CpIndCb | src/fmna_gatt_fmns.c:873-897 | Sends the next chunk of the current indication, or releases the buffer and processes the queue |
| Indications.IndicationSender.CpIndQueueProcess | src/fmna_gatt_fmns.c:844-871 | The loop drops what its link refuses and stops at the first indication that is sent |
| Motion.UnwantedTrackingSafe | src/fmna_motion_detection.c:57-177 | In every fair run start and stop strictly alternate, at most ten sounds lie between, none outside, and poll and duration timers run only while detection is on |
| Motion.NeverStalls | src/fmna_motion_detection.c:120-154 | Detection that is on has a poll due, or gets one when its sound completes |
| Motion.StartedTwiceIff | src/fmna_motion_detection.c:234-239 | The hypothesis is exact: entering the separated state makes the next timeout start detection twice if and only if it is on |
| MotionProgress.EventsAnswered | src/fmna_motion_detection.c:57-177 | In every fair run: motion asks for a sound, the tenth one and the end of active polling also stop detection, an owner that connects stops it if it is on, a delay that is over starts it; nothing else is asked for |
| MotionProgress.ArmedIff | src/fmna_motion_detection.c:209-239 | Detection is on, or will be after a delay, exactly while the tag is separated |
| MotionProgress.TimersAfter | src/fmna_motion_detection.c:57-177 | Which timers each event leaves running, and at which rate is polled |
| MotionProgress.TenSounds | src/fmna_motion_detection.c:120-154 | A tag that moves all the time sounds ten times; then detection pauses and will begin again |
| Motion.SwitchesAlternate | src/fmna_motion_detection.c:62-118 | A log of well-formed phases alternates |
| Motion.MotionDetection.MotionPollHandle | src/fmna_motion_detection.c:120-154 | Motion stops the poll timer and requests a sound; the tenth one backs off and stops detection |
| Motion.MotionDetection.MotionPollTimeoutHandle | src/fmna_motion_detection.c:164-177 | The period is one of the two rates; the assertion cannot fail |
| Motion.MotionDetection.SoundCompletedHandle | src/fmna_motion_detection.c:283-298 | A requested sound resumes polling at the fast rate and, the first time, starts the duration timer |
| Motion.MotionDetection.ConnectedOwnerHandle | src/fmna_motion_detection.c:209-224 | Resets timers, flags and count, and calls stop only if detection was on |
| Motion.MotionDetection.MotionEnableTimeoutHandle | src/fmna_motion_detection.c:62-83 | Calls start once and polls at the slow rate |
| Motion.MotionDetection.MotionPollDurationTimeoutHandle | src/fmna_motion_detection.c:156-162 | Backs off and calls stop |
| Motion.MotionDetection.StateReset | src/fmna_motion_detection.c:85-94 | Stops every timer and clears flags and count, keeping the poll period |
| NetworkSelector.CrashSafe | samples/switchable_networks/src/network_selector/network_selector.c:169-198 | With a crash between any two steps: a record in progress is replaced only after a factory reset of its network that completed since; it never carries the unselected id |
| NetworkSelector.StaysInProgress | samples/switchable_networks/src/network_selector/network_selector.c:169-198 | Once recorded, the stored selection stays n through any events until a complete factory reset of n |
| NetworkSelector.BootCompletesReset | samples/switchable_networks/src/network_selector/network_selector.c:256-294 | A boot in which nothing fails completes the interrupted reset |
| NetworkSelector.CallOutcome | samples/switchable_networks/src/network_selector/network_selector.c:200-222 | A call in any run, told by the stored selection: the requested network is stored if none was; unselecting leads through a factory reset of the stored one to none; everything else changes nothing |
| NetworkSelector.BootOutcome | samples/switchable_networks/src/network_selector/network_selector.c:256-294 | A boot in any run: the stored selection is taken over, a reset in progress taken up, the first boot stores none; errors stop the program and change nothing |
| NetworkSelector.ResetCutShort | samples/switchable_networks/src/network_selector/network_selector.c:169-198 | A step that fails ends the reset, with exactly what was stored before it |
| NetworkSelector.Selector.FactoryResetRun | samples/switchable_networks/src/network_selector/network_selector.c:169-198 | Record, reset, clear, reboot, in this order; an error in one leaves the rest undone and keeps the invariant |
| NetworkSelector.Selector.AppNetworkSelectorSet | samples/switchable_networks/src/network_selector/network_selector.c:200-222 | Selects only from unselected, unselects only through a factory reset, rejects the rest |
| NetworkSelector.Selector.AppNetworkSelectorInit | samples/switchable_networks/src/network_selector/network_selector.c:256-294 | A missing record becomes unselected, a reset in progress is retried, a load error stops |
| NetworkSelector.Selector.NetworkSelectorSet | samples/switchable_networks/src/network_selector/network_selector.c:115-134 | The RAM copy follows a successful write |
| Der.SignatureRoundTrip | src/crypto/fm_crypto_oberon.c:804-839 | Decoding the DER encoding of two unsigned numbers of one width, trailing padding allowed, returns the two halves |
| Der.SignatureDecoded | src/crypto/fm_crypto_oberon.c:804-839 | Every accepted input holds two INTEGERs in a row, and each half has the value of its one read as unsigned |
| Der.UintDecoded | src/crypto/fm_crypto_oberon.c:773-802 | An INTEGER is accepted exactly if its value fits the width; the result has that value in that width |
| Der.SignatureAcceptedIff | src/crypto/fm_crypto_oberon.c:804-839 | An input is accepted exactly if it is a SEQUENCE with a one-byte length and two INTEGERs follow that fit half of an even result |
| Der.FitsIffSmall | src/crypto/fm_crypto_oberon.c:790-795 | Stripping zeros fits the width exactly if the number does |
| Der.Asn1UintDecode | src/crypto/fm_crypto_oberon.c:773-802 | The pointer loop computes the definition and writes its field only |
| Der.Asn1ToOcryptoP256 | src/crypto/fm_crypto_oberon.c:804-839 | Writes both halves in place; on an error the second half is untouched |
| Kdf.AnsiX963Kdf | src/crypto/crypto_helper.c:102-176 | The output is the beginning of the hash blocks in counter order |
| Kdf.BeginningOfBlocks | src/crypto/crypto_helper.c:102-176 | Of any sufficiently long row of blocks: the output is determined by its length |
| Kdf.ShorterIsPrefix | src/crypto/crypto_helper.c:102-176 | Shorter outputs are prefixes of longer ones |
| Kdf.ByteOfBlock | src/crypto/crypto_helper.c:121-160 | Byte i comes from block i / 32 + 1 |
| Kdf.OutputByte | src/crypto/crypto_helper.c:121-160 | Byte i of every output is byte i mod 32 of the hash of key, the number i / 32 + 1 in four big-endian bytes, and shared information |
| Kdf.CounterIsBigEndian | src/crypto/crypto_helper.c:121-140 | The counter bytes are its value modulo 2^32, most significant first |

## Left out

- Bluetooth, GATT tables, advertising, NFC, flash, MCUboot, logging, command line: foreign code or user interface; only their answers appear.
- SHA-256, CRC32, the elliptic-curve functions and random numbers are parameters; nothing is proved of them.
- UARP: message headers, version discovery, information requests and receive message numbers; the acknowledgements of notifications, offers and rescissions are taken as sent.
- UARP: last error codes, the list of assets beside the accessory's own one, dynamic assets, cookies, and the pause and resume by the accessory, which nothing in the repository calls.
- UARP: the choice of the writer by payload tag, and the assertion in `payload_ready` that no writer is busy, which an abandoned orphan or a failed merge can violate.
- UARP: a rejected corrupt asset stays in the source's list until the link is lost; the model drops it at once.
- UarpTx.TxPath.HandleIndicationAck: the bytes left of a message are a value here; that chunks are cut in place is proved of `Packets.NetBuf`.
- UarpTheorems.ResumesAtRecvd: stated for a link that lets the first request through; otherwise the asset is released, as in the source.
- NvsSettings.NvsRoundTrip: names are byte strings, since UTF-8 coding is not modelled; empty names and values are dropped by the reader and the statement says so.
- ZmsSettings.ZmsRoundTrip: one direction, under a hypothesis that suffices; `ZmsExact.ReadsBackIff` is the exact statement.
- ZmsExact.ReadsBackIff: compares as dictionaries, without their order; `ReadsBackUndisturbed` keeps the order where it says so.
- NvsRing.RingReadsChronologically: its sectors hold their records without gaps, as the tool writes them; a wrapped ZMS partition is not taken down to bytes.
- UARP: the memory behind the scratch buffer; that a response was copied beyond it is noted, and what it overwrites there is not modelled.
- Settings: the sector size is the one of the tool's devices, 0x1000; the write block size may be any positive number.
- Keys: errors of the crypto and storage calls in the handlers, power loss inside the four writes of a checkpoint, indices beyond 2^32, timers.
- KeysTheorems.EvalIndexLandsExactly: absent new requests and reboots between the request and its rotation.
- Motion: the configurable time spans; a disabled stack ends the session without a stop callback, as in the source.
- NetworkSelector: launching a network, and descriptors of networks that are not registered.
- Der: the length byte of the SEQUENCE is checked for its range only, as in the source, so inputs with a wrong one are accepted.
