# Rooster Wake: verified models

Dafny models of the parts of the Rooster Wake firmware and reference relay where the behaviour is
hardest to see from the code, with proofs of what they promise. `dafny verify dfyconfig.toml`
checks everything.

Each component is written twice. Specification functions on values say what one step of the code
does; classes and methods with fields, buffers and loops do it in place, the way the source does,
and are proved to do exactly that step. The theorems are about the functions, mostly about whole
runs of them, so they hold of the methods.

| files | component |
|---|---|
| `Crc32`, `Flash` | the checksum; a flash part whose supply may fail at any step |
| `OtaState`, `OtaRecord`, `OtaWriter`, `OtaTransfer`, `OtaDevice`, `OtaSystem`, `OtaOffers` | A/B firmware update: state record, streaming writer, loader and application on one part, and what an image offered to the wrong slot does to it |
| `ConfigRecord`, `ConfigStore`, `FlashMap` | the configuration in two sectors; what updates and configuration leave of each other |
| `WsFrame`, `WsReceive`, `WsStream`, `WsClient` | the WebSocket receive path against sections 5.2 to 5.5 of RFC 6455 |
| `PlugDriver`, `RelaySession` | the plug driver and the relay session that commands it |
| `RelayServer`, `RelayRegistry` | the reference relay's wake limiter and connection registry |
| `Utf8`, `Mdns`, `Json`, `JsonMilli`, `JsonTokens`, `ScanJson`, `CmdLine` | encoders, decoders and bounded writers |
| `WifiScan`, `Stuck` | the streaming scan table; the stuck detector on a wrapping clock |

## What the theorems take for granted

- Flash (`Flash`): every erase or program is one step. When the supply fails it does so before a
  step, which then never happens, or in the middle of one, which leaves arbitrary bytes in the
  region addressed. A sector torn in the middle of a step is taken not to decode as a record
  (`TornUnreadable`); the theorems that need this name it.
- Signatures, digests and images (`OtaSystem`): SHA-256 and the signature check are arbitrary
  functions. A header the check accepts is taken to stand for a release, so that whatever has its
  length and digest is that release (`Promised`); release images carry a vector table the loader
  accepts in the slot they are linked for (`Sane`). The signed header does not say which slot that
  is. Whether the relay always offers an image to its own slot is a parameter (`Env.matched`), and
  the theorems are stated for both kinds of relay.
- Callbacks and transport of the WebSocket client, answers of the plug and of the network, arrival
  of frames and closes: inputs, unconstrained, and different at every step.

## Where the code does less than it says

Each of these is a lemma with the failing input or the exact condition.

- The update record is not crash-atomic in general: copy A is always erased first
  (`OtaRecord.SaveIsAtomicExactly`, `TwoCutsLoseBoth`, `TwoCutsGoBack`). The slots stay bootable
  all the same (`OtaSystem.AlwaysBootable`).
- An image linked for the running slot is not refused: nothing compares it with the slot it is
  written to. PROTOCOL.md:324-328 and the comment at firmware/src/proto/proto.c:207-210 call it a
  waste, to be refused. The loader does refuse to enter it, but together with two power cuts it
  can leave a device running B with no record, and the next correct update then passes through
  moments at which the loader enters a half-written slot (`OtaOffers.FactoryRunFails`,
  `SmallWorldFails`). A transfer is safe exactly when it begins with the record settled on the
  running slot (`OtaOffers.BeginIsSafeExactly`), which the code does not check.
- The record encoder accepts versions the decoder refuses (`OtaState.EncodeDecode`).
- A factory reset that is cut, or refused, once sector B is erased can bring the previous
  configuration back (`ConfigStore.ResetNeverGoesBackExactly`, `RefusedEraseGoesBackExactly`).
- A configuration save reported as failed is the one that loads exactly when one of its tries
  timed out although its callback ran (`ConfigStore.FailureSticksExactly`).
- A probe is answered exactly when no other probe is run before it ends
  (`RelaySession.ProbeAnsweredExactly`).
- A plug cycle whose off may have been obeyed is restored exactly when the answer is a 200 that
  parses; silence, another status or an unreadable body end it without an on
  (`PlugDriver.RestoreOwedExactly`).
- A cancel stops an operation that has not cut power, unless it comes while the plug's address is
  searched for and the search succeeds: then the command is given all the same, and nobody hears
  of it (`PlugDriver.CancelInSearchExactly`, `CancelledActsAnyway`).
- A failed probe is never reported as `plug_unsupported`, although the comment at
  firmware/src/plug/plug.c:489-493 says when it is: the flag it tests is set only where the probing
  has already ended (`PlugDriver.ProbeNeverUnsupported`).
- The stuck detector fires at once when an armed device loses its link at the millisecond the
  counter reads zero (`Stuck.FalseAlarmAtWrap`).
- The thousandths reader, where `long` has 32 bits and wraps, starts over after 2147483648 and
  after 2147483649 (`JsonMilli.NumberReadsExactly`, `StartsOver`).
- The comment that a command line and its storage may always share one buffer is wrong for a line
  that starts with a bare argument and goes on: arguments are lost, and a byte past the line's
  terminator is written (`CmdLine.AliasingSafeExactly`).
- A host list is called complete when its first 24 are in it, although
  firmware/src/proto/scan_json.h:44-45 promises every host (`ScanJson.AllMeansAllExactly`).
- The wake limiter keeps its limit exactly when the clock never steps back
  (`RelayServer.LimitKeptExactly`).

## Model

| member | source | states |
|---|---|---|
| Crc32.Absorb | firmware/src/config/config.c:44-55 | The inner loop over one byte, eight conditional shifts, leaves the register the byte-step function says; the rest of Crc32 is about that function. |
| Crc32.Compute | firmware/src/config/config.c:44-55 | rw_crc32 over any buffer is the register folded over its bytes, complemented at both ends. |
| Crc32.WordStep | firmware/src/config/config.c:44-55 | Absorbing up to four bytes one at a time equals loading them as one little-endian word, one exclusive-or, and eight shifts a byte. |
| Crc32.RegisterInjective | firmware/src/config/config.c:44-55 | Two registers that differ never meet again, whatever bytes follow: the shift step loses nothing. |
| Crc32.BurstDetected | firmware/src/config/config.c:44-55 | Any change confined to four consecutive bytes, anywhere in a message of any length, changes the checksum. |
| Crc32.StoredBurstDetected | firmware/src/config/config.c:44-55 | A change that runs from the last bytes of a message into the first of its stored checksum, four bytes in all, never leaves the two agreeing. |
| Flash.FlashPart.RangeErase | firmware/src/config/config_flash.c:55-59 | flash_range_erase as one step: a whole region of 0xFF, or, when the supply fails, nothing at all or a region of arbitrary bytes; nothing outside the region changes in any case. |
| Flash.FlashPart.RangeProgram | firmware/src/config/config_flash.c:55-59 | flash_range_program as one step that can only clear bits, with the same three outcomes. |
| OtaState.EncodeDecode | firmware/src/ota/state.c:83-151 | A record encoded and read back is itself if the version is printable and is refused otherwise: the decoder rejects versions the encoder accepts, and that is the only case. |
| OtaState.BodyLayout | firmware/src/ota/state.c:83-108 | Where every field of a stored record is, byte by byte, zeros included. |
| OtaState.DecodesExactly | firmware/src/ota/state.c:110-151 | Exactly which bytes read as a record, each refusal told in the bytes, and which record; the bytes between the fields are only under the checksum. |
| OtaState.DamagedRecordRefused | firmware/src/ota/state.c:110-151 | Under the real CRC, a stored record with damage confined to any four neighbouring bytes, those of the stored checksum included, is refused. |
| OtaState.Decode | firmware/src/ota/state.c:110-151 | Whatever decodes names real slots and a printable version that fits. |
| OtaState.StateRecord.BootStep | firmware/src/ota/state.c:177-199 | rw_ota_state_on_boot in place: the record, the verdict and the write-back flag are those the trial theorems are about. |
| OtaState.StateRecord.StageSlot | firmware/src/ota/state.c:201-228 | rw_ota_state_stage in place, early returns included. |
| OtaState.StateRecord.ConfirmTrial | firmware/src/ota/state.c:230-238 | rw_ota_state_confirm in place. |
| OtaState.StageKeepsWayBack | firmware/src/ota/state.c:201-228 | Staging names the new slot, puts it on trial with three boots, and never makes a slot its own way back, even when re-staged during a trial. |
| OtaState.TrialCountsDown | firmware/src/ota/state.c:177-199 | An unconfirmed image is booted exactly three times; the fourth boot reverts to the fallback, clears the version, and every later boot changes nothing. |
| OtaState.BootExactly | firmware/src/ota/state.c:177-199 | When a boot goes back to the fallback, when it spends a try, and what of the record each changes. |
| OtaState.PickExactly | firmware/src/ota/state.c:153-175 | Which of two copies is taken, at every distance of their numbers, the exact half included. |
| OtaState.ConfirmedStays | firmware/src/ota/state.c:230-238 | A confirmed image is its own way back and no number of boots changes the record again. |
| OtaState.ChangesFollow | firmware/src/ota/state.c:153-175 | Every change the state machine makes takes the next sequence number modulo 2^32, so of a changed and an unchanged copy the choice between copies is the changed one, in either order. |
| OtaRecord.FlashLoad | firmware/src/ota/ota_flash.c:20-25 | rw_ota_flash_load reads both sectors and returns their choice. |
| OtaRecord.FlashSave | firmware/src/ota/ota_flash.c:27-54 | rw_ota_flash_save step by step: encode, then erase, program and read back copy A, then copy B, giving up at the first mismatch. |
| OtaRecord.SaveAt | firmware/src/ota/ota_flash.c:27-54 | For every step at which the supply can fail, between steps or in the middle of one: exactly what each of the two copies decodes to afterwards. |
| OtaRecord.SavedSectors | firmware/src/ota/ota_flash.c:27-54 | A save that the supply outlasts leaves in each of the two sectors the record, zeros to the end of its page, and nothing, in four flash steps. |
| OtaRecord.UnwritableRefused | firmware/src/ota/ota_flash.c:27-35 | A record that names no slot is refused before the flash is touched. |
| OtaRecord.SaveThenLoad | firmware/src/ota/ota_flash.c:20-54 | A save that the supply outlasts reports success and is what the next load returns. |
| OtaRecord.SaveIsAtomic | firmware/src/ota/ota_flash.c:41-54 | From two equal copies, a cut anywhere leaves a load returning the old record or the new one, the new one once copy A is written, although the copies then differ. |
| OtaRecord.SaveIsAtomicExactly | firmware/src/ota/ota_flash.c:41-54 | From any two copies: every possible cut leaves the old or the new record if and only if copy B holds one of them. |
| OtaRecord.SaveNeverLosesExactly | firmware/src/ota/ota_flash.c:41-54 | From any two copies: every possible cut leaves some record if and only if copy B is readable. |
| OtaRecord.TwoCutsLoseBoth | firmware/src/ota/ota_flash.c:41-54 | The consequence, concretely: a cut after B is erased and a cut in the next save leave no record at all. |
| OtaRecord.TwoCutsGoBack | firmware/src/ota/ota_flash.c:41-54 | And: a cut before B is erased and a cut in the next save bring back a record that had already been superseded. |
| OtaWriter.WriterUnit.BeginTransfer | firmware/src/ota/ota_write.c:67-118 | rw_ota_write_begin in place: refusals, whole-sector erase in 64 KB steps, and the writer it leaves. |
| OtaWriter.BeginsExactly | firmware/src/ota/ota_write.c:67-118 | Who is turned away and how: a second transfer, a slot that is running or not there, a payload of no bytes or too many. Nothing is touched for any of them. |
| OtaWriter.OutsideTransfer | firmware/src/ota/ota_write.c:120-185 | Chunks and ends outside a transfer change nothing; a chunk past the promised length ends the transfer without touching flash. |
| OtaWriter.WriterUnit.AddChunk | firmware/src/ota/ota_write.c:120-148 | rw_ota_write_chunk in place: fills the page buffer, programs each full page, hashes, and aborts on overrun or on a page that does not read back. |
| OtaWriter.WriterUnit.EndTransfer | firmware/src/ota/ota_write.c:150-185 | rw_ota_write_end in place: pads and programs the last page, judges count and digest. |
| OtaWriter.WriterUnit.ProgramHeld | firmware/src/ota/ota_write.c:47-65 | program_page: one page at the place the bytes before it end, with the read-back as result. |
| OtaWriter.TakeConcat | firmware/src/ota/ota_write.c:120-148 | Taking two pieces one after the other is taking them joined: same flash, same writer, same status. |
| OtaWriter.FeedIsOneChunk | firmware/src/ota/ota_write.c:120-148 | However a payload is cut into frames, flash, page buffer, counts, hash input and status end as if it had come in one. |
| OtaTransfer.WholeTransfer | firmware/src/ota/ota_write.c:47-185 | A whole transfer, for any cutting into frames and any supply: accepted iff it does not overrun the promise, OK iff length and digest are as promised, the slot then holds the payload and 0xFF up to the end of the cleared span, the part saw the erases and then each page once and in order, and nothing outside the span was ever addressed. |
| OtaTransfer.ChunkStreams | firmware/src/ota/ota_write.c:120-148 | One frame extends what is in flash and in the page buffer by exactly its bytes, and is refused iff it would pass the promised length. |
| OtaTransfer.EndStreams | firmware/src/ota/image.c:163-179 | At the end the slot begins with exactly the payload and the verdict is that of the count and the digest. |
| OtaDevice.LoaderMain | firmware/loader/main.c:122-172 | The boot decision step by step: load, count the trial, write back, test the vector table, fall back to the other slot or to the ROM. |
| OtaDevice.BootableExactly | firmware/loader/main.c:38-51 | A slot is taken to hold an image exactly when the two words where its vector table should be are a stack pointer into memory and an odd address within the slot. |
| OtaDevice.Agent.constructor | firmware/src/ota/ota.c:34-52 | rw_ota_init: the stored record, or a default naming the running slot. |
| OtaDevice.FreshStart | firmware/src/ota/ota.c:34-52 | An application begins with nothing under way and with the record there is, or with one that makes its own slot the only one. |
| OtaDevice.Agent.OnHelloAck | firmware/src/ota/ota.c:66-87 | Confirmation of the running image: record saved first and adopted only if the save took. |
| OtaDevice.Agent.Stage | firmware/src/ota/ota.c:89-114 | rw_ota_stage_slot: refused for the running slot; the cached record changes only if the save took. |
| OtaDevice.StagesSpareOnly | firmware/src/ota/ota.c:89-114 | Staging is for the spare slot alone, and writes exactly that slot, the running one as the way back, three boots and the version. |
| OtaDevice.Agent.OnOffer | firmware/src/proto/proto.c:1570-1633 | handle_ota_offer in place. An offer is queued if and only if it can be read, nothing is being received or written, the image is confirmed, the header is signed and names a size and a version that can be meant, that version is not the one running, and the queue is free. |
| OtaDevice.OfferAnsweredExactly | firmware/src/proto/proto.c:1570-1633 | Each of the other answers likewise, with its own if and only if. |
| OtaDevice.TakenUpOnce | firmware/src/proto/proto.c:887-921 | A queued offer leaves the queue whatever comes of it; a transfer of what its header says into the spare slot begins, and goes on exactly if the accept went out. |
| OtaDevice.Agent.RunPending | firmware/src/proto/proto.c:887-921 | run_ota_begin: begin, then accept, abandoning the transfer if the accept could not be sent. |
| OtaDevice.Agent.OnBinary | firmware/src/proto/proto.c:1635-1680 | on_binary: bytes outside a transfer, overrun, a refused chunk, and the last bytes, which verify and stage. The connection is kept if and only if a transfer was on or had just ended. |
| OtaDevice.StrayBytes | firmware/src/proto/proto.c:1639-1644 | Stray bytes change nothing, and a transfer that ends, however it ends, leaves the connection tolerating them. |
| OtaDevice.Agent.OnClose | firmware/src/proto/proto.c:1834-1842 | on_close: an unfinished transfer is aborted. |
| OtaSystem.EveryChangeIsAtomic | firmware/src/ota/ota.c:66-114 | Every record change the loader, a confirmation or a staging makes from two equal copies is atomic under a cut anywhere. |
| OtaSystem.SaveKeepsReady | firmware/src/ota/ota_flash.c:27-54 | A record save that starts with flash ready (each slot holds a whole release, one of them one it can run) leaves it ready, cut or not. |
| OtaSystem.VerifiedIsComplete | firmware/src/ota/ota_write.c:150-185 | A transfer that verified leaves in the spare slot a whole release, linked for whichever slot the offered image is. |
| OtaSystem.ReadyChooses | firmware/loader/main.c:122-172 | From flash that is ready the loader enters a slot whose release is complete and linked for it, whatever the record names: an image linked for the other slot never passes the vector test. |
| OtaSystem.LoaderSafe | firmware/loader/main.c:122-172 | From any flash a run can leave, the loader enters a slot holding a complete release and addresses neither slot, even if its own save is cut. |
| OtaSystem.StepKeeps | firmware/src/proto/proto.c:1570-1680 | Every event (reset, acknowledgement, offer for either slot, main loop, frame, close) keeps the invariant, which includes: session counts equal writer counts while receiving, nothing is received during a trial, flash is ready whenever the record does not settle on the running slot. The executing slot is not erased or programmed by any of them. For the one event that begins a transfer it asks that offers are matched to slots or that the record settles on the running slot; OtaOffers.BeginIsSafeExactly shows that no less will do. |
| OtaSystem.NeverOverItself | firmware/src/proto/proto.c:1612-1618 | In every state a run can reach: what a frame stages is the version offered, never the one running, in the slot not running, on trial with three boots and the running slot as the way back. |
| OtaSystem.AlwaysBootable | firmware/src/ota/layout.h:19-24 | In every run from the factory, at every point of it and under unlimited power cuts: some slot holds a complete release, the loader entered next enters one, and the executing slot is never erased or programmed. This is the claim that there is no moment when neither slot is bootable. It holds of a relay that matches images to slots, and of any relay as long as each transfer begins with the record settled on the running slot. |
| OtaOffers.BeginIsSafeExactly | firmware/src/proto/proto.c:887-921 | Of a relay that does not match images to slots: once an offer is queued, every continuation of the transfer, with whatever supply and whatever frames, leaves the loader entering a complete slot at every moment if and only if the record is settled on the running slot when the transfer begins. The code does not look. |
| OtaOffers.UnsettledEnters | firmware/src/proto/proto.c:1635-1680 | The failing half, constructed: the begin and the first pages of the image, and the loader enters a slot that holds no release. |
| OtaOffers.WrongSlotRun | firmware/src/proto/proto.c:1570-1633 | From any device running a settled image in B there is such a run: an image linked for B is offered, written to A, verified and staged; two power cuts in the loader lose the record; the device falls back to B; a correct offer then fills A in part, and the loader enters it. |
| OtaOffers.FactoryRunFails | firmware/src/proto/proto.c:207-210 | So from any part as it leaves the factory there is a run, of properly signed offers only, after which the loader enters a slot that holds no release, although the comment there calls a wrong offer a waste to be refused. |
| OtaOffers.SmallWorldFails | firmware/src/proto/proto.c:1570-1633 | The same with nothing left open: concrete images, vector tables, headers and flash for which everything asked for holds and the run goes through, under any checksum. |
| OtaOffers.ReachIsRun | firmware/src/proto/proto.c:1570-1680 | Events one after another, each possible where it comes, are a run in the sense of OtaSystem.AlwaysBootable; so the failing runs are among those it speaks of. |
| OtaSystem.TrialIsQuiet | firmware/src/ota/ota.c:66-87 | During a trial nothing but the confirmation changes flash or the cached record. |
| OtaSystem.ThreeTrials | firmware/loader/main.c:122-172 | A staged image that never confirms is entered by exactly three resets, the fourth enters the slot it was staged from, and from the fifth on nothing is written. |
| FlashMap.UpdatesKeepConfig | firmware/src/ota/layout.h:36-81 | Updates and configuration share one part: no event of the update system, cut or not, changes the loader, either configuration sector, or what a configuration load returns. |
| FlashMap.ConfigKeepsUpdates | firmware/src/config/config_flash.h:29-37 | And no save of the configuration and no factory reset, cut or not, changes the loader, a slot, or what a load of the update record returns. |
| FlashMap.Regions | firmware/src/ota/layout.h:36-81 | Where each region is on a part of any size, in bytes; none overlap. |
| ConfigRecord.EncodeDecode | firmware/src/config/config.c:113-205 | A configuration reads back as itself, with an undefined authentication mode normalised, whatever follows the record in its sector. |
| ConfigRecord.PayloadLayout | firmware/src/config/config.c:113-145 | Where every field of the payload is. |
| ConfigRecord.HeaderLayout | firmware/src/config/config.c:113-145 | And of the header, byte by byte. |
| ConfigRecord.DecodesExactly | firmware/src/config/config.c:147-205 | Exactly which bytes read as a configuration, and which one: no other version or length is read, the reserved header bytes are not looked at, and each field holds the bytes to its first NUL. |
| ConfigRecord.DamagedPayloadRefused | firmware/src/config/config.c:147-205 | Under the real CRC, damage confined to any four bytes of the payload is refused. |
| ConfigRecord.Decode | firmware/src/config/config.c:147-205 | Whatever decodes is made of C strings that fit their fields, so it can be encoded again. |
| ConfigRecord.EncodeInto | firmware/src/config/config.c:113-145 | rw_config_encode into a buffer: exactly the encoded record if every string leaves room for its terminator, zero otherwise, and nothing beyond the record is touched. |
| ConfigRecord.PutString | firmware/src/config/config.c:85-93 | put_str: refuses exactly what leaves no room for the terminator. |
| ConfigRecord.GetString | firmware/src/config/config.c:104-111 | get_str: the bytes to the first NUL, or all but the last when there is none. |
| ConfigRecord.NewerIsAnOrderLocally | firmware/src/config/config.c:57-59 | At most one of two sequence numbers is newer, a successor always is, wrap or not, and any two not exactly 2^31 apart compare. |
| ConfigRecord.Select | firmware/src/config/config.c:207-234 | The copy chosen is one that decodes; none is chosen iff neither does. |
| ConfigStore.WriteAndVerify | firmware/src/config/config_flash.c:81-99 | write_and_verify for each answer of flash_safe_execute, including a timeout whose callback may or may not have run. |
| ConfigStore.FlashSave | firmware/src/config/config_flash.c:101-141 | rw_config_flash_save step by step: slot choice, numbering, encode, at most two attempts, and the caller's number restored on failure. |
| ConfigStore.SaveAt | firmware/src/config/config_flash.c:101-141 | After any save, finished or cut at any step: a load returns exactly the new configuration if its sector was written to the end and exactly the old one otherwise; a success reported means written. No assumption on what the sectors held, so across the 2^32 wrap too. |
| ConfigStore.SaveReports | firmware/src/config/config_flash.c:101-141 | What a save reports for every pair of answers, and the number it leaves in the caller's hands. |
| ConfigStore.TwoSectorsAreOneCell | firmware/src/config/config_flash.c:66-141 | In every run of saves and power cuts the two sectors behave as one cell holding the last committed save. |
| ConfigStore.HeldIsNewest | firmware/src/config/config_flash.c:66-141 | What that cell holds carries the settings of the newest committed save. |
| ConfigStore.NeverGoesBack | firmware/src/config/config_flash.c:66-141 | What loads later is what loaded before, or the settings of a save committed in between: it never goes back. |
| ConfigStore.SuccessIsKept | firmware/src/config/config_flash.c:66-141 | After a save that reported success, whatever happens later, what loads carries its settings or those of a later committed save. |
| ConfigStore.LiveSectorUntouched | firmware/src/config/config_flash.c:101-141 | A save addresses only the sector a load would not have returned. |
| ConfigStore.FailureSticksExactly | firmware/src/config/config_flash.c:81-141 | A save reported as failed leaves the old configuration to be loaded, for every answer to both tries, except exactly when a try timed out although its callback ran: the first, or the second after a first that timed out as well. |
| ConfigStore.FailureMayStick | firmware/src/config/config_flash.c:81-141 | The least of it: the callback ran and answered late, the second try was refused, and the save reported as failed is what loads. |
| ConfigStore.Reset | firmware/src/config/config_flash.c:143-199 | Factory reset step by step: B erased, then A, then the identity saved back. |
| ConfigStore.ResetAt | firmware/src/config/config_flash.c:143-199 | Exactly what loads after a factory reset, field by field, for every point at which the supply can fail, every answer to each of the four flash operations, and devices with and without a token. |
| ConfigStore.ResetKeepsIdentityOnly | firmware/src/config/config_flash.c:154-162 | A reset that reports success leaves the device its name and its token and nothing else: no network, password, relay or owner, automatic authentication, no flags, number 1; and nothing at all without a token. It does report success when nothing goes wrong, and otherwise what went wrong. |
| ConfigStore.ResetNeverGoesBackExactly | firmware/src/config/config_flash.c:143-199 | A reset, however cut and however answered, with a token or without, leaves the live configuration, its bare identity or nothing if and only if sector A holds one of these. |
| ConfigStore.RefusedEraseGoesBackExactly | firmware/src/config/config_flash.c:143-199 | The same condition with a supply that never fails: a refused or late erase is enough to bring the older configuration back. |
| WsFrame.ReadHeader | firmware/src/ws/ws_frame.c:10-96 | rw_ws_parse_header over a buffer: need more, bad, too large, or a header. |
| WsFrame.ParseOfServerHead | firmware/src/ws/ws_frame.c:10-96 | Every head a server may send under section 5.2 of RFC 6455 is understood, and one over the cap is known to be too large, whatever follows it. |
| WsFrame.ParseSound | firmware/src/ws/ws_frame.c:10-96 | And only those: what is understood starts with a legal head written the standard's way, in the fewest length bytes. |
| WsFrame.TooLargeSound | firmware/src/ws/ws_frame.c:10-96 | What is called too large starts with a legal head over the cap. |
| WsFrame.BadExactly | firmware/src/ws/ws_frame.c:10-96 | Once it can be judged, a header is refused if and only if no legal head starts the bytes. |
| WsFrame.ParseStable | firmware/src/ws/ws_frame.c:10-96 | A verdict on a header does not change when more bytes arrive. |
| WsFrame.ApplyMask | firmware/src/ws/ws_frame.c:137-141 | Masking in place is the masking function, on the range given and nowhere else. |
| WsFrame.MaskedTwice | firmware/src/ws/ws_frame.c:137-141 | Masking twice is no masking. |
| WsFrame.MaskedConcat | firmware/src/ws/ws_frame.c:137-141 | Masking in pieces with running offsets is masking at once. |
| WsFrame.BuildUnframe | firmware/src/ws/ws_frame.c:98-157 | A frame that fits is read back by section 5.2 as the flag, opcode and payload sent, whatever the key. |
| WsFrame.BuiltAsShortAsCan | firmware/src/ws/ws_frame.c:98-135 | A frame is built exactly when it fits, and in the fewest bytes its length can be written in. |
| WsClient.Client.PumpFrames | firmware/src/ws/ws.c:220-371 | pump_frames on the fixed buffers, compacted in place after each frame, is the pump the stream theorems are about. |
| WsClient.Client.OnRecv | firmware/src/ws/ws.c:373-442 | on_recv on the fixed buffers: the segment taken in as room allows, pumped after each piece. |
| WsClient.Client.HandleFrame | firmware/src/ws/ws.c:252-371 | The opcode switch in place: reassembly buffer, callbacks, pong, close echo and each failure. |
| WsClient.Client.DeliverMessage | firmware/src/ws/ws.c:206-213 | deliver_message: the text goes out once and whatever the callback did to the connection is honoured. |
| WsClient.Client.Close | firmware/src/ws/ws.c:641-659 | rw_ws_close on an open connection; a close frame that cannot be sent tears it down. |
| WsReceive.RecvIsPump | firmware/src/ws/ws.c:373-442 | The bounded receive buffer is as good as an unbounded one, so the overflow branch is never reached while the connection is open. |
| WsReceive.SettledHasRoom | firmware/src/ws/ws.c:373-442 | A buffer that holds nothing complete always has room for more. |
| WsReceive.SegmentationIrrelevant | firmware/src/ws/ws.c:220-442 | From an open connection, any two ways of cutting the same bytes into segments give the same texts, binary frames, pongs and close, in the same order, and the same final state; for every behaviour of callbacks and transport. |
| WsReceive.NothingCarriedOver | firmware/src/ws/ws.c:109-135 | However a connection was cut up and however it was closed, no part of a frame or of a message is carried into the next. |
| WsReceive.PumpWithinCaps | firmware/src/ws/ws.c:220-371 | Nothing longer than 2048 bytes is ever reassembled or delivered, and no pong over 125 is sent. |
| WsStream.StreamMeans | firmware/src/ws/ws.c:220-442 | For every application and every transport, and however it is cut, a stream means its frames: fragments joined (section 5.4), pings answered in order (section 5.5), and then either waiting for more or the exact end: an illegal frame, a close from the peer, a callback that closed, dropped or did not want what it got, a binary frame nobody takes, or something that could not be sent. What is done after, to the last action, is stated. |
| WsStream.PeerCloseMeans | firmware/src/ws/ws.c:266-287 | In bytes: a stream that ends with the peer's close, code bytes hi and lo and any reason, is echoed and ends with code 256 hi + lo, as deprovisioned if and only if they are 0F A2; a close without them ends with 1000. |
| WsStream.EveryStreamEnds | firmware/src/ws/ws.c:220-442 | Every byte stream, under every application and transport, is of the form the previous theorem speaks about. |
| WsStream.FragmentsJoin | firmware/src/ws/ws.c:281-371 | A text in any number of fragments with control frames between them is delivered once, joined, after the last. |
| PlugDriver.Driver.RunTask | firmware/src/plug/plug.c:629-676 | rw_plug_task in place. |
| PlugDriver.AsksExactly | firmware/src/plug/plug.c:629-676 | What each pass asks of the plug, for every phase, answer and search, and that it asks nothing else. |
| PlugDriver.OnlyWhatWasAsked | firmware/src/plug/plug.c:313-331 | From its start to its end, under every network and caller, an operation asks for nothing but what its job says: on for on, off for off, off and then on for a cycle, reads that switch nothing, and firmware installed by an update only. |
| PlugDriver.OutcomeSays | firmware/src/plug/plug.c:225-250 | A success reports the state of the answer it ended with, a failure why, and both how far the plug was seen. |
| PlugDriver.StatusKept | firmware/src/plug/plug.c:539-607 | The state a status read found is kept through the Wi-Fi read that follows it. |
| PlugDriver.TargetLearns | firmware/src/plug/plug.c:451-496 | What an operation learns of its plug: address, generation, whether it was seen and whether anyone looked. |
| PlugDriver.ProbeNeverUnsupported | firmware/src/plug/plug.c:489-495 | A stranger at the plug's confirmed address is said there to be reported as unsupported. In every run a failed probe is unreachable or internal, never that, because the address is only confirmed by the answer that ends the probing. |
| PlugDriver.TriedAgainInASecond | firmware/src/plug/plug.c:339-352 | A try of the restore that came to nothing is made again a second later while the budget lasts. |
| PlugDriver.Driver.OnProbeDone | firmware/src/plug/plug.c:451-496 | probe_done in place, a cancel that comes in while the address search pumps the network included. |
| PlugDriver.Driver.OnActDone | firmware/src/plug/plug.c:539-607 | act_done in place, for the first leg, the restore and its confirming read. |
| PlugDriver.Driver.OnFwDone | firmware/src/plug/plug.c:504-537 | fw_done in place. |
| PlugDriver.Driver.ScheduleRetry | firmware/src/plug/plug.c:339-352 | schedule_retry: refuses exactly when the shared budget of three is spent. |
| PlugDriver.Driver.CancelOp | firmware/src/plug/plug.c:678-696 | rw_plug_cancel: past the cut only the caller goes, before it the operation does. |
| PlugDriver.Driver.Begin | firmware/src/plug/plug.c:374-429 | The start calls: refused while busy. |
| PlugDriver.CutThenOn | firmware/src/plug/plug.c:539-607 | The accepted off starts the dwell, and the on is asked for once it is over and not before. |
| PlugDriver.OwedStep | firmware/src/plug/plug.c:339-372 | One step of an owed restore: still owed with strictly less left to do, or ended, with success only after an accepted on and failure only with the budget spent. |
| PlugDriver.RestoreIsPursued | firmware/src/plug/plug.c:339-372 | After an accepted off, under every sequence of timeouts, refused sends, bad bodies and cancels: at most 28 passes in which anything happens, success only after an accepted on, giving up only after a first try and all three retries failed, and otherwise the on is still owed. |
| PlugDriver.CancelledOrNot | firmware/src/plug/plug.c:678-696 | A cancelled restore issues the same requests at the same passes with the same retries as one that is not. |
| PlugDriver.EveryOperationEnds | firmware/src/plug/plug.c:629-676 | Every operation of any kind uses up a budget with each pass in which something happens, and its outcome comes with its end. |
| PlugDriver.StartedOrEnded | firmware/src/plug/plug.c:374-429 | A start on an idle driver is always taken, and its caller has heard the end if the driver is idle again at once. |
| PlugDriver.RestoreOwedExactly | firmware/src/plug/plug.c:539-607 | Where the promise stops: when the off of a cycle has been sent and its exchange ends, the dwell starts, and with it the restore is owed, if and only if the answer is a 200 whose body parses. Silence, any other status and an unreadable body all end the cycle at once, failed for the stated reason, with nothing more requested, although the plug may have obeyed. |
| PlugDriver.EndedAsksNothing | firmware/src/plug/plug.c:356-372 | And a cycle that ended so stays ended: no timer and no cancel ever makes an idle driver request anything. |
| PlugDriver.CancelStops | firmware/src/plug/plug.c:678-696 | Between passes a cancel ends every operation that is not past the cut of a cycle, for good. |
| PlugDriver.CancelInSearchExactly | firmware/src/plug/plug.c:480-487 | Inside the address search it ends the operation if and only if the search finds nothing or no probe can be sent; otherwise the operation starts over with nobody to answer to. |
| PlugDriver.CancelledActsAnyway | firmware/src/plug/plug.c:480-487 | And when the plug answers that probe, the cancelled command is given. |
| RelaySession.Session.OnCommand | firmware/src/proto/proto.c:1237-1494 | The command handlers in place: immediate refusals, then the queue, then the parameters. |
| RelaySession.Session.Enqueue | firmware/src/proto/proto.c:1036-1043 | queue: refuses while anything holds the one slot. |
| RelaySession.Session.RunSlot | firmware/src/proto/proto.c:939-1029 | run_pending in place, up to the start of a sweep. |
| RelaySession.Session.StartPlug | firmware/src/proto/proto.c:981-1022 | The plug branch: ownership first, then the start, then the refusal if it was not started. |
| RelaySession.Session.OnPlugDone | firmware/src/proto/proto.c:852-871 | plug_done: answers the owner if it still has one. |
| RelaySession.Session.OnClose | firmware/src/proto/proto.c:1818-1865 | on_close: the slot emptied, ownership dropped, the driver cancelled. |
| RelaySession.Session.RunPlugTask | firmware/src/proto/proto.c:1905-1908 | rw_plug_task from the main loop, with a close inside its address search. |
| RelaySession.Session.FinishSweep | firmware/src/proto/proto.c:562-613 | What follows a sweep: the answer, addressed by what the slot holds by then, and the slot emptied. |
| RelaySession.OneAnswerEach | firmware/src/proto/proto.c:850-1043 | In every run, on the connection that is up: each wake, scan and plug command received has been answered exactly once or is in flight, never both, never twice; each answer carries its own frame's request, connection and parameters; the operation the driver is at is the one the command in flight names; and a queued plug command always finds the driver idle, so the not-started branch is dead. |
| RelaySession.HandedOn | firmware/src/proto/proto.c:981-1022 | A plug command is handed on as what it is: set, read, check or update, with its parameters, at its address. |
| RelaySession.FrameAnswered | firmware/src/proto/proto.c:1237-1494 | What a frame is answered with at once: a fault in it, no network, busy, or nothing and it is queued; each exactly when. |
| RelaySession.AnsweredWith | firmware/src/proto/proto.c:850-1043 | And everything else that is answered, with what: a wake or a sweep with success, a plug command with the outcome of its own operation, and nothing by any other event. |
| RelaySession.ComesAndGoes | firmware/src/proto/proto.c:1818-1865 | What a connection's coming, rejection and end change, and what of the driver and the probe outlives it. |
| RelaySession.SharesTheSlot | firmware/src/proto/proto.c:1036-1043 | The commands that share the slot, and the end of a probe. |
| RelaySession.AnsweredInTheEnd | firmware/src/proto/proto.c:850-1043 | And one in flight is answered: while the connection stays up, at most forty turns of the main loop in which the part it waits for gets to work, whatever else happens between them. |
| RelaySession.SlotMoves | firmware/src/proto/proto.c:939-1029 | A command at the front leaves the slot at the next turn: answered, handed to the driver, or swept for and then answered. |
| RelaySession.StepKeeps | firmware/src/proto/proto.c:1682-1865 | Every event keeps the account of asked, in flight and answered balanced. |
| RelaySession.ProbeAnsweredExactly | firmware/src/proto/proto.c:925-971 | From the turn a probe starts to its end, on a connection that stays up, over every sequence of events: it is answered if and only if no turn of the main loop ran another queued probe in between, and each of those others is answered at once. |
| RelaySession.SecondProbeSilencesFirst | firmware/src/proto/proto.c:964-971 | The step behind it: a second probe takes the running one's ownership and loses it again. |
| RelaySession.ForgottenForGood | firmware/src/proto/proto.c:925-971 | And nothing that happens later on that connection answers it. |
| RelayServer.DeviceRecord.AdmitWake | relay-reference/server.js:331-336 | admitWake in place: prune, test, record. |
| RelayServer.NeverOverLimit | relay-reference/server.js:331-336 | With a clock that does not step back, no window of 60 seconds, wherever it starts, holds more than 30 admitted wakes. |
| RelayServer.RefusedOnlyWhenFull | relay-reference/server.js:331-336 | And a wake is admitted if and only if the 60 seconds up to it hold fewer than 30 admitted ones. |
| RelayServer.RecordIsRecent | relay-reference/server.js:331-336 | What the record keeps is exactly the admitted wakes still inside the window. |
| RelayServer.SteppedClockForgets | relay-reference/server.js:331-336 | Thirty wakes, one at the end of the window and one any number of milliseconds before that, up to the whole window: 31 are admitted in the same 60 seconds. |
| RelayServer.LimitKeptExactly | relay-reference/server.js:331-336 | So the limit holds under every clock that steps back by at most d milliseconds if and only if d is zero. |
| RelayRegistry.EveryRun | relay-reference/server.js:539-680 | In every run a registered connection exists, is open and is that device's own; each request is settled at most once, and exactly once as soon as no connection has it outstanding. |
| RelayRegistry.RegisteredEarnedIt | relay-reference/server.js:512-601 | In every run, whoever is registered as a device is provisioned, said in its hello that it was that device, and proved it. |
| RelayRegistry.SettledExactly | relay-reference/server.js:602-680 | Which events settle a request and as what: the answer it waits for on the connection it went out on, its own timer, a send that fails, the end of its connection, closed or superseded; and nothing else. |
| RelayRegistry.WaitsThere | relay-reference/server.js:646-664 | A request that goes out waits on its device's live connection and nowhere else. |
| RelayRegistry.ComesIn | relay-reference/server.js:504-537 | A good hello is challenged whether the device is known or not; only a known one can go on from there. |
| RelayRegistry.ReplacementStays | relay-reference/server.js:671-680 | Only its own close or another socket proving to be the device unregisters a connection; a superseded socket's late close does not. |
| RelayRegistry.Supersedes | relay-reference/server.js:565-606 | Taking over registers the new socket and settles everything the old one owed, and the old one's close then changes nothing in the registry. |
| RelayRegistry.Relay.Authenticate | relay-reference/server.js:539-601 | onAuth in place: the registry repointed before the old socket is told to go. |
| RelayRegistry.Relay.SettleAll | relay-reference/server.js:666-669 | settleAll in place: every outstanding request settled, in whatever order. |
| RelayRegistry.Relay.SendRequest | relay-reference/server.js:646-664 | request in place: pending before the send, settled at once if the send fails. |
| RelayRegistry.Relay.ReplyFrame | relay-reference/server.js:608-635 | onAppFrame in place: an answer of the expected kind settles its request, anything else is dropped. |
| RelayRegistry.Relay.CloseSocket | relay-reference/server.js:671-680 | onClose in place. |
| Stuck.StuckDetector.Pass | firmware/src/diag/stuck.c:23-80 | rw_stuck_step in place. |
| Stuck.FiresExactlyWhenStuck | firmware/src/diag/stuck.c:23-80 | Over any number of wraps of the 32-bit clock, the first firing is exactly the first pass at which a link has been held for 60 s this boot and the network has been up without the relay for 900 s, to the millisecond, provided the stretch did not begin as the counter read zero. |
| Stuck.FiresAsSaid | firmware/src/diag/stuck.c:23-80 | Without that proviso: exactly when it fires, the stretches that begin as the counter reads zero included. |
| Stuck.NeverWithoutAHeldLink | firmware/src/diag/stuck.c:23-80 | It never fires before a link has been held this boot, so not twice for one outage. |
| Stuck.FalseAlarmAtWrap | firmware/src/diag/stuck.c:23-80 | The exception is a false alarm: armed, with its link lost at the millisecond the counter wraps to zero, the detector fires at once. |
| Stuck.FalseAlarmExample | firmware/src/diag/stuck.c:23-80 | A three-pass run that shows it. |
| WifiScan.ScanTable.OnResult | firmware/src/net/scan.c:33-90 | on_result in place: hidden names and names rw_utf8_valid refuses are skipped, a known name updated if stronger, a new one added or put over the weakest. |
| WifiScan.ListedExactly | firmware/src/net/scan.c:33-54 | A beacon is listed if and only if it has a name and the first 32 bytes of it are text, and as what was heard. |
| WifiScan.ScanTable.FindWeakest | firmware/src/net/scan.c:74-79 | The slot found is the first of the weakest. |
| WifiScan.ScanTable.Sort | firmware/src/net/scan.c:152-162 | The insertion sort in place. |
| WifiScan.TableIsFaithful | firmware/src/net/scan.c:33-90 | After any stream of results: names distinct, each with the strongest entry ever heard for it even if displaced in between, and nothing left out was ever stronger than the weakest kept of a full table. |
| WifiScan.SortedList | firmware/src/net/scan.c:152-162 | The list is that table, a permutation, strongest first, equals in the order they stood. |
| Utf8.Decode | firmware/src/net/mdns.c:138-176 | utf8_decode, for whatever bytes are left. |
| Utf8.DecodeOfPut | firmware/src/net/mdns.c:138-176 | Decoding what put_utf8 wrote gives the scalar value back and its length, whatever follows. |
| Utf8.PutOfDecode | firmware/src/net/mdns.c:138-176 | What decodes is a scalar value, and encoding it gives the bytes back: no overlong form, no surrogate. |
| Utf8.GrammarIsPut | firmware/src/proto/json.c:166-194 | The encodings are exactly the UTF8-char productions of section 4 of RFC 3629. |
| Utf8.IsValid | firmware/src/usbcfg/cmdline.c:128-173 | rw_utf8_valid's own loop over terminated text, with its lead bytes, its overlong tests by length and its reading of continuation bytes up against the terminator: it accepts exactly what the strict decoder reads whole. |
| Utf8.ValidExactly | firmware/src/usbcfg/cmdline.c:128-173 | A string is accepted if and only if it is encodings of scalar values one after another. |
| Utf8.FirstLabel | firmware/src/net/mdns.c:235-250 | The text of a label: nothing if it is not showable, otherwise the longest prefix of whole characters that fits. |
| Utf8.DeceptiveExactly | firmware/src/net/mdns.c:188-212 | The characters that may not be shown are exactly nine ranges. |
| Mdns.FirstLabel | firmware/src/net/mdns.c:219-251 | first_label on a packet: pointers followed at most eight deep, every bound checked, and then the label at the end of them. |
| Mdns.NameEquals | firmware/src/net/mdns.c:98-131 | name_equals, comparing in place label by label, is equality with the name written out without pointers; it ends for every packet, pointers that go round included. |
| Mdns.FollowsPointer | firmware/src/net/mdns.c:103-114 | A byte from C0 up is a pointer, and where it points is its other fourteen bits. |
| Mdns.LabelExactly | firmware/src/net/mdns.c:219-251 | Where no pointer stands: one to 63 bytes, all of them in the packet, whose last byte may be the packet's last, and those bytes; otherwise nothing. |
| Mdns.LabelOfName | firmware/src/net/mdns.c:219-251 | The label first_label starts from is the first one of the name name_equals compares. |
| Utf8.KeepIsLongest | firmware/src/net/mdns.c:219-251 | The characters kept fit, and one more would not. |
| Json.JsonWriter.PutString | firmware/src/proto/json.c:38-64 | rw_jw_str into the fixed buffer is the escaped, quoted string appended as far as it fits. |
| Json.JsonWriter.PutRaw | firmware/src/proto/json.c:21-36 | rw_jw_raw into the fixed buffer, one byte always kept for the terminator. |
| Json.JsonWriter.Rewind | firmware/src/proto/scan_json.c:19-26 | Putting mark and flag back restores the writer of the time. |
| Json.RawFits | firmware/src/proto/json.c:21-36 | Text goes in whole and unchanged if it fits with the terminator, and otherwise marks the writer; a marked writer takes nothing more. |
| Json.ReadInto | firmware/src/proto/json.c:196-269 | rw_json_str, with its terminator, refusing broken escapes and values that do not fit. |
| Json.WriteThenRead | firmware/src/proto/json.c:38-269 | Reading what was written is the identity on every string without a NUL that fits (section 7 of RFC 8259). |
| Json.EscapedEndsAtQuote | firmware/src/proto/json.c:38-64 | A written string ends exactly at its own closing quote, whatever is in it and after it. |
| Json.NoBareControls | firmware/src/proto/json.c:38-64 | No control character stands bare in a written string (section 7 of RFC 8259). |
| Json.EscapesShortest | firmware/src/proto/json.c:38-64 | Which bytes are written as they are, which by their two-character escape, and which by the six of a \u escape. |
| Json.EscapesRead | firmware/src/proto/json.c:166-269 | A character written as escapes, a surrogate pair if need be, reads as its UTF-8 form. |
| Json.HexExactly | firmware/src/proto/json.c:151-165 | A hexadecimal digit of either case reads as its value, and nothing else does. |
| Json.LoneSurrogateRefused | firmware/src/proto/json.c:196-269 | Half a surrogate pair is refused wherever it stands. |
| JsonMilli.WriteMilli | firmware/src/proto/json.c:77-97 | rw_jw_milli step by step: sign by hand, trailing zeros trimmed. |
| JsonMilli.MilliRoundTrip | firmware/src/plug/shelly.c:168-211 | For every value a 32-bit long can hold, reading what was written is the identity exactly up to 2147482999 in magnitude, and a refusal beyond. |
| JsonMilli.NumberMeans | firmware/src/plug/shelly.c:168-211 | What any number in plain decimal notation reads as, however long, with or without sign and fraction: its value cut to thousandths or a refusal, except that once the digits before the point pass 2147483648 or 2147483649 the reading starts over with what follows, or with a 1 and what follows. |
| JsonMilli.OnlyNumbersRead | firmware/src/plug/shelly.c:168-211 | And nothing else reads as anything. |
| JsonMilli.NumberReadsExactly | firmware/src/plug/shelly.c:168-211 | So a number is read right or refused if and only if it does not run over so, or what the reading starts over with is itself out of range. |
| JsonMilli.StartsOver | firmware/src/plug/shelly.c:168-211 | 2147483648 followed by digits t, under any sign and fraction, reads as t with them, as zero if nothing follows; 2147483649 followed by t as 1 followed by t. |
| JsonMilli.OverflowReadsAsZero | firmware/src/plug/shelly.c:168-211 | The least of them: 2147483648 is not refused but read as zero. |
| JsonTokens.SkipSubtree | firmware/src/proto/json.c:109-123 | rw_json_skip, step by step. |
| JsonTokens.SkipLandsPast | firmware/src/proto/json.c:109-123 | In the preorder tokens of any tree, skipping a node lands exactly past its subtree. |
| JsonTokens.FindMember | firmware/src/plug/shelly.c:132-148 | obj_find, step by step. |
| JsonTokens.ObjFindIsFirstMember | firmware/src/plug/shelly.c:132-148 | It finds the value of the first direct member of that name, never a nested one, and nothing if there is none; rw_json_find is the case of the root. |
| JsonTokens.ElementAt | firmware/src/plug/shelly.c:150-160 | arr_at, step by step. |
| JsonTokens.ArrAtIsElement | firmware/src/plug/shelly.c:150-160 | It finds the k-th element at its own token, and nothing past the last. |
| ScanJson.TryHost | firmware/src/proto/scan_json.c:58-68 | try_host in place: write, measure, and take back. |
| ScanJson.SelectPass | firmware/src/proto/scan_json.c:70-121 | One selection pass in place: which hosts it marks, where it leaves the writer, and whether it dropped any. |
| ScanJson.HostsInto | firmware/src/proto/scan_json.c:70-121 | rw_scan_json_hosts in place, for any number of hosts: cut to 24, select named, select others, rewind, write in order. |
| ScanJson.ArrayFits | firmware/src/proto/scan_json.c:70-121 | If the reserve was free before the array, the array is written whole although the second writing reorders the entries, and what the reserve is for still fits after it. |
| ScanJson.ArrayHolds | firmware/src/proto/scan_json.c:70-121 | The array holds the entries of exactly the hosts kept, in the caller's order, separated by commas. |
| ScanJson.NamedComeFirst | firmware/src/proto/scan_json.c:70-121 | The named hosts kept are those that would be kept if there were no nameless host. |
| ScanJson.AllMeansAllExactly | firmware/src/proto/scan_json.c:70-121 | True is returned exactly when each of the first 24 hosts is in the list; so the list is all of them if and only if true is returned and there are no more than 24. |
| ScanJson.FrameFits | firmware/src/proto/proto.c:562-613 | A scan_result always fits its 2048 bytes, whatever was found and however it is named: the reserve of 20 covers bracket, tail and terminator. |
| ScanJson.FrameText | firmware/src/proto/proto.c:562-613 | The frame before its list, as text. |
| ScanJson.TailText | firmware/src/proto/proto.c:562-613 | And after it: truncated exactly when not every host is in it. |
| ScanJson.EntryText | firmware/src/proto/scan_json.c:28-50 | An entry as text, with a name exactly when there is one. |
| ScanJson.MacTextReads | firmware/src/proto/scan_json.c:28-31 | An address is written two digits a byte, in order, with colons between. |
| ScanJson.UpperHexReads | firmware/src/proto/scan_json.c:28-31 | In upper case, and so that they read back. |
| CmdLine.CommandLine.ParseLine | firmware/src/usbcfg/cmdline.c:177-260 | rw_cmdline_parse in place: the status the line deserves and, when it is fine, each argument in storage at its start and before its terminator. |
| CmdLine.CommandLine.ReadQuotedInto | firmware/src/usbcfg/cmdline.c:209-242 | The quoted branch: two escapes, closing quote, nothing glued to it. |
| CmdLine.QuoteThenParse | firmware/src/usbcfg/cmdline.c:177-260 | Quoting any list of at most six valid arguments onto a line that fits and parsing it gives the list back. |
| CmdLine.StorageSuffices | firmware/src/usbcfg/cmdline.c:177-260 | Every line, accepted or refused, writes at most its length and one byte, and never past the storage. |
| CmdLine.ParseInPlace | firmware/src/usbcfg/cmdline.c:177-260 | The same code with line and storage one array: what it overwrites it reads. |
| CmdLine.AliasingSafeExactly | firmware/src/usbcfg/cmdline.c:188-192 | On one buffer that holds the line and its terminator, which the comment there claims is always safe: status and arguments are those of two buffers and nothing is written past what two would need if and only if the line is refused before it is split or does not start with a bare argument that has more behind it. |
| CmdLine.AliasingStaysExactly | firmware/src/usbcfg/cmdline.c:188-192 | The writing alone: within the line and its terminator for exactly those lines, one byte past it for every other. |
| CmdLine.AliasingAgreesExactly | firmware/src/usbcfg/cmdline.c:188-192 | Status and arguments alone: the same for those lines and for one family more, a bare argument with a single empty one behind it. |
| CmdLine.BareFirstGarbles | firmware/src/usbcfg/cmdline.c:188-192 | For every line that is split and starts so: the argument's terminator erases the space behind it, and out come that argument and an empty one. |
| CmdLine.AliasingGarbles | firmware/src/usbcfg/cmdline.c:188-192 | The least of them: the line a, space, b gives a and nothing. |

## Left out

- RelaySession.OneAnswerEach: counts wake, scan and plug commands; `status` shares the slot but its answer is not counted, and probes have a theorem of their own.
- RelaySession.Session.OnCommand: the fields of a frame (verb, duration, address and the like) arrive read, defaulted and clamped; only which handler, its refusals in order and what it queues are modelled.
- JsonMilli.NumberMeans: signed overflow is taken to wrap, as it does on the device; the C standard leaves it undefined.
- ScanJson.FrameFits: takes request ids of at most 36 bytes and dotted addresses of at most 15, which is what their buffers hold.
- OtaSystem.TrialIsQuiet: the diagnostic verbs are not events; OTA_SELFTEST rewrites the spare slot with no on-trial check (firmware/src/usbcfg/usbcfg.c:485-502) and would break it, OTA_STAGE and FLASH_BENCH likewise are not modelled.
- RelayRegistry.EveryRun: sockets, devices and requests are numbers; object identity, the payload of answers and the handshake proofs are not modelled, a proof being right is an input.
- JSON frames into commands: command frames arrive already parsed, with what reading them found as inputs.
- The tokeniser (jsmn) is not part of this model; well-formed preorder tokens with nested extents stand for its output.
- Cryptography: TLS, HMAC proofs, SHA-256 and ECDSA carry no claims.
- Flash hardware faults and bits that do not read back as written, other than by a power cut.
- The WebSocket handshake, which for heads of 1024 bytes or more depends on segmentation (firmware/src/ws/ws_handshake.c:148-150); stream theorems start at an open connection.
- The CLOSING state: bytes left over when an open connection starts closing are dropped, and nothing is claimed about what arrives after.
- Close reason texts, ping keepalives, idle timers, reconnection back-off and the wall clock.
- Metering values and Wi-Fi details in status answers; the magic packet itself.
- A second hello_ack on one connection, enrolment and adoption.
- The plug list writer, which has the same select-and-rewind form as the host list.
- The mDNS packet around its names: header, record skipping and the choice of an answer.
- MAC address parsing, restart detection and runtime flags of the configuration: short total functions.
- Staging of settings over USB and the JSON it prints.
- The relay's HTTP routing, configuration file, idle timers and logging.
- The captive portal, DHCP, DNS, URL parsing, LED, radio trace and watchdog: input, output and timing.
