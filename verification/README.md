# moduleBox firmware: a verified model

moduleBox is the firmware of an ESP32-S3 device. This project models the parts of it that
hold an algorithm, a protocol or a state machine, and proves what they promise.
`dafny verify dfyconfig.toml` checks the whole project.

The models and their files:

- **RTP audio receiver** (`JitterRing`, `RingSchedule`, `Reorder`, `DriftClock`, `RtpSession`,
  `RtpStream` and the results about them). `Reorder` tells the packet path on unbounded sequence
  numbers; `RtpStream` is the code itself, with 16-bit registers, eight slots and a byte ring changed
  in place, and every method of it is proved to do what the functions of `RtpSession` say.
  `ArrivalLaw` and `PacketLaw` say exactly what a packet does, `DebtRuns` how drift is measured and
  paid. `SessionRuns`, `PlayRuns` and `DriftRuns` have the results over every run of datagrams, reads
  and address switches, `RateRun` a run that breaks the bound of the drift rate, and `StreamRuns`
  carries runs over to the code. A datagram and the clock are inputs. An epoch is the span between
  two full resets.
- **Firmware update** (`Crc32`, `UpdateFile`, `NorFlash`, `Loader`, `BootSelector`, `MoveUpdate`,
  `UpdateProtocol`, `LoaderRun`). The container format with its packer and its check, the loader
  that writes the program partition, the choice of the boot partition, and the protocol across
  restarts, in which power may fail between any two steps and in the middle of writing a sector or
  a file. The code of the program and of the loader is proved to run as this protocol says.
- **Flash write-back cache** (`FlashCache`): one 64 KiB line over NOR flash.
- **LED bar** (`LedFronts`, `LedBar`, `LedDevice`): two brightness fronts with a budget per cycle,
  the commands, and the arrays changed in place.
- **Art-Net poll replies** (`PollReply`), **CRSF channels** (`Crsf`), **rotating log** (`LogRing`, `LogRuns`),
  **button** (`Button`), **analog threshold** (`Analog`).

`Words`, `Arithmetic`, `ByteArrays` and `Blocks` hold machine words, products and quotients, byte
loops and block lists. Where C leaves signed overflow undefined (the drift rate, `abs()` of the most
negative int, the ring size, the log share), the model takes 32-bit arithmetic to wrap.

What the proofs showed about the code, where it differs from its comments or documents:

- **The LED bar can freeze.** Brightness starts at 0, below a `minBright` above 0. If the bar is
  told to go back before all LEDs have reached the lower limit, a falling LED stands before a rising
  one and neither ever moves again. This happens for some run exactly if there are two LEDs or more,
  `minBright` is above 0, the limits differ, and not both `maxBright` is 0 and there is one position
  (`LedBar.AlwaysSettlesExactly`, `FrozenBar`). With `minBright` 0, or once all LEDs are within
  the limits, it cannot (`LedBar.LimitsSettle`).
- **A restart can make the log lose its newest line.** The comment says that the modification times
  find the last written file without a clock. They do exactly if the right file is newer than every
  other one, or as new with the higher number (`LogRing.SetupResumes`). Files written in the same
  tick of the FAT clock, or under a clock that went back, break the ring: for every cap there is
  such a run, of lines that fit the 2048-octet buffer (`LogRing.TieLosesLine`, `TieExists`).
- **A software reset of the loader while it writes can start a torn program**, between two sectors
  or in the middle of one, unless nothing has changed yet or the rest of the image was in place
  already (`LoaderRun.LoaderPanic`). Power failures are survived (`UpdateProtocol.CrashSafe`).
- **A packet that waits in the reorder window is cut to 1500 bytes**, and only such a packet
  (`SessionRuns.WholePackets`, `OvertakenIsCut`).
- A datagram without payload counts as a full ring. With nothing waiting it resets the stream exactly
  if its number is the expected one or eight or more ahead (`SessionRuns.EmptyDatagramResets`).
- **The stored drift rate can leave its bounds.** It is within 25000 throughout a run unless a window
  closes with the most negative 32-bit slope, whose wrapped `abs()` is itself (`SessionRuns.RateOverRuns`).
  A window of 31.25 s with a drift change of 67108864 samples either way stores -2147483648
  (`DriftClock.RateBoundFails`), and for every jitter buffer from 20 to 200 ms there is a run from an
  opened stream that does so (`RateRun.RateLeavesBounds`). Changes of up to 64424509 samples per
  window are safe (`SessionRuns.RateStaysPlausible`).
- Comments at the resets say that the drift rate is preserved. No read uses it after a full reset,
  and the first packet zeroes it (`SessionRuns.RateEndsWithReset`); it survives only a timestamp jump.
- **A sender slower than the local clock is hardly ever corrected.** A comment says that inserting a
  frame is always allowed. A read that finds more queued than it has room for fills its whole block,
  and then has no room for the frame; so nothing is repeated before the ring has run down to one
  block (`DriftRuns.FullReadsNeverRepeat`).
- What a read adds to the debt is cut to whole thousandths of a sample. If rate times frames is below
  the sample rate that is nothing, however long the drift lasts (`DebtRuns.TooSlowForItsReads`): at
  48 kHz and the lowest rate acted on, for reads below 160 frames.
- Rates of up to 25 samples a second are accepted, but corrections are over 100 ms apart, so at most
  ten a second (`DebtRuns.AtMostTenASecond`).
- `total_samples_to_i2s` is counted before a frame is dropped or repeated, so bytes handed out are
  frames counted plus net corrections (`SessionRuns.DriftBounds`).
- The sync point is called identical on all devices. It is so exactly for devices whose first
  packets fall into the same sample-rate period (`RtpSession.SyncPointAgreement`).
- CSRC lists, header extensions and padding (section 5.1 of RFC 3550) are read as audio: the
  payload always starts at octet 12.
- `update_check` looks neither at the magic nor at the version: an accepted file with one changed
  octet is still accepted exactly if the octet is in one of these (`UpdateFile.SingleDamage`).
- `board_flash_read` goes past the cache: it agrees with what was written exactly where the cached
  line does not differ from the flash (`FlashCache.RawReadAgrees`).
- Poll replies decode to the announced universe exactly for universes below 0x8000
  (`PollReply.PortDecodes`).
- The options do not keep `minBright` below `maxBright`. With the two the wrong way round some run
  shows an LED darker than the next one, unless there is one LED or one position
  (`LedBar.AlwaysABar`).
- The log share per file is added up in a 32-bit `long`. It is the documented third of the free
  space exactly if the sum is below 2^31 or wraps to at least 3 MB; a card with 4 GB free gets the
  smallest cap (`LogRing.CapAsPromised`, `CapFallsToFloor`).
- A restart that goes on with a full log file lets it grow by one line beyond the bound
  (`LogRing.FilesWithin`).
- A button press whose first sample falls on tick 0 is never a long one (`Button.IsLong`).
- The re-check of the analog level before a delayed change cannot fail (`Analog.Channel.ProcessSample`).

## Model

The main results come first, then what they rest on, file by file.

| member | source | states |
|---|---|---|
| SessionRuns.EndToEnd | components/audioLAN/rtp_client_stream.c:854-998 | in every run the bytes taken by the reader followed by the bytes in the ring are the bodies of received packets of one SSRC, each of a datagram of its own, in strictly increasing lifted sequence order, each at its own number, whole unless it waited in the window, the first at the sync point |
| SessionRuns.LedgerAndWindow | components/audioLAN/rtp_client_stream.c:634-683 | in every run, packets written plus packets counted lost equal exactly how far the expected number moved; held packets lie one to seven ahead and are of the tracked SSRC; before the sync point ring and window are empty |
| SessionRuns.NothingMissing | components/audioLAN/rtp_client_stream.c:893-947 | while nothing is counted lost, packets arriving in any order are written without a gap, and every number up to the first one not heard is written |
| SessionRuns.AllFromSync | components/audioLAN/rtp_client_stream.c:864-883 | from a sender whose timestamps do not run back with its numbering, everything written is at or after the sync point |
| SessionRuns.WholePackets | components/audioLAN/rtp_client_stream.c:912-925 | a packet is written cut if and only if it waited in the window and has over 1500 bytes of payload; with no datagram over 1512 bytes all are whole |
| SessionRuns.OvertakenIsCut | components/audioLAN/rtp_client_stream.c:912-925 | every run in which a packet of over 1500 bytes overtakes the one before it cuts that packet |
| SessionRuns.StreamChange | components/audioLAN/rtp_client_stream.c:776-808 | another SSRC takes over a tracked stream only after a second without datagrams of the old one, in an event that leaves ring and window empty |
| SessionRuns.ReadBlock | components/audioLAN/rtp_client_stream.c:1030-1089 | a read hands out nothing while it must wait, otherwise a positive multiple of 4 bytes not above len: the front of the ring with at most one frame dropped or repeated |
| SessionRuns.DriftBounds | components/audioLAN/rtp_client_stream.c:1113-1232 | over every run the debt stays within 5000, the rate within 25000 or at the most negative number, corrections are more than 100 ms apart, and bytes handed out are 4 times frames read plus net corrections |
| SessionRuns.RateOverRuns | components/audioLAN/rtp_client_stream.c:1149-1180 | the stored rate stays within 25000 throughout a run if and only if no window of it closes with the most negative 32-bit slope |
| SessionRuns.RateStaysPlausible | components/audioLAN/rtp_client_stream.c:1149-1180 | so it does in every run in which no window sees the drift change by more than 64424509 samples |
| RateRun.RateLeavesBounds | components/audioLAN/rtp_client_stream.c:1149-1180 | for every jitter buffer from 20 to 200 ms there is a run from a stream opened at 48 kHz that stores the rate -2147483648: the bound of `RateOverRuns` does fail |
| DriftRuns.RightDirectionThroughout | components/audioLAN/rtp_client_stream.c:1091-1104 | over every run of packets, reads and switches: while at no read the sender has fallen behind its open window, no frame is repeated; while it never got ahead of it, none is dropped |
| StreamRuns.ExecuteAll | components/audioLAN/rtp_client_stream.c:739-1232 | any interleaving of packets, reads and address switches takes the code, with its registers, slots and ring, to exactly the state of the session run |
| StreamRuns.Serve | components/audioLAN/rtp_client_stream.c:1321-1372 | so from init on: bytes taken followed by the contents of the ring array are the bodies of received packets, each of a datagram of its own, in strictly increasing order |
| PlayRuns.PlaysOnceFilled | components/audioLAN/rtp_client_stream.c:1030-1081 | over every run a read hands out a block exactly if the stream is synchronised, 8 bytes are queued, and the ring holds its threshold now or was seen to by a read since the epoch began; before that nothing of the epoch is taken |
| ArrivalLaw.FarGivesUpFirstGap | components/audioLAN/rtp_client_stream.c:929-992 | a packet eight or more ahead, with some held: the numbers before the smallest held one are counted lost and its streak is written up to r; at r the packet is written, one to seven beyond r it is held and nothing more is lost, and only from r + 8 on the numbers from r are lost too |
| ArrivalLaw.ExpectedReleases | components/audioLAN/rtp_client_stream.c:893-911 | the expected packet is written with exactly the held streak behind it, the rest stays held, nothing is counted lost |
| ArrivalLaw.NearWithOverdue | components/audioLAN/rtp_client_stream.c:650-683 | a packet that has to wait and finds one held for over 40 ms: exactly the numbers before the smallest held one are lost, and its streak is written |
| ArrivalLaw.RoomSuffices | components/audioLAN/rtp_client_stream.c:390-406 | a packet with payload resets the stream only if the ring has no room for it and all that waits |
| DebtRuns.DebtBooks | components/audioLAN/rtp_client_stream.c:1182-1231 | over every run of reads within a window that does not meet the bounds: the debt left and 1000 for each net drop are the debt at the start and all that became due |
| DebtRuns.CorrectsWhenOwed | components/audioLAN/rtp_client_stream.c:1182-1231 | over every run of reads that could correct, none has exactly if the debt and what became due never came to a whole sample |
| DebtRuns.CorrectionComes | components/audioLAN/rtp_client_stream.c:1182-1231 | at a rate acted on, n reads that each make `step` due, n * step the sample that is missing, contain a correction, and all are of the right kind |
| DebtRuns.TooSlowForItsReads | components/audioLAN/rtp_client_stream.c:1184-1188 | a rate that makes less than a thousandth due per read is never corrected, however many reads |
| DebtRuns.WindowMeasures | components/audioLAN/rtp_client_stream.c:1146-1180 | the first read 30 s after a window began takes its slope, cut toward zero, as the rate and begins the next; beyond 25 samples a second it throws rate, debt and window away and settles at once |
| DriftRuns.FullReadsNeverRepeat | components/audioLAN/rtp_client_stream.c:1086-1089 | a read that finds more than its own length queued never repeats a frame |
| DriftClock.OnlyDropsWhenRising | components/audioLAN/rtp_client_stream.c:1091-1104 | over every run of reads alone in which the raw drift never falls, all corrections counted are drops |
| DriftClock.OnlyRepeatsWhenFalling | components/audioLAN/rtp_client_stream.c:1091-1104 | over every run of reads alone in which it never rises, all are repeats |
| RingSchedule.EverySchedule | components/audioLAN/rtp_client_stream.c:390-434 | under every interleaving of byte steps the reader gets a prefix of the accepted blocks, blocks are whole, at most size - 1 bytes are queued |
| RtpStream.Stream.Drain | components/audioLAN/rtp_client_stream.c:743-998 | one datagram changes the stream exactly as the session functions say |
| RtpStream.Stream.ReadPass | components/audioLAN/rtp_client_stream.c:1030-1232 | one pass of the reader changes the stream and fills the buffer exactly as the session function says |
| UpdateProtocol.CrashSafe | main/main.c:825-933 | at every moment of every run, whatever an earlier upload left in the store, the new image is whole on the card, in the store or in the partition, and the program that runs is whole: the old one, the new one, or that of an earlier upload still waiting in the store |
| UpdateProtocol.TwoBoots | bootloader_components/main/bootloader_start.c:109-140 | once crashes stop, the program runs, whole, after one boot or after a boot into the loader and one more |
| UpdateProtocol.CrashEndsInNewImage | bootld/src/main.c:83-129 | a power failure at any time between the end of the copy and the end of the loader ends with the new image running |
| UpdateProtocol.UpdateSucceeds | main/main.c:924-928 | from the end of the move, two boots later the program runs on the new image and no update file is left |
| LoaderRun.LoaderPanic | bootloader_components/main/bootloader_start.c:134-139 | after a software reset of the loader, for every number of sectors written and anything left in the next one, the program that starts is the old or the new one if and only if nothing has changed yet or all of the image is in place already |
| LoaderRun.Board.Start | bootld/src/main.c:176-207 | the code of the loader from start to restart is a run of the update protocol, and removes the file exactly if it was accepted |
| MoveUpdate.Storage.Move | main/main.c:831-933 | moved exactly if everything works; otherwise card and hint are untouched and the store keeps no part of a failed copy; in every case the code is a run of the update protocol |
| Loader.DeliverImage | bootldsd/bin2fw.c:66-108 | from packer to partition the image arrives, for every size that fits |
| UpdateFile.SingleDamage | bootld/src/main.c:144-163 | one changed octet is let through if and only if it is in the magic or the version |
| Crc32.TableStep | bootldsd/bin2fw.c:6-7 | for every register and octet the table step equals eight bit steps |
| Crc32.CrcChunks | bootldsd/bin2fw.c:82-89 | chunks fed one after the other give the CRC of their concatenation, for every split |
| FlashCache.Cache.Write | bootld/boards/board_flash.c:109-122 | the view changes on the written range and nowhere else, for a write inside one line |
| FlashCache.Cache.Flush | bootld/boards/board_flash.c:77-107 | the view stays, with or without the skip, and the flash becomes the view |
| LedFronts.ConvergesExactly | components/buttonLeds/button_ledBar.c:217-249 | the target is reached after n cycles if and only if no falling LED stands before a rising one and n is at least both front times, rounded up |
| LedBar.AlwaysSettlesExactly | components/buttonLeds/button_ledBar.c:327-414 | every run of commands from power-on leaves a bar that settles if and only if there is one LED, minBright is 0, the limits are equal, or maxBright is 0 with one position |
| LedBar.AlwaysABar | components/buttonLeds/button_ledBar.c:385-414 | after every run of commands from power-on brightness falls along the bar, if and only if minBright is not above maxBright, or there is one LED, or one position |
| LedBar.WantedIsCoverage | components/buttonLeds/button_ledBar.c:279-296 | an LED covered whole by the bar shows the upper limit, not at all the lower, and in part that part of the upper limit but no less than the lower |
| PollReply.SendPollReply | components/artNet/artNet_common.c:371-418 | each universe in use in exactly one reply, at most four per reply with equal upper bits, bind indexes from 1, no reply wasted, and one reply from an empty registry |
| PollReply.PortDecodes | components/artNet/artNet_common.c:295-323 | NetSwitch, SubSwitch and SwOut decode back to the universe (pyTest/artnetTest.py line 97) if and only if it is a 15-bit address |
| Crsf.UnpackChannels | components/CRSF/CRSF.c:37-62 | channel n is bits 11n to 11n+10 of the payload, 22 octets are used, and no clamp changes a value |
| Crsf.UnpackAfterPack | components/CRSF/CRSF.c:37-62 | unpacking undoes the packing of any sixteen channels |
| Crsf.PackAfterUnpack | components/CRSF/CRSF.c:37-62 | packing undoes the unpacking of any payload |
| LogRing.KeepsRecentLines | main/mblog.c:203-266 | after every run of messages and restarts from a clean start, if at every restart the modification times tell the newest file, the files in ring order are the last lines, none cut, and at least two full files of them once a line was given up |
| LogRuns.Life | main/mblog.c:116-280 | the code over a life of starts, messages and orderly restarts from a cleaned log on leaves the files of the ring run that these are, so with telling times they are the last lines |
| LogRing.SetupResumes | main/mblog.c:131-143 | the set-up goes on at the right file if and only if that file is newer than every other one, or as new with the higher number |
| LogRing.TieLosesLine | main/mblog.c:137-143 | every run that fills three files with lines of at most 2048 octets, restarts with two of them written in the same tick of the clock and logs on, loses the line before the restart and keeps older ones |
| LogRing.TieExists | main/mblog.c:137-158 | there is such a run for every cap from the smallest to the largest |
| LogRing.FilesWithin | main/mblog.c:229-260 | each file is shorter than the cap plus one line, and one line more per restart |
| Button.PressesAreTold | components/buttonLeds/button_logic.c:184-241 | for every run, both event filter settings and every long press time the reports are those of the presses: with the filter one pair of one kind per press, without it short pairs with the long pair inside its press |
| Button.SettledLevels | components/buttonLeds/button_logic.c:167-181 | for every run of samples a level is let through exactly if it stood unbroken for the whole gap |
| Analog.StateExactly | components/adc/analog.c:440-516 | after every sample of every run the state is 1 exactly if the value has just stood at the threshold plus half the hysteresis or above for the rise lag, or the state was 1 and the value has not just stood below the threshold less half for the fall lag |
| Analog.ChangeIsConfirmed | components/adc/analog.c:456-516 | the state changes only after an unbroken streak beyond its level that spans at least the lag |
| Analog.StreakDecides | components/adc/analog.c:456-516 | after every such streak the state is the one it leads to |
| ArrivalLaw.LateIsIgnored | components/audioLAN/rtp_client_stream.c:895-918 | a packet behind the expected number, or held already, changes nothing and times nothing out |
| ArrivalLaw.NearIsHeld | components/audioLAN/rtp_client_stream.c:912-928 | a packet one to seven ahead is held, clipped, and nothing else changes while nothing waited over 40 ms |
| ArrivalLaw.FarOnEmpty | components/audioLAN/rtp_client_stream.c:973-991 | a packet eight or more ahead with nothing held counts all before it lost and is written |
| ArrivalLaw.ExpectedWithOverdue | components/audioLAN/rtp_client_stream.c:650-683 | the expected packet with one overdue behind its streak: the next gap is counted lost and the next streak written |
| PacketLaw.MalformedIsIgnored | components/audioLAN/rtp_client_stream.c:743-747 | a datagram below 12 octets or not of whole words changes nothing |
| PacketLaw.OtherStreamIsKeptOut | components/audioLAN/rtp_client_stream.c:776-792 | within a second of the tracked stream another one changes nothing but what a gap does |
| PacketLaw.OtherStreamTakesOver | components/audioLAN/rtp_client_stream.c:793-836 | from a second on it takes over, with ring and window empty, its own sync point and drift at zero |
| PacketLaw.FirstDatagramBegins | components/audioLAN/rtp_client_stream.c:807-836 | the first datagram fixes the sync point, waits for it and begins drift tracking |
| PacketLaw.SyncPointIsReached | components/audioLAN/rtp_client_stream.c:864-883 | before the sync point, by the signed 32-bit difference, nothing happens; the first datagram at or after it seeds the numbering and anchors the drift |
| PacketLaw.DriftOfOwnDatagram | components/audioLAN/rtp_client_stream.c:755-852 | a gap of over 80 ms throws window, debt and rate away, a timestamp leap of over five seconds either way window, debt and counts, and nothing else touches them |
| PacketLaw.OverflowResets | components/audioLAN/rtp_client_stream.c:685-704 | a packet the ring cannot take leaves everything empty but loss count and rate |
| PacketLaw.UnderrunSpoilsDrift | components/audioLAN/rtp_client_stream.c:1062-1078 | a playing read with fewer than 8 bytes throws an open window away; every other wait leaves the drift alone |
| DebtRuns.ReadInside | components/audioLAN/rtp_client_stream.c:1182-1231 | one read within a window: the debt grows by what is due within 5000, and drops or repeats a frame exactly if a whole sample is owed and cooldown, length, fill or room allow it |
| DebtRuns.WindowOpens | components/audioLAN/rtp_client_stream.c:1130-1143 | a window opens at the first read 15 s after tracking began, and before that nothing is corrected |
| DebtRuns.DebtGoesOver | components/audioLAN/rtp_client_stream.c:1168-1194 | the debt of one window goes over into the next |
| DebtRuns.QuietRate | components/audioLAN/rtp_client_stream.c:1182-1184 | a rate below 0.3 samples a second makes nothing due |
| DebtRuns.RawDriftIs | components/audioLAN/rtp_client_stream.c:1118-1128 | the raw drift is the samples the sender counted less those of the local clock, with timestamps that may wrap |
| DebtRuns.AtMostTenASecond | components/audioLAN/rtp_client_stream.c:1196-1197 | k corrections take at least k * 100 ms |
| SessionRuns.OpenedGood | components/audioLAN/rtp_client_stream.c:500-566 | a stream just opened meets the invariant, so all results over runs hold from there |
| SessionRuns.HappenGood | components/audioLAN/rtp_client_stream.c:739-1018 | every datagram, read and address switch keeps the invariant of the receiver |
| StreamRuns.Execute | components/audioLAN/rtp_client_stream.c:739-1232 | one packet, read or switch on the code is one event of the session, and a read hands out the block of the session read |
| SessionRuns.EmptyDatagramResets | components/audioLAN/rtp_client_stream.c:893-901 | a datagram without payload of the tracked stream, with nothing waiting, resets it if and only if its number is the expected one or eight or more ahead; the expected one always does |
| SessionRuns.RateEndsWithReset | components/audioLAN/rtp_client_stream.c:810-824 | a full reset leaves the rate, reads then wait, and the first packet sets rate and debt to zero |
| DriftRuns.DecisionIsHanded | components/audioLAN/rtp_client_stream.c:1196-1231 | the block handed out is the front of the ring with just the correction decided on |
| RateRun.RunFits | components/audioLAN/rtp_client_stream.c:618 | every datagram of that run fits the packet buffer |
| SessionRuns.OvertakingExists | components/audioLAN/rtp_client_stream.c:912-925 | datagrams that make such a run from an opened stream |
| Reorder.ArriveSound | components/audioLAN/rtp_client_stream.c:893-998 | every packet keeps order, ledger, bytes and window |
| Reorder.ArriveComplete | components/audioLAN/rtp_client_stream.c:893-998 | while nothing is counted lost, every packet heard is written or still held |
| Reorder.SeedSound | components/audioLAN/rtp_client_stream.c:864-911 | the packet that reaches the sync point seeds the numbering and is the first one written |
| Reorder.FlushSound | components/audioLAN/rtp_client_stream.c:632-648 | flushing writes exactly the run of held packets from the expected number on, leaves that number free, and counts nothing lost |
| Reorder.FarFlush | components/audioLAN/rtp_client_stream.c:929-954 | the flush before a far packet never runs past it, so the second difference is never negative |
| Reorder.FarSound | components/audioLAN/rtp_client_stream.c:929-992 | all outcomes for a packet eight or more ahead keep the invariant and count the gap |
| Reorder.ExpireSound | components/audioLAN/rtp_client_stream.c:650-683 | a timeout keeps the invariant and counts the gap it skips; without one nothing changes |
| Reorder.ExpireReleases | components/audioLAN/rtp_client_stream.c:652-683 | an expired wait always releases a packet, unless the ring is full and the stream resets |
| RtpSession.SyncPointAgreement | components/audioLAN/rtp_client_stream.c:829-832 | receivers compute the same sync point if and only if their first timestamps lie in the same period |
| RtpSession.SyncPointAhead | components/audioLAN/rtp_client_stream.c:829-836 | the sync point lies more than one and at most two periods ahead, also across the wrap of the timestamp |
| RtpSession.SwapKeepsSamples | components/audioLAN/rtp_client_stream.c:857-862 | every 16-bit sample keeps its value: big-endian on the wire, little-endian in the ring |
| RtpSession.BufferSize | components/audioLAN/rtp_client_stream.c:1353-1364 | whole words, at least 1024 bytes, in the 32-bit int of the source |
| RtpSession.BufferHoldsLatency | components/audioLAN/rtp_client_stream.c:1358-1364 | the ring has room for three times the audio of the latency if and only if the product of rate, frame size and latency is below 2^31 |
| RtpSession.BufferIsNoLarger | components/audioLAN/rtp_client_stream.c:1358-1364 | and no more than that but for the rounding |
| RtpStream.Stream.constructor | components/audioLAN/rtp_client_stream.c:1353-1372 | the ring is sized and the play threshold is half of it, the stream starts in the opened state |
| RtpStream.Stream.Header | components/audioLAN/rtp_client_stream.c:768-774 | sequence number, timestamp and SSRC are the big-endian fields of section 5.1 of RFC 3550 |
| RtpStream.Stream.Arbitrate | components/audioLAN/rtp_client_stream.c:788-808 | a second SSRC is dropped while the first was heard within a second, and resets everything after that |
| RtpStream.Stream.TrackTimestamp | components/audioLAN/rtp_client_stream.c:810-852 | the first packet sets the sync point, a jump over five seconds re-anchors the drift count |
| RtpStream.Stream.ReachSync | components/audioLAN/rtp_client_stream.c:864-883 | the sync point is reached by the first packet not before it, signed 32-bit difference |
| RtpStream.Stream.SequencePacket | components/audioLAN/rtp_client_stream.c:885-998 | seeding, sequencing, and a full reset when the ring cannot take a packet |
| RtpStream.Stream.Arrived | components/audioLAN/rtp_client_stream.c:893-998 | the branches late, next, near and far on 16-bit registers do what the lifted numbers say |
| RtpStream.Stream.TakeNext | components/audioLAN/rtp_client_stream.c:898-911 | the expected packet goes into the ring, then what waited for it |
| RtpStream.Stream.HoldPacket | components/audioLAN/rtp_client_stream.c:912-928 | an early packet goes into slot seq % 8 and overwrites no other held packet |
| RtpStream.Stream.TakeFar | components/audioLAN/rtp_client_stream.c:929-992 | skip, flush, second look, hard reset on registers refine the lifted step |
| RtpStream.Stream.SkipAhead | components/audioLAN/rtp_client_stream.c:931-952 | the gap before the first held packet is counted lost and the slots are flushed |
| RtpStream.Stream.StartOver | components/audioLAN/rtp_client_stream.c:978-991 | the hard reset counts everything up to the packet as lost and starts there |
| RtpStream.Stream.FlushPcm | components/audioLAN/rtp_client_stream.c:634-648 | the slot loop ends and equals the recursive flush, or tells overflow |
| RtpStream.Stream.MinOccupied | components/audioLAN/rtp_client_stream.c:664-674 | the signed 16-bit comparisons find the smallest held number |
| RtpStream.Stream.SkipTo | components/audioLAN/rtp_client_stream.c:675-681 | the skipped distance is added to the 32-bit loss counter and no held packet is passed |
| RtpStream.Stream.HasOld | components/audioLAN/rtp_client_stream.c:654-662 | true exactly if some held packet waited more than 40 ms |
| RtpStream.Stream.TimeoutPcm | components/audioLAN/rtp_client_stream.c:652-683 | the timeout on slots and registers refines the lifted step |
| RtpStream.Stream.FullReset | components/audioLAN/rtp_client_stream.c:481-498 | ring, slots and sync state are cleared, the drift rate stays |
| RtpStream.Stream.MayRead | components/audioLAN/rtp_client_stream.c:1036-1081 | idle, filling and playing rules, with the drift window given up on an underrun |
| RtpStream.Stream.TakeBytes | components/audioLAN/rtp_client_stream.c:1083-1089 | the read takes the front of the queue and nothing else |
| RtpStream.Stream.GiveUp | components/audioLAN/rtp_client_stream.c:980-983 | the distance is added to the 32-bit loss counter and all slots are free |
| RtpStream.Stream.Correct | components/audioLAN/rtp_client_stream.c:1106-1232 | the drift stage of a read changes drift and buffer exactly as the session read says |
| JitterRing.Ring.Write | components/audioLAN/rtp_client_stream.c:390-406 | the whole block is appended or nothing, by the free space of size - 1 - count |
| JitterRing.Ring.Read | components/audioLAN/rtp_client_stream.c:409-427 | at most size bytes leave the front of the queue in order; the rest of the destination is untouched |
| JitterRing.Ring.Count | components/audioLAN/rtp_client_stream.c:429-434 | the queue length |
| RingSchedule.StepKeeps | components/audioLAN/rtp_client_stream.c:390-427 | every single-byte step of writer or reader keeps published = handed over + queued |
| DriftClock.PacketsKeepSteady | components/audioLAN/rtp_client_stream.c:755-764 | no packet breaks the bounds and books of the drift correction |
| DriftClock.RateBound | components/audioLAN/rtp_client_stream.c:1149-1180 | after one measurement the stored rate is plausible if and only if the 32-bit slope is not the most negative number, abs() being taken to wrap |
| DriftClock.RateBoundFails | components/audioLAN/rtp_client_stream.c:1150-1162 | for every open window: 31.25 s later and 67108864 samples further or back it stores -2147483648 |
| DriftClock.PlausibleDelta | components/audioLAN/rtp_client_stream.c:1150-1153 | drift changes below 64424509 samples in a window cannot do that |
| DriftClock.OnReadSteady | components/audioLAN/rtp_client_stream.c:1113-1232 | every read keeps debt and rate bounded, corrections spaced and the byte books balanced |
| DriftClock.DebtIsPaid | components/audioLAN/rtp_client_stream.c:1196-1231 | a due correction is made as soon as nothing forbids it: the debt left is below one sample or one sample less, and debt and correction counts change together |
| DriftClock.RightDirection | components/audioLAN/rtp_client_stream.c:1091-1104 | one read: with rate and debt not negative and the drift not falling no frame is repeated, and the other way round none is dropped |
| DriftClock.EditedFrames | components/audioLAN/rtp_client_stream.c:1205-1230 | exactly the frame in the middle of the block is missing, or is there twice; all others are as read |
| DriftClock.BlockFits | components/audioLAN/rtp_client_stream.c:1205-1230 | the corrected block is a positive whole number of frames and fits |
| DriftClock.Clock.UpdateRate | components/audioLAN/rtp_client_stream.c:1146-1180 | the re-measurement in place equals the specified one |
| DriftClock.Clock.UpdateDebt | components/audioLAN/rtp_client_stream.c:1182-1194 | the debt in place equals the specified one, clamped |
| DriftClock.Clock.EditBlock | components/audioLAN/rtp_client_stream.c:1196-1231 | the memmove calls drop or repeat the frame, and the books are changed with it |
| DriftClock.Clock.AfterRead | components/audioLAN/rtp_client_stream.c:1113-1232 | the whole correction step in place equals the specified one |
| DriftClock.Clock.ReadDrift | components/audioLAN/rtp_client_stream.c:1118-1128 | sender time minus local time in samples, with 32-bit wrap-around |
| ByteArrays.SwapPairs | components/audioLAN/rtp_client_stream.c:857-862 | the in-place loop exchanges the bytes of every sample and leaves the header alone |
| UpdateProtocol.StepKeeps | main/main.c:825-933 | every step of program, boot selector and loader, and every power failure, keeps the invariant |
| UpdateProtocol.RunKeeps | bootld/src/main.c:83-129 | so does every run |
| UpdateProtocol.PackedUpload | bootld/src/main.c:130-173 | a packed file is a safe upload: no part of it is accepted |
| UpdateProtocol.LoaderInstalls | bootld/src/main.c:197-207 | a loader that finds an acceptable file, the upload or an earlier one, leaves it in the partition and gone from the store |
| UpdateProtocol.NewImageRuns | bootloader_components/main/bootloader_start.c:109-140 | a device that is off with the whole upload in its store and the loader next runs the new image two boots later |
| LoaderRun.InstallRun | bootld/src/main.c:199-204 | check, sector writes, removal and restart as protocol steps leave exactly what the loop of update_appy writes |
| LoaderRun.LoaderPanicTears | bootloader_components/main/bootloader_start.c:134-139 | the witness: one sector written, nothing of the second, the first two different |
| MoveUpdate.Storage.Copy | main/main.c:879-895 | the copy loop ends with the whole file or with an error, and every prefix it leaves is one of the protocol |
| Loader.ApplySector | bootld/src/main.c:104-115 | one turn of the loop adds one sector of the image and changes nothing behind it |
| Loader.UpdateApply | bootld/src/main.c:83-129 | afterwards the partition equals the image on its whole length, short last sector included, and is unchanged behind the last sector |
| Loader.CheckAndApply | bootld/src/main.c:197-207 | an accepted file is put in, any other leaves the partition alone |
| BootSelector.Starts | bootloader_components/main/bootloader_start.c:100-140 | the loader after power-on, brownout, watchdog and any other hardware reset, after a software restart exactly if the hint is there, never after deep sleep |
| BootSelector.RtcRegister.SelectedBootPartition | bootloader_components/main/bootloader_start.c:109-140 | so does the code, on a sound table with a loader; the hint is used up |
| LoaderRun.BootUp | bootloader_components/main/bootloader_start.c:109-140 | the boot selector on its register is the boot step of the update protocol |
| UpdateFile.CheckValue | bootldsd/bin2fw.c:56-94 | the checksum of the digits 1 to 9 is 0xCBF43926 |
| UpdateFile.ContainerLayout | bootld/src/update.h:14-21 | where magic, size, checksum, platform, version and image are in a packed file, and in which order of octets |
| UpdateFile.Pack | bootldsd/bin2fw.c:66-97 | the packing loop writes the container of the image |
| UpdateFile.HeadRoundTrip | bootld/src/update.h:14-21 | the packed little-endian header reads back as it was written |
| UpdateFile.CheckFileCrc | bootld/src/main.c:63-80 | the chunked check accepts exactly the right checksum |
| UpdateFile.UpdateCheck | bootld/src/main.c:130-173 | accepted if and only if size, platform and CRC fit |
| UpdateFile.PackedIsAccepted | bootldsd/bin2fw.c:78-94 | every packed image passes the check and is found again behind the header |
| UpdateFile.PrefixIsRefused | bootld/src/main.c:144-163 | no unfinished copy of a packed file passes the check |
| Crc32.TableEntry | bootldsd/bin2fw.c:10-54 | each of the 256 table entries is eight bit steps of the reflected polynomial 0xEDB88320 (section 8 of RFC 1952) |
| Crc32.Crc32Buf | bootldsd/bin2fw.c:56-64 | the loop computes the bitwise CRC |
| Crc32.DamageChangesCrc | bootld/src/main.c:63-80 | one changed octet anywhere changes the CRC |
| FlashCache.RawReadAgrees | bootld/boards/board_flash.c:72-75 | it shows the cached view if and only if the cached line does not differ in the range |
| FlashCache.Cache.LineMatches | bootld/boards/board_flash.c:83-97 | the verify loop tells whether the flash holds the line |
| LedFronts.CycleSpends | components/buttonLeds/button_ledBar.c:214-249 | one cycle spends exactly the increment on each front, never overshoots, never retreats |
| LedFronts.EverConverges | components/buttonLeds/button_ledBar.c:217-249 | the target is reached at all if and only if no falling LED stands before a rising one |
| LedFronts.Frozen | components/buttonLeds/button_ledBar.c:229-245 | a falling LED before a rising one: neither ever moves again |
| LedBar.SettlesOnTime | components/buttonLeds/button_ledBar.c:278-298 | a bar left alone shows its position after n refreshes exactly under that condition |
| LedBar.LimitsKeepFrontsApart | components/buttonLeds/button_ledBar.c:282-296 | within the brightness limits the fronts never block each other |
| LedBar.DoKeepsShape | components/buttonLeds/button_ledBar.c:256-298 | with the limits in order, one LED or one position, every command and every refresh keeps brightness and target falling along the bar |
| LedBar.TargetShape | components/buttonLeds/button_ledBar.c:279-296 | the target falls along the bar if and only if the limits are in order or the edge is at an end |
| LedBar.TargetGrows | components/buttonLeds/button_ledBar.c:279-296 | a higher position darkens no LED |
| LedBar.LastEnableTells | components/buttonLeds/button_ledBar.c:387-397 | after every run the bar is on as the last enable said, turned over once per toggle since |
| LedBar.LastPositionTells | components/buttonLeds/button_ledBar.c:403-407 | and at the position asked for last, held between 0 and the highest |
| LedBar.LastIncrementTells | components/buttonLeds/button_ledBar.c:408-412 | the increment is the one asked for last by its lower 16 bits, held between 1 and 255 |
| LedBar.OffFades | components/buttonLeds/button_ledBar.c:262-277 | n refreshes after switching off every LED is n increments darker, but not below the lower limit |
| LedBar.PlacesInOrder | components/buttonLeds/button_ledBar.c:309-316 | LED 0 is at the offset and the others follow around the ring forward, reversed just before it and backward |
| LedBar.PlacesDiffer | components/buttonLeds/button_ledBar.c:309-316 | offset and direction give every LED its own pixel |
| LedBar.FrozenBar | components/buttonLeds/button_ledBar.c:217-249 | the run that freezes four LEDs with limits 10 and 255 at the usual increment |
| LedBar.LimitsSettle | components/buttonLeds/button_ledBar.c:256-298 | a bar within its limits stays within them and settles after every run of commands |
| LedBar.TargetEnds | components/buttonLeds/button_ledBar.c:279-296 | position 0 shows all LEDs at the lower limit, the last position all at the upper |
| LedDevice.Device.LedBarStep | components/buttonLeds/button_ledBar.c:217-249 | the two loops in place are one cycle |
| LedDevice.Device.FadeOut | components/buttonLeds/button_ledBar.c:262-277 | all LEDs fade together, not below the lower limit |
| LedDevice.Device.Recalculate | components/buttonLeds/button_ledBar.c:279-296 | the target loop gives full, partial and low LEDs of the position, the edge in exact arithmetic |
| LedDevice.Device.Update | components/buttonLeds/button_ledBar.c:256-298 | the refresh in place is the specified one |
| LedDevice.Device.Render | components/buttonLeds/button_ledBar.c:309-322 | every LED's pixel gets the three colour octets at its brightness, through the gamma table |
| LedDevice.Scaled | components/buttonLeds/button_ledBar.c:317-320 | a colour component shows its share of 255, cut off |
| LedDevice.Perform | components/buttonLeds/button_ledBar.c:385-414 | the code over a list of commands and refreshes is the run of the bar |
| LedDevice.Device.Execute | components/buttonLeds/button_ledBar.c:387-413 | enable, toggle, position and increment as the command says, position clamped, increment cut to 16 bits and then clamped |
| PollReply.Registry.FindUniverse | components/artNet/artNet_common.c:86-94 | finds the entry in use, or there is none |
| PollReply.Registry.ClaimUniverse | components/artNet/artNet_common.c:97-128 | an entry for the universe, changing at most one free place; none if the registry is full or memory is short |
| PollReply.Registry.Subscribe | components/artNet/artNet_common.c:130-167 | the slot is listed once, all other subscribers and entries stay, universes stay distinct; it fails only if memory is short, the universe has four other subscribers or all entries are in use for others |
| PollReply.Registry.Unsubscribe | components/artNet/artNet_common.c:169-191 | the slot leaves that universe, nothing else changes |
| PollReply.CollectGroup | components/artNet/artNet_common.c:383-394 | up to four universes with the same upper bits, none announced before, none left out while there is room |
| Crsf.Refill | components/CRSF/CRSF.c:50-55 | taking octets in keeps the number made of bits held and octets ahead |
| LogRing.AppendKeeps | main/mblog.c:229-260 | a message and the rotation keep the ring |
| LogRing.ResumeKeeps | main/mblog.c:124-144 | a restart with telling times loses no line |
| LogRing.FindNewest | main/mblog.c:131-143 | the loop finds the last of the newest files, or none |
| LogRing.CapAsPromised | main/mblog.c:146-158 | the cap is the documented share if and only if the sum, taken to wrap at 32 bits, does no harm |
| LogRing.CapFallsToFloor | main/mblog.c:151-157 | the free space for which it does |
| LogRuns.Live | main/mblog.c:116-280 | one start without cleaning, its messages and the closing are a restart of the ring and its lines; a start without messages changes nothing |
| LogRing.Logger.Setup | main/mblog.c:116-161 | cleaning leaves three empty files and begins with the first; otherwise no file is touched and the log goes on with the newest, or the first if there is none |
| LogRing.Logger.Flush | main/mblog.c:182-191 | everything written is on the card |
| LogRing.Logger.Log | main/mblog.c:203-266 | the ring takes the line; errors and lines after five quiet seconds are on the card at return; never are 2048 bytes or more at risk |
| LogRing.RisingTimesTell | main/mblog.c:112-115 | modification times that rise in ring order tell |
| Button.Debouncer.Debounce | components/buttonLeds/button_logic.c:148-182 | one step of the filter; without a gap every level passes |
| Button.PressLogic.Update | components/buttonLeds/button_logic.c:184-241 | one sample changes flags and reports as the machine says |
| Button.FilterAll | components/buttonLeds/button_logic.c:148-182 | the code over a run of levels lets through what the filter says |
| Button.WatchAll | components/buttonLeds/button_logic.c:184-241 | the code over a run of samples reports what its presses are to be told as |
| Button.StoryIsFaithful | components/buttonLeds/button_logic.c:184-241 | every run of samples is a run of presses |
| Analog.Channel.ProcessSample | components/adc/analog.c:456-517 | one sample changes the state as the automaton says and reports exactly the changes; what is pending is always the opposite state |
| Analog.Follow | components/adc/analog.c:440-516 | the code over a run of samples reports as the automaton does |
| Analog.TicksSuffice | components/adc/analog.c:484-502 | the wrapping 32-bit tick counter gives the same states as true time |
| Analog.ReportsAlternate | components/adc/analog.c:442-512 | reported values alternate and end in the state |

## Left out

- Sockets, multicast groups, audio pipelines, tasks, queues, locks and log output: foreign calls.
- Races on the ring indexes below the byte steps of `RingSchedule`, and a full reset from another task during a read: packets and reads are atomic.
- Sample widths other than 16-bit stereo, and read lengths that are not a multiple of 4.
- `last_seq`, `last_packet_time`, statistics and log throttles of the receiver: nothing reads them in the modelled part.
- RtpStream.Stream.Drain: a new start of the receiving task with `last_recv_us` set afresh is not modelled; `Stream.constructor` sets it once.
- I/O errors that go unnoticed: the update code takes a failing `fread` for the end of the file and ignores the results of erasing, writing, closing and removing; files and flash are assumed to do what the calls say.
- Loader.UpdateApply: the case that no buffer can be allocated or no program partition is found, in which the source returns without writing.
- UpdateFile.CheckFileCrc: the case that no buffer can be allocated, in which the source compares with zero.
- The atomicity of the FAT directory: closing and removing a file are single steps, and formatting the internal storage on a failed mount is not modelled.
- Deep sleep and a missing loader partition in the protocol runs (the boot selector itself covers both), a failing image check inside the IDF bootloader library, and the two partition-table errors behind it.
- The newer loader under bootldsd/loader is not part of this model; bootldsd/bin2fw.c includes its loader/main/update.h, which is missing, so the header of bootld/src/update.h is used.
- NorFlash.Flash.Write: the partition calls and `esp_crc32_le` are specified by their documented effect, programming as bitwise AND, erasing as 0xFF, the CRC with inversion before and after.
- FlashCache.Cache.Write: a write that crosses a 64 KiB line runs past the buffer in the source and is excluded.
- LedDevice.Device.Recalculate: the filled length is exact arithmetic where the source uses a float.
- The values of the gamma table, colour fading and the other LED effects would add only easy members.
- The remaining fields of a poll reply, live status of ports, and sending.
- Double clicks and the switch mode of the button, and its initial report.
- The smoothing of analog values: the filtered value is an input; the report mode without threshold.
- Log: text formatting, a failing `fopen` or `fprintf`, lines cut by a power failure (at most 2047 bytes, `Logger.Log`), one clock reading per call; the same for `Channel.ProcessSample`.
- FTP, USB, network bring-up, player, sensors, motor control, options and reports: drivers and glue.
