# VDR audio-CD player plugin, modelled in Dafny

This project models the core of an early VDR plugin that plays audio CDs.
A reader thread (`cBufferedCdio`) opens the drive and builds the list of
audio tracks with their CD-Text. It then reads the sectors of one track
after another into a block ring buffer (`cCdIoRingBuffer`, guarded by two
`cAllowed` gates). The player thread (`cCdPlayer`) takes sectors out of
the buffer, cuts each 2352-byte sector into four 588-byte chunks, wraps
each chunk into an MPEG-2 PES packet with a DVD LPCM sub-header
(`cPesAudioConverter`) and hands it to the output device. Around them sit:

- the remote-control key dispatch (`cCdControl::ProcessKey`);
- track and disc information with playing-time arithmetic (`cTrackInfo`,
  `cCdInfo`, `cCddbInfo`);
- parsing of the plugin's setup values (`cMenuCDPlayer::SetupParse`).

Modules, one file each:

| file | module | models |
|---|---|---|
| wrappers.dfy | Wrappers | `Option` |
| clib.dfy | CLib | the C library pieces the core relies on: truncating `/`, `atoi`, `strcasecmp` |
| ringbuf.dfy | RingBuf | `cAllowed`, `cCdIoRingBuffer` |
| bytes.dfy | Bytes | the `& 0xFF` and `(>> 8) & 0xFF` byte split of a length field |
| pes.dfy | PesAudio | `PES_PCM_STREAM_T` and its byte image, `cPesAudioConverter` |
| cdiotrack.dfy | CdioTrack | the `cTrackInfo` of bufferedcdio.h |
| bufferedcdio.dfy | BufferedCdio | `cBufferedCdio` over a modelled disc |
| cdinfo.dfy | CdInfo | the `cTrackInfo`, `cCddbInfo` and `cCdInfo` of cdinfo.h |
| cdcontrol.dfy | CdControl | `cCdControl::ProcessKey`, `cCdPlayer` |
| cdmenu.dfy | CdMenu | the setup values and `SetupParse` |

The two threads are run one at a time. Each one sees the other threads,
and the operating system, as a script of inputs.

- **Reader.** The script is a sequence of `Tick`s. One tick is consumed
  after each `PutBlock` and one after each `ReadTrack`. A tick holds an
  optional `SetTrack` call made by another thread and the answer of
  `Running()`. Past the end of the script, `Running()` is false.
- **Full ring buffer.** When `PutBlock` would wait because the ring is
  full, the model has the player remove the oldest block first. The
  removed blocks are recorded in `delivered`, so
  `delivered + ring contents` is everything the reader has produced.
- **Player.** The script is a sequence of `PlayStep`s: the result of
  `DevicePoll`, the result of `PlayPes` and the answer of `Running()`. The
  blocks `GetData` returns are given as a sequence; `GetData` fails after
  the last one.
- **libcdio.** It is a `Disc` value. It holds the track table (first
  track number, and start sector, last sector and format per track), the
  CD-Text records, and the sectors that read successfully with their
  bytes.

The `WaitAllow` calls of the ring buffer become preconditions: the gate is
open.

Facts about the code that the model keeps as they are:

- `SetData` copies the payload with `memcpy`, without swapping the bytes
  of the samples (pes_audio_converter.cc:30).
- `SetData` always writes the sample byte `PCM_FREQ_44100 | PCM_CHAN2`
  (pes_audio_converter.cc:28). So the frequency that `SetFreq` stores is
  never read.
- `cAllowed::WaitAllow` waits until the gate opens, with no timeout
  (cdioringbuf.h:27-32). The "Timeout" message of `GetData`
  (bufferedcdio.cc:74-77) can only follow a `GetBlock` that fails, and the
  model's `GetBlock` does not fail.
- `OpenDevice` returns true after any successful open, with or without an
  audio track on the disc (bufferedcdio.cc:94-112).
- `ReadTrack` reads while the sector number is below the value of
  `cdio_get_track_last_lsn` (bufferedcdio.cc:102, 122). So the sector
  libcdio reports as the track's last one is never read.
- `cCdPlayer::Action` ignores the result of `OpenDevice`
  (cd_control.cc:155-156). The reader's `Action` then runs with no handle
  and an empty track list: it only clears the ring and sets the index to 0.
- pes_audio_converter.cc writes `m_pes_pcm_stream` and `m_peslen`, while
  the class declares `mPesPcmStream` and `mPeslen`. They are taken to be
  the same fields.
- The 5-argument `cTrackInfo` constructor and `cCdInfo::Add` declared in
  cdinfo.h are defined in cdinfo.cc with 3 arguments. The definitions are
  modelled.

## Model

| member | source | states |
|---|---|---|
| RingBuf.Allowed.constructor | cdioringbuf.h:12 | a new gate is open |
| RingBuf.Allowed.Allow | cdioringbuf.h:13-19 | the gate is open afterwards, whatever it was before, so applying it twice is the same as once |
| RingBuf.Allowed.Deny | cdioringbuf.h:20-26 | the gate is closed afterwards, whatever it was before |
| RingBuf.NextIdx | cdioringbuf.cc:54-57 | an index in 0..mBlocks moves to the next one, wrapping to 0 after mBlocks, so it stays in 0..mBlocks; it is the successor modulo mBlocks+1 |
| RingBuf.StorageBlocks | cdioringbuf.cc:14 | the corrected allocation has a slot for every index the cycle reaches, the index after any valid index included |
| RingBuf.PutIdxAfter | cdioringbuf.cc:50-57 | the put index after n puts from a cleared buffer stays in 0..mBlocks |
| RingBuf.PutIdxCounts | cdioringbuf.cc:54-57 | up to mBlocks puts from a cleared buffer leave the put index equal to the number of puts |
| RingBuf.AsWrittenPutOverflows | cdioringbuf.cc:14-58 | with the allocation as written, after mBlocks puts without a get the put gate is still open and the next put writes a slot that ends past the allocated bytes |
| RingBuf.RingBuffer.constructor | cdioringbuf.cc:12-24 | both indices 0, contents empty, get denied, put allowed, gate invariant established |
| RingBuf.RingBuffer.GetBlock | cdioringbuf.cc:31-46 | the buffer was non-empty and the block returned is its oldest one, which is removed (FIFO); the get index advances with wrap; put is allowed; get stays allowed exactly when the indices differ; the gate invariant (get allowed iff non-empty, put allowed iff not full) is kept |
| RingBuf.RingBuffer.PutBlock | cdioringbuf.cc:48-63 | the block is appended at the end of the contents; the put index advances with wrap; get is allowed; put stays allowed exactly when the indices differ; the gate invariant is kept |
| RingBuf.RingBuffer.Clear | cdioringbuf.cc:65-73 | the contents are empty, so no earlier block can be taken; both indices are 0; get denied, put allowed |
| PesAudio.SampleByte | pes_audio_converter.h:41-51 | `freq \| chan` can be decoded back into the frequency and the channel count |
| PesAudio.CdSampleByte | pes_audio_converter.cc:28 | the sample byte written is 0x21 and decodes to 44.1 kHz, two channels |
| PesAudio.Pack | pes_audio_converter.h:54-94 | the packed structure is exactly PES_MAX_PACKSIZE bytes |
| PesAudio.Unpack | pes_audio_converter.h:54-94 | reading a 4096-byte image field by field gives a structure with a full payload |
| PesAudio.PackLayout | pes_audio_converter.h:54-94 | the payload starts at offset 16 = 9 + 7, header and payload fill the 4096 bytes, and unpacking a packed structure gives it back |
| PesAudio.PackUnpack | pes_audio_converter.h:54-94 | packing an unpacked image gives the same bytes |
| PesAudio.StreamOf | pes_audio_converter.cc:7-32 | the structure SetData leaves behind has a full-size payload |
| PesAudio.Image | pes_audio_converter.cc:7-32 | the image SetData leaves behind is 4096 bytes |
| PesAudio.PacketLengthValue | pes_audio_converter.cc:9 | the `len` written into the length field is the payload length plus 10 |
| PesAudio.PesLen | pes_audio_converter.cc:31 | the packet length is the payload length plus 16, i.e. the payload offset plus the payload, and 6 more than the length field's value |
| PesAudio.MaxPayloadFits | pes_audio_converter.h:22-26 | PES_MAX_PAYLOAD is 4080, and for every accepted length the packet-length value fits the two length bytes and the packet fits the image |
| PesAudio.ImageHeader | pes_audio_converter.cc:18-29 | the image starts 00 00 01 BD, bytes 6..8 are 80 00 00, and the LPCM header is A0 FF 00 00 00 21 80 |
| PesAudio.ImageLengthField | pes_audio_converter.cc:9-31 | the two length bytes, high byte first, encode length + 10, which is the packet length minus 6 |
| Bytes.LowByte | pes_audio_converter.cc:20 | `len & 0xFF`: the byte's value is the value modulo 256 |
| Bytes.HighByte | pes_audio_converter.cc:21 | `(len >> 8) & 0xFF`: the byte's value is the value divided by 256, modulo 256 |
| Bytes.SplitBytes | pes_audio_converter.cc:20-21 | the high and low byte of a 16-bit value recombine to it |
| Bytes.ByteValue | pes_audio_converter.cc:20-21 | the byte stored for a value below 256 has that value |
| PesAudio.ImagePayload | pes_audio_converter.cc:11-30 | the payload bytes equal the input verbatim and every byte after them is 0 |
| PesAudio.ImageOversized | pes_audio_converter.cc:11-16 | a payload longer than PES_MAX_PAYLOAD leaves an all-zero image |
| PesAudio.ParseImage | pes_audio_converter.cc:7-32 | parsing the first GetPesLength() bytes of the image as a PES/LPCM packet gives back exactly the payload |
| PesAudio.PesAudioConverter.constructor | pes_audio_converter.cc:34-38 | the image is all zeros and the PES length is 0 |
| PesAudio.PesAudioConverter.SetData | pes_audio_converter.cc:7-32 | the array holds Image(length, payload); the PES length becomes length + 16, or is unchanged for an oversized payload; the frequency is unchanged |
| PesAudio.PesAudioConverter.ZeroImage | pes_audio_converter.cc:11 | every byte of the image is 0 |
| PesAudio.PesAudioConverter.WriteHeader | pes_audio_converter.cc:18-29 | the 16 header bytes of a packet of the given length are written and the payload area stays zero |
| PesAudio.PesAudioConverter.WritePesHeader | pes_audio_converter.cc:18-24 | the 9 PES header bytes of a packet of the given length are written, with the length field high byte first, and nothing after them changes |
| PesAudio.PesAudioConverter.WriteLpcmHeader | pes_audio_converter.cc:26-29 | the LPCM header bytes are written, the PES header is unchanged and the payload area stays zero |
| PesAudio.PesAudioConverter.SetFreq | pes_audio_converter.h:105 | the frequency becomes the new one and the PES length is unchanged |
| PesAudio.PesAudioConverter.GetPesLength | pes_audio_converter.h:106 | the PES length lies within the image |
| PesAudio.PesAudioConverter.GetPesData | pes_audio_converter.h:107 | the data exposed is the whole 4096-byte image |
| CLib.TruncDiv | cdinfo.h:49 | C division rounds toward zero: the remainder has the sign of the dividend and is smaller than the divisor |
| CLib.DigitChar | cdmenu.cc:45 | each digit value has a character that reads back as it |
| CLib.SkipSpace | cdmenu.cc:45 | atoi's leading white space is removed: the result is a suffix that does not start with a space, and everything removed is white space |
| CLib.DigitPrefix | cdmenu.cc:45 | the longest run of digits at the start: a prefix made of digits, followed by the end or a non-digit |
| CLib.NatToDecimal | cdmenu.cc:45 | a decimal numeral is non-empty and made of digits |
| CLib.DecimalValueOfNat | cdmenu.cc:45 | the numeral of n has the value n |
| CLib.DigitPrefixOfDigits | cdmenu.cc:45 | the digit run of digits followed by a non-digit is exactly those digits |
| CLib.UnsignedOfDigits | cdmenu.cc:45 | the digits at the start of a numeral followed by a non-digit have the numeral's value |
| CLib.NoSpaceToSkip | cdmenu.cc:45 | atoi skips nothing in front of a digit or a minus sign |
| CLib.SignedOfDigitStart | cdmenu.cc:45 | text starting with a digit has no sign, so it reads as its leading digits |
| CLib.AtoiOfDigits | cdmenu.cc:45 | atoi of a numeral followed by a non-digit is the numeral's value |
| CLib.AtoiOfNegative | cdmenu.cc:45 | atoi of a minus sign, a numeral and a non-digit is minus the numeral's value |
| CLib.Atoi | cdmenu.cc:45 | atoi: text that, after white space, starts with neither a digit nor a sign reads as 0, and only a leading '-' gives a negative value |
| CLib.AtoiReadsDecimal | cdmenu.cc:45 | atoi reads back any integer written in decimal, whatever non-digit text follows |
| CLib.ToLower | cdmenu.cc:44 | tolower in the C locale: the result is never an upper-case letter, it is a lower-case letter exactly when the input is a letter, and a non-upper-case character is unchanged |
| CLib.StrCaseEqual | cdmenu.cc:44 | strcasecmp(a, b) == 0: equal strings compare equal, and strings that compare equal have the same length |
| CLib.StrCaseEqualMeans | cdmenu.cc:44 | strcasecmp reports equality exactly when the strings have the same length and agree character by character after tolower |
| CdMenu.SetupNamesExclusive | cdmenu.cc:44-55 | no name matches two of the three setup names, so the order of the tests does not matter |
| CdMenu.Settings.constructor | cdmenu.cc:19-26 | the maximum speed is 8, the main-menu entry is shown, and paranoia is on exactly when built with USE_PARANOIA |
| CdMenu.Settings.SetupParse | cdmenu.cc:41-60 | the result is true exactly for the three names, compared ignoring case; MaxCDSpeed takes the parsed value clamped to at least 1; EnableParanoia and EnableMainMenu take the parsed value unclamped; each recognised name changes only its own field, and any other name changes nothing |
| CdioTrack.TrackInfo.GetCDDATrack | bufferedcdio.h:34 | accessor: the stored track number |
| CdioTrack.TrackInfo.GetCDDAStartLsn | bufferedcdio.h:35 | accessor: the stored start sector |
| CdioTrack.TrackInfo.GetCDDAEndLsn | bufferedcdio.h:36 | accessor: the stored end sector |
| CdioTrack.DefaultTrackInfo | bufferedcdio.h:31-36 | the getters of a default track report track 0 over sectors 0..0, with no CD-Text |
| CdioTrack.NewTrackInfo | bufferedcdio.h:32-36 | the getters report track 0 and the bounds exactly as given, with no CD-Text yet |
| CdInfo.TrackInfo.GetTimeSecs | cdinfo.h:49 | the whole seconds of the track, truncated toward zero: for end >= start, r seconds of 75 sectors fit in the track and r + 1 do not; for end < start, the mirror image with r <= 0 |
| CdInfo.TrackInfo.GetCDDATime | cdinfo.cc:28-33 | minutes times 60 plus seconds is GetTimeSecs(), which is (end - start) / 75 for end >= start; for a non-negative time the seconds lie in 0..59 and the minutes are non-negative; C's truncation makes both non-positive for a negative time |
| CdInfo.DefaultTrackInfo | cdinfo.h:39 | track 0 over sectors 0..0, so zero playing time |
| CdInfo.NewTrackInfo | cdinfo.cc:19-26 | track 0, the bounds as given, and every one of the 13 text fields copied unchanged |
| CdInfo.CddbInfo.GetCDDALba | cdinfo.h:60 | accessor: the stored LBA |
| CdInfo.DefaultCddbInfo | cdinfo.h:58 | the LBA is 0 |
| CdInfo.NewCddbInfo | cdinfo.h:59-60 | the LBA is the one given |
| CdInfo.CdInfo.constructor | cdinfo.h:83 | no tracks, and no CDDB information available |
| CdInfo.CdInfo.Clear | cdinfo.h:86-88 | the track list is empty, so GetNumTracks() is 0; nothing else changes |
| CdInfo.CdInfo.Add | cdinfo.cc:38-42 | exactly one track with the given bounds and text is appended after the existing ones, and nothing else changes |
| CdInfo.CdInfo.SetLeadOut | cdinfo.h:93 | only the lead-out changes |
| CdInfo.CdInfo.GetNumTracks | cdinfo.h:100-102 | the size of the track list, never negative |
| CdInfo.CdInfo.GetStartLsn | cdinfo.h:103-105 | accessor: the start sector of the selected track |
| CdInfo.CdInfo.GetEndLsn | cdinfo.h:106-108 | accessor: the end sector of the selected track |
| CdInfo.CdInfo.CDDBInfoAvailable | cdinfo.h:112-114 | accessor: the stored availability flag |
| CdInfo.CdInfo.InvalidTrackIdxIsNoTrack | cdinfo.h:27 | INVALID_TRACK_IDX is never a valid track index, whatever the list holds |
| CdInfo.CdInfo.GetTrackTime | cdinfo.h:109-111 | the minutes and seconds of a track recombine to its truncated playing time in seconds |
| BufferedCdio.GetCdTextField | bufferedcdio.cc:33-39 | the table has MAX_CDTEXT_FIELDS + 1 entries; a field number below 13 gives its table entry, and the result is "Invalid" exactly for numbers of 13 and above |
| BufferedCdio.AudioTracksExactly | bufferedcdio.cc:99-111 | the track list holds one entry per table row with audio format and a valid start sector, and no other, in ascending row order |
| BufferedCdio.CommandedInSuffix | bufferedcdio.cc:164-171 | a SetTrack call made in a later part of the script is a call made in the script |
| BufferedCdio.CommandedInLater | bufferedcdio.cc:164-171 | a SetTrack call made in the remaining script was made in the whole script |
| BufferedCdio.RunningInSuffix | bufferedcdio.cc:128 | the next Running() answer of the remaining script is the answer at that point of the whole script |
| BufferedCdio.AsWrittenSetTrackAcceptsNegative | bufferedcdio.cc:164-171 | the guard as written accepts track index -1, which is not a valid index for any track list, while the corrected guard rejects it |
| BufferedCdio.BufferedCdio.constructor | bufferedcdio.cc:21-26 | no device, track index 0, empty track list and CD-Text, an empty ring of CCDIO_MAX_BLOCKS blocks |
| BufferedCdio.BufferedCdio.GetTrackInfo | bufferedcdio.h:63-65 | accessor: the entry of the track list at a valid index; the source does not check the index, so the model requires it |
| BufferedCdio.BufferedCdio.GetNumTracks | bufferedcdio.h:66-68 | the size of the track list, never negative |
| BufferedCdio.BufferedCdio.GetCDText | bufferedcdio.cc:41-54 | with no CD-Text the map is unchanged; otherwise the keys afterwards are the old ones plus the non-NULL fields, those fields take the disc's text, and every other key keeps its value |
| BufferedCdio.BufferedCdio.CloseDevice | bufferedcdio.cc:56-65 | an open handle is destroyed; CD-Text and track list are empty, the ring is cleared and the track index is 0 |
| BufferedCdio.BufferedCdio.GetData | bufferedcdio.cc:67-83 | it succeeds exactly when a device handle is set; with none, the data and the ring are untouched; otherwise the oldest block is removed and returned |
| BufferedCdio.BufferedCdio.AddTrack | bufferedcdio.cc:100-110 | one row of the track table is looked at: an audio row with a valid start sector appends its track, with its CD-Text, to the list; any other row changes nothing |
| BufferedCdio.BufferedCdio.OpenDevice | bufferedcdio.cc:85-113 | it succeeds exactly when the drive opens, even with no audio track; on success the first-track number and track count are the drive's, the disc CD-Text is read, the track list is the audio selection of the whole table, and the ring is cleared |
| BufferedCdio.BufferedCdio.SetTrack | bufferedcdio.cc:164-171 | with the corrected guard, an index in 0..GetNumTracks() becomes the current one and raises the change flag; any other changes nothing |
| BufferedCdio.BufferedCdio.Push | bufferedcdio.cc:126 | the block is appended to what the reader has produced, in order |
| BufferedCdio.BufferedCdio.Step | bufferedcdio.cc:128-133 | one tick: Running() is read from the script, and a SetTrack call in it takes effect as SetTrack does |
| BufferedCdio.BufferedCdio.ReadTrack | bufferedcdio.cc:115-136 | the sectors put are start, start+1, ... in that order, all readable, never reaching end, and they are appended byte for byte to what the reader has produced; true means the end was reached or a track change came after a put; false means a sector failed to read (and was not put) or Running() turned false after a put |
| BufferedCdio.BufferedCdio.ReadAndStep | bufferedcdio.cc:149-154 | one pass of the outer loop: if ReadTrack succeeds and the thread keeps running, some of the script was consumed; a raised change flag names an accepted index that some SetTrack call gave |
| BufferedCdio.WalkExtend | bufferedcdio.cc:147-160 | appending a valid next index to a track walk gives a track walk: it still starts at 0, each index is the previous plus one or one a SetTrack call gave, and without any SetTrack call the walk is 0, 1, 2, ... |
| BufferedCdio.BufferedCdio.ActionRound | bufferedcdio.cc:148-160 | one round of the loop: the track read is appended to the walk, which stays valid; the loop goes on only when ReadTrack succeeded and Running() held, with some of the script consumed; then without a track change the index moves on by exactly one, and after one the ring is empty with the gates reset and the index is one a SetTrack call gave |
| BufferedCdio.BufferedCdio.Action | bufferedcdio.cc:142-162 | the tracks read are all valid indices, starting at 0; each next one is the previous plus one, or an index some SetTrack call gave; without any SetTrack call they are 0, 1, 2, ...; the final index lies in 0..GetNumTracks(); no track is read exactly when the list is empty, and then the ring is cleared and the index is 0 |
| CdControl.ProcessKey | cd_control.cc:22-53 | osEnd exactly for kOk, kMenu and kStop, which call Stop; kRight and kNext call NextTrack, kLeft and kPrev call PrevTrack, and kFastFwd, kFastRew and kPlay call a speed change, all with osContinue; every other key calls nothing |
| CdControl.ChunkSize | cd_control.cc:153 | a chunk is 588 bytes, four of them make a 2352-byte sector, and it fits the PES payload |
| CdControl.Chunk | cd_control.cc:166 | chunk i is the 588 bytes at offset i * 588 |
| CdControl.ChunksCoverSector | cd_control.cc:163-174 | the four chunks, in order, are exactly the sector: they cover it with no overlap |
| CdControl.PacketCarriesChunk | cd_control.cc:165-168 | a chunk's packet is 604 bytes and parses back to exactly that chunk |
| CdControl.StepPlays | cd_control.cc:164-173 | a successful poll plays the next chunk and advances the chunk index |
| CdControl.StepIdles | cd_control.cc:164-178 | a failed poll plays nothing and leaves the chunk index |
| CdControl.StopAfterPlay | cd_control.cc:169-177 | a PlayPes error, or Running() turning false after a play, ends the run with that reason |
| CdControl.StopIdle | cd_control.cc:175-177 | Running() turning false after a failed poll ends the run |
| CdControl.PlayedPacketsCarryAudio | cd_control.cc:157-180 | every packet played parses back to the chunk of the same number |
| CdControl.CdPlayer.constructor | cd_control.cc:57-67 | the speed index is 0, which selects PCM_FREQ_44100 from the three-entry table |
| CdControl.CdPlayer.Convert | cd_control.cc:165-168 | the bytes handed to PlayPes are the packet of the chunk |
| CdControl.CdPlayer.PlaySector | cd_control.cc:162-179 | the four chunks of one sector are played in order, each once, the index advancing only on a successful poll, unless PlayPes fails or Running() turns false first |
| CdControl.CdPlayer.Action | cd_control.cc:145-181 | the packets played are those of the chunks in sector and chunk order, one per successful poll; the run ends when GetData has no more sectors, when PlayPes fails, or when Running() turns false; every packet parses back to its chunk |

## Left out

- Threads are not modelled: `cThread`, the mutexes, and the `cCondVar` waiting inside `cAllowed`. The threads are run one at a time against the input scripts described above. `WaitAllow` becomes the precondition that the gate is open; RingBuf.Allowed.WaitAllow has no contract beyond that.
- libcdio (`cdio_open`, `cdio_read_audio_sectors`, the track, format and CD-Text queries, `cdio_destroy`) is the `Disc` value and `Handle`. Error values of `cdio_get_num_tracks` are not modelled: the track count is the table length.
- `track_t` is an 8-bit type. Track numbers are unbounded integers here.
- `lsn_t` is a 32-bit signed type. Sector numbers are unbounded integers here, so `currlsn++` in `ReadTrack` cannot wrap.
- CLib.Atoi: overflow, which C leaves undefined for `atoi`, is not modelled; the value is unbounded. The setup fields of `SetupParse` (cdmenu.cc:45-55) are C `int`s in the source and unbounded integers here.
- BufferedCdio.BufferedCdio.constructor: the source never initialises `mTrackChange` (bufferedcdio.cc:21-26). The model starts it false. Nothing reads it before `Action` sets it.
- Logging (`esyslog`, `dsyslog`, `printf`) and `tr()` are left out. The CD-Text field names are the untranslated strings.
- Device and file I/O is left out: `LoadStillPicture`, `DisplayStillPicture`, `Activate`, `DevicePoll`, `PlayPes` and `DevicePlay`. Their results are script inputs.
- cdplayer.cc, cdplayer.h, service.h, cd_control.h and cdmenu.h hold plugin lifecycle code, declarations and a service struct, with no logic to model.
- The `cMenuCDPlayer` constructor and `Store` build OSD menu items and call VDR's setup store. They are not modelled.
- `SpeedFaster`, `SpeedSlower`, `SpeedNormal`, `NextTrack`, `PrevTrack` and `Stop` of `cCdPlayer` are not defined in the code. ProcessKey returns which of them it calls.
- `cCdInfo::Action` (the CDDB query) is an empty stub. `AddData`, `SetCdTextFields`, `GetCdTextFields`, `SetCdInfo` and `GetCdInfo` are declared but not defined. None of them is modelled.
- `mLba` of cdinfo.h's `cTrackInfo` is never initialised by a defined constructor, so it is left out. `mLeadOut` is uninitialised until `SetLeadOut`.
- Destructors are not modelled. The default `cCdIoRingBuffer()` constructor, which nothing uses, is not modelled either.
- The `exit(-1)` of the ring-buffer constructor on a failed `malloc` is left out. Allocation cannot fail here.
- RingBuf.RingBuffer.GetBlock: `GetBlock` is declared `void`, yet `GetData` uses its result as a `bool`. The model returns the block and treats every get as a success. So BufferedCdio.BufferedCdio.GetData fails only when no device handle is set.
- BufferedCdio.BufferedCdio.GetData requires, for an open device, that the get gate is open. The source would wait instead.
- BufferedCdio.BufferedCdio.ReadTrack requires that no track change is pending. Its only caller, `Action`, clears the flag just before the call.
- BufferedCdio.BufferedCdio.Action: does not state which of the three loop exits was taken. These are a failed `ReadTrack`, `Running()` false, and the index reaching the track count. It also does not state the sectors produced across tracks, or what the ring holds after the last track; the per-track statement is the one of ReadTrack, and the clearing on a track change is stated by ActionRound.
- The slot offset is computed before `WaitAllow` in the source. That makes no difference when the threads are run one at a time.
- CdControl.CdPlayer.Action does not model the `OpenDevice("/dev/sr0")`, `Start` and `Stop` calls on the reader. Those are the reader's own operations, modelled in BufferedCdio.

## Findings

| source | as written | input that shows it | evidently intended | confidence | as-written member | corrected member |
|---|---|---|---|---|---|---|
| cdioringbuf.cc:14 | room is allocated for `mBlocks` blocks, but both indices run through the `mBlocks + 1` values 0..mBlocks before wrapping (lines 38 and 55) | with 50 blocks (CCDIO_MAX_BLOCKS), 50 PutBlock calls after construction and no GetBlock: the put index is 50 and the put gate is still open, so the 51st PutBlock writes bytes 117600..119951 of a 117600-byte allocation | storage for every index the cycle reaches, `mBlocks + 1` blocks | high, not executed | RingBuf.AsWrittenPutOverflows | RingBuf.StorageBlocks |
| bufferedcdio.cc:166 | SetTrack rejects only indices above GetNumTracks(), so a negative index is accepted | SetTrack(-1) while the reader runs: the change flag is raised with index -1, and Action's loop condition -1 < numTracks holds, so ReadTrack(-1) reads element -1 of the track list | reject negative indices as well: accept 0 <= newtrack <= GetNumTracks() | medium, not executed (no caller of SetTrack is part of the code) | BufferedCdio.AsWrittenSetTrackAcceptsNegative | BufferedCdio.BufferedCdio.SetTrack |
