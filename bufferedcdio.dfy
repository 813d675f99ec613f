/**
 * The CD reader (cBufferedCdio of bufferedcdio.h, bufferedcdio.cc): it
 * opens the drive, builds the list of audio tracks with their CD-Text,
 * and in its own thread reads the sectors of one track after another
 * into the block ring buffer, from which the player takes them.
 *
 * libcdio is replaced by a `Disc` value: the track table (first track
 * number, and per track its start sector, last sector and format), the
 * CD-Text records, and the sectors that read successfully with their
 * bytes.  The thread is run sequentially: what happens around it is a
 * script of `Tick`s, one consumed after each PutBlock and one after each
 * ReadTrack, each holding an optional SetTrack call made by another
 * thread and the answer of Running().  When the ring is full, the player
 * thread is taken to remove the oldest block (recorded in `delivered`)
 * before the put proceeds.
 */
module BufferedCdio {
  import opened Wrappers
  import opened RingBuf
  import opened CdioTrack

  /** libcdio's number of CD-Text fields, and the field number meaning "invalid". */
  const MAX_CDTEXT_FIELDS: nat := 13
  const CDTEXT_INVALID: nat := 13

  /** libcdio's CDIO_INVALID_LSN: the start sector reported for a track that has none. */
  const CDIO_INVALID_LSN: int := -45301

  /** The field-name table cd_text_field: one name per field, then "Invalid". */
  const CD_TEXT_FIELD: seq<string> := [
    "ARRANGER", "COMPOSER", "DISCID", "GENRE", "MESSAGE", "ISRC", "PERFORMER",
    "SIZE_INFO", "SONGWRITER", "TITLE", "TOC_INFO", "TOC_INFO2", "UPC_EAN", "Invalid"]

  /**
   * GetCdTextField: the name of a CD-Text field.  Field numbers above
   * MAX_CDTEXT_FIELDS select the CDTEXT_INVALID entry, and so does
   * MAX_CDTEXT_FIELDS itself; every index the lookup uses lies inside the
   * table of MAX_CDTEXT_FIELDS + 1 entries.
   */
  function GetCdTextField(fieldType: nat): (r: string)
    ensures |CD_TEXT_FIELD| == MAX_CDTEXT_FIELDS + 1
    ensures fieldType < MAX_CDTEXT_FIELDS ==> r == CD_TEXT_FIELD[fieldType]
    ensures r == "Invalid" <==> fieldType >= MAX_CDTEXT_FIELDS
  {
    if fieldType > MAX_CDTEXT_FIELDS then CD_TEXT_FIELD[CDTEXT_INVALID] else CD_TEXT_FIELD[fieldType]
  }

  /** libcdio's track formats. */
  datatype TrackFormat =
    | TRACK_FORMAT_AUDIO | TRACK_FORMAT_CDI | TRACK_FORMAT_XA
    | TRACK_FORMAT_DATA | TRACK_FORMAT_PSX | TRACK_FORMAT_ERROR

  /** A libcdio CD-Text record: one optional string per field (None is a NULL field). */
  type CdTextRecord = s: seq<Option<string>> | |s| == MAX_CDTEXT_FIELDS
    witness [None, None, None, None, None, None, None, None, None, None, None, None, None]

  /** One row of the disc's table of contents. */
  datatype TocEntry = TocEntry(lsn: int, lastLsn: int, format: TrackFormat)

  /**
   * What the drive reports.  `toc[i]` describes track number
   * `firstTrackNum + i`; `cdText` maps a track number (0 for the whole
   * disc) to its CD-Text; a sector reads successfully exactly when its
   * number is a key of `sectors`.
   */
  datatype Disc = Disc(firstTrackNum: int, toc: seq<TocEntry>,
                       cdText: map<int, CdTextRecord>, sectors: map<int, Block>)
  {
    /** cdio_get_track_lsn */
    function TrackLsn(trackNo: int): int
    {
      var i := trackNo - firstTrackNum;
      if 0 <= i < |toc| then toc[i].lsn else CDIO_INVALID_LSN
    }

    /** cdio_get_track_last_lsn */
    function TrackLastLsn(trackNo: int): int
    {
      var i := trackNo - firstTrackNum;
      if 0 <= i < |toc| then toc[i].lastLsn else CDIO_INVALID_LSN
    }

    /** cdio_get_track_format */
    function TrackFormatOf(trackNo: int): TrackFormat
    {
      var i := trackNo - firstTrackNum;
      if 0 <= i < |toc| then toc[i].format else TRACK_FORMAT_ERROR
    }

    /** cdio_get_cdtext */
    function TextOf(trackNo: int): Option<CdTextRecord>
    {
      if trackNo in cdText then Some(cdText[trackNo]) else None
    }
  }

  /**
   * The pCdio pointer: NULL, or a handle on a disc.  CloseDevice destroys
   * the handle without resetting the pointer, so a destroyed handle
   * (`live` false) stays non-NULL.
   */
  datatype Handle = NoDevice | Device(disc: Disc, live: bool)

  /** The field numbers below `n` that a record fills. */
  function FieldKeys(f: CdTextRecord, n: nat): set<int>
    requires n <= MAX_CDTEXT_FIELDS
  {
    set i | 0 <= i < n && f[i].Some?
  }

  /** A text map after copying the non-NULL fields of a record over it. */
  function MergeFields(m: StringMap, f: CdTextRecord): StringMap
  {
    map k | k in m.Keys + FieldKeys(f, MAX_CDTEXT_FIELDS) ::
      if 0 <= k < MAX_CDTEXT_FIELDS && f[k].Some? then f[k].value else m[k]
  }

  /** The effect GetCDText promises: no record leaves the map alone, a record overrides its non-NULL fields. */
  function MergeCdText(m: StringMap, text: Option<CdTextRecord>): StringMap
  {
    if text.None? then m else MergeFields(m, text.value)
  }

  /** The track selection of OpenDevice: audio format and a valid start sector. */
  predicate IsAudioEntry(e: TocEntry)
  {
    e.format == TRACK_FORMAT_AUDIO && e.lsn != CDIO_INVALID_LSN
  }

  /** The track record OpenDevice builds for row `i` of the table. */
  function TrackOf(d: Disc, i: nat): TrackInfo
    requires i < |d.toc|
  {
    TrackInfo(0, d.toc[i].lsn, d.toc[i].lastLsn, MergeCdText(map[], d.TextOf(d.firstTrackNum + i)))
  }

  /** The track list built from the first `n` rows of the table, in table order. */
  function AudioTracks(d: Disc, n: nat): seq<TrackInfo>
    requires n <= |d.toc|
  {
    if n == 0 then []
    else AudioTracks(d, n - 1) + (if IsAudioEntry(d.toc[n - 1]) then [TrackOf(d, n - 1)] else [])
  }

  /** The rows among the first `n` that hold an audio track. */
  function AudioRows(d: Disc, n: nat): seq<nat>
    requires n <= |d.toc|
  {
    if n == 0 then []
    else AudioRows(d, n - 1) + (if IsAudioEntry(d.toc[n - 1]) then [n - 1] else [])
  }

  /**
   * The track list holds exactly the audio rows with a valid start, each
   * once, in ascending row (and so track-number) order.
   */
  lemma {:induction false} AudioTracksExactly(d: Disc, n: nat)
    requires n <= |d.toc|
    ensures var rows := AudioRows(d, n);
      |AudioTracks(d, n)| == |rows| &&
      (forall k :: 0 <= k < |rows| ==> rows[k] < n && AudioTracks(d, n)[k] == TrackOf(d, rows[k])) &&
      (forall k, l :: 0 <= k < l < |rows| ==> rows[k] < rows[l]) &&
      (forall i :: 0 <= i < n ==> (i in rows <==> IsAudioEntry(d.toc[i])))
  {
    if n > 0 {
      AudioTracksExactly(d, n - 1);
    }
  }

  /** The bytes of the `n` sectors from `from` on, in order. */
  function Sectors(d: Disc, from: int, n: nat): seq<Block>
    requires forall l :: from <= l < from + n ==> l in d.sectors
  {
    if n == 0 then [] else Sectors(d, from, n - 1) + [d.sectors[from + n - 1]]
  }

  /** What the other threads do between two steps of the reader. */
  datatype Tick = Tick(command: Option<int>, running: bool)

  /** The answer of Running() at tick `k`; an exhausted script means the thread was cancelled. */
  predicate RunningAt(env: seq<Tick>, k: int)
  {
    0 <= k < |env| && env[k].running
  }

  /** Nobody calls SetTrack during the script. */
  predicate Quiet(env: seq<Tick>)
  {
    forall k :: 0 <= k < |env| ==> env[k].command.None?
  }

  /** Somebody calls SetTrack(n) during the script. */
  predicate Commanded(env: seq<Tick>, n: int)
  {
    exists k :: 0 <= k < |env| && env[k].command == Some(n)
  }

  lemma CommandedInSuffix(env: seq<Tick>, off: nat, n: int)
    requires off <= |env| && Commanded(env[off..], n)
    ensures Commanded(env, n)
  {
    var k :| 0 <= k < |env[off..]| && env[off..][k].command == Some(n);
    assert env[off + k] == env[off..][k];
  }

  /** `rest` is what is left of the script `env` after some ticks were consumed. */
  predicate SuffixOf(rest: seq<Tick>, env: seq<Tick>)
  {
    |rest| <= |env| && rest == env[|env| - |rest|..]
  }

  lemma SuffixOfTrans(a: seq<Tick>, b: seq<Tick>, c: seq<Tick>)
    requires SuffixOf(a, b) && SuffixOf(b, c)
    ensures SuffixOf(a, c)
  {
    assert c[|c| - |b|..][|b| - |a|..] == c[|c| - |a|..];
  }

  lemma CommandedInLater(env: seq<Tick>, rest: seq<Tick>, n: int)
    requires SuffixOf(rest, env) && Commanded(rest, n)
    ensures Commanded(env, n)
  {
    CommandedInSuffix(env, |env| - |rest|, n);
  }

  lemma RunningInSuffix(env: seq<Tick>, rest: seq<Tick>)
    requires SuffixOf(rest, env)
    ensures RunningAt(rest, 0) == RunningAt(env, |env| - |rest|)
  {
  }

  function Min(a: int, b: int): int
  {
    if a <= b then a else b
  }

  /**
   * The track indices the reader visits, in order: valid indices starting
   * at 0, each next one the previous plus one or an index some SetTrack
   * call gave; with no SetTrack call simply 0, 1, 2, ...
   */
  predicate TrackWalk(env: seq<Tick>, visited: seq<int>, numTracks: int)
  {
    (forall k :: 0 <= k < |visited| ==> 0 <= visited[k] < numTracks) &&
    (|visited| > 0 ==> visited[0] == 0) &&
    (forall k :: 0 <= k < |visited| - 1 ==> visited[k + 1] == visited[k] + 1 || Commanded(env, visited[k + 1])) &&
    (Quiet(env) ==> forall k :: 0 <= k < |visited| ==> visited[k] == k)
  }

  /** An index that may follow a walk: 0 first, then the successor or an index some SetTrack call gave. */
  predicate NextInWalk(env: seq<Tick>, visited: seq<int>, idx: int)
  {
    if |visited| == 0 then idx == 0
    else idx == visited[|visited| - 1] + 1 || Commanded(env, idx)
  }

  /** A walk extended by an index that may follow it is still a walk. */
  lemma WalkExtend(env: seq<Tick>, visited: seq<int>, idx: int, numTracks: int)
    requires TrackWalk(env, visited, numTracks) && NextInWalk(env, visited, idx) && 0 <= idx < numTracks
    ensures TrackWalk(env, visited + [idx], numTracks)
  {
    var w := visited + [idx];
    forall k | 0 <= k < |w| - 1
      ensures w[k + 1] == w[k] + 1 || Commanded(env, w[k + 1])
    {
      if k + 1 < |visited| {
        assert w[k] == visited[k] && w[k + 1] == visited[k + 1];
      }
    }
    if Quiet(env) && |visited| > 0 {
      assert !Commanded(env, idx);
    }
  }

  /**
   * The guard of SetTrack as written: only indices above the track count
   * are refused, so a negative index is accepted.
   */
  predicate SetTrackAcceptsAsWritten(newtrack: int, numTracks: int)
  {
    !(newtrack > numTracks)
  }

  /** The guard the model uses: a track index, or the track count itself (which ends Action). */
  predicate SetTrackAccepts(newtrack: int, numTracks: int)
  {
    0 <= newtrack <= numTracks
  }

  /**
   * As written, SetTrack(-1) is accepted on any track list, and the
   * reader then fetches GetTrackInfo(-1), which lies outside it.
   */
  lemma AsWrittenSetTrackAcceptsNegative(numTracks: nat)
    ensures SetTrackAcceptsAsWritten(-1, numTracks)
    ensures !SetTrackAccepts(-1, numTracks) && !(0 <= -1 < numTracks)
  {
  }

  class BufferedCdio {
    var pCdio: Handle
    var firstTrackNum: int
    var numOfTracks: int
    var currTrackIdx: int
    var cdText: StringMap
    var trackInfo: seq<TrackInfo>
    const ringBuffer: RingBuffer
    /** mTrackChange, raised by SetTrack */
    var trackChange: bool

    /** The blocks the player thread has taken out of the ring, in order. */
    ghost var delivered: seq<Block>
    ghost const Repr: set<object>

    /**
     * The object invariant: the ring is owned and valid, and a non-empty
     * track list was read from a handle that is still open (OpenDevice
     * fills the list only after a successful open, CloseDevice empties it).
     */
    ghost predicate Valid()
      reads this, Repr
    {
      this in Repr && ringBuffer in Repr && Repr == {this} + ringBuffer.Repr &&
      this !in ringBuffer.Repr && ringBuffer.Valid() && ringBuffer.blocks == CCDIO_MAX_BLOCKS &&
      (trackInfo != [] ==> pCdio.Device? && pCdio.live)
    }

    /** cBufferedCdio(void): no device, track index 0, an empty ring of CCDIO_MAX_BLOCKS blocks. */
    constructor ()
      ensures Valid() && fresh(Repr)
      ensures pCdio == NoDevice && currTrackIdx == 0
      ensures trackInfo == [] && cdText == map[] && !trackChange
      ensures ringBuffer.Contents == [] && !ringBuffer.getAllowed.allowed && ringBuffer.putAllowed.allowed
    {
      pCdio := NoDevice;
      currTrackIdx := 0;
      trackInfo := [];
      cdText := map[];
      trackChange := false;
      var ring := new RingBuffer(CCDIO_MAX_BLOCKS);
      ringBuffer := ring;
      delivered := [];
      Repr := {this} + ring.Repr;
    }

    function GetTrackInfo(track: int): (r: TrackInfo)
      reads this
      requires 0 <= track < GetNumTracks()
      ensures r == trackInfo[track]
    {
      trackInfo[track]
    }

    function GetNumTracks(): (n: int)
      reads this
      ensures n >= 0 && n == |trackInfo|
    {
      |trackInfo|
    }

    /**
     * GetCDText: copies the CD-Text of a track (0 for the disc) over a
     * text map.  Without CD-Text the map comes back unchanged; otherwise
     * exactly the non-NULL fields are set and every other key keeps its
     * value.
     */
    method GetCDText(trackNo: int, text: StringMap) returns (r: StringMap)
      requires pCdio.Device?
      ensures pCdio.disc.TextOf(trackNo).None? ==> r == text
      ensures pCdio.disc.TextOf(trackNo).Some? ==>
        var f := pCdio.disc.TextOf(trackNo).value;
        (forall k :: k in r <==> k in text || (0 <= k < MAX_CDTEXT_FIELDS && f[k].Some?)) &&
        (forall k :: 0 <= k < MAX_CDTEXT_FIELDS && f[k].Some? ==> r[k] == f[k].value) &&
        (forall k :: k in text && !(0 <= k < MAX_CDTEXT_FIELDS && f[k].Some?) ==> r[k] == text[k])
      ensures r == MergeCdText(text, pCdio.disc.TextOf(trackNo))
    {
      var cdtext := pCdio.disc.TextOf(trackNo);
      r := text;
      if cdtext.None? {
        return;
      }
      var f := cdtext.value;
      var i := 0;
      while i < MAX_CDTEXT_FIELDS
        invariant 0 <= i <= MAX_CDTEXT_FIELDS
        invariant forall k :: k in r <==> k in text || (0 <= k < i && f[k].Some?)
        invariant forall k :: 0 <= k < i && f[k].Some? ==> r[k] == f[k].value
        invariant forall k :: k in text && !(0 <= k < i && f[k].Some?) ==> r[k] == text[k]
      {
        if f[i].Some? {
          r := r[i := f[i].value];
        }
        i := i + 1;
      }
      assert r == MergeFields(text, f);
    }

    /**
     * CloseDevice: destroys the handle (the pointer itself is kept),
     * empties the CD-Text and the track list, clears the ring and resets
     * the track index.
     */
    method CloseDevice()
      requires Valid()
      modifies Repr
      ensures Valid()
      ensures pCdio == (if old(pCdio).Device? then Device(old(pCdio).disc, false) else NoDevice)
      ensures cdText == map[] && trackInfo == [] && currTrackIdx == 0
      ensures ringBuffer.Contents == [] && !ringBuffer.getAllowed.allowed && ringBuffer.putAllowed.allowed
      ensures firstTrackNum == old(firstTrackNum) && numOfTracks == old(numOfTracks)
      ensures trackChange == old(trackChange) && delivered == old(delivered)
    {
      if pCdio.Device? {
        pCdio := Device(pCdio.disc, false);
      }
      cdText := map[];
      trackInfo := [];
      ringBuffer.Clear();
      currTrackIdx := 0;
    }

    /**
     * GetData: with no device, false and the ring untouched; otherwise the
     * oldest block.  The get gate must be open, as GetBlock waits for it.
     */
    method GetData(data: Block) returns (ok: bool, block: Block)
      requires Valid()
      requires pCdio.Device? ==> ringBuffer.getAllowed.allowed
      modifies ringBuffer, ringBuffer.getAllowed, ringBuffer.putAllowed
      ensures Valid()
      ensures ok <==> pCdio.Device?
      ensures !ok ==> block == data && ringBuffer.Contents == old(ringBuffer.Contents) &&
                      ringBuffer.getIdx == old(ringBuffer.getIdx) && ringBuffer.putIdx == old(ringBuffer.putIdx) &&
                      ringBuffer.getAllowed.allowed == old(ringBuffer.getAllowed.allowed) &&
                      ringBuffer.putAllowed.allowed == old(ringBuffer.putAllowed.allowed)
      ensures ok ==> old(ringBuffer.Contents) != [] && block == old(ringBuffer.Contents)[0] &&
                     ringBuffer.Contents == old(ringBuffer.Contents)[1..]
    {
      if pCdio.NoDevice? {
        return false, data;
      }
      block := ringBuffer.GetBlock();
      ok := true;
    }

    /**
     * OpenDevice: closes first, then opens the drive (`dev` is what
     * cdio_open yields).  It fails only when the open fails; otherwise the
     * disc CD-Text is read and the track list holds the audio tracks of
     * the table, even when there are none.
     */
    method OpenDevice(dev: Option<Disc>) returns (ok: bool)
      requires Valid()
      modifies Repr
      ensures Valid()
      ensures ok <==> dev.Some?
      ensures !ok ==> pCdio == NoDevice && trackInfo == [] && cdText == map[]
      ensures ok ==> pCdio == Device(dev.value, true) &&
                     firstTrackNum == dev.value.firstTrackNum && numOfTracks == |dev.value.toc| &&
                     cdText == MergeCdText(map[], dev.value.TextOf(0)) &&
                     trackInfo == AudioTracks(dev.value, |dev.value.toc|)
      ensures ringBuffer.Contents == [] && !ringBuffer.getAllowed.allowed && ringBuffer.putAllowed.allowed
      ensures currTrackIdx == 0 && trackChange == old(trackChange) && delivered == old(delivered)
    {
      CloseDevice();
      if dev.None? {
        pCdio := NoDevice;
        return false;
      }
      var d := dev.value;
      pCdio := Device(d, true);
      firstTrackNum := d.firstTrackNum;
      numOfTracks := |d.toc|;
      cdText := GetCDText(0, cdText);
      var i := 0;
      while i < numOfTracks
        invariant Valid()
        invariant 0 <= i <= numOfTracks == |d.toc|
        invariant pCdio == Device(d, true) && firstTrackNum == d.firstTrackNum
        invariant trackInfo == AudioTracks(d, i)
        invariant cdText == MergeCdText(map[], d.TextOf(0))
        invariant currTrackIdx == 0 && trackChange == old(trackChange) && delivered == old(delivered)
        modifies this
      {
        AddTrack(d, i);
        i := i + 1;
      }
      ok := true;
    }

    /**
     * One round of the OpenDevice loop: row `i` of the table, track number
     * `i + firstTrackNum`, is appended to the track list with its CD-Text
     * exactly when it is an audio track with a valid start sector.
     */
    method AddTrack(d: Disc, i: nat)
      requires Valid() && pCdio == Device(d, true) && firstTrackNum == d.firstTrackNum && i < |d.toc|
      modifies this
      ensures Valid()
      ensures trackInfo == old(trackInfo) + (if IsAudioEntry(d.toc[i]) then [TrackOf(d, i)] else [])
      ensures pCdio == old(pCdio) && firstTrackNum == old(firstTrackNum) && numOfTracks == old(numOfTracks)
      ensures cdText == old(cdText) && currTrackIdx == old(currTrackIdx)
      ensures trackChange == old(trackChange) && delivered == old(delivered)
    {
      var trackNo := i + firstTrackNum;
      var startlsn := d.TrackLsn(trackNo);
      var endlsn := d.TrackLastLsn(trackNo);
      var fmt := d.TrackFormatOf(trackNo);
      if fmt == TRACK_FORMAT_AUDIO && startlsn != CDIO_INVALID_LSN {
        var ti := NewTrackInfo(startlsn, endlsn);
        var text := GetCDText(trackNo, ti.cdTextFields);
        ti := ti.(cdTextFields := text);
        trackInfo := trackInfo + [ti];
      }
    }

    /**
     * SetTrack: asks the reader to continue at another track.  The model
     * refuses indices outside 0..GetNumTracks() (see
     * SetTrackAcceptsAsWritten for the guard as written); a refused call
     * changes nothing.
     */
    method SetTrack(newtrack: int)
      requires Valid()
      modifies this
      ensures Valid()
      ensures SetTrackAccepts(newtrack, GetNumTracks()) ==> currTrackIdx == newtrack && trackChange
      ensures !SetTrackAccepts(newtrack, GetNumTracks()) ==>
                currTrackIdx == old(currTrackIdx) && trackChange == old(trackChange)
      ensures pCdio == old(pCdio) && trackInfo == old(trackInfo) && cdText == old(cdText)
      ensures firstTrackNum == old(firstTrackNum) && numOfTracks == old(numOfTracks)
      ensures delivered == old(delivered)
    {
      if newtrack < 0 || newtrack > GetNumTracks() {
        return;
      }
      currTrackIdx := newtrack;
      trackChange := true;
    }

    /** PutBlock, with the player taking the oldest block first when the ring is full. */
    method Push(block: Block)
      requires Valid()
      modifies Repr
      ensures Valid()
      ensures delivered + ringBuffer.Contents == old(delivered + ringBuffer.Contents) + [block]
      ensures pCdio == old(pCdio) && trackInfo == old(trackInfo) && cdText == old(cdText)
      ensures currTrackIdx == old(currTrackIdx) && trackChange == old(trackChange)
      ensures firstTrackNum == old(firstTrackNum) && numOfTracks == old(numOfTracks)
    {
      if !ringBuffer.putAllowed.allowed {
        var b := ringBuffer.GetBlock();
        delivered := delivered + [b];
      }
      ringBuffer.PutBlock(block);
    }

    /** The tick after a step: the SetTrack call it carries is made, then Running() is answered. */
    method Step(env: seq<Tick>) returns (running: bool, rest: seq<Tick>)
      requires Valid()
      modifies this
      ensures Valid()
      ensures running == RunningAt(env, 0)
      ensures rest == (if |env| > 0 then env[1..] else []) && SuffixOf(rest, env)
      ensures |env| > 0 && env[0].command.Some? && SetTrackAccepts(env[0].command.value, GetNumTracks()) ==>
                currTrackIdx == env[0].command.value && trackChange
      ensures !(|env| > 0 && env[0].command.Some? && SetTrackAccepts(env[0].command.value, GetNumTracks())) ==>
                currTrackIdx == old(currTrackIdx) && trackChange == old(trackChange)
      ensures pCdio == old(pCdio) && trackInfo == old(trackInfo) && cdText == old(cdText)
      ensures firstTrackNum == old(firstTrackNum) && numOfTracks == old(numOfTracks)
      ensures delivered == old(delivered)
    {
      if |env| == 0 {
        return false, [];
      }
      if env[0].command.Some? {
        SetTrack(env[0].command.value);
      }
      running, rest := env[0].running, env[1..];
    }

    /**
     * ReadTrack: puts the sectors start, start + 1, ... of a track into the
     * ring, in order, never reaching the end sector.  It stops with false
     * at a sector that does not read (without putting it) or when Running()
     * answers false after a put, and with true at the end of the track or
     * when a put is followed by an accepted SetTrack.  `next` is the first
     * sector not put.
     */
    method ReadTrack(trackIdx: int, env: seq<Tick>) returns (ok: bool, rest: seq<Tick>, ghost next: int)
      requires Valid()
      requires 0 <= trackIdx < GetNumTracks()
      requires !trackChange
      modifies Repr
      ensures Valid()
      ensures pCdio == old(pCdio) && trackInfo == old(trackInfo) && cdText == old(cdText)
      ensures firstTrackNum == old(firstTrackNum) && numOfTracks == old(numOfTracks)
      ensures var s, e := trackInfo[trackIdx].startLsn, trackInfo[trackIdx].endLsn;
        s <= next && (next <= e || next == s) &&
        (forall l :: s <= l < next ==> l in pCdio.disc.sectors) &&
        delivered + ringBuffer.Contents == old(delivered + ringBuffer.Contents) + Sectors(pCdio.disc, s, next - s)
      ensures var s, e := trackInfo[trackIdx].startLsn, trackInfo[trackIdx].endLsn;
        SuffixOf(rest, env) && |env| - |rest| == Min(next - s, |env|) &&
        (ok ==> next >= e || (next > s && trackChange)) &&
        (!ok ==> (next < e && next !in pCdio.disc.sectors) || (next > s && !RunningAt(env, next - s - 1)))
      ensures trackChange ==> SetTrackAccepts(currTrackIdx, GetNumTracks()) && Commanded(env, currTrackIdx)
      ensures !trackChange ==> currTrackIdx == old(currTrackIdx)
    {
      var d := pCdio.disc;
      var ti := GetTrackInfo(trackIdx);
      var currlsn := ti.GetCDDAStartLsn();
      ghost var s := ti.startLsn;
      ghost var init := delivered + ringBuffer.Contents;
      ghost var sent: seq<Block> := [];
      rest := env;
      next := currlsn;
      while currlsn < ti.GetCDDAEndLsn()
        invariant Valid()
        invariant pCdio == old(pCdio) && trackInfo == old(trackInfo) && cdText == old(cdText)
        invariant firstTrackNum == old(firstTrackNum) && numOfTracks == old(numOfTracks)
        invariant ti == trackInfo[trackIdx] && s == ti.startLsn
        invariant s <= currlsn && (currlsn <= ti.endLsn || currlsn == s) && next == currlsn
        invariant forall l :: s <= l < currlsn ==> l in d.sectors
        invariant sent == Sectors(d, s, currlsn - s)
        invariant delivered + ringBuffer.Contents == init + sent
        invariant SuffixOf(rest, env) && |env| - |rest| == currlsn - s
        invariant !trackChange && currTrackIdx == old(currTrackIdx)
      {
        if currlsn !in d.sectors {
          return false, rest, currlsn;
        }
        var buf := d.sectors[currlsn];
        Push(buf);
        sent := sent + [buf];
        currlsn := currlsn + 1;
        next := currlsn;
        ghost var before := rest;
        var running;
        running, rest := Step(rest);
        SuffixOfTrans(rest, before, env);
        RunningInSuffix(env, before);
        if !running {
          return false, rest, currlsn;
        }
        if trackChange {
          assert Commanded(before, currTrackIdx) by {
            assert before[0].command == Some(currTrackIdx);
          }
          CommandedInLater(env, before, currTrackIdx);
          return true, rest, currlsn;
        }
      }
      ok := true;
    }

    /**
     * One round of the Action loop: ReadTrack, then (when it succeeds) the
     * tick whose Running() answer Action checks next.
     */
    method ReadAndStep(trackIdx: int, env: seq<Tick>) returns (ok: bool, running: bool, rest: seq<Tick>)
      requires Valid()
      requires 0 <= trackIdx < GetNumTracks()
      requires !trackChange
      modifies Repr
      ensures Valid()
      ensures pCdio == old(pCdio) && trackInfo == old(trackInfo) && cdText == old(cdText)
      ensures ok && running ==> |rest| < |env|
      ensures SuffixOf(rest, env)
      ensures trackChange ==> SetTrackAccepts(currTrackIdx, GetNumTracks()) && Commanded(env, currTrackIdx)
      ensures !trackChange ==> currTrackIdx == old(currTrackIdx)
    {
      ghost var next;
      ok, rest, next := ReadTrack(trackIdx, env);
      if !ok {
        return ok, false, rest;
      }
      ghost var mid := rest;
      running, rest := Step(rest);
      SuffixOfTrans(rest, mid, env);
      if |mid| > 0 && mid[0].command.Some? && SetTrackAccepts(mid[0].command.value, GetNumTracks()) {
        assert Commanded(mid, currTrackIdx) by {
          assert mid[0].command == Some(currTrackIdx);
        }
        CommandedInLater(env, mid, currTrackIdx);
      }
    }

    /**
     * One pass of the Action loop on the remaining script `rest` of `env`:
     * the current index joins the walk and its track is read.  `going`
     * tells whether the loop goes on; it does after a track read to its end
     * (the index moves on by one) and after a track change (the ring is
     * cleared and the index SetTrack chose is next), in either case only if
     * Running() still answers true.  `trackChange` afterwards tells which
     * of the two happened.
     */
    method ActionRound(ghost env: seq<Tick>, rest0: seq<Tick>, ghost visited0: seq<int>)
      returns (going: bool, rest: seq<Tick>, ghost visited: seq<int>)
      requires Valid()
      requires 0 <= currTrackIdx < GetNumTracks()
      requires SuffixOf(rest0, env)
      requires TrackWalk(env, visited0, GetNumTracks()) && NextInWalk(env, visited0, currTrackIdx)
      modifies Repr
      ensures Valid()
      ensures pCdio == old(pCdio) && trackInfo == old(trackInfo) && cdText == old(cdText)
      ensures 0 <= currTrackIdx <= GetNumTracks()
      ensures SuffixOf(rest, env) && |rest| <= |rest0| && TrackWalk(env, visited, GetNumTracks())
      ensures visited == visited0 + [old(currTrackIdx)]
      ensures going ==> NextInWalk(env, visited, currTrackIdx) && |rest| < |rest0|
      ensures going && !trackChange ==> currTrackIdx == old(currTrackIdx) + 1
      ensures going && trackChange ==>
                ringBuffer.Contents == [] && !ringBuffer.getAllowed.allowed && ringBuffer.putAllowed.allowed &&
                SetTrackAccepts(currTrackIdx, GetNumTracks()) && Commanded(env, currTrackIdx)
    {
      trackChange := false;
      WalkExtend(env, visited0, currTrackIdx, GetNumTracks());
      visited := visited0 + [currTrackIdx];
      var ok, running;
      ok, running, rest := ReadAndStep(currTrackIdx, rest0);
      SuffixOfTrans(rest, rest0, env);
      if trackChange {
        CommandedInLater(env, rest0, currTrackIdx);
      }
      if !ok || !running {
        return false, rest, visited;
      }
      if trackChange {
        ringBuffer.Clear();
      } else {
        currTrackIdx := currTrackIdx + 1;
      }
      going := true;
    }

    /**
     * Action, the reader thread: clears the ring and reads the tracks from
     * index 0.  After a track that ends normally the index moves on by one;
     * after a track change the ring is cleared and the index SetTrack chose
     * is read.  It stops at the track count, when ReadTrack fails, or when
     * Running() answers false.  `visited` lists the track indices read, in
     * order.  With no track (no disc opened, or none with audio) it only
     * clears the ring and sets the index to 0.
     */
    method Action(env: seq<Tick>) returns (rest: seq<Tick>, ghost visited: seq<int>)
      requires Valid()
      modifies Repr
      ensures Valid()
      ensures pCdio == old(pCdio) && trackInfo == old(trackInfo) && cdText == old(cdText)
      ensures forall k :: 0 <= k < |visited| ==> 0 <= visited[k] < GetNumTracks()
      ensures |visited| > 0 ==> visited[0] == 0
      ensures forall k :: 0 <= k < |visited| - 1 ==>
                visited[k + 1] == visited[k] + 1 || Commanded(env, visited[k + 1])
      ensures Quiet(env) ==> forall k :: 0 <= k < |visited| ==> visited[k] == k
      ensures 0 <= currTrackIdx <= GetNumTracks()
      ensures visited == [] <==> GetNumTracks() == 0
      ensures visited == [] ==>
                currTrackIdx == 0 && ringBuffer.Contents == [] &&
                !ringBuffer.getAllowed.allowed && ringBuffer.putAllowed.allowed
    {
      var numTracks := GetNumTracks();
      ringBuffer.Clear();
      currTrackIdx := 0;
      rest := env;
      visited := [];
      var going := true;
      while going && currTrackIdx < numTracks
        invariant Valid()
        invariant pCdio == old(pCdio) && trackInfo == old(trackInfo) && cdText == old(cdText)
        invariant numTracks == GetNumTracks()
        invariant 0 <= currTrackIdx <= numTracks
        invariant SuffixOf(rest, env)
        invariant TrackWalk(env, visited, numTracks)
        invariant going ==> NextInWalk(env, visited, currTrackIdx)
        invariant visited == [] ==>
                    going && currTrackIdx == 0 && ringBuffer.Contents == [] &&
                    !ringBuffer.getAllowed.allowed && ringBuffer.putAllowed.allowed
        decreases |rest|, going
      {
        going, rest, visited := ActionRound(env, rest, visited);
      }
    }
  }
}
