/**
 * Disc and track information (cdinfo.h, cdinfo.cc): per-track sector
 * bounds and CD-Text, playing time, and the cCdInfo track list.
 * This cTrackInfo is a different class from the one of bufferedcdio.h,
 * which module CdioTrack models.
 */
module CdInfo {
  import opened CLib

  /** libcdio's number of CD-Text fields. */
  const MAX_CDTEXT_FIELDS: nat := 13
  /** libcdio's CDIO_CD_FRAMES_PER_SEC: sectors per second of audio. */
  const CDIO_CD_FRAMES_PER_SEC: nat := 75
  /** The index that stands for "no track". */
  const INVALID_TRACK_IDX: int := -1

  /** CD_TEXT_T: one string per CD-Text field; a default-constructed one holds empty strings. */
  type CdTextT = s: seq<string> | |s| == MAX_CDTEXT_FIELDS witness ["", "", "", "", "", "", "", "", "", "", "", "", ""]

  const EmptyCdText: CdTextT := ["", "", "", "", "", "", "", "", "", "", "", "", ""]

  /** cTrackInfo of cdinfo.h; mLba is left out (no constructor initialises it). */
  datatype TrackInfo = TrackInfo(trackNo: int, startLsn: int, endLsn: int, cdTextFields: CdTextT)
  {
    /** GetTimeSecs: whole seconds between the bounds, truncated toward zero as C does. */
    function GetTimeSecs(): (r: int)
      ensures endLsn >= startLsn ==> r >= 0 && r * CDIO_CD_FRAMES_PER_SEC <= endLsn - startLsn < (r + 1) * CDIO_CD_FRAMES_PER_SEC
      ensures endLsn < startLsn ==> r <= 0 && (r - 1) * CDIO_CD_FRAMES_PER_SEC < endLsn - startLsn <= r * CDIO_CD_FRAMES_PER_SEC
    {
      TruncDiv(endLsn - startLsn, CDIO_CD_FRAMES_PER_SEC)
    }

    /**
     * GetCDDATime: the playing time split into minutes and seconds.  The
     * two recombine to GetTimeSecs(); for a non-negative duration the
     * seconds lie in 0..59, and C's truncating division makes both
     * non-positive for a negative one.
     */
    function GetCDDATime(): (r: (int, int))
      ensures r.0 * 60 + r.1 == GetTimeSecs()
      ensures GetTimeSecs() >= 0 ==> r.0 >= 0 && 0 <= r.1 < 60
      ensures GetTimeSecs() < 0 ==> r.0 <= 0 && -60 < r.1 <= 0
      ensures endLsn >= startLsn ==> r.0 * 60 + r.1 == (endLsn - startLsn) / CDIO_CD_FRAMES_PER_SEC
    {
      var s := TruncDiv(endLsn - startLsn, CDIO_CD_FRAMES_PER_SEC);
      var min := TruncDiv(s, 60);
      (min, s - min * 60)
    }
  }

  /** cTrackInfo(void): track 0 from sector 0 to sector 0, so no playing time. */
  function DefaultTrackInfo(): (t: TrackInfo)
    ensures t.trackNo == 0 && t.startLsn == 0 && t.endLsn == 0
    ensures t.GetTimeSecs() == 0 && t.GetCDDATime().0 == 0 && t.GetCDDATime().1 == 0
  {
    TrackInfo(0, 0, 0, EmptyCdText)
  }

  /** cTrackInfo(StartLsn, EndLsn, CdTextFields): track number 0, the bounds, and a field-by-field copy of the text. */
  method NewTrackInfo(startLsn: int, endLsn: int, cdTextFields: CdTextT) returns (t: TrackInfo)
    ensures t.trackNo == 0 && t.startLsn == startLsn && t.endLsn == endLsn
    ensures t.cdTextFields == cdTextFields
  {
    var fields: CdTextT := EmptyCdText;
    var i := 0;
    while i < MAX_CDTEXT_FIELDS
      invariant 0 <= i <= MAX_CDTEXT_FIELDS
      invariant fields[..i] == cdTextFields[..i]
    {
      fields := fields[i := cdTextFields[i]];
      i := i + 1;
    }
    t := TrackInfo(0, startLsn, endLsn, fields);
  }

  /** cCddbInfo: the LBA of one track for the CDDB query. */
  datatype CddbInfo = CddbInfo(lba: int)
  {
    function GetCDDALba(): (r: int)
      ensures r == lba
    {
      lba
    }
  }

  /** cCddbInfo(void) stores LBA 0. */
  function DefaultCddbInfo(): (c: CddbInfo)
    ensures c.GetCDDALba() == 0
  {
    CddbInfo(0)
  }

  /** cCddbInfo(lba) stores the LBA it is given. */
  function NewCddbInfo(lba: int): (c: CddbInfo)
    ensures c.GetCDDALba() == lba
  {
    CddbInfo(lba)
  }

  /** cCdInfo: the track list of the disc and what is known about it. */
  class CdInfo {
    var trackInfo: seq<TrackInfo>
    var cddbInfo: seq<CddbInfo>
    var leadOut: int
    var cdText: CdTextT
    var cddbInfoAvail: bool

    /** A new cCdInfo has no tracks and no CDDB information; mLeadOut is left uninitialised. */
    constructor ()
      ensures trackInfo == [] && cddbInfo == [] && cdText == EmptyCdText
      ensures !CDDBInfoAvailable()
    {
      trackInfo := [];
      cddbInfo := [];
      cdText := EmptyCdText;
      cddbInfoAvail := false;
    }

    /** Empties the track list; nothing else changes. */
    method Clear()
      modifies this
      ensures trackInfo == [] && GetNumTracks() == 0
      ensures cddbInfo == old(cddbInfo) && leadOut == old(leadOut)
      ensures cdText == old(cdText) && cddbInfoAvail == old(cddbInfoAvail)
    {
      trackInfo := [];
    }

    /** Appends one track after the existing ones. */
    method Add(startLsn: int, endLsn: int, cdTextFields: CdTextT)
      modifies this
      ensures trackInfo == old(trackInfo) + [TrackInfo(0, startLsn, endLsn, cdTextFields)]
      ensures GetNumTracks() == old(GetNumTracks()) + 1
      ensures GetStartLsn(GetNumTracks() - 1) == startLsn && GetEndLsn(GetNumTracks() - 1) == endLsn
      ensures cddbInfo == old(cddbInfo) && leadOut == old(leadOut)
      ensures cdText == old(cdText) && cddbInfoAvail == old(cddbInfoAvail)
    {
      var ti := NewTrackInfo(startLsn, endLsn, cdTextFields);
      trackInfo := trackInfo + [ti];
    }

    method SetLeadOut(leadout: int)
      modifies this
      ensures leadOut == leadout
      ensures trackInfo == old(trackInfo) && cddbInfo == old(cddbInfo)
      ensures cdText == old(cdText) && cddbInfoAvail == old(cddbInfoAvail)
    {
      leadOut := leadout;
    }

    function GetNumTracks(): (n: int)
      reads this
      ensures n >= 0 && n == |trackInfo|
    {
      |trackInfo|
    }

    /** A track index GetStartLsn, GetEndLsn and GetTrackTime accept. */
    predicate IsTrackIdx(track: int)
      reads this
    {
      0 <= track < GetNumTracks()
    }

    /** INVALID_TRACK_IDX never selects a track, whatever the list holds. */
    lemma InvalidTrackIdxIsNoTrack()
      ensures !IsTrackIdx(INVALID_TRACK_IDX)
    {
    }

    function GetStartLsn(track: int): (r: int)
      reads this
      requires IsTrackIdx(track)
      ensures r == trackInfo[track].startLsn
    {
      trackInfo[track].startLsn
    }

    function GetEndLsn(track: int): (r: int)
      reads this
      requires IsTrackIdx(track)
      ensures r == trackInfo[track].endLsn
    {
      trackInfo[track].endLsn
    }

    /** The playing time of a track, as minutes and seconds. */
    function GetTrackTime(track: int): (r: (int, int))
      reads this
      requires IsTrackIdx(track)
      ensures r.0 * 60 + r.1 == TruncDiv(GetEndLsn(track) - GetStartLsn(track), CDIO_CD_FRAMES_PER_SEC)
    {
      trackInfo[track].GetCDDATime()
    }

    function CDDBInfoAvailable(): (r: bool)
      reads this
      ensures r == cddbInfoAvail
    {
      cddbInfoAvail
    }
  }
}
