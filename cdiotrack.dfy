/**
 * The per-track record of the CD reader (the cTrackInfo of
 * bufferedcdio.h): the track's sector bounds and its CD-Text as a map
 * from field number to text.  It is a value: cBufferedCdio copies it
 * into its track list and hands out copies.
 */
module CdioTrack {

  /** Capacity, in sectors, of the reader's ring buffer. */
  const CCDIO_MAX_BLOCKS: nat := 50

  /** StringMap: CD-Text field number to text. */
  type StringMap = map<int, string>

  datatype TrackInfo = TrackInfo(trackNo: int, startLsn: int, endLsn: int, cdTextFields: StringMap)
  {
    function GetCDDATrack(): (r: int)
      ensures r == trackNo
    {
      trackNo
    }

    function GetCDDAStartLsn(): (r: int)
      ensures r == startLsn
    {
      startLsn
    }

    function GetCDDAEndLsn(): (r: int)
      ensures r == endLsn
    {
      endLsn
    }
  }

  /** cTrackInfo(void): track 0 over the empty range [0, 0), no CD-Text. */
  function DefaultTrackInfo(): (t: TrackInfo)
    ensures t.GetCDDATrack() == 0 && t.GetCDDAStartLsn() == 0 && t.GetCDDAEndLsn() == 0
    ensures t.cdTextFields == map[]
  {
    TrackInfo(0, 0, 0, map[])
  }

  /** cTrackInfo(StartLsn, EndLsn): track number 0, the bounds as given, no CD-Text yet. */
  function NewTrackInfo(startLsn: int, endLsn: int): (t: TrackInfo)
    ensures t.GetCDDATrack() == 0
    ensures t.GetCDDAStartLsn() == startLsn && t.GetCDDAEndLsn() == endLsn
    ensures t.cdTextFields == map[]
  {
    TrackInfo(0, startLsn, endLsn, map[])
  }
}
