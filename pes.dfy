/**
 * The PES/LPCM packetizer (pes_audio_converter.h, pes_audio_converter.cc).
 *
 * cPesAudioConverter keeps one packed 4096-byte image: an MPEG-2 PES
 * packet header (ISO/IEC 13818-1, section 2.4.3.6) for private stream 1,
 * a DVD-style LPCM sub-header, then the payload.  SetData rebuilds the
 * image in place; the packet handed on is its first `GetPesLength()`
 * bytes.
 */
module PesAudio {
  import opened Wrappers
  import opened Bytes

  const PES_HEADER_LEN: nat := 9
  const PES_HEADER_EXT_LEN: nat := 3
  const LPCM_HEADER_LEN: nat := 7
  const PES_MAX_PACKSIZE: nat := 4096
  const PES_MAX_PAYLOAD: nat := PES_MAX_PACKSIZE - PES_HEADER_LEN - LPCM_HEADER_LEN

  const PES_DYNAMIC_RANGE_OFF: bv8 := 0x80
  const SUBSTREAM_LPCM: bv8 := 0xA0
  const STREAM_ID_PRIVATE1: bv8 := 0xBD
  const STREAM_ID_AUDIO1: bv8 := 0xC0

  // Bits of the first PES header extension byte
  const PES_EXT1: bv8 := 0x80
  const PES_ORIGINAL: bv8 := 0x01
  const PES_COPYRIGHT: bv8 := 0x02
  const PES_DATA_ALIGNMENT_INDICATOR: bv8 := 0x04

  /** Sampling frequencies of the LPCM sample byte (bits 4-5). */
  datatype PcmFreq = PCM_FREQ_48000 | PCM_FREQ_96000 | PCM_FREQ_44100 | PCM_FREQ_32000 {
    function Code(): bv8 {
      match this
      case PCM_FREQ_48000 => 0x00
      case PCM_FREQ_96000 => 0x10
      case PCM_FREQ_44100 => 0x20
      case PCM_FREQ_32000 => 0x30
    }
  }

  /** Channel counts of the LPCM sample byte (bit 0). */
  datatype PcmChannel = PCM_CHAN1 | PCM_CHAN2 {
    function Code(): bv8 {
      match this
      case PCM_CHAN1 => 0
      case PCM_CHAN2 => 1
    }
  }

  /** Reads the frequency code back out of a sample byte. */
  function DecodeFreq(b: bv8): PcmFreq
  {
    var f := b & 0x30;
    if f == 0x00 then PCM_FREQ_48000
    else if f == 0x10 then PCM_FREQ_96000
    else if f == 0x20 then PCM_FREQ_44100
    else PCM_FREQ_32000
  }

  /** Reads the channel code back out of a sample byte. */
  function DecodeChannel(b: bv8): PcmChannel
  {
    if b & 0x01 == 0 then PCM_CHAN1 else PCM_CHAN2
  }

  /** `freq | chan`: the two codes occupy disjoint bits, so both can be read back. */
  function SampleByte(f: PcmFreq, c: PcmChannel): (r: bv8)
    ensures DecodeFreq(r) == f && DecodeChannel(r) == c
  {
    f.Code() | c.Code()
  }

  /** The sample byte SetData always writes: `PCM_FREQ_44100 | PCM_CHAN2`, i.e. 16 bit, 44.1 kHz, stereo. */
  const CD_SAMPLE_BYTE: bv8 := PCM_FREQ_44100.Code() | PCM_CHAN2.Code()

  lemma CdSampleByte()
    ensures CD_SAMPLE_BYTE == SampleByte(PCM_FREQ_44100, PCM_CHAN2) == 0x21
    ensures DecodeFreq(CD_SAMPLE_BYTE) == PCM_FREQ_44100 && DecodeChannel(CD_SAMPLE_BYTE) == PCM_CHAN2
  {
    assert SampleByte(PCM_FREQ_44100, PCM_CHAN2) == CD_SAMPLE_BYTE;
  }

  // Byte offsets of the fields of the packed PES_PCM_STREAM_T
  const OFF_STARTCODE0: nat := 0
  const OFF_STARTCODE1: nat := 1
  const OFF_STARTCODE2: nat := 2
  const OFF_STREAMID: nat := 3
  const OFF_LEN_HIGH: nat := 4
  const OFF_LEN_LOW: nat := 5
  const OFF_EXT1: nat := 6
  const OFF_EXT2: nat := 7
  const OFF_HEADER_DATA_LEN: nat := 8
  const OFF_SUB_STREAM_ID: nat := 9
  const OFF_NUMBER_OF_FRAME_HEADERS: nat := 10
  const OFF_FIRST_FRAME_HIGH: nat := 11
  const OFF_FIRST_FRAME_LOW: nat := 12
  const OFF_AUDIO: nat := 13
  const OFF_SAMPLE: nat := 14
  const OFF_DYNAMIC_RANGE: nat := 15
  const OFF_PAYLOAD: nat := 16

  /** PES_PCM_STREAM_T, field by field. */
  datatype PesPcmStream = PesPcmStream(
    startcode0: bv8, startcode1: bv8, startcode2: bv8, streamId: bv8,
    pesPacketLenHigh: bv8, pesPacketLenLow: bv8,
    ext1: bv8, ext2: bv8, pesHeaderDataLen: bv8,
    subStreamId: bv8, numberOfFrameHeaders: bv8,
    startOfFirstAudioFrameHigh: bv8, startOfFirstAudioFrameLow: bv8,
    audio: bv8, sample: bv8, dynamicRangeControl: bv8,
    payload: seq<bv8>)
  {
    ghost predicate WellFormed() {
      |payload| == PES_MAX_PAYLOAD
    }
  }

  function Zeros(n: nat): (r: seq<bv8>)
    ensures |r| == n && forall i :: 0 <= i < n ==> r[i] == 0
  {
    seq(n, _ => 0)
  }

  /** The bytes of a stream in memory, under `#pragma pack(1)`. */
  function Pack(s: PesPcmStream): (r: seq<bv8>)
    requires s.WellFormed()
    ensures |r| == PES_MAX_PACKSIZE
  {
    [s.startcode0, s.startcode1, s.startcode2, s.streamId,
     s.pesPacketLenHigh, s.pesPacketLenLow,
     s.ext1, s.ext2, s.pesHeaderDataLen,
     s.subStreamId, s.numberOfFrameHeaders,
     s.startOfFirstAudioFrameHigh, s.startOfFirstAudioFrameLow,
     s.audio, s.sample, s.dynamicRangeControl] + s.payload
  }

  /** Reads each field back from its offset. */
  function Unpack(b: seq<bv8>): (s: PesPcmStream)
    requires |b| == PES_MAX_PACKSIZE
    ensures s.WellFormed()
  {
    PesPcmStream(
      b[OFF_STARTCODE0], b[OFF_STARTCODE1], b[OFF_STARTCODE2], b[OFF_STREAMID],
      b[OFF_LEN_HIGH], b[OFF_LEN_LOW],
      b[OFF_EXT1], b[OFF_EXT2], b[OFF_HEADER_DATA_LEN],
      b[OFF_SUB_STREAM_ID], b[OFF_NUMBER_OF_FRAME_HEADERS],
      b[OFF_FIRST_FRAME_HIGH], b[OFF_FIRST_FRAME_LOW],
      b[OFF_AUDIO], b[OFF_SAMPLE], b[OFF_DYNAMIC_RANGE],
      b[OFF_PAYLOAD..])
  }

  /**
   * The packed layout: the PES header takes offsets 0..8, the LPCM header
   * 9..15 and the payload the rest, and every field read back from its
   * offset constant is the field that was packed.
   */
  lemma PackLayout(s: PesPcmStream)
    requires s.WellFormed()
    ensures OFF_PAYLOAD == PES_HEADER_LEN + LPCM_HEADER_LEN
    ensures PES_HEADER_LEN + LPCM_HEADER_LEN + PES_MAX_PAYLOAD == PES_MAX_PACKSIZE
    ensures Unpack(Pack(s)) == s
  {
    assert Pack(s)[OFF_PAYLOAD..] == s.payload;
  }

  /** Every image of PES_MAX_PACKSIZE bytes is the packing of the stream read from it. */
  lemma PackUnpack(b: seq<bv8>)
    requires |b| == PES_MAX_PACKSIZE
    ensures Pack(Unpack(b)) == b
  {
    var h := b[..OFF_PAYLOAD];
    assert h == [b[0], b[1], b[2], b[3], b[4], b[5], b[6], b[7],
                 b[8], b[9], b[10], b[11], b[12], b[13], b[14], b[15]];
    assert b == h + b[OFF_PAYLOAD..];
  }

  /** The structure with every field zero, as a cleared image holds it. */
  function ZeroStream(): (s: PesPcmStream)
    ensures s.WellFormed()
  {
    PesPcmStream(0, 0, 0, 0, 0, 0, 0, 0, 0, 0, 0, 0, 0, 0, 0, 0, Zeros(PES_MAX_PAYLOAD))
  }

  /** The value of the 16-bit PES_packet_length field, high byte first. */
  function PesPacketLength(b: seq<bv8>): nat
    requires |b| >= OFF_PAYLOAD
  {
    (b[OFF_LEN_HIGH] as nat) * 256 + (b[OFF_LEN_LOW] as nat)
  }

  /** The `len` of SetData: bytes after the length field. */
  function PacketLengthValue(length: int): (r: int)
    ensures r == length + 10
  {
    LPCM_HEADER_LEN + PES_HEADER_EXT_LEN + length
  }

  /** The stream SetData builds for `length` bytes of `payload`. */
  function StreamOf(length: int, payload: seq<bv8>): (s: PesPcmStream)
    requires 0 <= length
    requires length <= PES_MAX_PAYLOAD ==> length <= |payload|
    ensures s.WellFormed()
  {
    if length > PES_MAX_PAYLOAD then ZeroStream()
    else
      var len := PacketLengthValue(length);
      ZeroStream().(
        startcode2 := 1,
        streamId := STREAM_ID_PRIVATE1,
        pesPacketLenLow := LowByte(len),
        pesPacketLenHigh := HighByte(len),
        ext1 := 0x80,
        ext2 := 0,
        pesHeaderDataLen := 0,
        subStreamId := SUBSTREAM_LPCM,
        numberOfFrameHeaders := 0xFF,
        sample := CD_SAMPLE_BYTE,
        dynamicRangeControl := PES_DYNAMIC_RANGE_OFF,
        payload := payload[..length] + Zeros(PES_MAX_PAYLOAD - length))
  }

  /** The whole packed image after SetData(payload, length). */
  function Image(length: int, payload: seq<bv8>): (r: seq<bv8>)
    requires 0 <= length
    requires length <= PES_MAX_PAYLOAD ==> length <= |payload|
    ensures |r| == PES_MAX_PACKSIZE
  {
    Pack(StreamOf(length, payload))
  }

  /** The byte count SetData reports, `length + PES_HEADER_LEN + LPCM_HEADER_LEN`. */
  function PesLen(length: int): (r: int)
    ensures r == length + 16 && r == OFF_PAYLOAD + length
    ensures r == PacketLengthValue(length) + 6
  {
    length + PES_HEADER_LEN + LPCM_HEADER_LEN
  }

  /** PES_MAX_PAYLOAD is 4080, and every payload it admits gets a length field value below 65536. */
  lemma MaxPayloadFits(length: int)
    requires 0 <= length <= PES_MAX_PAYLOAD
    ensures PES_MAX_PAYLOAD == 4080
    ensures 0 <= PacketLengthValue(length) < 65536
    ensures PesLen(length) <= PES_MAX_PACKSIZE
  {
  }

  /**
   * The fixed header bytes of an accepted packet: start code 00 00 01,
   * private stream 1, extension bytes 0x80 0x00, no optional header data;
   * then sub-stream 0xA0, frame-header count 0xFF, first-frame offset 0,
   * audio byte 0, 16-bit 44.1 kHz stereo, dynamic range control off.
   */
  lemma ImageHeader(length: int, payload: seq<bv8>)
    requires 0 <= length <= PES_MAX_PAYLOAD && length <= |payload|
    ensures Image(length, payload)[..4] == [0x00, 0x00, 0x01, 0xBD]
    ensures Image(length, payload)[6..9] == [0x80, 0x00, 0x00]
    ensures Image(length, payload)[9..16] == [0xA0, 0xFF, 0x00, 0x00, 0x00, 0x21, 0x80]
  {
    CdSampleByte();
  }

  /**
   * The PES_packet_length field counts the bytes that follow it
   * (ISO/IEC 13818-1, section 2.4.3.7): it equals length + 10, which is
   * the reported packet length minus the 6 bytes up to and including the
   * field.
   */
  lemma ImageLengthField(length: int, payload: seq<bv8>)
    requires 0 <= length <= PES_MAX_PAYLOAD && length <= |payload|
    ensures PesPacketLength(Image(length, payload)) == length + 10
    ensures PesPacketLength(Image(length, payload)) == PesLen(length) - 6
  {
    var len := PacketLengthValue(length);
    var img := Image(length, payload);
    assert img[OFF_LEN_HIGH] == HighByte(len);
    assert img[OFF_LEN_LOW] == LowByte(len);
    SplitBytes(len);
  }

  /** The payload is copied verbatim after the headers, and the rest of the image is zero. */
  lemma ImagePayload(length: int, payload: seq<bv8>)
    requires 0 <= length <= PES_MAX_PAYLOAD && length <= |payload|
    ensures Image(length, payload)[OFF_PAYLOAD..OFF_PAYLOAD + length] == payload[..length]
    ensures forall i :: OFF_PAYLOAD + length <= i < PES_MAX_PACKSIZE ==> Image(length, payload)[i] == 0
  {
    var s := StreamOf(length, payload);
    assert Image(length, payload)[OFF_PAYLOAD..] == s.payload;
  }

  /** An oversized request leaves a zeroed image. */
  lemma ImageOversized(length: int, payload: seq<bv8>)
    requires length > PES_MAX_PAYLOAD
    ensures Image(length, payload) == Zeros(PES_MAX_PACKSIZE)
  {
    assert Pack(ZeroStream()) == Zeros(PES_MAX_PACKSIZE);
  }

  /**
   * A reader of the packet: check the start code and stream ids, take the
   * payload length from PES_packet_length, and return that many payload
   * bytes.
   */
  function ParsePes(b: seq<bv8>): Option<seq<bv8>>
  {
    if |b| < OFF_PAYLOAD then None
    else if b[..4] != [0x00, 0x00, 0x01, STREAM_ID_PRIVATE1] || b[OFF_SUB_STREAM_ID] != SUBSTREAM_LPCM then None
    else
      var n := PesPacketLength(b) - PES_HEADER_EXT_LEN - LPCM_HEADER_LEN;
      if n < 0 || OFF_PAYLOAD + n > |b| then None
      else Some(b[OFF_PAYLOAD..OFF_PAYLOAD + n])
  }

  /** Reading back the first PesLen(length) bytes of the image gives back the payload. */
  lemma {:induction false} ParseImage(length: int, payload: seq<bv8>)
    requires 0 <= length <= PES_MAX_PAYLOAD && length <= |payload|
    ensures ParsePes(Image(length, payload)[..PesLen(length)]) == Some(payload[..length])
  {
    var img := Image(length, payload);
    var pkt := img[..PesLen(length)];
    ImageHeader(length, payload);
    ImageLengthField(length, payload);
    ImagePayload(length, payload);
    assert pkt[..4] == img[..4];
    assert pkt[OFF_SUB_STREAM_ID] == img[OFF_SUB_STREAM_ID];
    assert PesPacketLength(pkt) == PesPacketLength(img);
    assert pkt[OFF_PAYLOAD..OFF_PAYLOAD + length] == img[OFF_PAYLOAD..OFF_PAYLOAD + length];
  }

  /** The 16 header bytes SetData writes for an accepted `length`, in field order. */
  function HeaderBytes(length: int): (r: seq<bv8>)
    requires 0 <= length <= PES_MAX_PAYLOAD
    ensures |r| == OFF_PAYLOAD
  {
    var len := PacketLengthValue(length);
    [0, 0, 1, STREAM_ID_PRIVATE1, HighByte(len), LowByte(len),
     0x80, 0, 0, SUBSTREAM_LPCM, 0xFF, 0, 0, 0, CD_SAMPLE_BYTE,
     PES_DYNAMIC_RANGE_OFF]
  }

  lemma HeaderOfImage(length: int, payload: seq<bv8>)
    requires 0 <= length <= PES_MAX_PAYLOAD && length <= |payload|
    ensures Image(length, payload)[..OFF_PAYLOAD] == HeaderBytes(length)
  {
  }

  /** An image is determined by its header bytes, its payload bytes and zeros after them. */
  lemma ImageFromParts(b: seq<bv8>, length: int, payload: seq<bv8>)
    requires 0 <= length <= PES_MAX_PAYLOAD && length <= |payload|
    requires |b| == PES_MAX_PACKSIZE
    requires forall j :: 0 <= j < OFF_PAYLOAD ==> b[j] == HeaderBytes(length)[j]
    requires forall j :: 0 <= j < length ==> b[OFF_PAYLOAD + j] == payload[j]
    requires forall j :: OFF_PAYLOAD + length <= j < PES_MAX_PACKSIZE ==> b[j] == 0
    ensures b == Image(length, payload)
  {
    var img := Image(length, payload);
    var h := HeaderBytes(length);
    HeaderOfImage(length, payload);
    ImagePayload(length, payload);
    forall j | 0 <= j < PES_MAX_PACKSIZE
      ensures b[j] == img[j]
    {
      if j < OFF_PAYLOAD {
        assert img[..OFF_PAYLOAD][j] == h[j];
      } else if j < OFF_PAYLOAD + length {
        assert img[OFF_PAYLOAD..OFF_PAYLOAD + length][j - OFF_PAYLOAD] == payload[j - OFF_PAYLOAD];
      }
    }
  }

  /** cPesAudioConverter: the packed image, the reported length and the frequency setting. */
  class PesAudioConverter {
    /** mPesPcmStream, as its bytes */
    const image: array<bv8>
    /** mPeslen */
    var pesLen: int
    /** mFreq */
    var freq: PcmFreq

    ghost predicate Valid()
      reads this
    {
      image.Length == PES_MAX_PACKSIZE &&
      (pesLen == 0 || PesLen(0) <= pesLen <= PES_MAX_PACKSIZE)
    }

    /** The image is zeroed and the length is 0; mFreq is left uninitialised. */
    constructor ()
      ensures Valid() && fresh(image)
      ensures image[..] == Zeros(PES_MAX_PACKSIZE) && pesLen == 0
    {
      image := new bv8[PES_MAX_PACKSIZE](_ => 0);
      pesLen := 0;
    }

    /** Rebuild the image for the first `length` bytes of `payload`. */
    method SetData(payload: seq<bv8>, length: int)
      requires Valid()
      requires 0 <= length
      requires length <= PES_MAX_PAYLOAD ==> length <= |payload|
      modifies this, image
      ensures Valid()
      ensures image[..] == Image(length, payload)
      ensures pesLen == if length > PES_MAX_PAYLOAD then old(pesLen) else PesLen(length)
      ensures freq == old(freq)
    {
      ZeroImage();
      if length > PES_MAX_PAYLOAD {
        ImageOversized(length, payload);
        return;
      }
      WriteHeader(length);
      var k := 0;
      while k < length
        modifies image
        invariant 0 <= k <= length
        invariant forall j :: 0 <= j < OFF_PAYLOAD ==> image[j] == HeaderBytes(length)[j]
        invariant forall j :: 0 <= j < k ==> image[OFF_PAYLOAD + j] == payload[j]
        invariant forall j :: OFF_PAYLOAD + k <= j < PES_MAX_PACKSIZE ==> image[j] == 0
      {
        image[OFF_PAYLOAD + k] := payload[k];
        k := k + 1;
      }
      pesLen := PesLen(length);
      ImageFromParts(image[..], length, payload);
    }

    /** Sets every byte of the packet image to zero. */
    method ZeroImage()
      requires Valid()
      modifies image
      ensures forall j :: 0 <= j < PES_MAX_PACKSIZE ==> image[j] == 0
      ensures image[..] == Zeros(PES_MAX_PACKSIZE)
    {
      var i := 0;
      while i < PES_MAX_PACKSIZE
        invariant 0 <= i <= PES_MAX_PACKSIZE
        invariant forall j :: 0 <= j < i ==> image[j] == 0
      {
        image[i] := 0;
        i := i + 1;
      }
    }

    /** Writes the PES header and then the LPCM sub-header of a packet of `length` payload bytes into a zeroed image. */
    method WriteHeader(length: int)
      requires Valid() && 0 <= length <= PES_MAX_PAYLOAD
      requires forall j :: 0 <= j < PES_MAX_PACKSIZE ==> image[j] == 0
      modifies image
      ensures forall j :: 0 <= j < OFF_PAYLOAD ==> image[j] == HeaderBytes(length)[j]
      ensures forall j :: OFF_PAYLOAD <= j < PES_MAX_PACKSIZE ==> image[j] == 0
    {
      WritePesHeader(length);
      WriteLpcmHeader();
    }

    /** The PES header stores; the bytes from the LPCM sub-header on are left as they were. */
    method WritePesHeader(length: int)
      requires Valid() && 0 <= length <= PES_MAX_PAYLOAD
      requires forall j :: 0 <= j < OFF_SUB_STREAM_ID ==> image[j] == 0
      modifies image
      ensures forall j :: 0 <= j < OFF_SUB_STREAM_ID ==> image[j] == HeaderBytes(length)[j]
      ensures forall j :: OFF_SUB_STREAM_ID <= j < PES_MAX_PACKSIZE ==> image[j] == old(image[j])
    {
      var len := PacketLengthValue(length);
      var low, high := LowByte(len), HighByte(len);
      image[OFF_STARTCODE2] := 1;
      image[OFF_STREAMID] := STREAM_ID_PRIVATE1;
      image[OFF_LEN_LOW] := low;
      image[OFF_LEN_HIGH] := high;
      image[OFF_EXT1] := 0x80;
      image[OFF_EXT2] := 0;
      image[OFF_HEADER_DATA_LEN] := 0;
      ghost var h := HeaderBytes(length);
      assert h[..OFF_SUB_STREAM_ID] == [0, 0, 1, STREAM_ID_PRIVATE1, high, low, 0x80, 0, 0];
      assert image[..OFF_SUB_STREAM_ID] == h[..OFF_SUB_STREAM_ID];
    }

    /** The LPCM sub-header stores; every other byte is left as it was. */
    method WriteLpcmHeader()
      requires Valid()
      requires forall j :: OFF_SUB_STREAM_ID <= j < PES_MAX_PACKSIZE ==> image[j] == 0
      modifies image
      ensures forall j :: 0 <= j < OFF_SUB_STREAM_ID ==> image[j] == old(image[j])
      ensures image[OFF_SUB_STREAM_ID] == SUBSTREAM_LPCM && image[OFF_NUMBER_OF_FRAME_HEADERS] == 0xFF
      ensures image[OFF_FIRST_FRAME_HIGH] == 0 && image[OFF_FIRST_FRAME_LOW] == 0 && image[OFF_AUDIO] == 0
      ensures image[OFF_SAMPLE] == CD_SAMPLE_BYTE && image[OFF_DYNAMIC_RANGE] == PES_DYNAMIC_RANGE_OFF
      ensures forall j :: OFF_PAYLOAD <= j < PES_MAX_PACKSIZE ==> image[j] == 0
    {
      image[OFF_SUB_STREAM_ID] := SUBSTREAM_LPCM;
      image[OFF_NUMBER_OF_FRAME_HEADERS] := 0xFF;
      image[OFF_SAMPLE] := CD_SAMPLE_BYTE;
      image[OFF_DYNAMIC_RANGE] := PES_DYNAMIC_RANGE_OFF;
    }

    /** Only mFreq changes. */
    method SetFreq(newFreq: PcmFreq)
      modifies this
      ensures freq == newFreq && pesLen == old(pesLen)
    {
      freq := newFreq;
    }

    /** The reported packet length never exceeds the image. */
    function GetPesLength(): (r: int)
      reads this
      requires Valid()
      ensures 0 <= r <= PES_MAX_PACKSIZE
    {
      pesLen
    }

    /** The packed image, all PES_MAX_PACKSIZE bytes of it. */
    function GetPesData(): (r: seq<bv8>)
      reads this, image
      requires Valid()
      ensures |r| == PES_MAX_PACKSIZE
    {
      image[..]
    }
  }
}
