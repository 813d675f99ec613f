/**
 * The player side (cd_control.cc): the remote-control key dispatch of
 * cCdControl, and cCdPlayer, whose thread takes sectors from the reader,
 * cuts each into FRAME_DIV chunks and hands every chunk, as one PES
 * packet, to the output device.
 *
 * The player operations SpeedFaster, SpeedSlower, SpeedNormal, NextTrack,
 * PrevTrack and Stop have no definition in the source, so ProcessKey
 * reports which of them it calls instead of performing it.  In Action the
 * sectors GetData delivers, the device poll, the PlayPes result and the
 * Running() answer are inputs.
 */
module CdControl {
  import opened Wrappers
  import opened RingBuf
  import opened PesAudio

  /** The remote-control keys ProcessKey reacts to; every other key is an OtherKey. */
  datatype Key =
    | kFastFwd | kFastRew | kPlay | kRight | kNext | kLeft | kPrev
    | kOk | kMenu | kStop | OtherKey(code: int)

  /** The player operation a key triggers. */
  datatype PlayerCall = SpeedFaster | SpeedSlower | SpeedNormal | NextTrack | PrevTrack | Stop | NoCall

  datatype OSState = osContinue | osEnd

  datatype KeyResult = KeyResult(call: PlayerCall, state: OSState)

  /**
   * cCdControl::ProcessKey.  The control ends (osEnd) exactly when the
   * player is stopped, which kOk, kMenu and kStop do; the speed keys, the
   * next-track keys and the previous-track keys each select their
   * operation and continue; any other key does nothing.
   */
  function ProcessKey(key: Key): (r: KeyResult)
    ensures r.state == osEnd <==> r.call == Stop
    ensures r.call == Stop <==> key in {kOk, kMenu, kStop}
    ensures r.call == NextTrack <==> key in {kRight, kNext}
    ensures r.call == PrevTrack <==> key in {kLeft, kPrev}
    ensures r.call == SpeedFaster <==> key == kFastFwd
    ensures r.call == SpeedSlower <==> key == kFastRew
    ensures r.call == SpeedNormal <==> key == kPlay
    ensures r.call == NoCall <==> key.OtherKey?
  {
    match key
    case kFastFwd => KeyResult(SpeedFaster, osContinue)
    case kFastRew => KeyResult(SpeedSlower, osContinue)
    case kPlay => KeyResult(SpeedNormal, osContinue)
    case kRight => KeyResult(NextTrack, osContinue)
    case kNext => KeyResult(NextTrack, osContinue)
    case kLeft => KeyResult(PrevTrack, osContinue)
    case kPrev => KeyResult(PrevTrack, osContinue)
    case kOk => KeyResult(Stop, osEnd)
    case kMenu => KeyResult(Stop, osEnd)
    case kStop => KeyResult(Stop, osEnd)
    case OtherKey(_) => KeyResult(NoCall, osContinue)
  }

  /** cCdPlayer::mSpeedTypes: the sample rate for each speed step. */
  const SpeedTypes: seq<PcmFreq> := [PCM_FREQ_44100, PCM_FREQ_48000, PCM_FREQ_96000]

  /** Chunks per sector. */
  const FRAME_DIV: nat := 4

  /** The chunk size of Action: CDIO_CD_FRAMESIZE_RAW / FRAME_DIV bytes. */
  function ChunkSize(): (r: nat)
    ensures r == 588 && r * FRAME_DIV == CDIO_CD_FRAMESIZE_RAW && r <= PES_MAX_PAYLOAD
  {
    CDIO_CD_FRAMESIZE_RAW / FRAME_DIV
  }

  /** Chunk `i` of a sector: the bytes from i * chunksize on. */
  function Chunk(b: Block, i: nat): (r: seq<bv8>)
    requires i < FRAME_DIV
    ensures |r| == ChunkSize()
    ensures forall j :: 0 <= j < ChunkSize() ==> r[j] == b[i * ChunkSize() + j]
  {
    b[i * ChunkSize()..(i + 1) * ChunkSize()]
  }

  /** The FRAME_DIV chunks of a sector, in order, give back the whole sector: they cover it without overlap. */
  lemma ChunksCoverSector(b: Block)
    ensures Chunk(b, 0) + Chunk(b, 1) + Chunk(b, 2) + Chunk(b, 3) == b
  {
    assert b == b[..588] + b[588..1176] + b[1176..1764] + b[1764..];
  }

  /** The chunk played in position `j`: chunk j % FRAME_DIV of sector j / FRAME_DIV. */
  function ChunkAt(fetched: seq<Block>, j: nat): seq<bv8>
    requires j < FRAME_DIV * |fetched|
  {
    Chunk(fetched[j / FRAME_DIV], j % FRAME_DIV)
  }

  /** The PES packet the converter builds for one chunk: the first GetPesLength() bytes of the image. */
  function PacketOf(chunk: seq<bv8>): seq<bv8>
    requires |chunk| == ChunkSize()
  {
    Image(ChunkSize(), chunk)[..PesLen(ChunkSize())]
  }

  /** A packet carries its chunk: the PES parser reads the chunk back from it. */
  lemma PacketCarriesChunk(chunk: seq<bv8>)
    requires |chunk| == ChunkSize()
    ensures |PacketOf(chunk)| == ChunkSize() + OFF_PAYLOAD
    ensures ParsePes(PacketOf(chunk)) == Some(chunk)
  {
    ParseImage(ChunkSize(), chunk);
    assert chunk[..ChunkSize()] == chunk;
  }

  /** One step of the inner loop as seen from outside: the poll result, the PlayPes result, the Running() answer. */
  datatype PlayStep = PlayStep(polled: bool, playResult: int, running: bool)

  /** Step `k` of a script; past its end the thread counts as cancelled. */
  function StepAt(env: seq<PlayStep>, k: nat): PlayStep
  {
    if k < |env| then env[k] else PlayStep(false, 0, false)
  }

  /** How many of the first `n` steps polled successfully. */
  function Polled(env: seq<PlayStep>, n: nat): nat
  {
    if n == 0 then 0 else Polled(env, n - 1) + (if StepAt(env, n - 1).polled then 1 else 0)
  }

  /** Why Action returned. */
  datatype StopReason = NoData | PlayFailed | NotRunning

  /**
   * The packets played so far are those of the first chunks, in order,
   * one per successful poll among the first `used` steps, and every one
   * of those steps answered Running() and played without error.
   */
  ghost predicate PlayedSoFar(fetched: seq<Block>, env: seq<PlayStep>, played: seq<seq<bv8>>, used: nat)
  {
    |played| <= FRAME_DIV * |fetched| &&
    (forall j :: 0 <= j < |played| ==> played[j] == PacketOf(ChunkAt(fetched, j))) &&
    |played| == Polled(env, used) && used <= |env| &&
    (forall k :: 0 <= k < used ==> StepAt(env, k).running) &&
    (forall k :: 0 <= k < used && StepAt(env, k).polled ==> StepAt(env, k).playResult >= 0)
  }

  /** A successful step that polled plays the next chunk, and the run so far stays in order. */
  lemma StepPlays(fetched: seq<Block>, env: seq<PlayStep>, played: seq<seq<bv8>>, used: nat, pes: seq<bv8>)
    requires PlayedSoFar(fetched, env, played, used) && used < |env|
    requires StepAt(env, used).running && StepAt(env, used).polled && StepAt(env, used).playResult >= 0
    requires |played| < FRAME_DIV * |fetched| && pes == PacketOf(ChunkAt(fetched, |played|))
    ensures PlayedSoFar(fetched, env, played + [pes], used + 1)
  {
    var longer := played + [pes];
    forall j | 0 <= j < |longer|
      ensures longer[j] == PacketOf(ChunkAt(fetched, j))
    {
      if j < |played| {
        assert longer[j] == played[j];
      }
    }
    assert Polled(env, used + 1) == Polled(env, used) + 1;
  }

  /** A successful step that did not poll plays nothing. */
  lemma StepIdles(fetched: seq<Block>, env: seq<PlayStep>, played: seq<seq<bv8>>, used: nat)
    requires PlayedSoFar(fetched, env, played, used) && used < |env|
    requires StepAt(env, used).running && !StepAt(env, used).polled
    ensures PlayedSoFar(fetched, env, played, used + 1)
  {
    assert Polled(env, used + 1) == Polled(env, used);
  }

  /** How a run of the player ended after `used` steps, with the last step the one that stopped it. */
  ghost predicate StoppedBy(fetched: seq<Block>, env: seq<PlayStep>, played: seq<seq<bv8>>, used: nat, reason: StopReason)
  {
    |played| <= FRAME_DIV * |fetched| &&
    (forall j :: 0 <= j < |played| ==> played[j] == PacketOf(ChunkAt(fetched, j))) &&
    |played| == Polled(env, used) && used <= |env| + 1 &&
    (forall k :: 0 <= k < used - 1 ==> StepAt(env, k).running) &&
    (forall k :: 0 <= k < used - 1 && StepAt(env, k).polled ==> StepAt(env, k).playResult >= 0) &&
    (reason == NoData ==> |played| == FRAME_DIV * |fetched|) &&
    (reason == PlayFailed ==> used > 0 && StepAt(env, used - 1).polled && StepAt(env, used - 1).playResult < 0) &&
    (reason == NotRunning ==> used > 0 && !StepAt(env, used - 1).running &&
                              (StepAt(env, used - 1).polled ==> StepAt(env, used - 1).playResult >= 0))
  }

  /** A step that played its chunk and then failed to play or was told to stop ends the run. */
  lemma StopAfterPlay(fetched: seq<Block>, env: seq<PlayStep>, played: seq<seq<bv8>>, used: nat, pes: seq<bv8>)
    requires PlayedSoFar(fetched, env, played, used)
    requires StepAt(env, used).polled && (StepAt(env, used).playResult < 0 || !StepAt(env, used).running)
    requires |played| < FRAME_DIV * |fetched| && pes == PacketOf(ChunkAt(fetched, |played|))
    ensures StoppedBy(fetched, env, played + [pes], used + 1,
                      if StepAt(env, used).playResult < 0 then PlayFailed else NotRunning)
  {
    var longer := played + [pes];
    forall j | 0 <= j < |longer|
      ensures longer[j] == PacketOf(ChunkAt(fetched, j))
    {
      if j < |played| {
        assert longer[j] == played[j];
      }
    }
    assert Polled(env, used + 1) == Polled(env, used) + 1;
  }

  /** A step that did not poll and was told to stop ends the run. */
  lemma StopIdle(fetched: seq<Block>, env: seq<PlayStep>, played: seq<seq<bv8>>, used: nat)
    requires PlayedSoFar(fetched, env, played, used)
    requires !StepAt(env, used).polled && !StepAt(env, used).running
    ensures StoppedBy(fetched, env, played, used + 1, NotRunning)
  {
    assert Polled(env, used + 1) == Polled(env, used);
  }

  /** Every packet of a run carries its chunk: the PES parser reads the audio back in order. */
  lemma PlayedPacketsCarryAudio(fetched: seq<Block>, played: seq<seq<bv8>>)
    requires |played| <= FRAME_DIV * |fetched|
    requires forall j :: 0 <= j < |played| ==> played[j] == PacketOf(ChunkAt(fetched, j))
    ensures forall j :: 0 <= j < |played| ==> ParsePes(played[j]) == Some(ChunkAt(fetched, j))
  {
    forall j | 0 <= j < |played|
      ensures ParsePes(played[j]) == Some(ChunkAt(fetched, j))
    {
      PacketCarriesChunk(ChunkAt(fetched, j));
    }
  }

  class CdPlayer {
    /** mSpeed, the index into mSpeedTypes */
    var speed: int

    ghost predicate Valid()
      reads this
    {
      0 <= speed < |SpeedTypes|
    }

    /** A new player plays at speed 0, i.e. at 44.1 kHz. */
    constructor ()
      ensures Valid() && speed == 0 && SpeedTypes[speed] == PCM_FREQ_44100
    {
      speed := 0;
    }

    /** SetFreq, SetData and the PES packet the player hands to PlayPes. */
    method Convert(converter: PesAudioConverter, chunk: seq<bv8>) returns (pes: seq<bv8>)
      requires Valid() && converter.Valid() && |chunk| == ChunkSize()
      modifies converter, converter.image
      ensures converter.Valid()
      ensures pes == PacketOf(chunk)
    {
      converter.SetFreq(SpeedTypes[speed]);
      converter.SetData(chunk, ChunkSize());
      pes := converter.GetPesData()[..converter.GetPesLength()];
    }

    /**
     * The inner loop of Action for sector `f`: poll, and on success
     * convert chunk i and play it, then ask Running(); the chunk counter i
     * moves only on a successful poll.  `stop` is None when all FRAME_DIV
     * chunks were played.
     */
    method PlaySector(converter: PesAudioConverter, fetched: seq<Block>, f: nat, env: seq<PlayStep>,
                      played0: seq<seq<bv8>>, used0: nat)
      returns (played: seq<seq<bv8>>, used: nat, stop: Option<StopReason>)
      requires Valid() && converter.Valid()
      requires f < |fetched| && |played0| == FRAME_DIV * f
      requires PlayedSoFar(fetched, env, played0, used0)
      modifies converter, converter.image
      ensures converter.Valid()
      ensures stop.None? ==> |played| == FRAME_DIV * (f + 1) && PlayedSoFar(fetched, env, played, used)
      ensures stop.Some? ==> stop.value != NoData && StoppedBy(fetched, env, played, used, stop.value)
    {
      var chunksize := ChunkSize();
      var buf := fetched[f];
      played, used := played0, used0;
      var i := 0;
      while i < FRAME_DIV
        invariant 0 <= i <= FRAME_DIV && |played| == FRAME_DIV * f + i
        invariant converter.Valid()
        invariant PlayedSoFar(fetched, env, played, used)
        decreases |env| - used, FRAME_DIV - i
      {
        var step := StepAt(env, used);
        if step.polled {
          var chunk := buf[i * chunksize..(i + 1) * chunksize];
          var pes := Convert(converter, chunk);
          assert ChunkAt(fetched, |played|) == chunk by {
            assert chunk == Chunk(buf, i);
            assert |played| / FRAME_DIV == f && |played| % FRAME_DIV == i;
          }
          if step.playResult < 0 {
            StopAfterPlay(fetched, env, played, used, pes);
            return played + [pes], used + 1, Some(PlayFailed);
          }
          if !step.running {
            StopAfterPlay(fetched, env, played, used, pes);
            return played + [pes], used + 1, Some(NotRunning);
          }
          StepPlays(fetched, env, played, used, pes);
          played := played + [pes];
          i := i + 1;
        } else {
          if !step.running {
            StopIdle(fetched, env, played, used);
            return played, used + 1, Some(NotRunning);
          }
          StepIdles(fetched, env, played, used);
        }
        used := used + 1;
      }
      stop := None;
    }

    /**
     * cCdPlayer::Action.  `fetched` are the sectors GetData delivers, after
     * which it fails; `env` scripts the inner loop.  Every chunk of every
     * sector is played once, in order: packet `j` is the PES packet of
     * chunk j % FRAME_DIV of sector j / FRAME_DIV, and the chunk counter
     * only moves on a successful poll.  The loop stops when GetData fails
     * (after all chunks were played), when PlayPes fails, or when Running()
     * answers false.  `used` is the number of steps taken.
     */
    method Action(fetched: seq<Block>, env: seq<PlayStep>)
      returns (played: seq<seq<bv8>>, reason: StopReason, used: nat)
      requires Valid()
      ensures StoppedBy(fetched, env, played, used, reason)
      ensures forall j :: 0 <= j < |played| ==> ParsePes(played[j]) == Some(ChunkAt(fetched, j))
    {
      var converter := new PesAudioConverter();
      played := [];
      used := 0;
      var f := 0;
      while true
        invariant 0 <= f <= |fetched| && |played| == FRAME_DIV * f
        invariant converter.Valid()
        invariant PlayedSoFar(fetched, env, played, used)
        decreases |fetched| - f
      {
        if f == |fetched| {
          PlayedPacketsCarryAudio(fetched, played);
          return played, NoData, used;
        }
        var stop;
        played, used, stop := PlaySector(converter, fetched, f, env, played, used);
        if stop.Some? {
          PlayedPacketsCarryAudio(fetched, played);
          return played, stop.value, used;
        }
        f := f + 1;
      }
    }
  }
}
