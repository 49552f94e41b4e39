/**
  The loop of `mergeVideoWithAudio` (AudioVideoManager.swift) that lays the
  background audio under the video, repeating it as often as needed. Times
  are integer ticks instead of `CMTime` values; each inserted segment is the
  first `duration` ticks of the audio track, placed at `at` in the composition.
 */
module AudioTiling {

  /** One `insertTimeRange` call: the audio range [0, duration) placed at `at`. */
  datatype Segment = Segment(at: int, duration: int)

  function Min(x: int, y: int): int
  {
    if x <= y then x else y
  }

  /** The segments the loop inserts from `audioTime` on, when the audio is not empty. */
  function Tiling(audioTime: int, videoDuration: int, audioDuration: int): seq<Segment>
    requires audioDuration > 0
    decreases videoDuration - audioTime
  {
    if audioTime >= videoDuration then []
    else
      var durationToAdd := Min(videoDuration - audioTime, audioDuration);
      [Segment(audioTime, durationToAdd)] + Tiling(audioTime + durationToAdd, videoDuration, audioDuration)
  }

  /**
    The loop as written: while the audio time is before the end of the video,
    insert the rest of the video's length or the whole audio, whichever is
    shorter, and move on by that much.
   */
  method TileAudio(videoDuration: int, audioDuration: int) returns (segments: seq<Segment>, audioTime: int)
    requires audioDuration > 0 || videoDuration <= 0
    ensures audioDuration > 0 ==> segments == Tiling(0, videoDuration, audioDuration)
    ensures videoDuration <= 0 ==> segments == [] && audioTime == 0
    ensures videoDuration > 0 ==> audioTime == videoDuration
  {
    segments := [];
    audioTime := 0;
    while audioTime < videoDuration
      invariant videoDuration > 0 ==> 0 <= audioTime <= videoDuration
      invariant videoDuration <= 0 ==> segments == [] && audioTime == 0
      invariant audioDuration > 0 ==>
        segments + Tiling(audioTime, videoDuration, audioDuration) == Tiling(0, videoDuration, audioDuration)
      decreases videoDuration - audioTime
    {
      var durationToAdd := Min(videoDuration - audioTime, audioDuration);
      segments := segments + [Segment(audioTime, durationToAdd)];
      audioTime := audioTime + durationToAdd;
    }
  }

  /**
    The tiling from `t` is empty exactly when `t` is already at or past the
    end of the video; otherwise it starts at `t` and its last segment ends at
    the end of the video.
   */
  lemma {:induction false} TilingEnds(t: int, videoDuration: int, audioDuration: int)
    requires audioDuration > 0
    ensures var ss := Tiling(t, videoDuration, audioDuration);
      (ss == [] <==> t >= videoDuration)
      && (ss != [] ==> ss[0].at == t && ss[|ss| - 1].at + ss[|ss| - 1].duration == videoDuration)
    decreases videoDuration - t
  {
    if t < videoDuration {
      var d := Min(videoDuration - t, audioDuration);
      TilingEnds(t + d, videoDuration, audioDuration);
    }
  }

  /** A segment is the shorter of the audio and the rest of the video, so never empty and never longer than the audio. */
  predicate Fits(s: Segment, videoDuration: int, audioDuration: int)
  {
    s.duration == Min(videoDuration - s.at, audioDuration) && 0 < s.duration <= audioDuration
  }

  /** Every segment of a tiling fits the video and the audio. */
  lemma {:induction false} TilingSegmentLengths(t: int, videoDuration: int, audioDuration: int)
    requires audioDuration > 0
    ensures forall s :: s in Tiling(t, videoDuration, audioDuration) ==> Fits(s, videoDuration, audioDuration)
    decreases videoDuration - t
  {
    if t < videoDuration {
      var d := Min(videoDuration - t, audioDuration);
      TilingSegmentLengths(t + d, videoDuration, audioDuration);
      assert Tiling(t, videoDuration, audioDuration) == [Segment(t, d)] + Tiling(t + d, videoDuration, audioDuration);
    }
  }

  /**
    Each segment starts where the previous one ended, and all but the last
    are whole copies of the audio.
   */
  lemma {:induction false} TilingContiguous(t: int, videoDuration: int, audioDuration: int)
    requires audioDuration > 0
    ensures var ss := Tiling(t, videoDuration, audioDuration);
      forall i :: 0 <= i < |ss| - 1 ==>
        ss[i + 1].at == ss[i].at + ss[i].duration && ss[i].duration == audioDuration
    decreases videoDuration - t
  {
    if t < videoDuration {
      var d := Min(videoDuration - t, audioDuration);
      var rest := Tiling(t + d, videoDuration, audioDuration);
      TilingContiguous(t + d, videoDuration, audioDuration);
      TilingEnds(t + d, videoDuration, audioDuration);
      var ss := Tiling(t, videoDuration, audioDuration);
      forall i | 0 <= i < |ss| - 1
        ensures ss[i + 1].at == ss[i].at + ss[i].duration && ss[i].duration == audioDuration
      {
        if i > 0 {
          assert ss[i] == rest[i - 1] && ss[i + 1] == rest[i];
        }
      }
    }
  }

  /** The loop inserts the audio ceil((videoDuration - t) / audioDuration) times. */
  lemma {:induction false} TilingCount(t: int, videoDuration: int, audioDuration: int)
    requires audioDuration > 0
    ensures var n := |Tiling(t, videoDuration, audioDuration)|;
      t < videoDuration ==> (n - 1) * audioDuration < videoDuration - t <= n * audioDuration
    decreases videoDuration - t
  {
    if t < videoDuration && videoDuration - t > audioDuration {
      TilingCount(t + audioDuration, videoDuration, audioDuration);
    }
  }

  // ---------------------------------------------------------------------------
  // An audio track of length zero

  /** Where the audio time is after `n` rounds of the loop body, started at `t`. */
  function AfterRounds(n: nat, t: int, videoDuration: int, audioDuration: int): int
  {
    if n == 0 then t
    else AfterRounds(n - 1, t + Min(videoDuration - t, audioDuration), videoDuration, audioDuration)
  }

  /**
    The loop as written never ends for an audio track with no length and a
    video with some: the audio time never moves past zero, so the loop
    condition holds after any number of rounds.
   */
  lemma {:induction false} EmptyAudioNeverFinishes(n: nat, t: int, videoDuration: int, audioDuration: int)
    requires audioDuration <= 0 && t <= 0 < videoDuration
    ensures AfterRounds(n, t, videoDuration, audioDuration) <= 0 < videoDuration
  {
    if n > 0 {
      EmptyAudioNeverFinishes(n - 1, t + Min(videoDuration - t, audioDuration), videoDuration, audioDuration);
    }
  }

  /**
    The loop with the missing check: an audio track with no length is not
    laid under the video at all. It ends on every input and agrees with the
    loop as written wherever that one ends.
   */
  method TileAudioGuarded(videoDuration: int, audioDuration: int) returns (segments: seq<Segment>, audioTime: int)
    ensures audioDuration <= 0 ==> segments == [] && audioTime == 0
    ensures audioDuration > 0 ==> segments == Tiling(0, videoDuration, audioDuration)
    ensures audioDuration > 0 && videoDuration > 0 ==> audioTime == videoDuration
  {
    if audioDuration <= 0 {
      return [], 0;
    }
    segments, audioTime := TileAudio(videoDuration, audioDuration);
  }
}
