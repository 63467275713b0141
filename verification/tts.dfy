/** Speech synthesis for a list of bilingual segments: one clip per segment,
    synthesised to a temporary file and then either fitted to the segment's
    slot by the speed adjuster or moved into place. The synthesiser, the speed
    adjuster, the file moves and the cancellation check are parameters; the
    run is all or nothing. */
module Tts {
  import opened Wrappers
  import opened Text
  import opened Media

  /** What the collaborators do for one clip: whether synthesis succeeds,
      whether the speed adjuster returns a duration, and whether moving the
      unadjusted file succeeds. */
  datatype ClipEnv = ClipEnv(synthesised: bool, adjusted: bool, moved: bool)

  /** Whether the output directory could be created, each clip's
      collaborators, and the first segment index whose cancellation check
      throws (later checks throw too). */
  datatype TtsEnv = TtsEnv(dirCreated: bool, clips: seq<ClipEnv>, cancelAt: Option<nat>)

  /** A call made to a collaborator. */
  datatype TtsCall =
    | Synthesise(text: string, voice: string, path: string)
    | Adjust(input: string, output: string, target: real)
    | Move(from: string, to: string)

  /** The clip file of the segment with the given (1-based) index. */
  function ClipPath(dir: string, index: int): string {
    dir + "/" + ExpectedFilename(index)
  }

  /** The file synthesis writes before the clip is put in place. */
  function TempPath(dir: string, index: int): string {
    dir + "/temp_" + ExpectedFilename(index)
  }

  /** The calls made for segment `i`: synthesis, and after a successful
      synthesis either the speed adjustment to the segment's own length or
      the move. */
  function ClipCalls(s: BilingualSegment, i: nat, dir: string, voice: string, sync: bool, ce: ClipEnv): (calls: seq<TtsCall>)
    ensures |calls| >= 1 && calls[0] == Synthesise(s.translated, voice, TempPath(dir, i + 1))
  {
    var temp, final := TempPath(dir, i + 1), ClipPath(dir, i + 1);
    [Synthesise(s.translated, voice, temp)]
    + (if !ce.synthesised then []
       else if sync then [Adjust(temp, final, s.endTime - s.startTime)]
       else [Move(temp, final)])
  }

  /** Whether segment `i`'s clip ends up in place. */
  predicate ClipOk(ce: ClipEnv, sync: bool) {
    ce.synthesised && (if sync then ce.adjusted else ce.moved)
  }

  /** The clip of segment `i`, in place. */
  function Clip(s: BilingualSegment, i: nat, dir: string): TTSSegment {
    TTSSegment(i + 1, s.translated, s.startTime, s.endTime, Some(ClipPath(dir, i + 1)))
  }

  predicate CancelledAt(i: nat, cancelAt: Option<nat>) {
    cancelAt.Some? && cancelAt.value <= i
  }

  /** The loop from segment `i`: the clips made, or `None` once a check or a
      collaborator fails, and the calls made on the way. */
  function ClipsFrom(segs: seq<BilingualSegment>, dir: string, voice: string, sync: bool, env: TtsEnv, i: nat)
    : (r: (Option<seq<TTSSegment>>, seq<TtsCall>))
    requires |env.clips| == |segs| && i <= |segs|
    ensures r.0.Some? ==> |r.0.value| == |segs| - i
    decreases |segs| - i
  {
    if i == |segs| then (Some([]), [])
    else if CancelledAt(i, env.cancelAt) then (None, [])
    else
      var calls := ClipCalls(segs[i], i, dir, voice, sync, env.clips[i]);
      if !ClipOk(env.clips[i], sync) then (None, calls)
      else
        var (rest, restCalls) := ClipsFrom(segs, dir, voice, sync, env, i + 1);
        (if rest.None? then None else Some([Clip(segs[i], i, dir)] + rest.value), calls + restCalls)
  }

  /** The clips of a run and the calls it made. */
  datatype TtsRun = TtsRun(clips: seq<TTSSegment>, calls: seq<TtsCall>)

  /** `generateTTS`: nothing for no segments or when the output directory
      cannot be created; otherwise every clip, or none at all. */
  function GenerateTTS(segs: seq<BilingualSegment>, dir: string, voice: string, sync: bool, env: TtsEnv): (r: TtsRun)
    requires |env.clips| == |segs|
    ensures |segs| == 0 ==> r == TtsRun([], [])
    ensures !env.dirCreated ==> r == TtsRun([], [])
    ensures r.clips == [] || |r.clips| == |segs|
  {
    if |segs| == 0 || !env.dirCreated then TtsRun([], [])
    else
      var (clips, calls) := ClipsFrom(segs, dir, voice, sync, env, 0);
      TtsRun(clips.GetOr([]), calls)
  }

  /** Every segment from `i` on passes its cancellation check and gets its
      clip in place. */
  predicate AllSucceedFrom(segs: seq<BilingualSegment>, sync: bool, env: TtsEnv, i: nat)
    requires |env.clips| == |segs|
  {
    forall k :: i <= k < |segs| ==> !CancelledAt(k, env.cancelAt) && ClipOk(env.clips[k], sync)
  }

  /** The clips a fully successful run returns from segment `i` on, as a
      reference: segment k gives index k + 1, its translated text, its times
      and its clip path. */
  function ExpectedClips(segs: seq<BilingualSegment>, dir: string, i: nat): (cs: seq<TTSSegment>)
    requires i <= |segs|
    ensures |cs| == |segs| - i
    ensures forall k :: 0 <= k < |cs| ==> cs[k] == Clip(segs[i + k], i + k, dir)
  {
    seq(|segs| - i, k requires 0 <= k < |segs| - i => Clip(segs[i + k], i + k, dir))
  }

  /** The expected clips from `i` are segment `i`'s clip and those after it. */
  lemma ExpectedClipsCons(segs: seq<BilingualSegment>, dir: string, i: nat)
    requires i < |segs|
    ensures ExpectedClips(segs, dir, i) == [Clip(segs[i], i, dir)] + ExpectedClips(segs, dir, i + 1)
  {
    var a, b := ExpectedClips(segs, dir, i), ExpectedClips(segs, dir, i + 1);
    forall k | 1 <= k < |a| ensures a[k] == b[k - 1] { }
  }

  /** The loop from `i` returns the expected clips exactly when every segment
      from `i` on succeeds, and nothing otherwise. */
  lemma {:induction false} ClipsFromAllOrNothing(segs: seq<BilingualSegment>, dir: string, voice: string, sync: bool,
                                                 env: TtsEnv, i: nat)
    requires |env.clips| == |segs| && i <= |segs|
    ensures ClipsFrom(segs, dir, voice, sync, env, i).0
            == (if AllSucceedFrom(segs, sync, env, i) then Some(ExpectedClips(segs, dir, i)) else None)
    decreases |segs| - i
  {
    if i < |segs| {
      ClipsFromAllOrNothing(segs, dir, voice, sync, env, i + 1);
      SucceedStep(segs, sync, env, i);
      var rest := ClipsFrom(segs, dir, voice, sync, env, i + 1).0;
      var here := ClipsFrom(segs, dir, voice, sync, env, i).0;
      if !CancelledAt(i, env.cancelAt) && ClipOk(env.clips[i], sync) {
        assert here == if rest.None? then None else Some([Clip(segs[i], i, dir)] + rest.value);
        if AllSucceedFrom(segs, sync, env, i + 1) {
          ExpectedClipsCons(segs, dir, i);
        }
      } else {
        assert here == None;
      }
    }
  }

  /** Every segment from `i` succeeds exactly when segment `i` does and every
      one after it does. */
  lemma SucceedStep(segs: seq<BilingualSegment>, sync: bool, env: TtsEnv, i: nat)
    requires |env.clips| == |segs| && i < |segs|
    ensures AllSucceedFrom(segs, sync, env, i)
            <==> !CancelledAt(i, env.cancelAt) && ClipOk(env.clips[i], sync) && AllSucceedFrom(segs, sync, env, i + 1)
  {
  }

  /** All or nothing: for a non-empty list, a run returns one clip per
      segment, in order, each with index i + 1, the translated text, the
      segment's times and its own clip path, exactly when the directory was
      created and every segment succeeded; otherwise it returns nothing. */
  lemma GenerateTTSAllOrNothing(segs: seq<BilingualSegment>, dir: string, voice: string, sync: bool, env: TtsEnv)
    requires |env.clips| == |segs|
    ensures GenerateTTS(segs, dir, voice, sync, env).clips
            == (if |segs| > 0 && env.dirCreated && AllSucceedFrom(segs, sync, env, 0)
                then ExpectedClips(segs, dir, 0) else [])
  {
    if |segs| > 0 && env.dirCreated {
      ClipsFromAllOrNothing(segs, dir, voice, sync, env, 0);
    }
  }

  /** Each clip of a run keeps its segment's start and end times, so it
      lasts exactly as long and the clips keep the timeline's slots. */
  lemma ClipsKeepTimes(segs: seq<BilingualSegment>, dir: string, voice: string, sync: bool, env: TtsEnv)
    requires |env.clips| == |segs|
    ensures var cs := GenerateTTS(segs, dir, voice, sync, env).clips;
      forall k :: 0 <= k < |cs| ==>
        cs[k].startTime == segs[k].startTime && cs[k].endTime == segs[k].endTime
        && ClipDuration(cs[k]) == BilingualDuration(segs[k])
  {
    GenerateTTSAllOrNothing(segs, dir, voice, sync, env);
  }

  /** The clips of a run never share a file. */
  lemma ClipPathsDistinct(segs: seq<BilingualSegment>, dir: string, voice: string, sync: bool, env: TtsEnv)
    requires |env.clips| == |segs|
    ensures var cs := GenerateTTS(segs, dir, voice, sync, env).clips;
      forall a, b :: 0 <= a < b < |cs| ==> cs[a].audioPath != cs[b].audioPath
  {
    GenerateTTSAllOrNothing(segs, dir, voice, sync, env);
    var cs := GenerateTTS(segs, dir, voice, sync, env).clips;
    forall a, b | 0 <= a < b < |cs| ensures cs[a].audioPath != cs[b].audioPath {
      if ExpectedFilename(a + 1) == ExpectedFilename(b + 1) {
        ExpectedFilenameInjective(a + 1, b + 1);
      }
      assert ClipPath(dir, a + 1)[|dir| + 1..] == ExpectedFilename(a + 1);
      assert ClipPath(dir, b + 1)[|dir| + 1..] == ExpectedFilename(b + 1);
    }
  }

  /** A speed adjustment is asked only with synchronisation on, for a
      segment from `i` on, from its temporary file to its clip path, with the
      segment's own length as the target; a move only with synchronisation
      off, between the same two files. */
  predicate CallFits(segs: seq<BilingualSegment>, dir: string, sync: bool, i: nat, c: TtsCall) {
    (c.Adjust? ==> sync && exists k :: i <= k < |segs| && AdjustFor(segs, dir, k, c))
    && (c.Move? ==> !sync && exists k :: i <= k < |segs| && MoveFor(dir, k, c))
  }

  /** The adjustment segment `k` asks for. */
  predicate AdjustFor(segs: seq<BilingualSegment>, dir: string, k: nat, c: TtsCall)
    requires k < |segs|
  {
    c == Adjust(TempPath(dir, k + 1), ClipPath(dir, k + 1), segs[k].endTime - segs[k].startTime)
  }

  /** The move segment `k` asks for. */
  predicate MoveFor(dir: string, k: nat, c: TtsCall) {
    c == Move(TempPath(dir, k + 1), ClipPath(dir, k + 1))
  }

  predicate CallsFit(segs: seq<BilingualSegment>, dir: string, sync: bool, i: nat, calls: seq<TtsCall>) {
    forall c :: c in calls ==> CallFits(segs, dir, sync, i, c)
  }

  /** The calls of the loop from `i` fit the segments. */
  lemma {:induction false} ClipsFromCallsFit(segs: seq<BilingualSegment>, dir: string, voice: string, sync: bool,
                                             env: TtsEnv, i: nat)
    requires |env.clips| == |segs| && i <= |segs|
    ensures CallsFit(segs, dir, sync, i, ClipsFrom(segs, dir, voice, sync, env, i).1)
    decreases |segs| - i
  {
    if i < |segs| && !CancelledAt(i, env.cancelAt) {
      var calls := ClipCalls(segs[i], i, dir, voice, sync, env.clips[i]);
      forall c: TtsCall | c in calls ensures CallFits(segs, dir, sync, i, c) {
        if c.Adjust? { assert AdjustFor(segs, dir, i, c); }
        if c.Move? { assert MoveFor(dir, i, c); }
      }
      if ClipOk(env.clips[i], sync) {
        var restCalls := ClipsFrom(segs, dir, voice, sync, env, i + 1).1;
        ClipsFromCallsFit(segs, dir, voice, sync, env, i + 1);
        assert ClipsFrom(segs, dir, voice, sync, env, i).1 == calls + restCalls;
        forall c: TtsCall | c in calls + restCalls ensures CallFits(segs, dir, sync, i, c) {
          if c in restCalls {
            assert CallFits(segs, dir, sync, i + 1, c);
            if c.Adjust? {
              var k :| i + 1 <= k < |segs| && AdjustFor(segs, dir, k, c);
            }
            if c.Move? {
              var k :| i + 1 <= k < |segs| && MoveFor(dir, k, c);
            }
          }
        }
      }
    }
  }

  /** With synchronisation on every adjustment targets its segment's length
      and nothing is moved unadjusted; with it off nothing is adjusted. */
  lemma GenerateTTSCalls(segs: seq<BilingualSegment>, dir: string, voice: string, sync: bool, env: TtsEnv)
    requires |env.clips| == |segs|
    ensures CallsFit(segs, dir, sync, 0, GenerateTTS(segs, dir, voice, sync, env).calls)
  {
    if |segs| > 0 && env.dirCreated {
      ClipsFromCallsFit(segs, dir, voice, sync, env, 0);
    }
  }
}
