/** Building the dubbed audio track (AudioAssemblyService together with
    SilenceGeneratorService): the clips are sorted by start time, the gaps
    between them become silence files, and an ffmpeg concat list interleaves
    clips and silences. The shell, ffmpeg and the file system are oracles. */
module Assembly {
  import opened Wrappers
  import opened Text
  import opened Paths
  import opened Media
  import opened Sorting

  /** Gaps shorter than this are too small for ffmpeg and are dropped. */
  const MinGapDuration: real := 0.05

  // ---------------------------------------------------------------------
  // Silence files

  /** `silence_%03d.mp3`. */
  function SilenceName(i: nat): string {
    "silence_" + FormatInt(i, 3) + ".mp3"
  }

  /** Distinct silence indices get distinct file names. */
  lemma SilenceNameInjective(i: nat, j: nat)
    requires SilenceName(i) == SilenceName(j)
    ensures i == j
  {
    var a := FormatInt(i, 3);
    var b := FormatInt(j, 3);
    assert |a| == |b|;
    assert a == SilenceName(i)[8..8 + |a|];
    assert b == SilenceName(j)[8..8 + |b|];
    ParseFormatInt(i, 3);
    ParseFormatInt(j, 3);
  }

  /** `generateSilence`: a non-positive duration fails before ffmpeg runs;
      otherwise the call succeeds iff ffmpeg exits 0 and the file exists. */
  function GenerateSilence(duration: real, exitCode: int, fileExists: bool): (ok: bool)
    ensures ok ==> duration > 0.0
    ensures duration > 0.0 ==> (ok <==> exitCode == 0 && fileExists)
  {
    if duration <= 0.0 then false
    else exitCode == 0 && fileExists
  }

  /** What the file system and ffmpeg do during `generateSilences`. */
  datatype SilenceEnv = SilenceEnv(
    dirReady: bool,          // the output directory exists or can be created
    exitCodes: seq<int>,     // ffmpeg's exit status for silence i (0 when absent)
    written: set<nat>)       // silences whose file exists afterwards

  function ExitCodeOf(env: SilenceEnv, i: nat): int {
    if i < |env.exitCodes| then env.exitCodes[i] else 0
  }

  predicate SilenceOk(gaps: seq<real>, env: SilenceEnv, i: nat)
    requires i < |gaps|
  {
    GenerateSilence(gaps[i], ExitCodeOf(env, i), i in env.written)
  }

  /** The loop from gap `i` on: `None` as soon as one silence fails. */
  function SilencesFrom(gaps: seq<real>, dir: Dir, env: SilenceEnv, i: nat): (r: Option<seq<Url>>)
    requires i <= |gaps|
    ensures r.Some? <==> forall k :: i <= k < |gaps| ==> SilenceOk(gaps, env, k)
    ensures r.Some? ==> |r.value| == |gaps| - i
                        && forall k :: 0 <= k < |r.value| ==> r.value[k] == Url(dir, SilenceName(i + k))
    decreases |gaps| - i
  {
    if i == |gaps| then Some([])
    else if !SilenceOk(gaps, env, i) then None
    else
      match SilencesFrom(gaps, dir, env, i + 1)
      case None => None
      case Some(rest) => Some([Url(dir, SilenceName(i))] + rest)
  }

  /** `generateSilences`: one file per gap, all or nothing. */
  function GenerateSilences(gaps: seq<real>, dir: Dir, env: SilenceEnv): (paths: seq<Url>)
    ensures |gaps| == 0 ==> paths == []
    ensures paths == [] || |paths| == |gaps|
    ensures |paths| == |gaps| ==> forall k :: 0 <= k < |gaps| ==> paths[k] == Url(dir, SilenceName(k))
    ensures |gaps| > 0 ==>
      (|paths| == |gaps| <==> env.dirReady && forall k :: 0 <= k < |gaps| ==> SilenceOk(gaps, env, k))
  {
    if |gaps| == 0 || !env.dirReady then []
    else
      match SilencesFrom(gaps, dir, env, 0)
      case None => []
      case Some(p) => p
  }

  /** The progress reported before generating silence `i` of `n`. */
  function SilenceProgress(i: nat, n: nat): (p: real)
    requires i < n
    ensures 0.3 <= p < 0.7
  {
    0.3 + (i as real / n as real) * 0.4
  }

  // ---------------------------------------------------------------------
  // Gaps

  /** A silence to insert: before the first clip, or after clip `clip`. */
  datatype Gap = Leading(duration: real) | After(clip: nat, duration: real)

  function GapAfter(clips: seq<TTSSegment>, i: nat): real
    requires i + 1 < |clips|
  {
    clips[i + 1].startTime - clips[i].endTime
  }

  /** The between-clip gaps from clip `i` on. */
  function BetweenFrom(clips: seq<TTSSegment>, i: nat): seq<Gap>
    decreases |clips| - i
  {
    if i + 1 >= |clips| then []
    else
      var g := GapAfter(clips, i);
      (if g >= MinGapDuration then [After(i, g)] else []) + BetweenFrom(clips, i + 1)
  }

  /** A between-clip gap from clip `i` on: it follows a clip before the last,
      carries that clip's gap and is long enough. */
  predicate GapFits(clips: seq<TTSSegment>, i: nat, g: Gap) {
    g.After? && i <= g.clip && g.clip + 1 < |clips|
    && g.duration == GapAfter(clips, g.clip) && g.duration >= MinGapDuration
  }

  /** Two between-clip gaps, the first after an earlier clip. */
  predicate Precedes(g: Gap, h: Gap) {
    g.After? && h.After? && g.clip < h.clip
  }

  /** The gaps `calculateGaps` emits, tagged with where each one belongs. */
  function GapSchedule(clips: seq<TTSSegment>): seq<Gap> {
    (if |clips| > 0 && clips[0].startTime > MinGapDuration then [Leading(clips[0].startTime)] else [])
    + BetweenFrom(clips, 0)
  }

  function Durations(s: seq<Gap>): (r: seq<real>)
    ensures |r| == |s| && forall j :: 0 <= j < |s| ==> r[j] == s[j].duration
  {
    seq(|s|, j requires 0 <= j < |s| => s[j].duration)
  }

  /** `calculateGaps`. Its loop `0..<(count - 1)` traps on an empty list;
      its only caller has already rejected that case. */
  function CalculateGaps(clips: seq<TTSSegment>): (gaps: seq<real>)
    requires |clips| > 0
    ensures |gaps| <= |clips|
    ensures forall j :: 0 <= j < |gaps| ==> gaps[j] >= MinGapDuration
  {
    BetweenFromFacts(clips, 0);
    Durations(GapSchedule(clips))
  }

  /** Every between-clip gap from `i` on belongs to a later clip, carries
      that clip's gap, and is long enough; they are in clip order. */
  lemma {:induction false} BetweenFromFacts(clips: seq<TTSSegment>, i: nat)
    ensures |BetweenFrom(clips, i)| <= if i + 1 < |clips| then |clips| - 1 - i else 0
    ensures forall j :: 0 <= j < |BetweenFrom(clips, i)| ==> GapFits(clips, i, BetweenFrom(clips, i)[j])
    ensures forall j, k :: 0 <= j < k < |BetweenFrom(clips, i)| ==>
      Precedes(BetweenFrom(clips, i)[j], BetweenFrom(clips, i)[k])
    decreases |clips| - i
  {
    if i + 1 < |clips| {
      var g := GapAfter(clips, i);
      var head := if g >= MinGapDuration then [After(i, g)] else [];
      var tail := BetweenFrom(clips, i + 1);
      var b := BetweenFrom(clips, i);
      assert b == head + tail;
      BetweenFromFacts(clips, i + 1);
      forall j | 0 <= j < |b|
        ensures GapFits(clips, i, b[j])
      {
        if j >= |head| {
          assert b[j] == tail[j - |head|];
        }
      }
      forall j, k | 0 <= j < k < |b|
        ensures Precedes(b[j], b[k])
      {
        if j >= |head| {
          assert b[j] == tail[j - |head|];
        }
        assert b[k] == tail[k - |head|];
        assert GapFits(clips, i + 1, tail[k - |head|]);
      }
    }
  }

  /** Between clips `i` and `i + 1` a gap is scheduled exactly when the
      distance is at least the minimum, and then it is that distance. */
  lemma {:induction false} BetweenFromMember(clips: seq<TTSSegment>, i: nat, m: nat)
    requires i <= m && m + 1 < |clips|
    ensures GapAfter(clips, m) >= MinGapDuration <==> After(m, GapAfter(clips, m)) in BetweenFrom(clips, i)
    ensures forall d :: After(m, d) in BetweenFrom(clips, i) ==> d == GapAfter(clips, m)
    decreases |clips| - i
  {
    var g := GapAfter(clips, i);
    var head := if g >= MinGapDuration then [After(i, g)] else [];
    var tail := BetweenFrom(clips, i + 1);
    assert BetweenFrom(clips, i) == head + tail;
    if i < m {
      BetweenFromMember(clips, i + 1, m);
      assert forall x :: x in head + tail <==> x in head || x in tail;
    } else {
      BetweenFromFacts(clips, i + 1);
      forall k | 0 <= k < |tail|
        ensures tail[k].clip > m
      {
        assert GapFits(clips, i + 1, tail[k]);
      }
      assert forall d :: After(m, d) !in tail;
    }
  }

  /** The gap rules: a leading gap exactly when the first clip starts after
      0.05 s (strictly), a gap after clip `m` exactly when the next clip starts
      at least 0.05 s after it ends, and nothing else. */
  lemma GapScheduleRules(clips: seq<TTSSegment>)
    requires |clips| > 0
    ensures (exists d :: Leading(d) in GapSchedule(clips)) <==> clips[0].startTime > MinGapDuration
    ensures forall d :: Leading(d) in GapSchedule(clips) ==> d == clips[0].startTime
    ensures forall m :: 0 <= m < |clips| - 1 ==>
      (GapAfter(clips, m) >= MinGapDuration <==> After(m, GapAfter(clips, m)) in GapSchedule(clips))
    ensures forall g :: g in GapSchedule(clips) && g.After? ==>
      g.clip + 1 < |clips| && g.duration == GapAfter(clips, g.clip)
  {
    var s := GapSchedule(clips);
    var lead := if clips[0].startTime > MinGapDuration then [Leading(clips[0].startTime)] else [];
    BetweenFromFacts(clips, 0);
    assert s == lead + BetweenFrom(clips, 0);
    if clips[0].startTime > MinGapDuration {
      assert Leading(clips[0].startTime) == s[0];
    }
    forall m | 0 <= m < |clips| - 1
      ensures GapAfter(clips, m) >= MinGapDuration <==> After(m, GapAfter(clips, m)) in s
    {
      BetweenFromMember(clips, 0, m);
    }
  }

  /** Clips (0–2) and (2.5–4): one gap of 0.5 s and no leading gap. */
  lemma GapExample()
    ensures CalculateGaps([TTSSegment(1, "a", 0.0, 2.0, Some("a.mp3")),
                           TTSSegment(2, "b", 2.5, 4.0, Some("b.mp3"))]) == [0.5]
  {
    var clips := [TTSSegment(1, "a", 0.0, 2.0, Some("a.mp3")), TTSSegment(2, "b", 2.5, 4.0, Some("b.mp3"))];
    assert BetweenFrom(clips, 1) == [];
    assert BetweenFrom(clips, 0) == [After(0, 0.5)];
    assert GapSchedule(clips) == [After(0, 0.5)];
  }

  // ---------------------------------------------------------------------
  // Concat list and timeline

  /** One line of the ffmpeg concat list: clip `i` of the sorted clips, or
      silence file `j`. */
  datatype ConcatEntry = ClipFile(clip: nat) | SilenceFile(silence: nat)

  /** The length an entry adds to the output, taking each clip's audio to
      fill its slot exactly (which the speed adjustment aims at). */
  function EntryDuration(e: ConcatEntry, clips: seq<TTSSegment>, gaps: seq<real>): real {
    match e
    case ClipFile(i) => if i < |clips| then ClipDuration(clips[i]) else 0.0
    case SilenceFile(j) => if j < |gaps| then gaps[j] else 0.0
  }

  /** Where each entry starts in the concatenated output when the first one
      starts at `t`. */
  function Offsets(entries: seq<ConcatEntry>, clips: seq<TTSSegment>, gaps: seq<real>, t: real): (r: seq<real>)
    ensures |r| == |entries|
    ensures |entries| > 0 ==> r[0] == t
    decreases |entries|
  {
    if |entries| == 0 then []
    else [t] + Offsets(entries[1..], clips, gaps, t + EntryDuration(entries[0], clips, gaps))
  }

  /** Every clip entry starts at its clip's start time. */
  predicate OnSchedule(entries: seq<ConcatEntry>, clips: seq<TTSSegment>, offsets: seq<real>)
    requires |offsets| == |entries|
  {
    forall k :: 0 <= k < |entries| && entries[k].ClipFile? ==>
      entries[k].clip < |clips| && offsets[k] == clips[entries[k].clip].startTime
  }

  /** `createConcatFile` as written, from clip `i` with `si` silences used:
      clips without a path are skipped together with their silence, and after
      every clip but the last the next unused silence follows. */
  function WrittenFrom(clips: seq<TTSSegment>, k: nat, i: nat, si: nat): seq<ConcatEntry>
    decreases |clips| - i
  {
    if i >= |clips| then []
    else if clips[i].audioPath.None? then WrittenFrom(clips, k, i + 1, si)
    else if i < |clips| - 1 && si < k then [ClipFile(i), SilenceFile(si)] + WrittenFrom(clips, k, i + 1, si + 1)
    else [ClipFile(i)] + WrittenFrom(clips, k, i + 1, si)
  }

  /** `createConcatFile` as written: the first silence, if any, always goes
      first. */
  function WrittenConcatList(clips: seq<TTSSegment>, k: nat): seq<ConcatEntry> {
    if 0 < k then [SilenceFile(0)] + WrittenFrom(clips, k, 0, 1)
    else WrittenFrom(clips, k, 0, 0)
  }

  /** Slot `i` holds silence `i` (when `i < k`) and then clip `i`. */
  function Slotted(n: nat, k: nat, i: nat): seq<ConcatEntry>
    decreases n - i
  {
    if i >= n then []
    else (if i < k then [SilenceFile(i)] else []) + [ClipFile(i)] + Slotted(n, k, i + 1)
  }

  predicate AllHavePaths(clips: seq<TTSSegment>) {
    forall i :: 0 <= i < |clips| ==> clips[i].audioPath.Some?
  }

  lemma {:induction false} WrittenFromSlotted(clips: seq<TTSSegment>, k: nat, i: nat, si: nat)
    requires AllHavePaths(clips) && k <= |clips| && i < |clips|
    requires si == if i + 1 < k then i + 1 else k
    ensures WrittenFrom(clips, k, i, si) == [ClipFile(i)] + Slotted(|clips|, k, i + 1)
    decreases |clips| - i
  {
    if i + 1 < |clips| {
      var si' := if i + 2 < k then i + 2 else k;
      WrittenFromSlotted(clips, k, i + 1, si');
    }
  }

  /** With every clip present and at most one silence per clip, the written
      list puts silence `j` immediately before clip `j`: the slots are
      [before clip 0, after clip 0, ..., after clip n-2], filled in order
      regardless of where the gaps were measured. */
  lemma WrittenListSlots(clips: seq<TTSSegment>, k: nat)
    requires AllHavePaths(clips) && k <= |clips|
    ensures WrittenConcatList(clips, k) == Slotted(|clips|, k, 0)
  {
    if |clips| > 0 {
      WrittenFromSlotted(clips, k, 0, if 1 < k then 1 else k);
    }
  }

  /** The slotted list holds n + k entries. */
  lemma {:induction false} SlottedLength(n: nat, k: nat, i: nat)
    requires k <= n
    ensures |Slotted(n, k, i)| == if i >= n then 0 else (n - i) + (if i < k then k - i else 0)
    decreases n - i
  {
    if i < n {
      SlottedLength(n, k, i + 1);
    }
  }

  /** The clips (0–2) and (2.5–4) have one gap, after clip 0, but the written
      list plays its silence first: clip 0 starts at 0.5 s instead of 0. */
  lemma WrittenListDelaysFirstClip()
    ensures var clips := [TTSSegment(1, "a", 0.0, 2.0, Some("a.mp3")), TTSSegment(2, "b", 2.5, 4.0, Some("b.mp3"))];
      var gaps := CalculateGaps(clips);
      var entries := WrittenConcatList(clips, |gaps|);
      entries == [SilenceFile(0), ClipFile(0), ClipFile(1)]
      && Offsets(entries, clips, gaps, 0.0)[1] == 0.5
      && clips[0].startTime == 0.0
  {
    var clips := [TTSSegment(1, "a", 0.0, 2.0, Some("a.mp3")), TTSSegment(2, "b", 2.5, 4.0, Some("b.mp3"))];
    GapExample();
    var entries := WrittenConcatList(clips, 1);
    assert WrittenFrom(clips, 1, 1, 1) == [ClipFile(1)];
    assert entries == [SilenceFile(0), ClipFile(0), ClipFile(1)];
    assert entries[1..] == [ClipFile(0), ClipFile(1)];
  }

  /** The concat list with each silence placed where its gap was measured,
      from clip `i`, where `j` is the next schedule entry. */
  function PlacedFrom(clips: seq<TTSSegment>, schedule: seq<Gap>, i: nat, j: nat): seq<ConcatEntry>
    decreases |clips| - i
  {
    if i >= |clips| then []
    else if j < |schedule| && schedule[j].After? && schedule[j].clip == i then
      [ClipFile(i), SilenceFile(j)] + PlacedFrom(clips, schedule, i + 1, j + 1)
    else [ClipFile(i)] + PlacedFrom(clips, schedule, i + 1, j)
  }

  /** The corrected concat list: a leading silence only for a leading gap,
      and each other silence after the clip whose gap it fills. */
  function ConcatList(clips: seq<TTSSegment>): seq<ConcatEntry> {
    var schedule := GapSchedule(clips);
    if |schedule| > 0 && schedule[0].Leading? then [SilenceFile(0)] + PlacedFrom(clips, schedule, 0, 1)
    else PlacedFrom(clips, schedule, 0, 0)
  }

  /** Every gap the schedule drops is zero: the clips abut or are separated
      by at least 0.05 s, and the first starts at 0 or after 0.05 s. */
  predicate Tight(clips: seq<TTSSegment>) {
    (|clips| > 0 ==> clips[0].startTime == 0.0 || clips[0].startTime > MinGapDuration)
    && forall i :: 0 <= i < |clips| - 1 ==>
         GapAfter(clips, i) == 0.0 || GapAfter(clips, i) >= MinGapDuration
  }

  /** Projection of the clip entries. */
  function ClipOrder(entries: seq<ConcatEntry>): (r: seq<nat>)
    decreases |entries|
  {
    if |entries| == 0 then []
    else (if entries[0].ClipFile? then [entries[0].clip] else []) + ClipOrder(entries[1..])
  }

  /** Projection of the silence entries. */
  function SilenceOrder(entries: seq<ConcatEntry>): (r: seq<nat>)
    decreases |entries|
  {
    if |entries| == 0 then []
    else (if entries[0].SilenceFile? then [entries[0].silence] else []) + SilenceOrder(entries[1..])
  }

  function Range(lo: nat, hi: nat): (r: seq<nat>)
    ensures |r| == if lo <= hi then hi - lo else 0
    ensures forall k :: 0 <= k < |r| ==> r[k] == lo + k
    decreases hi - lo
  {
    if lo >= hi then [] else [lo] + Range(lo + 1, hi)
  }

  lemma {:induction false} ClipOrderAppend(a: seq<ConcatEntry>, b: seq<ConcatEntry>)
    ensures ClipOrder(a + b) == ClipOrder(a) + ClipOrder(b)
    ensures SilenceOrder(a + b) == SilenceOrder(a) + SilenceOrder(b)
  {
    ClipsAppend(a, b);
    SilencesAppend(a, b);
  }

  lemma {:induction false} ClipsAppend(a: seq<ConcatEntry>, b: seq<ConcatEntry>)
    ensures ClipOrder(a + b) == ClipOrder(a) + ClipOrder(b)
    decreases |a|
  {
    if |a| == 0 {
      assert a + b == b;
    } else {
      assert (a + b)[0] == a[0];
      assert (a + b)[1..] == a[1..] + b;
      ClipsAppend(a[1..], b);
    }
  }

  lemma {:induction false} SilencesAppend(a: seq<ConcatEntry>, b: seq<ConcatEntry>)
    ensures SilenceOrder(a + b) == SilenceOrder(a) + SilenceOrder(b)
    decreases |a|
  {
    if |a| == 0 {
      assert a + b == b;
    } else {
      assert (a + b)[0] == a[0];
      assert (a + b)[1..] == a[1..] + b;
      SilencesAppend(a[1..], b);
    }
  }

  /** Offsets of a list with one or two leading entries. */
  lemma {:induction false} OffsetsCons2(e1: ConcatEntry, e2: ConcatEntry, rest: seq<ConcatEntry>,
                                        clips: seq<TTSSegment>, gaps: seq<real>, t: real)
    ensures var o := Offsets([e1, e2] + rest, clips, gaps, t);
      var t2 := t + EntryDuration(e1, clips, gaps);
      o == [t, t2] + Offsets(rest, clips, gaps, t2 + EntryDuration(e2, clips, gaps))
  {
    assert ([e1, e2] + rest)[1..] == [e2] + rest;
    assert ([e2] + rest)[1..] == rest;
  }

  lemma {:induction false} OffsetsCons1(e1: ConcatEntry, rest: seq<ConcatEntry>,
                                        clips: seq<TTSSegment>, gaps: seq<real>, t: real)
    ensures Offsets([e1] + rest, clips, gaps, t)
      == [t] + Offsets(rest, clips, gaps, t + EntryDuration(e1, clips, gaps))
  {
    assert ([e1] + rest)[1..] == rest;
  }

  /** Clip `i` followed by the silence for its gap brings the timeline to the
      start of clip `i + 1`. */
  lemma ClipThenSilenceStep(clips: seq<TTSSegment>, gaps: seq<real>, i: nat, j: nat, rest: seq<ConcatEntry>)
    requires i + 1 < |clips| && j < |gaps| && gaps[j] == GapAfter(clips, i)
    requires OnSchedule(rest, clips, Offsets(rest, clips, gaps, clips[i + 1].startTime))
    ensures var e := [ClipFile(i), SilenceFile(j)] + rest;
      OnSchedule(e, clips, Offsets(e, clips, gaps, clips[i].startTime))
  {
    var pre := [ClipFile(i), SilenceFile(j)];
    var t2 := clips[i].startTime + EntryDuration(ClipFile(i), clips, gaps);
    assert t2 == clips[i].endTime;
    assert t2 + EntryDuration(SilenceFile(j), clips, gaps) == clips[i + 1].startTime;
    OffsetsCons2(ClipFile(i), SilenceFile(j), rest, clips, gaps, clips[i].startTime);
    var ro := Offsets(rest, clips, gaps, clips[i + 1].startTime);
    OnSchedulePrefix(pre, rest, clips, [clips[i].startTime, t2], ro);
  }

  /** Clip `i` abutting clip `i + 1` brings the timeline to its start. */
  lemma ClipAloneStep(clips: seq<TTSSegment>, gaps: seq<real>, i: nat, rest: seq<ConcatEntry>)
    requires i + 1 < |clips| && GapAfter(clips, i) == 0.0
    requires OnSchedule(rest, clips, Offsets(rest, clips, gaps, clips[i + 1].startTime))
    ensures var e := [ClipFile(i)] + rest;
      OnSchedule(e, clips, Offsets(e, clips, gaps, clips[i].startTime))
  {
    assert clips[i].startTime + EntryDuration(ClipFile(i), clips, gaps) == clips[i + 1].startTime;
    OffsetsCons1(ClipFile(i), rest, clips, gaps, clips[i].startTime);
    var ro := Offsets(rest, clips, gaps, clips[i + 1].startTime);
    OnSchedulePrefix([ClipFile(i)], rest, clips, [clips[i].startTime], ro);
  }

  /** Entries on schedule before entries on schedule. */
  lemma OnSchedulePrefix(pre: seq<ConcatEntry>, rest: seq<ConcatEntry>, clips: seq<TTSSegment>,
                         po: seq<real>, ro: seq<real>)
    requires |po| == |pre| && |ro| == |rest|
    requires OnSchedule(pre, clips, po) && OnSchedule(rest, clips, ro)
    ensures OnSchedule(pre + rest, clips, po + ro)
  {
    var e, o := pre + rest, po + ro;
    forall k | 0 <= k < |e| && e[k].ClipFile?
      ensures e[k].clip < |clips| && o[k] == clips[e[k].clip].startTime
    {
      if k < |pre| {
        assert e[k] == pre[k] && o[k] == po[k];
      } else {
        assert e[k] == rest[k - |pre|] && o[k] == ro[k - |pre|];
      }
    }
  }

  lemma OrderSteps(i: nat, j: nat, rest: seq<ConcatEntry>)
    ensures ClipOrder([ClipFile(i), SilenceFile(j)] + rest) == [i] + ClipOrder(rest)
    ensures SilenceOrder([ClipFile(i), SilenceFile(j)] + rest) == [j] + SilenceOrder(rest)
    ensures ClipOrder([ClipFile(i)] + rest) == [i] + ClipOrder(rest)
    ensures SilenceOrder([ClipFile(i)] + rest) == SilenceOrder(rest)
    ensures ClipOrder([SilenceFile(j)] + rest) == ClipOrder(rest)
    ensures SilenceOrder([SilenceFile(j)] + rest) == [j] + SilenceOrder(rest)
  {
    ClipOrderAppend([ClipFile(i), SilenceFile(j)], rest);
    ClipOrderAppend([ClipFile(i)], rest);
    ClipOrderAppend([SilenceFile(j)], rest);
    assert [ClipFile(i), SilenceFile(j)][1..] == [SilenceFile(j)];
  }

  /** From clip `i` on, with the schedule's remaining entries being the gaps
      after clips `i`, `i + 1`, ..., every clip lands at its start time, the
      clips appear once each in order and the silences `j`, `j + 1`, ... are
      all used once in order. */
  lemma {:induction false} PlacedFromOnSchedule(clips: seq<TTSSegment>, i: nat, j: nat)
    requires |clips| > 0 && Tight(clips) && i <= |clips| && j <= |GapSchedule(clips)|
    requires GapSchedule(clips)[j..] == BetweenFrom(clips, i)
    ensures var e := PlacedFrom(clips, GapSchedule(clips), i, j);
      (i < |clips| ==> OnSchedule(e, clips, Offsets(e, clips, CalculateGaps(clips), clips[i].startTime)))
      && ClipOrder(e) == Range(i, |clips|)
      && SilenceOrder(e) == Range(j, |GapSchedule(clips)|)
  {
    if i < |clips| {
      PlacedFromTimes(clips, i, j);
      assert TimedFrom(clips, i, j);
    }
    PlacedFromOrders(clips, i, j);
  }

  /** The timing half: every clip from `i` on lands at its start time. */
  lemma {:induction false} PlacedFromTimes(clips: seq<TTSSegment>, i: nat, j: nat)
    requires |clips| > 0 && Tight(clips) && i < |clips| && j <= |GapSchedule(clips)|
    requires GapSchedule(clips)[j..] == BetweenFrom(clips, i)
    ensures TimedFrom(clips, i, j)
    decreases |clips| - i
  {
    if i + 1 == |clips| {
      assert BetweenFrom(clips, i) == [];
      PlacedLast(clips, i, j);
    } else if GapAfter(clips, i) >= MinGapDuration {
      GapTaken(clips, i, j);
      PlacedFromTimes(clips, i + 1, j + 1);
      PlacedWithSilence(clips, i, j);
    } else {
      GapSkipped(clips, i, j);
      PlacedFromTimes(clips, i + 1, j);
      PlacedAlone(clips, i, j);
    }
  }

  /** A gap long enough is the next entry of the schedule. */
  lemma GapTaken(clips: seq<TTSSegment>, i: nat, j: nat)
    requires i + 1 < |clips| && j <= |GapSchedule(clips)|
    requires GapSchedule(clips)[j..] == BetweenFrom(clips, i)
    requires GapAfter(clips, i) >= MinGapDuration
    ensures j + 1 <= |GapSchedule(clips)| && GapSchedule(clips)[j] == After(i, GapAfter(clips, i))
    ensures GapSchedule(clips)[j + 1..] == BetweenFrom(clips, i + 1)
  {
    var s := GapSchedule(clips);
    assert BetweenFrom(clips, i) == [After(i, GapAfter(clips, i))] + BetweenFrom(clips, i + 1);
    assert s[j] == s[j..][0];
    assert s[j + 1..] == s[j..][1..];
  }

  /** A gap too short is dropped, and on a tight timeline it is zero. */
  lemma GapSkipped(clips: seq<TTSSegment>, i: nat, j: nat)
    requires Tight(clips) && i + 1 < |clips| && j <= |GapSchedule(clips)|
    requires GapSchedule(clips)[j..] == BetweenFrom(clips, i)
    requires GapAfter(clips, i) < MinGapDuration
    ensures GapAfter(clips, i) == 0.0
    ensures GapSchedule(clips)[j..] == BetweenFrom(clips, i + 1)
    ensures !(j < |GapSchedule(clips)| && GapSchedule(clips)[j].After? && GapSchedule(clips)[j].clip == i)
  {
    var s := GapSchedule(clips);
    BetweenFromFacts(clips, i + 1);
    assert BetweenFrom(clips, i) == BetweenFrom(clips, i + 1);
    if j < |s| {
      assert s[j] == BetweenFrom(clips, i + 1)[0];
      assert GapFits(clips, i + 1, s[j]);
    }
  }

  /** The placed list from clip `i` and silence `j` puts every clip at its
      start time, counting from clip `i`'s. */
  predicate TimedFrom(clips: seq<TTSSegment>, i: nat, j: nat)
    requires |clips| > 0 && i < |clips|
  {
    var e := PlacedFrom(clips, GapSchedule(clips), i, j);
    OnSchedule(e, clips, Offsets(e, clips, CalculateGaps(clips), clips[i].startTime))
  }

  lemma PlacedLast(clips: seq<TTSSegment>, i: nat, j: nat)
    requires i + 1 == |clips| && j == |GapSchedule(clips)|
    ensures TimedFrom(clips, i, j)
  {
    var s := GapSchedule(clips);
    var e := PlacedFrom(clips, s, i, j);
    assert PlacedFrom(clips, s, i + 1, j) == [];
    assert e == [ClipFile(i)] + [];
    OffsetsCons1(ClipFile(i), [], clips, CalculateGaps(clips), clips[i].startTime);
  }

  lemma PlacedWithSilence(clips: seq<TTSSegment>, i: nat, j: nat)
    requires i + 1 < |clips| && j < |GapSchedule(clips)|
    requires GapSchedule(clips)[j] == After(i, GapAfter(clips, i))
    requires TimedFrom(clips, i + 1, j + 1)
    ensures TimedFrom(clips, i, j)
  {
    var s := GapSchedule(clips);
    var gaps := CalculateGaps(clips);
    var rest := PlacedFrom(clips, s, i + 1, j + 1);
    assert PlacedFrom(clips, s, i, j) == [ClipFile(i), SilenceFile(j)] + rest;
    assert gaps[j] == GapAfter(clips, i);
    ClipThenSilenceStep(clips, gaps, i, j, rest);
  }

  lemma PlacedAlone(clips: seq<TTSSegment>, i: nat, j: nat)
    requires i + 1 < |clips| && GapAfter(clips, i) == 0.0
    requires !(j < |GapSchedule(clips)| && GapSchedule(clips)[j].After? && GapSchedule(clips)[j].clip == i)
    requires TimedFrom(clips, i + 1, j)
    ensures TimedFrom(clips, i, j)
  {
    var s := GapSchedule(clips);
    var rest := PlacedFrom(clips, s, i + 1, j);
    assert PlacedFrom(clips, s, i, j) == [ClipFile(i)] + rest;
    ClipAloneStep(clips, CalculateGaps(clips), i, rest);
  }

  /** The ordering half: the clips from `i` on appear once each in order and
      the silences from `j` on are all used once in order. */
  lemma {:induction false} PlacedFromOrders(clips: seq<TTSSegment>, i: nat, j: nat)
    requires i <= |clips| && j <= |GapSchedule(clips)|
    requires GapSchedule(clips)[j..] == BetweenFrom(clips, i)
    ensures var e := PlacedFrom(clips, GapSchedule(clips), i, j);
      ClipOrder(e) == Range(i, |clips|) && SilenceOrder(e) == Range(j, |GapSchedule(clips)|)
    decreases |clips| - i
  {
    var s := GapSchedule(clips);
    var e := PlacedFrom(clips, s, i, j);
    if i >= |clips| {
      assert BetweenFrom(clips, i) == [];
    } else if i + 1 == |clips| {
      assert BetweenFrom(clips, i) == [];
      assert j == |s|;
      assert PlacedFrom(clips, s, i + 1, j) == [];
      assert e == [ClipFile(i)] + [];
      OrderSteps(i, j, []);
    } else {
      var g := GapAfter(clips, i);
      if g >= MinGapDuration {
        assert BetweenFrom(clips, i) == [After(i, g)] + BetweenFrom(clips, i + 1);
        assert s[j] == After(i, g);
        assert s[j + 1..] == s[j..][1..];
        var rest := PlacedFrom(clips, s, i + 1, j + 1);
        assert e == [ClipFile(i), SilenceFile(j)] + rest;
        PlacedFromOrders(clips, i + 1, j + 1);
        OrderSteps(i, j, rest);
        assert Range(j, |s|) == [j] + Range(j + 1, |s|);
        assert Range(i, |clips|) == [i] + Range(i + 1, |clips|);
      } else {
        BetweenFromFacts(clips, i + 1);
        assert BetweenFrom(clips, i) == BetweenFrom(clips, i + 1);
        assert !(j < |s| && s[j].After? && s[j].clip == i) by {
          if j < |s| {
            assert s[j] == BetweenFrom(clips, i + 1)[0];
          }
        }
        var rest := PlacedFrom(clips, s, i + 1, j);
        assert e == [ClipFile(i)] + rest;
        PlacedFromOrders(clips, i + 1, j);
        OrderSteps(i, j, rest);
        assert Range(i, |clips|) == [i] + Range(i + 1, |clips|);
      }
    }
  }

  /** The corrected concat list keeps the dub in sync: on a timeline whose
      dropped gaps are all zero, every clip starts at its start time; each
      clip and each silence appears exactly once, in order, so the list has
      n + k entries. */
  lemma {:induction false} ConcatListOnSchedule(clips: seq<TTSSegment>)
    requires |clips| > 0 && Tight(clips)
    ensures var e := ConcatList(clips);
      OnSchedule(e, clips, Offsets(e, clips, CalculateGaps(clips), 0.0))
      && ClipOrder(e) == Range(0, |clips|)
      && SilenceOrder(e) == Range(0, |CalculateGaps(clips)|)
  {
    var s := GapSchedule(clips);
    if clips[0].startTime > MinGapDuration {
      LeadingThenPlaced(clips);
    } else {
      PlacedFromStart(clips);
    }
  }

  /** Without a leading gap the list is the clips placed from the first
      silence on, and the first clip starts at 0. */
  lemma {:induction false} PlacedFromStart(clips: seq<TTSSegment>)
    requires |clips| > 0 && Tight(clips) && clips[0].startTime <= MinGapDuration
    ensures var e := ConcatList(clips);
      OnSchedule(e, clips, Offsets(e, clips, CalculateGaps(clips), 0.0))
      && ClipOrder(e) == Range(0, |clips|)
      && SilenceOrder(e) == Range(0, |CalculateGaps(clips)|)
  {
    var s := GapSchedule(clips);
    assert s == BetweenFrom(clips, 0);
    assert s[0..] == s;
    BetweenFromFacts(clips, 0);
    if |s| > 0 {
      assert GapFits(clips, 0, s[0]);
    }
    assert ConcatList(clips) == PlacedFrom(clips, s, 0, 0);
    assert clips[0].startTime == 0.0;
    PlacedFromOnSchedule(clips, 0, 0);
  }

  /** With a leading gap the list is its silence, then the clips placed from
      the second silence on. */
  lemma {:induction false} LeadingThenPlaced(clips: seq<TTSSegment>)
    requires |clips| > 0 && Tight(clips) && clips[0].startTime > MinGapDuration
    ensures var e := ConcatList(clips);
      OnSchedule(e, clips, Offsets(e, clips, CalculateGaps(clips), 0.0))
      && ClipOrder(e) == Range(0, |clips|)
      && SilenceOrder(e) == Range(0, |CalculateGaps(clips)|)
  {
    var s := GapSchedule(clips);
    var gaps := CalculateGaps(clips);
    assert s == [Leading(clips[0].startTime)] + BetweenFrom(clips, 0);
    assert s[1..] == BetweenFrom(clips, 0);
    var rest := PlacedFrom(clips, s, 0, 1);
    PlacedFromOnSchedule(clips, 0, 1);
    OffsetsCons1(SilenceFile(0), rest, clips, gaps, 0.0);
    OrderSteps(0, 0, rest);
    assert ConcatList(clips) == [SilenceFile(0)] + rest;
    assert gaps[0] == clips[0].startTime;
    var ro := Offsets(rest, clips, gaps, clips[0].startTime);
    assert Range(0, |s|) == [0] + Range(1, |s|);
    OnSchedulePrefix([SilenceFile(0)], rest, clips, [0.0], ro);
  }

  /** On the same two clips the corrected list plays clip 0 at 0 s and clip 1
      at 2.5 s. */
  lemma ConcatListExample()
    ensures var clips := [TTSSegment(1, "a", 0.0, 2.0, Some("a.mp3")), TTSSegment(2, "b", 2.5, 4.0, Some("b.mp3"))];
      ConcatList(clips) == [ClipFile(0), SilenceFile(0), ClipFile(1)]
      && Offsets(ConcatList(clips), clips, CalculateGaps(clips), 0.0) == [0.0, 2.0, 2.5]
  {
    var clips := [TTSSegment(1, "a", 0.0, 2.0, Some("a.mp3")), TTSSegment(2, "b", 2.5, 4.0, Some("b.mp3"))];
    GapExample();
    assert BetweenFrom(clips, 1) == [];
    assert GapSchedule(clips) == [After(0, 0.5)];
    var e := ConcatList(clips);
    assert PlacedFrom(clips, [After(0, 0.5)], 1, 1) == [ClipFile(1)];
    assert e == [ClipFile(0), SilenceFile(0), ClipFile(1)];
    OffsetsCons2(ClipFile(0), SilenceFile(0), [ClipFile(1)], clips, [0.5], 0.0);
  }

  // ---------------------------------------------------------------------
  // assembleAudio

  /** What the file system and ffmpeg do during one assembly. */
  datatype AssemblyEnv = AssemblyEnv(
    existingFiles: set<string>,  // clip files present on disk
    silence: SilenceEnv,         // the temporary silence directory and ffmpeg runs
    concatWritten: bool,         // writing the concat list succeeds
    concatExitCode: int,         // exit status of the concatenation
    outputExists: bool)          // the output file exists afterwards

  datatype AssemblyOutcome =
    | NoClips
    | MissingClips(missing: seq<string>)
    | SilencesFailed
    | ConcatWriteFailed
    | ConcatFailed
    | Assembled(order: seq<TTSSegment>, silences: seq<Url>, concat: seq<ConcatEntry>)

  /** The report for each clip from `i` on whose audio is unusable:
      `segment_<i>` when it has no path, the path when the file is missing. */
  function MissingFrom(clips: seq<TTSSegment>, existing: set<string>, i: nat): (r: seq<string>)
    requires i <= |clips|
    ensures |r| <= |clips| - i
    ensures r == [] <==> forall m :: i <= m < |clips| ==>
      clips[m].audioPath.Some? && clips[m].audioPath.value in existing
    decreases |clips| - i
  {
    if i == |clips| then []
    else
      var rest := MissingFrom(clips, existing, i + 1);
      match clips[i].audioPath
      case None => ["segment_" + IntToString(i)] + rest
      case Some(p) => (if p in existing then [] else [p]) + rest
  }

  function MissingFiles(clips: seq<TTSSegment>, existing: set<string>): (r: seq<string>)
    ensures r == [] <==> forall m :: 0 <= m < |clips| ==>
      clips[m].audioPath.Some? && clips[m].audioPath.value in existing
  {
    MissingFrom(clips, existing, 0)
  }

  function ByStart(a: TTSSegment, b: TTSSegment): bool {
    a.startTime < b.startTime
  }

  lemma ByStartIsStrictOrder()
    ensures StrictOrder(ByStart)
  {
  }

  /** `assembleAudio` into `output`: reject an empty list and unusable clips,
      sort by start time, generate the silences into `temp_assembly` next to
      the output, write the concat list as `createConcatFile` does and run
      ffmpeg. */
  function AssembleAudio(clips: seq<TTSSegment>, output: Url, env: AssemblyEnv): (r: AssemblyOutcome)
    ensures |clips| == 0 ==> r == NoClips
    ensures r.MissingClips? ==> |clips| > 0 && r.missing != []
    ensures r.Assembled? <==>
      |clips| > 0 && MissingFiles(clips, env.existingFiles) == []
      && |GenerateSilences(CalculateGaps(SortBy(clips, ByStart)), output.dir + ["temp_assembly"], env.silence)|
         == |CalculateGaps(SortBy(clips, ByStart))|
      && env.concatWritten && env.concatExitCode == 0 && env.outputExists
    ensures r.Assembled? ==>
      multiset(r.order) == multiset(clips) && Sorted(r.order, ByStart)
      && |r.silences| == |CalculateGaps(r.order)|
      && (forall k :: 0 <= k < |r.silences| ==> r.silences[k] == Url(output.dir + ["temp_assembly"], SilenceName(k)))
      && r.concat == WrittenConcatList(r.order, |r.silences|)
  {
    if |clips| == 0 then NoClips
    else
      var missing := MissingFiles(clips, env.existingFiles);
      if missing != [] then MissingClips(missing)
      else
        var sorted := SortBy(clips, ByStart);
        ByStartIsStrictOrder();
        SortBySorted(clips, ByStart);
        var gaps := CalculateGaps(sorted);
        var silences := GenerateSilences(gaps, output.dir + ["temp_assembly"], env.silence);
        if |silences| != |gaps| then SilencesFailed
        else if !env.concatWritten then ConcatWriteFailed
        else if env.concatExitCode != 0 || !env.outputExists then ConcatFailed
        else Assembled(sorted, silences, WrittenConcatList(sorted, |silences|))
  }

  /** What a successful assembly actually plays: silence j just before clip
      j, one entry per clip and per silence; whenever there is a gap at all,
      the first silence opens the track and clip 0 starts only after it, at
      least 50 ms in, whatever its own start time. */
  lemma AssembledAsWritten(clips: seq<TTSSegment>, output: Url, env: AssemblyEnv)
    requires AssembleAudio(clips, output, env).Assembled?
    ensures var r := AssembleAudio(clips, output, env);
      var gaps := CalculateGaps(r.order);
      r.concat == Slotted(|r.order|, |r.silences|, 0)
      && |r.concat| == |r.order| + |r.silences|
      && (|gaps| > 0 ==>
            r.concat[0] == SilenceFile(0) && r.concat[1] == ClipFile(0)
            && Offsets(r.concat, r.order, gaps, 0.0)[1] == gaps[0] >= MinGapDuration)
  {
    var r := AssembleAudio(clips, output, env);
    var gaps := CalculateGaps(r.order);
    forall i | 0 <= i < |r.order|
      ensures r.order[i].audioPath.Some?
    {
      assert r.order[i] in multiset(clips);
      var m :| 0 <= m < |clips| && clips[m] == r.order[i];
    }
    WrittenListSlots(r.order, |r.silences|);
    SlottedLength(|r.order|, |r.silences|, 0);
    if |gaps| > 0 {
      var n, k := |r.order|, |r.silences|;
      assert Slotted(n, k, 0) == [SilenceFile(0)] + [ClipFile(0)] + Slotted(n, k, 1);
      assert r.concat[1..][0] == ClipFile(0);
    }
  }

  /** `assembleAudio` with the corrected concat list: the same checks, the
      same outcome and the same silences, but each silence goes where its gap
      was measured. */
  function AssembleAudioIntended(clips: seq<TTSSegment>, output: Url, env: AssemblyEnv): (r: AssemblyOutcome)
    ensures r.Assembled? <==> AssembleAudio(clips, output, env).Assembled?
    ensures !r.Assembled? ==> r == AssembleAudio(clips, output, env)
    ensures r.Assembled? ==>
      r.order == AssembleAudio(clips, output, env).order
      && r.silences == AssembleAudio(clips, output, env).silences
      && r.concat == ConcatList(r.order)
  {
    var w := AssembleAudio(clips, output, env);
    if w.Assembled? then w.(concat := ConcatList(w.order)) else w
  }

  /** A successful corrected assembly of a tight timeline places every clip
      at its start time and plays each clip and each silence exactly once,
      in order. */
  lemma AssembledOnSchedule(clips: seq<TTSSegment>, output: Url, env: AssemblyEnv)
    requires AssembleAudioIntended(clips, output, env).Assembled?
    requires Tight(SortBy(clips, ByStart))
    ensures var r := AssembleAudioIntended(clips, output, env);
      OnSchedule(r.concat, r.order, Offsets(r.concat, r.order, CalculateGaps(r.order), 0.0))
      && ClipOrder(r.concat) == Range(0, |r.order|)
      && SilenceOrder(r.concat) == Range(0, |r.silences|)
  {
    ConcatListOnSchedule(SortBy(clips, ByStart));
  }
}
