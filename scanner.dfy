/**
 * The scan controller of the video analyzer: the guards in front of a scan,
 * the three-frame capture loop with its progress schedule, the two outcomes
 * (the analysis, or the capture-failure result), the scan button's enabling
 * rule, the tab switch and the face-blur recommendation.
 *
 * The `<video>` element is a `VideoElement` value: its ready state, and what
 * the canvas yields at each capture. The 400 ms pauses are `Wait` events in
 * the trail of progress updates a scan leaves behind.
 */
module Scanner {
  import opened Optional
  import opened JsJson
  import opened JsText
  import opened Registry
  import opened Analysis

  const CaptureCount := 3
  const CaptureFailedText := "Failed to capture video frames."

  /** The result stored when capturing throws. */
  const CaptureFailed := AnalysisResult(CaptureFailedText, [], 0, None, None, None)

  /** One capture: a drawn frame (the base64 payload of its data URL), no 2D context, or an exception. */
  datatype Grab = Drawn(payload: string) | NoContext | Throws

  datatype VideoElement = VideoElement(readyState: int, grab: nat -> Grab)

  /** What a scan does that can be seen from outside: each `setProgress`, and each pause between frames. */
  datatype ScanEvent = SetProgress(value: int) | Wait

  // The capture loop as functions.

  /**
   * The progress shown after capture `i`: `Math.round((i + 1) / 3 * 40)`,
   * the integer nearest to 40 (i + 1) / 3, halves rounding up.
   */
  function Progress(i: nat): (r: int)
    ensures 6 * r - 3 <= 80 * (i + 1) < 6 * r + 3
  {
    (80 * (i + 1) + 3) / 6
  }

  lemma ProgressSchedule()
    ensures Progress(0) == 13 && Progress(1) == 27 && Progress(2) == 40
  {
  }

  /** The frames pushed by the first `n` captures, or `None` once one of them threw. */
  function Captured(grab: nat -> Grab, n: nat): (r: Option<seq<string>>)
    ensures r.Some? ==> |r.value| <= n
  {
    if n == 0 then Some([])
    else
      match Captured(grab, n - 1)
      case None => None
      case Some(fs) =>
        match grab(n - 1)
        case Drawn(d) => Some(fs + [d])
        case NoContext => Some(fs)
        case Throws => None
  }

  /** The loop fails exactly when some capture throws; otherwise every frame is one a capture drew. */
  lemma {:induction false} CapturedMeaning(grab: nat -> Grab, n: nat)
    ensures Captured(grab, n).None? <==> exists i :: 0 <= i < n && grab(i).Throws?
    ensures Captured(grab, n).Some? ==> forall f :: f in Captured(grab, n).value ==> exists i :: 0 <= i < n && grab(i) == Drawn(f)
  {
    if n > 0 {
      CapturedMeaning(grab, n - 1);
    }
  }

  /** The captures `grab(0)`, ..., `grab(n - 1)`, in order. */
  function Grabs(grab: nat -> Grab, n: nat): (gs: seq<Grab>)
    ensures |gs| == n && forall i :: 0 <= i < n ==> gs[i] == grab(i)
  {
    seq(n, i requires 0 <= i < n => grab(i))
  }

  /** The payloads of the drawn frames among `gs`, in order. */
  function Payloads(gs: seq<Grab>): seq<string> {
    if gs == [] then []
    else
      var g := gs[|gs| - 1];
      Payloads(gs[..|gs| - 1]) + (if g.Drawn? then [g.payload] else [])
  }

  /** When no capture throws, the loop sends every drawn payload once, in capture order, and nothing else. */
  lemma {:induction false} CapturedPayloads(grab: nat -> Grab, n: nat)
    ensures Captured(grab, n).Some? ==> Captured(grab, n).value == Payloads(Grabs(grab, n))
  {
    if n > 0 {
      CapturedPayloads(grab, n - 1);
      assert Grabs(grab, n)[..n - 1] == Grabs(grab, n - 1);
    }
  }

  /** How many captures ran to the end before the first exception, out of `n`. */
  function Completed(grab: nat -> Grab, n: nat): (k: nat)
    ensures k <= n
  {
    if n == 0 then 0 else if Captured(grab, n).Some? then n else Completed(grab, n - 1)
  }

  /** The events of capture `i`: its progress, then a pause unless it was the last. */
  function IterationEvents(i: nat): seq<ScanEvent> {
    [SetProgress(Progress(i))] + (if i < CaptureCount - 1 then [Wait] else [])
  }

  /** The events of the first `k` captures. */
  function IterTrail(k: nat): seq<ScanEvent> {
    if k == 0 then [] else IterTrail(k - 1) + IterationEvents(k - 1)
  }

  // The component state.

  datatype ScannerState = ScannerState(
    analyzing: bool,
    progress: int,
    result: Option<AnalysisResult>,
    activeTab: Mode,
    searchQuery: string,
    videoError: bool,
    trail: seq<ScanEvent>)

  const Initial := ScannerState(false, 0, None, OBJECTS, "", false, [])

  /** SEARCH with a whitespace-only description: `!searchQuery.trim()`, which by `Trim`'s contract is `IsBlank`. */
  predicate BlankSearch(s: ScannerState) {
    s.activeTab == SEARCH && IsBlank(s.searchQuery)
  }

  /** The guards of `captureFrameSequence`: a video element, no video error, a query for SEARCH, and a current frame. */
  predicate ScanStarts(s: ScannerState, video: Option<VideoElement>) {
    video.Some? && !s.videoError && !BlankSearch(s) && video.value.readyState >= 2
  }

  /** The scan button's `disabled` attribute; a SEARCH query counts as missing when `trim` empties it. */
  predicate ScanButtonDisabled(s: ScannerState): (b: bool)
    ensures b <==> s.analyzing || s.videoError || (s.activeTab == SEARCH && Trim(s.searchQuery) == [])
  {
    s.analyzing || s.videoError || BlankSearch(s)
  }

  /** One whole scan, from the click to the stored result. */
  function Scanned(s: ScannerState, video: Option<VideoElement>,
                   model: Request -> Reply, parse: string -> Option<Json>): (r: ScannerState)
    ensures !ScanStarts(s, video) ==> r == s
    ensures ScanStarts(s, video) ==> !r.analyzing && r.result.Some? && |r.trail| > 0 && r.trail[0] == SetProgress(0)
    ensures r.activeTab == s.activeTab && r.searchQuery == s.searchQuery && r.videoError == s.videoError
  {
    if !ScanStarts(s, video) then s
    else
      var grab := video.value.grab;
      match Captured(grab, CaptureCount)
      case None =>
        var k := Completed(grab, CaptureCount);
        s.(analyzing := false, progress := if k == 0 then 0 else Progress(k - 1),
           result := Some(CaptureFailed), trail := PrefixTrail(k))
      case Some(frames) =>
        s.(analyzing := false, progress := 100,
           result := Some(AnalyzeFrame(frames, s.activeTab, Some(s.searchQuery), model, parse)),
           trail := FullTrail())
  }

  lemma ScannedWhenCaptured(s: ScannerState, video: Option<VideoElement>,
                            model: Request -> Reply, parse: string -> Option<Json>, frames: seq<string>)
    requires ScanStarts(s, video) && Captured(video.value.grab, CaptureCount) == Some(frames)
    ensures Scanned(s, video, model, parse)
      == s.(analyzing := false, progress := 100, trail := FullTrail(),
            result := Some(AnalyzeFrame(frames, s.activeTab, Some(s.searchQuery), model, parse)))
  {
  }

  lemma ScannedWhenFailed(s: ScannerState, video: Option<VideoElement>,
                          model: Request -> Reply, parse: string -> Option<Json>)
    requires ScanStarts(s, video) && Captured(video.value.grab, CaptureCount).None?
    ensures var k := Completed(video.value.grab, CaptureCount);
      Scanned(s, video, model, parse)
      == s.(analyzing := false, progress := if k == 0 then 0 else Progress(k - 1),
            result := Some(CaptureFailed), trail := PrefixTrail(k))
  {
  }

  /** Picking a tab clears the shown result. */
  function TabSwitched(s: ScannerState, tab: Mode): (r: ScannerState)
    ensures r.activeTab == tab && r.result.None?
    ensures r.(activeTab := s.activeTab, result := s.result) == s
  {
    s.(activeTab := tab, result := None)
  }

  /** The "Apply Face Blur" button: a stored PRIVACY result recommending blur, a camera without privacy, and a handler to call. */
  predicate BlurOffered(s: ScannerState, camera: Camera, hasHandler: bool): (b: bool)
    ensures b ==> s.result.Some? && s.result.value.privacyRecommendation.Some?
    ensures b ==> Truthy(s.result.value.privacyRecommendation.value) && camera.privacySetting == NONE && hasHandler
  {
    && s.result.Some? && !s.analyzing && s.activeTab == PRIVACY
    && s.result.value.privacyRecommendation.Some? && Truthy(s.result.value.privacyRecommendation.value)
    && camera.privacySetting == NONE && hasHandler
  }

  // Reading the trail.

  /** The progress values a trail shows, in order. */
  function Values(t: seq<ScanEvent>): seq<int> {
    if t == [] then []
    else Values(t[..|t| - 1]) + (if t[|t| - 1].SetProgress? then [t[|t| - 1].value] else [])
  }

  function Waits(t: seq<ScanEvent>): nat {
    if t == [] then 0 else Waits(t[..|t| - 1]) + (if t[|t| - 1].Wait? then 1 else 0)
  }

  predicate Nondecreasing(xs: seq<int>) {
    forall i, j :: 0 <= i <= j < |xs| ==> xs[i] <= xs[j]
  }

  lemma {:induction false} TrailAppend(a: seq<ScanEvent>, b: seq<ScanEvent>)
    ensures Values(a + b) == Values(a) + Values(b)
    ensures Waits(a + b) == Waits(a) + Waits(b)
    decreases |b|
  {
    if b == [] {
      assert a + b == a;
    } else {
      var b' := b[..|b| - 1];
      assert (a + b)[..|a + b| - 1] == a + b';
      TrailAppend(a, b');
    }
  }

  /** The captures show 13, 27, 40 in turn and pause after all but the last. */
  lemma {:induction false} IterTrailShape(k: nat)
    requires k <= CaptureCount
    ensures Values(IterTrail(k)) == seq(k, i requires 0 <= i < k => Progress(i))
    ensures Waits(IterTrail(k)) == if k == CaptureCount then CaptureCount - 1 else k
  {
    if k > 0 {
      IterTrailShape(k - 1);
      TrailAppend(IterTrail(k - 1), IterationEvents(k - 1));
      var e := IterationEvents(k - 1);
      assert Values(e) == [Progress(k - 1)] by {
        if k - 1 < CaptureCount - 1 {
          assert e[..1] == [SetProgress(Progress(k - 1))];
        } else {
          assert e == [SetProgress(Progress(k - 1))];
          assert e[..0] == [];
        }
      }
      assert Waits(e) == if k - 1 < CaptureCount - 1 then 1 else 0 by {
        if k - 1 < CaptureCount - 1 {
          assert e[..1] == [SetProgress(Progress(k - 1))];
        } else {
          assert e[..0] == [];
        }
      }
    }
  }

  /** The trail of a scan that stopped after `k` captures. */
  function PrefixTrail(k: nat): seq<ScanEvent> {
    [SetProgress(0)] + IterTrail(k)
  }

  lemma PrefixTrailStep(k: nat)
    ensures PrefixTrail(k + 1) == PrefixTrail(k) + IterationEvents(k)
  {
  }

  /** The trail of a scan that captured all frames and got its analysis. */
  function FullTrail(): seq<ScanEvent> {
    PrefixTrail(CaptureCount) + [SetProgress(50), SetProgress(100)]
  }

  lemma SingleEvent(e: ScanEvent)
    ensures Values([e]) == if e.SetProgress? then [e.value] else []
    ensures Waits([e]) == if e.Wait? then 1 else 0
  {
    assert [e][..0] == [];
  }

  /** A stopped scan shows 0, then the progress of each finished capture. */
  lemma PrefixTrailShape(k: nat)
    requires k <= CaptureCount
    ensures Values(PrefixTrail(k)) == [0] + seq(k, i requires 0 <= i < k => Progress(i))
    ensures Waits(PrefixTrail(k)) == if k == CaptureCount then CaptureCount - 1 else k
  {
    IterTrailShape(k);
    TrailAppend([SetProgress(0)], IterTrail(k));
    SingleEvent(SetProgress(0));
  }

  /** A completed scan shows 0, 13, 27, 40, 50, 100 and pauses twice. */
  lemma FullTrailShape()
    ensures Values(FullTrail()) == [0, 13, 27, 40, 50, 100]
    ensures Waits(FullTrail()) == 2
  {
    PrefixTrailShape(CaptureCount);
    ProgressSchedule();
    TrailAppend(PrefixTrail(CaptureCount), [SetProgress(50)] + [SetProgress(100)]);
    TrailAppend([SetProgress(50)], [SetProgress(100)]);
    SingleEvent(SetProgress(50));
    SingleEvent(SetProgress(100));
    assert [SetProgress(50)] + [SetProgress(100)] == [SetProgress(50), SetProgress(100)];
  }

  /** The values of a stopped scan rise from 0 and stay within 40; the last is the progress left on screen. */
  lemma PrefixTrailRises(k: nat)
    requires k <= CaptureCount
    ensures var v := Values(PrefixTrail(k));
      && |v| == k + 1 && v[0] == 0 && v[k] == (if k == 0 then 0 else Progress(k - 1))
      && Nondecreasing(v) && forall i :: 0 <= i < |v| ==> 0 <= v[i] <= 40
  {
    PrefixTrailShape(k);
    ProgressSchedule();
  }

  /** The values of a trail that rise from 0 to the progress left on screen, within 0..100. */
  predicate RisingTo(t: seq<ScanEvent>, last: int) {
    var v := Values(t);
    && |v| > 0 && v[0] == 0 && v[|v| - 1] == last
    && Nondecreasing(v) && forall i :: 0 <= i < |v| ==> 0 <= v[i] <= 100
  }

  lemma FullTrailRises()
    ensures RisingTo(FullTrail(), 100)
  {
    FullTrailShape();
    var v := Values(FullTrail());
    assert v == [0, 13, 27, 40, 50, 100];
  }

  /** Where a started scan leaves the trail and the progress. */
  lemma ScannedTrail(s: ScannerState, video: Option<VideoElement>,
                     model: Request -> Reply, parse: string -> Option<Json>)
    requires ScanStarts(s, video)
    ensures var r := Scanned(s, video, model, parse);
      var grab := video.value.grab;
      var k := Completed(grab, CaptureCount);
      && (Captured(grab, CaptureCount).Some? ==> r.trail == FullTrail() && r.progress == 100)
      && (Captured(grab, CaptureCount).None? ==>
            r.trail == PrefixTrail(k) && r.progress == if k == 0 then 0 else Progress(k - 1))
  {
  }

  /** A scan's progress never goes down and never passes 100; a scan that completes pauses exactly twice and ends at 100. */
  lemma ScanProgress(s: ScannerState, video: Option<VideoElement>,
                     model: Request -> Reply, parse: string -> Option<Json>)
    requires ScanStarts(s, video)
    ensures var r := Scanned(s, video, model, parse);
      && RisingTo(r.trail, r.progress)
      && (Captured(video.value.grab, CaptureCount).Some? ==>
            r.progress == 100 && Waits(r.trail) == CaptureCount - 1 && |Values(r.trail)| == CaptureCount + 3)
  {
    var grab := video.value.grab;
    ScannedTrail(s, video, model, parse);
    if Captured(grab, CaptureCount).Some? {
      FullTrailShape();
      FullTrailRises();
    } else {
      PrefixTrailRises(Completed(grab, CaptureCount));
    }
  }

  /** A scan whose guards fail changes nothing. */
  lemma GuardedScanIsNoOp(s: ScannerState, video: Option<VideoElement>,
                          model: Request -> Reply, parse: string -> Option<Json>)
    requires !ScanStarts(s, video)
    ensures Scanned(s, video, model, parse) == s
  {
  }

  /** The button is off exactly when analyzing or when the handler itself would refuse for lack of a usable video or query. */
  lemma ButtonMatchesGuards(s: ScannerState, video: Option<VideoElement>)
    ensures !ScanButtonDisabled(s) && video.Some? && video.value.readyState >= 2 ==> ScanStarts(s, video)
    ensures ScanStarts(s, video) ==> !ScanButtonDisabled(s) || s.analyzing
  {
  }

  /** A started scan always ends with `analyzing` off and a result: the analysis of at most three frames, or the capture failure. */
  lemma ScanOutcome(s: ScannerState, video: Option<VideoElement>,
                    model: Request -> Reply, parse: string -> Option<Json>)
    requires ScanStarts(s, video)
    ensures var r := Scanned(s, video, model, parse);
      && !r.analyzing && r.result.Some?
      && r.activeTab == s.activeTab && r.searchQuery == s.searchQuery && r.videoError == s.videoError
      && (match Captured(video.value.grab, CaptureCount)
          case Some(frames) =>
            |frames| <= CaptureCount
            && r.result.value == AnalyzeFrame(frames, s.activeTab, Some(s.searchQuery), model, parse)
          case None =>
            r.result.value == CaptureFailed && r.result.value.safetyScore == 0 && r.result.value.detectedObjects == [])
  {
  }

  /** A scan in which no capture yields a frame sends nothing to the model and reports the empty-frame text. */
  lemma NoFramesNoCall(s: ScannerState, video: Option<VideoElement>,
                       model: Request -> Reply, parse: string -> Option<Json>)
    requires ScanStarts(s, video)
    requires forall i :: 0 <= i < CaptureCount ==> video.value.grab(i) == NoContext
    ensures Scanned(s, video, model, parse).result == Some(Degraded(EmptyFramesText))
  {
    var grab := video.value.grab;
    assert Captured(grab, 1) == Some([]);
    assert Captured(grab, 2) == Some([]);
    assert Captured(grab, 3) == Some([]);
  }

  /** Switching tab forgets the result, so no blur is offered until a new PRIVACY scan. */
  lemma TabSwitchClears(s: ScannerState, tab: Mode, camera: Camera, hasHandler: bool)
    ensures TabSwitched(s, tab).result.None?
    ensures !BlurOffered(TabSwitched(s, tab), camera, hasHandler)
  {
  }

  /** The first throwing capture is where the loop stops. */
  lemma {:induction false} CompletedAtThrow(grab: nat -> Grab, i: nat, n: nat)
    requires i < n && Captured(grab, i).Some? && grab(i).Throws?
    ensures Completed(grab, n) == i
  {
    if n > i + 1 {
      CompletedAtThrow(grab, i, n - 1);
    }
  }

  lemma {:induction false} NoneStaysNone(grab: nat -> Grab, i: nat, n: nat)
    requires i <= n && Captured(grab, i).None?
    ensures Captured(grab, n).None?
  {
    if n > i {
      NoneStaysNone(grab, i, n - 1);
    }
  }

  /** The analyzer panel. `hasPrivacyHandler` says whether the host passed `onUpdatePrivacy`. */
  class VideoAnalyzer {
    const camera: Camera
    const hasPrivacyHandler: bool
    var analyzing: bool
    var progress: int
    var result: Option<AnalysisResult>
    var activeTab: Mode
    var searchQuery: string
    var videoError: bool
    var trail: seq<ScanEvent>

    function State(): ScannerState
      reads this
    {
      ScannerState(analyzing, progress, result, activeTab, searchQuery, videoError, trail)
    }

    constructor (camera: Camera, hasPrivacyHandler: bool)
      ensures this.camera == camera && this.hasPrivacyHandler == hasPrivacyHandler
      ensures State() == Initial
    {
      this.camera := camera;
      this.hasPrivacyHandler := hasPrivacyHandler;
      analyzing := false;
      progress := 0;
      result := None;
      activeTab := OBJECTS;
      searchQuery := "";
      videoError := false;
      trail := [];
    }

    /** `captureFrameSequence` */
    method CaptureFrameSequence(video: Option<VideoElement>, model: Request -> Reply, parse: string -> Option<Json>)
      modifies this
      ensures State() == Scanned(old(State()), video, model, parse)
    {
      if video.None? || videoError {
        return;
      }
      if BlankSearch(State()) {
        return;
      }
      if video.value.readyState < 2 {
        return;
      }
      Scan(video, model, parse);
    }

    /** A scan whose guards passed: the captures, then the analysis, or the capture failure. */
    method Scan(video: Option<VideoElement>, model: Request -> Reply, parse: string -> Option<Json>)
      requires ScanStarts(State(), video)
      modifies this
      ensures State() == Scanned(old(State()), video, model, parse)
    {
      ghost var s0 := State();
      analyzing := true;
      progress := 0;
      result := None;
      trail := [SetProgress(0)];
      var captured := CaptureLoop(video.value.grab);
      match captured {
        case None =>
          result := Some(CaptureFailed);
          analyzing := false;
          ScannedWhenFailed(s0, video, model, parse);
        case Some(frames) =>
          Complete(frames, model, parse);
          assert trail == FullTrail();
          ScannedWhenCaptured(s0, video, model, parse, frames);
      }
    }

    /** The `for` loop: up to three captures, each followed by its progress and, but for the last, a pause. */
    method CaptureLoop(grab: nat -> Grab) returns (captured: Option<seq<string>>)
      requires analyzing && result.None? && trail == [SetProgress(0)] && progress == 0
      modifies this
      ensures captured == Captured(grab, CaptureCount)
      ensures var k := if captured.Some? then CaptureCount else Completed(grab, CaptureCount);
        && trail == PrefixTrail(k)
        && progress == if k == 0 then 0 else Progress(k - 1)
      ensures analyzing == old(analyzing) && result == old(result)
      ensures activeTab == old(activeTab) && searchQuery == old(searchQuery) && videoError == old(videoError)
    {
      var frames: seq<string> := [];
      var i := 0;
      while i < CaptureCount
        invariant 0 <= i <= CaptureCount
        invariant Captured(grab, i) == Some(frames)
        invariant trail == PrefixTrail(i)
        invariant progress == if i == 0 then 0 else Progress(i - 1)
        invariant analyzing == old(analyzing) && result == old(result)
        invariant activeTab == old(activeTab) && searchQuery == old(searchQuery) && videoError == old(videoError)
      {
        match grab(i) {
          case Throws =>
            CompletedAtThrow(grab, i, CaptureCount);
            NoneStaysNone(grab, i + 1, CaptureCount);
            return None;
          case NoContext =>
          case Drawn(payload) =>
            frames := frames + [payload];
        }
        RecordCapture(i);
        i := i + 1;
      }
      return Some(frames);
    }

    /** The end of one pass of the loop: the progress of capture `i`, then a pause unless it was the last. */
    method RecordCapture(i: nat)
      requires trail == PrefixTrail(i)
      modifies this
      ensures trail == PrefixTrail(i + 1) && progress == Progress(i)
      ensures analyzing == old(analyzing) && result == old(result)
      ensures activeTab == old(activeTab) && searchQuery == old(searchQuery) && videoError == old(videoError)
    {
      progress := Progress(i);
      trail := trail + [SetProgress(progress)];
      if i < CaptureCount - 1 {
        trail := trail + [Wait];
      }
      assert trail == old(trail) + IterationEvents(i);
      PrefixTrailStep(i);
    }

    /** After the captures: progress 50, the analysis of the frames, then progress 100, the result stored and `analyzing` off. */
    method Complete(frames: seq<string>, model: Request -> Reply, parse: string -> Option<Json>)
      modifies this
      ensures State() == old(State()).(analyzing := false, progress := 100, trail := old(trail) + [SetProgress(50), SetProgress(100)],
                                       result := Some(AnalyzeFrame(frames, activeTab, Some(searchQuery), model, parse)))
    {
      progress := 50;
      trail := trail + [SetProgress(50)];
      var analysis := AnalyzeFrame(frames, activeTab, Some(searchQuery), model, parse);
      progress := 100;
      trail := trail + [SetProgress(100)];
      result := Some(analysis);
      analyzing := false;
    }

    method SwitchTab(tab: Mode)
      modifies this
      ensures State() == TabSwitched(old(State()), tab)
    {
      activeTab := tab;
      result := None;
    }

    method EditSearchQuery(query: string)
      modifies this
      ensures State() == old(State()).(searchQuery := query)
    {
      searchQuery := query;
    }

    /** The `<video>` element's `onError`, and the retry button. */
    method SetVideoError(failed: bool)
      modifies this
      ensures State() == old(State()).(videoError := failed)
    {
      videoError := failed;
    }

    /** `applyPrivacyRecommendation`: BLUR_FACES for this camera, when a handler was given. */
    method ApplyPrivacyRecommendation(reg: CameraRegistry)
      modifies reg
      ensures reg.cameras == if hasPrivacyHandler then PrivacyUpdated(old(reg.cameras), camera.id, BLUR_FACES) else old(reg.cameras)
    {
      if hasPrivacyHandler {
        reg.UpdatePrivacy(camera.id, BLUR_FACES);
      }
    }
  }
}
