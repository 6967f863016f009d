/**
 * The authority dashboard: its own copy of the camera list with a simulated
 * status churn, the status filter, the critical-incident alert and its
 * dismissal, the marker classification (label, colour, action button,
 * verify button) and the access-request dialog.
 */
module Dashboard {
  import opened Optional
  import opened JsJson
  import opened Registry
  import Analysis

  datatype Severity = LOW | MEDIUM | HIGH | CRITICAL

  datatype Incident = Incident(
    id: string,
    kind: string,
    severity: Severity,
    location: string,
    timestamp: string,
    cameraId: string,
    description: string,
    resolved: bool)

  // The status churn.

  /** ACTIVE -> MAINTENANCE -> OFFLINE -> ACTIVE */
  function NextStatus(s: CameraStatus): (r: CameraStatus)
    ensures r != s
  {
    if s == ACTIVE then MAINTENANCE
    else if s == MAINTENANCE then OFFLINE
    else ACTIVE
  }

  /** Three steps of the cycle come back to the start. */
  lemma StatusCycle(s: CameraStatus)
    ensures NextStatus(NextStatus(NextStatus(s))) == s
    ensures NextStatus(NextStatus(s)) != s
  {
  }

  /** `Math.floor(random * n)`, with `random` drawn from [0, 1). */
  function ChurnIndex(random: real, n: nat): (idx: nat)
    requires 0.0 <= random < 1.0
    ensures n > 0 ==> idx < n
    ensures n == 0 ==> idx == 0
  {
    (random * n as real).Floor
  }

  /** One tick of the churn interval: the camera at `idx` moves on in the cycle; an empty list is kept. */
  function StatusChurned(cams: seq<Camera>, idx: nat): (r: seq<Camera>)
    requires cams == [] || idx < |cams|
    ensures |r| == |cams|
    ensures cams != [] ==> r[idx] == cams[idx].(status := NextStatus(cams[idx].status))
    ensures forall i :: 0 <= i < |cams| && i != idx ==> r[i] == cams[i]
  {
    if cams == [] then cams
    else cams[idx := cams[idx].(status := NextStatus(cams[idx].status))]
  }

  /** Three ticks at the same index give the list back. */
  lemma ChurnThriceRestores(cams: seq<Camera>, idx: nat)
    requires cams == [] || idx < |cams|
    ensures StatusChurned(StatusChurned(StatusChurned(cams, idx), idx), idx) == cams
  {
    if cams != [] {
      StatusCycle(cams[idx].status);
      var r := StatusChurned(StatusChurned(StatusChurned(cams, idx), idx), idx);
      assert r[idx] == cams[idx];
    }
  }

  /** The churn only touches the status: ids, sharing and requests are those of the input. */
  lemma ChurnKeepsAllButStatus(cams: seq<Camera>, idx: nat)
    requires cams == [] || idx < |cams|
    ensures Ids(StatusChurned(cams, idx)) == Ids(cams)
    ensures forall i :: 0 <= i < |cams| ==>
      StatusChurned(cams, idx)[i] == cams[i].(status := StatusChurned(cams, idx)[i].status)
  {
  }

  // The status filter.

  datatype StatusFilter = All | Only(status: CameraStatus)

  predicate Passes(f: StatusFilter, c: Camera) {
    f.All? || c.status == f.status
  }

  /** `cameras.filter(c => filterStatus === 'ALL' || c.status === filterStatus)` */
  function Visible(cams: seq<Camera>, f: StatusFilter): (r: seq<Camera>)
    ensures |r| <= |cams|
  {
    if cams == [] then [] else (if Passes(f, cams[0]) then [cams[0]] else []) + Visible(cams[1..], f)
  }

  /** The filter shows exactly the cameras passing it. */
  lemma {:induction false} VisibleMembers(cams: seq<Camera>, f: StatusFilter)
    ensures forall c :: c in Visible(cams, f) <==> c in cams && Passes(f, c)
  {
    if cams != [] {
      VisibleMembers(cams[1..], f);
      assert forall c :: c in cams <==> c == cams[0] || c in cams[1..];
    }
  }

  /** 'ALL' keeps the whole list. */
  lemma {:induction false} AllShowsEverything(cams: seq<Camera>)
    ensures Visible(cams, All) == cams
  {
    if cams != [] {
      AllShowsEverything(cams[1..]);
      assert cams == [cams[0]] + cams[1..];
    }
  }

  /** Filtering a list with a camera in front. */
  lemma VisibleCons(c: Camera, t: seq<Camera>, f: StatusFilter)
    ensures Visible([c] + t, f) == (if Passes(f, c) then [c] else []) + Visible(t, f)
  {
    assert ([c] + t)[0] == c && ([c] + t)[1..] == t;
  }

  /** The filter keeps list order: filtering a concatenation concatenates the filtered parts. */
  lemma {:induction false} VisibleAppend(a: seq<Camera>, b: seq<Camera>, f: StatusFilter)
    ensures Visible(a + b, f) == Visible(a, f) + Visible(b, f)
  {
    if a != [] {
      var t := a[1..];
      var h := if Passes(f, a[0]) then [a[0]] else [];
      calc {
        Visible(a + b, f);
        { assert a + b == [a[0]] + (t + b); }
        Visible([a[0]] + (t + b), f);
        { VisibleCons(a[0], t + b, f); }
        h + Visible(t + b, f);
        { VisibleAppend(t, b, f); }
        h + (Visible(t, f) + Visible(b, f));
        (h + Visible(t, f)) + Visible(b, f);
        { VisibleCons(a[0], t, f); assert a == [a[0]] + t; }
        Visible(a, f) + Visible(b, f);
      }
    } else {
      assert a + b == b;
    }
  }

  /** The three single-status filters split the list: every camera is shown by exactly one of them. */
  lemma {:induction false} FiltersPartition(cams: seq<Camera>)
    ensures |Visible(cams, Only(ACTIVE))| + |Visible(cams, Only(OFFLINE))| + |Visible(cams, Only(MAINTENANCE))| == |cams|
  {
    if cams != [] {
      FiltersPartition(cams[1..]);
    }
  }

  // Critical incidents and the alert banner.

  predicate IsCritical(inc: Incident) {
    inc.severity == HIGH || inc.severity == CRITICAL
  }

  /** HIGH and CRITICAL incidents that were not dismissed, in list order. */
  function CriticalIncidents(incs: seq<Incident>, dismissed: set<string>): (r: seq<Incident>)
    ensures |r| <= |incs|
    ensures forall x :: x in r <==> x in incs && IsCritical(x) && x.id !in dismissed
  {
    if incs == [] then []
    else
      assert forall x :: x in incs <==> x == incs[0] || x in incs[1..];
      (if IsCritical(incs[0]) && incs[0].id !in dismissed then [incs[0]] else [])
        + CriticalIncidents(incs[1..], dismissed)
  }

  /** The banner shows the first critical incident not dismissed; every incident before it is minor or dismissed. */
  function CurrentAlert(incs: seq<Incident>, dismissed: set<string>): (r: Option<Incident>)
    ensures r.Some? <==> exists x :: x in incs && IsCritical(x) && x.id !in dismissed
    ensures r.Some? ==> r.value in incs && IsCritical(r.value) && r.value.id !in dismissed
  {
    var crit := CriticalIncidents(incs, dismissed);
    if |crit| > 0 then assert crit[0] in crit; Some(crit[0]) else None
  }

  /** The alert is the first incident of the list that is critical and not dismissed. */
  lemma {:induction false} AlertIsFirst(incs: seq<Incident>, dismissed: set<string>)
    requires CurrentAlert(incs, dismissed).Some?
    ensures exists k :: (0 <= k < |incs| && incs[k] == CurrentAlert(incs, dismissed).value
      && forall j :: 0 <= j < k ==> !IsCritical(incs[j]) || incs[j].id in dismissed)
  {
    if IsCritical(incs[0]) && incs[0].id !in dismissed {
      assert incs[0] == CurrentAlert(incs, dismissed).value;
    } else {
      assert CurrentAlert(incs, dismissed) == CurrentAlert(incs[1..], dismissed);
      AlertIsFirst(incs[1..], dismissed);
      var k :| 0 <= k < |incs[1..]| && incs[1..][k] == CurrentAlert(incs[1..], dismissed).value
        && forall j :: 0 <= j < k ==> !IsCritical(incs[1..][j]) || incs[1..][j].id in dismissed;
      assert incs[k + 1] == CurrentAlert(incs, dismissed).value;
      forall j | 0 <= j < k + 1 ensures !IsCritical(incs[j]) || incs[j].id in dismissed {
        if j > 0 {
          assert incs[j] == incs[1..][j - 1];
        }
      }
    }
  }

  /** A dismissed id never comes back as the alert, and dismissing more only shrinks the critical list. */
  lemma DismissedNeverAlerts(incs: seq<Incident>, dismissed: set<string>, more: set<string>)
    requires dismissed <= more
    ensures forall id :: id in dismissed && CurrentAlert(incs, more).Some? ==> CurrentAlert(incs, more).value.id != id
    ensures forall x :: x in CriticalIncidents(incs, more) ==> x in CriticalIncidents(incs, dismissed)
  {
  }

  /** Dismissing the shown alert moves the banner on to the next critical incident, if any. */
  lemma {:induction false} DismissAdvances(incs: seq<Incident>, dismissed: set<string>)
    requires CurrentAlert(incs, dismissed).Some?
    ensures var id := CurrentAlert(incs, dismissed).value.id;
      CriticalIncidents(incs, dismissed + {id}) == RemoveId(CriticalIncidents(incs, dismissed), id)
  {
    CriticalRemove(incs, dismissed, CurrentAlert(incs, dismissed).value.id);
  }

  /** The incidents of `xs` whose id is not `id`. */
  function RemoveId(xs: seq<Incident>, id: string): seq<Incident> {
    if xs == [] then [] else (if xs[0].id == id then [] else [xs[0]]) + RemoveId(xs[1..], id)
  }

  lemma {:induction false} CriticalRemove(incs: seq<Incident>, dismissed: set<string>, id: string)
    ensures CriticalIncidents(incs, dismissed + {id}) == RemoveId(CriticalIncidents(incs, dismissed), id)
  {
    if incs != [] {
      CriticalRemove(incs[1..], dismissed, id);
      var h := if IsCritical(incs[0]) && incs[0].id !in dismissed then [incs[0]] else [];
      var rest := CriticalIncidents(incs[1..], dismissed);
      assert CriticalIncidents(incs, dismissed) == h + rest;
      RemoveIdAppend(h, rest, id);
      assert RemoveId(h, id) == (if IsCritical(incs[0]) && incs[0].id !in dismissed + {id} then [incs[0]] else []) by {
        if h != [] {
          assert h[1..] == [];
        }
      }
    }
  }

  lemma RemoveIdCons(x: Incident, t: seq<Incident>, id: string)
    ensures RemoveId([x] + t, id) == (if x.id == id then [] else [x]) + RemoveId(t, id)
  {
    assert ([x] + t)[0] == x && ([x] + t)[1..] == t;
  }

  lemma {:induction false} RemoveIdAppend(a: seq<Incident>, b: seq<Incident>, id: string)
    ensures RemoveId(a + b, id) == RemoveId(a, id) + RemoveId(b, id)
  {
    if a != [] {
      var t := a[1..];
      var h := if a[0].id == id then [] else [a[0]];
      calc {
        RemoveId(a + b, id);
        { assert a + b == [a[0]] + (t + b); }
        RemoveId([a[0]] + (t + b), id);
        { RemoveIdCons(a[0], t + b, id); }
        h + RemoveId(t + b, id);
        { RemoveIdAppend(t, b, id); }
        h + (RemoveId(t, id) + RemoveId(b, id));
        (h + RemoveId(t, id)) + RemoveId(b, id);
        { RemoveIdCons(a[0], t, id); assert a == [a[0]] + t; }
        RemoveId(a, id) + RemoveId(b, id);
      }
    } else {
      assert a + b == b;
    }
  }

  // Markers.

  function StatusName(s: CameraStatus): string {
    match s
    case ACTIVE => "ACTIVE"
    case OFFLINE => "OFFLINE"
    case MAINTENANCE => "MAINTENANCE"
  }

  /** The label of a marker popup and of a grid tile: a private camera shows only that it is private. */
  function StatusLabel(c: Camera): (r: string)
    ensures r == "PRIVATE" <==> !c.isShared
    ensures c.isShared ==> r == StatusName(c.status)
  {
    if !c.isShared then "PRIVATE" else StatusName(c.status)
  }

  const PrivateFill := "#6366f1"
  const ActiveFill := "#10b981"
  const MaintenanceFill := "#f59e0b"
  const OfflineFill := "#ef4444"

  /** The marker colour: privacy first, then the status. */
  function MarkerFill(c: Camera): (r: string)
    ensures r == PrivateFill <==> !c.isShared
    ensures c.isShared ==> r == (match c.status
                                 case ACTIVE => ActiveFill
                                 case MAINTENANCE => MaintenanceFill
                                 case OFFLINE => OfflineFill)
  {
    if !c.isShared then PrivateFill
    else if c.status == ACTIVE then ActiveFill
    else if c.status == MAINTENANCE then MaintenanceFill
    else OfflineFill
  }

  /** The pulse ring drawn under shared active cameras. */
  predicate Pulses(c: Camera) {
    c.status == ACTIVE && c.isShared
  }

  /** The pulse ring marks exactly the markers filled in the active colour, and such a marker opens a feed. */
  lemma PulseMarksActiveFeeds(c: Camera)
    ensures Pulses(c) <==> MarkerFill(c) == ActiveFill
    ensures Pulses(c) ==> ActionFor(c) == ViewFeed && StatusLabel(c) == StatusName(ACTIVE)
  {
  }

  datatype ActionButton = RequestPending | RequestAccessButton | ViewFeed

  /** The action button of a marker popup. */
  function ActionFor(c: Camera): (b: ActionButton)
    ensures b == ViewFeed <==> c.isShared
    ensures b == RequestPending <==> !c.isShared && c.pendingAccessRequest
  {
    if !c.isShared then (if c.pendingAccessRequest then RequestPending else RequestAccessButton) else ViewFeed
  }

  function ActionText(b: ActionButton): string {
    match b
    case RequestPending => "Request Pending"
    case RequestAccessButton => "Request Access"
    case ViewFeed => "View Feed"
  }

  predicate ActionDisabled(c: Camera) {
    !c.isShared && c.pendingAccessRequest
  }

  /** What a click on the action button opens. */
  datatype Opened = RequestDialog(cam: Camera) | Feed(cam: Camera) | Nothing

  function ActionClick(c: Camera): (r: Opened)
    ensures r.Nothing? <==> ActionDisabled(c)
    ensures r.Feed? <==> ActionFor(c) == ViewFeed
    ensures r.RequestDialog? <==> ActionFor(c) == RequestAccessButton
    ensures !r.Nothing? ==> r.cam == c
  {
    if !c.isShared then (if !c.pendingAccessRequest then RequestDialog(c) else Nothing) else Feed(c)
  }

  /**
   * The button's text, its `disabled` attribute and its click handler agree:
   * "Request Pending" is the disabled button that does nothing, "View Feed"
   * opens the feed and "Request Access" opens the request dialog.
   */
  lemma ActionButtonAgrees(c: Camera)
    ensures ActionText(ActionFor(c)) == "Request Pending" <==> ActionDisabled(c)
    ensures ActionDisabled(c) <==> ActionClick(c).Nothing?
    ensures ActionText(ActionFor(c)) == "View Feed" <==> ActionClick(c).Feed?
    ensures ActionText(ActionFor(c)) == "Request Access" <==> ActionClick(c).RequestDialog?
  {
  }

  /** The "Verify Location with Maps" button is rendered only for unverified cameras. */
  predicate VerifyOffered(c: Camera) {
    !c.locationVerified
  }

  /** Once a camera is verified its verify button is gone; every other camera keeps its button. */
  lemma VerifyButtonDisappears(cams: seq<Camera>, id: string)
    ensures forall i :: 0 <= i < |cams| ==>
      (VerifyOffered(CameraVerified(cams, id)[i]) <==> VerifyOffered(cams[i]) && cams[i].id != id)
  {
  }

  datatype VerifyOutcome = Verified | VerificationFailed | Errored

  /** After the check: `result.verified` truthy and a handler reports success; reading a field of `null` throws. */
  function VerifyOutcomeOf(result: Json, hasHandler: bool): (o: VerifyOutcome)
    ensures o == Verified <==> PropTruthy(Get(result, "verified")) && hasHandler
    ensures o == Errored <==> result.JNull?
  {
    match Get(result, "verified")
    case ReadOnNull => Errored
    case Defined(v) => if Truthy(v) && hasHandler then Verified else VerificationFailed
    case Undefined => VerificationFailed
  }

  /** Where an incident is drawn: its camera, or the first camera for an unknown id; no camera at all throws. */
  function IncidentAnchor(cams: seq<Camera>, inc: Incident): (r: Option<Camera>)
    ensures r.None? <==> cams == []
    ensures r.Some? && inc.cameraId in Ids(cams) ==> r.value in cams && r.value.id == inc.cameraId
    ensures r.Some? && inc.cameraId !in Ids(cams) ==> r.value == cams[0]
  {
    match FindCamera(cams, inc.cameraId)
    case Some(c) => Some(c)
    case None => if cams == [] then None else Some(cams[0])
  }

  // The dashboard state.

  datatype DashboardState = DashboardState(
    dashboardCameras: seq<Camera>,
    selectedCamera: Option<Camera>,
    requestingCamera: Option<Camera>,
    requestSent: bool,
    dismissedAlerts: set<string>,
    filterStatus: StatusFilter)

  /** One churn tick on the local copy; nothing else changes. */
  function Churned(s: DashboardState, idx: nat): (r: DashboardState)
    requires s.dashboardCameras == [] || idx < |s.dashboardCameras|
    ensures |r.dashboardCameras| == |s.dashboardCameras|
    ensures forall i :: 0 <= i < |s.dashboardCameras| && i != idx ==> r.dashboardCameras[i] == s.dashboardCameras[i]
    ensures r.(dashboardCameras := s.dashboardCameras) == s
  {
    s.(dashboardCameras := StatusChurned(s.dashboardCameras, idx))
  }

  function AlertDismissed(s: DashboardState, id: string): DashboardState {
    s.(dismissedAlerts := s.dismissedAlerts + {id})
  }

  /** A marker's button opens the feed of a shared camera or the request dialog of a private one without a request. */
  function MarkerClicked(s: DashboardState, c: Camera): (r: DashboardState)
    ensures c.isShared ==> r == s.(selectedCamera := Some(c))
    ensures !c.isShared && !c.pendingAccessRequest ==> r == s.(requestingCamera := Some(c))
    ensures !c.isShared && c.pendingAccessRequest ==> r == s
  {
    match ActionClick(c)
    case RequestDialog(cam) => s.(requestingCamera := Some(cam))
    case Feed(cam) => s.(selectedCamera := Some(cam))
    case Nothing => s
  }

  function RequestSubmitted(s: DashboardState): (r: DashboardState)
    ensures r.requestSent && r.(requestSent := s.requestSent) == s
  {
    s.(requestSent := true)
  }

  /** The 2000 ms timer after a request: the dialog closes. */
  function RequestDialogClosed(s: DashboardState): (r: DashboardState)
    ensures !r.requestSent && r.requestingCamera.None?
    ensures r.(requestSent := s.requestSent, requestingCamera := s.requestingCamera) == s
  {
    s.(requestSent := false, requestingCamera := None)
  }

  /** Only dismissal touches the dismissed set, and it only adds to it. */
  lemma DismissedOnlyGrows(s: DashboardState, id: string, idx: nat, c: Camera, cams: seq<Camera>, f: StatusFilter)
    requires s.dashboardCameras == [] || idx < |s.dashboardCameras|
    ensures s.dismissedAlerts <= AlertDismissed(s, id).dismissedAlerts && id in AlertDismissed(s, id).dismissedAlerts
    ensures Churned(s, idx).dismissedAlerts == s.dismissedAlerts
    ensures MarkerClicked(s, c).dismissedAlerts == s.dismissedAlerts
    ensures RequestSubmitted(s).dismissedAlerts == s.dismissedAlerts
    ensures RequestDialogClosed(s).dismissedAlerts == s.dismissedAlerts
    ensures s.(dashboardCameras := cams).dismissedAlerts == s.dismissedAlerts
    ensures s.(filterStatus := f).dismissedAlerts == s.dismissedAlerts
  {
  }

  /** A marker click never opens the request dialog for a shared or already requested camera. */
  lemma RequestDialogOnlyForPrivate(s: DashboardState, c: Camera)
    ensures MarkerClicked(s, c).requestingCamera != s.requestingCamera ==>
      MarkerClicked(s, c).requestingCamera == Some(c) && !c.isShared && !c.pendingAccessRequest
    ensures ActionDisabled(c) ==> MarkerClicked(s, c) == s
  {
  }

  class AuthorityDashboard {
    /** The incidents passed in by the shell. */
    const incidents: seq<Incident>
    var dashboardCameras: seq<Camera>
    var selectedCamera: Option<Camera>
    var requestingCamera: Option<Camera>
    var requestSent: bool
    var dismissedAlerts: set<string>
    var filterStatus: StatusFilter

    function State(): DashboardState
      reads this
    {
      DashboardState(dashboardCameras, selectedCamera, requestingCamera, requestSent, dismissedAlerts, filterStatus)
    }

    constructor (cameras: seq<Camera>, incidents: seq<Incident>)
      ensures this.incidents == incidents
      ensures State() == DashboardState(cameras, None, None, false, {}, All)
    {
      this.incidents := incidents;
      dashboardCameras := cameras;
      selectedCamera := None;
      requestingCamera := None;
      requestSent := false;
      dismissedAlerts := {};
      filterStatus := All;
    }

    /** The banner's alert. */
    function Alert(): Option<Incident>
      reads this
    {
      CurrentAlert(incidents, dismissedAlerts)
    }

    /** The effect on the `cameras` prop: the shell's list replaces the local copy, churned statuses included. */
    method SyncCameras(cameras: seq<Camera>)
      modifies this
      ensures State() == old(State()).(dashboardCameras := cameras)
    {
      dashboardCameras := cameras;
    }

    /** One tick of the 3500 ms interval; `random` is the draw of `Math.random()`. */
    method ChurnTick(random: real)
      requires 0.0 <= random < 1.0
      modifies this
      ensures State() == Churned(old(State()), ChurnIndex(random, |old(dashboardCameras)|))
    {
      var idx := ChurnIndex(random, |dashboardCameras|);
      dashboardCameras := StatusChurned(dashboardCameras, idx);
    }

    method SetFilter(f: StatusFilter)
      modifies this
      ensures State() == old(State()).(filterStatus := f)
    {
      filterStatus := f;
    }

    /** `handleDismissAlert`: a copy of the set with one more id. */
    method DismissAlert(id: string)
      modifies this
      ensures State() == AlertDismissed(old(State()), id)
      ensures Alert().Some? ==> Alert().value.id != id
    {
      var dismissed := dismissedAlerts + {id};
      dismissedAlerts := dismissed;
    }

    method ClickMarkerAction(c: Camera)
      modifies this
      ensures State() == MarkerClicked(old(State()), c)
    {
      if !c.isShared {
        if !c.pendingAccessRequest {
          requestingCamera := Some(c);
        }
      } else {
        selectedCamera := Some(c);
      }
    }

    /** "Send Official Request": the shell records the request for the camera of the dialog. */
    method SubmitRequest(reg: CameraRegistry)
      modifies this, reg
      ensures State() == RequestSubmitted(old(State()))
      ensures reg.cameras == if requestingCamera.Some? then AccessRequested(old(reg.cameras), requestingCamera.value.id)
                             else old(reg.cameras)
    {
      requestSent := true;
      if requestingCamera.Some? {
        reg.RequestAccess(requestingCamera.value.id);
      }
    }

    method RequestTimerFired()
      modifies this
      ensures State() == RequestDialogClosed(old(State()))
    {
      requestSent := false;
      requestingCamera := None;
    }

    /** The feed view's close button, and the request dialog's cancel. */
    method CloseOverlays(feed: bool)
      modifies this
      ensures State() == if feed then old(State()).(selectedCamera := None) else old(State()).(requestingCamera := None)
    {
      if feed {
        selectedCamera := None;
      } else {
        requestingCamera := None;
      }
    }

    /** The popup's verify button: the camera is marked verified in the shell only on a truthy `verified`. */
    method VerifyLocationClicked(c: Camera, reg: CameraRegistry,
                                 ask: Analysis.LocationQuery -> Analysis.Reply, parse: string -> Option<Json>)
      returns (outcome: VerifyOutcome)
      requires VerifyOffered(c)
      modifies reg
      ensures outcome == VerifyOutcomeOf(Analysis.VerifyLocationContext(c.location, c.lat, c.lng, ask, parse), true)
      ensures reg.cameras == if outcome == Verified then CameraVerified(old(reg.cameras), c.id) else old(reg.cameras)
    {
      var result := Analysis.VerifyLocationContext(c.location, c.lat, c.lng, ask, parse);
      outcome := VerifyOutcomeOf(result, true);
      if outcome == Verified {
        reg.VerifyCamera(c.id);
      }
    }
  }
}
