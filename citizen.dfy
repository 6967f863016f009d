/**
 * The citizen portal: the emergency-access dialog (REVIEW -> OTP -> SUCCESS
 * behind a fixed one-time code), the grant that follows a correct code, and
 * the per-camera location checks. The component's state is a `PortalState`
 * value; each handler is a step function on it, and the `CitizenPortal`
 * object holds the fields and is proved to step them accordingly.
 */
module Citizen {
  import opened Optional
  import opened JsJson
  import opened JsText
  import opened Registry
  import Analysis

  datatype AuthStep = REVIEW | OTP | SUCCESS

  const MockOtp := "1234"
  const DefaultDuration := "120"
  const InvalidOtpMessage := "Invalid OTP. Please try again."

  // Pending requests.

  predicate AwaitingDecision(c: Camera) {
    c.pendingAccessRequest && !c.isShared
  }

  /** `cameras.filter(c => c.pendingAccessRequest && !c.isShared)` */
  function PendingRequests(cams: seq<Camera>): (r: seq<Camera>)
    ensures |r| <= |cams|
    ensures forall c :: c in r <==> c in cams && AwaitingDecision(c)
  {
    if cams == [] then []
    else
      assert forall c :: c in cams <==> c == cams[0] || c in cams[1..];
      (if AwaitingDecision(cams[0]) then [cams[0]] else []) + PendingRequests(cams[1..])
  }

  lemma PendingCons(c: Camera, t: seq<Camera>)
    ensures PendingRequests([c] + t) == (if AwaitingDecision(c) then [c] else []) + PendingRequests(t)
  {
    assert ([c] + t)[0] == c && ([c] + t)[1..] == t;
  }

  /** The filter keeps list order: filtering a concatenation concatenates the filtered parts. */
  lemma {:induction false} PendingRequestsAppend(a: seq<Camera>, b: seq<Camera>)
    ensures PendingRequests(a + b) == PendingRequests(a) + PendingRequests(b)
  {
    if a != [] {
      var t := a[1..];
      var h := if AwaitingDecision(a[0]) then [a[0]] else [];
      calc {
        PendingRequests(a + b);
        { assert a + b == [a[0]] + (t + b); }
        PendingRequests([a[0]] + (t + b));
        { PendingCons(a[0], t + b); }
        h + PendingRequests(t + b);
        { PendingRequestsAppend(t, b); }
        h + (PendingRequests(t) + PendingRequests(b));
        (h + PendingRequests(t)) + PendingRequests(b);
        { PendingCons(a[0], t); assert a == [a[0]] + t; }
        PendingRequests(a) + PendingRequests(b);
      }
    } else {
      assert a + b == b;
    }
  }

  /** Distinct ids stay distinct in the filtered list. */
  lemma {:induction false} PendingRequestsUnique(cams: seq<Camera>)
    requires UniqueIds(cams)
    ensures UniqueIds(PendingRequests(cams))
  {
    if cams != [] {
      var rest := PendingRequests(cams[1..]);
      PendingRequestsUnique(cams[1..]);
      forall j | 0 <= j < |rest| ensures rest[j].id != cams[0].id {
        assert rest[j] in cams[1..];
      }
    }
  }

  // `parseInt(accessDuration)`

  /** The longest prefix of decimal digits. */
  function LeadingDigits(s: string): (r: string)
    ensures |r| <= |s| && r == s[..|r|] && AllDigits(r)
    ensures |r| < |s| ==> !('0' <= s[|r|] <= '9')
  {
    if s != [] && '0' <= s[0] <= '9' then [s[0]] + LeadingDigits(s[1..]) else []
  }

  function DecimalValue(ds: string): nat
    requires AllDigits(ds)
  {
    if ds == [] then 0 else 10 * DecimalValue(ds[..|ds| - 1]) + (ds[|ds| - 1] as int - '0' as int)
  }

  /**
   * `parseInt(s)` for decimal text: leading whitespace skipped, an optional
   * sign, then as many digits as there are; no digit at all gives `NaN` (`None`).
   */
  function ParseInt(s: string): (r: Option<int>)
    ensures r.None? <==> (var t := TrimStart(s);
      var u := if t != [] && (t[0] == '-' || t[0] == '+') then t[1..] else t;
      u == [] || !('0' <= u[0] <= '9'))
  {
    var t := TrimStart(s);
    var negative := t != [] && t[0] == '-';
    var u := if t != [] && (t[0] == '-' || t[0] == '+') then t[1..] else t;
    var ds := LeadingDigits(u);
    if ds == [] then None
    else
      var v: int := DecimalValue(ds);
      Some(if negative then -v else v)
  }

  /** The duration field only ever holds its default, which reads as 120 minutes. */
  lemma DefaultDurationValue()
    ensures ParseInt(DefaultDuration) == Some(120)
  {
    var s := DefaultDuration;
    assert TrimStart(s) == s by {
      assert !IsSpace(s[0]);
    }
    DefaultDurationDigits();
  }

  lemma DefaultDurationDigits()
    ensures LeadingDigits(DefaultDuration) == DefaultDuration
    ensures DecimalValue(DefaultDuration) == 120
  {
    var s := DefaultDuration;
    assert LeadingDigits(s) == s by {
      assert s[1..] == "20" && "20"[1..] == "0" && "0"[1..] == [];
      assert LeadingDigits("0") == "0";
      assert LeadingDigits("20") == "20";
    }
    assert DecimalValue(s) == 120 by {
      assert s[..2] == "12" && "12"[..1] == "1" && "1"[..0] == [];
      assert DecimalValue("1") == 1;
      assert DecimalValue("12") == 12;
    }
  }

  // The grant performed after a correct code.

  /**
   * What the 1500 ms callback will do, fixed when the code is accepted: the
   * callback closes over the pending list and the camera list of that moment.
   */
  datatype Grant =
    | Batch(ids: seq<string>, duration: Option<int>)
    | FirstCamera(id: string, duration: Option<int>)
    | NoCamera

  function GrantFor(cams: seq<Camera>, accessDuration: string): (g: Grant)
    ensures g.Batch? <==> PendingRequests(cams) != []
    ensures g.Batch? ==> g.ids == Ids(PendingRequests(cams))
    ensures g.FirstCamera? ==> cams != [] && g.id == cams[0].id
    ensures g.NoCamera? <==> cams == []
  {
    var pending := PendingRequests(cams);
    if pending != [] then Batch(Ids(pending), ParseInt(accessDuration))
    else if cams != [] then FirstCamera(cams[0].id, ParseInt(accessDuration))
    else NoCamera
  }

  /** `ids.forEach(id => toggleSharing(id))`, one toggle after the other. */
  function ToggleEach(cams: seq<Camera>, ids: seq<string>): seq<Camera>
  {
    if ids == [] then cams else SharingToggled(ToggleEach(cams, ids[..|ids| - 1]), ids[|ids| - 1])
  }

  /** The camera list after the grant; `cameras[0]` of an empty list throws before any toggle. */
  function Granted(cams: seq<Camera>, g: Grant): seq<Camera> {
    match g
    case Batch(ids, _) => ToggleEach(cams, ids)
    case FirstCamera(id, _) => SharingToggled(cams, id)
    case NoCamera => cams
  }

  /** Toggling a list of distinct ids toggles exactly the cameras whose id is in the list. */
  lemma {:induction false} ToggleEachEffect(cams: seq<Camera>, ids: seq<string>)
    requires forall i, j :: 0 <= i < j < |ids| ==> ids[i] != ids[j]
    ensures |ToggleEach(cams, ids)| == |cams|
    ensures forall i :: 0 <= i < |cams| ==>
      ToggleEach(cams, ids)[i] ==
        if cams[i].id in ids then cams[i].(isShared := !cams[i].isShared, pendingAccessRequest := false) else cams[i]
  {
    if ids != [] {
      var init := ids[..|ids| - 1];
      var last := ids[|ids| - 1];
      ToggleEachEffect(cams, init);
      assert last !in init;
      assert forall x :: x in ids <==> x in init || x == last by {
        assert ids == init + [last];
      }
    }
  }

  /**
   * With distinct camera ids, the batch grant leaves every camera that was
   * awaiting a decision shared with nothing pending, and every other camera
   * as it was.
   */
  lemma BatchGrantSharesPending(cams: seq<Camera>, accessDuration: string)
    requires UniqueIds(cams) && PendingRequests(cams) != []
    ensures var after := Granted(cams, GrantFor(cams, accessDuration));
      && |after| == |cams|
      && (forall i :: 0 <= i < |cams| && AwaitingDecision(cams[i]) ==>
            after[i] == cams[i].(isShared := true, pendingAccessRequest := false))
      && (forall i :: 0 <= i < |cams| && !AwaitingDecision(cams[i]) ==> after[i] == cams[i])
  {
    var pending := PendingRequests(cams);
    var ids := Ids(pending);
    PendingRequestsUnique(cams);
    ToggleEachEffect(cams, ids);
    forall i | 0 <= i < |cams| ensures cams[i].id in ids <==> AwaitingDecision(cams[i]) {
      if AwaitingDecision(cams[i]) {
        assert cams[i] in pending;
        var j :| 0 <= j < |pending| && pending[j] == cams[i];
        assert ids[j] == cams[i].id;
      }
      if cams[i].id in ids {
        var j :| 0 <= j < |ids| && ids[j] == cams[i].id;
        assert pending[j] in cams;
        var m :| 0 <= m < |cams| && cams[m] == pending[j];
        assert m == i;
      }
    }
  }

  /**
   * With nothing pending the first camera is toggled, not granted: an
   * already shared first camera ends up private.
   */
  lemma FallbackFlipsFirst(cams: seq<Camera>, accessDuration: string)
    requires UniqueIds(cams) && cams != [] && PendingRequests(cams) == []
    ensures var after := Granted(cams, GrantFor(cams, accessDuration));
      && |after| == |cams|
      && after[0].isShared == !cams[0].isShared
      && !after[0].pendingAccessRequest
      && forall i :: 1 <= i < |cams| ==> after[i] == cams[i]
  {
  }

  // The component state and its steps.

  datatype PortalState = PortalState(
    showEmergencyModal: bool,
    authStep: AuthStep,
    otp: string,
    accessDuration: string,
    isResending: bool,
    error: string,
    grants: seq<Grant>,
    verifyingId: Option<string>,
    verificationResults: map<string, Json>,
    selectedCameraId: Option<string>)

  const Initial := PortalState(false, REVIEW, "", DefaultDuration, false, "", [], None, map[], None)

  /** What the handlers keep true: the code field holds at most four digits and the duration its default. */
  predicate WellFormed(s: PortalState) {
    JsLength(s.otp) <= 4 && AllDigits(s.otp) && s.accessDuration == DefaultDuration
  }

  /** The emergency banner, whose button opens the dialog, shows while the dialog is open or nothing is pending. */
  predicate BannerShown(s: PortalState, cams: seq<Camera>) {
    s.showEmergencyModal || PendingRequests(cams) == []
  }

  /** The banner button opens the dialog; nothing else changes. */
  function Opened(s: PortalState): (r: PortalState)
    ensures r.showEmergencyModal && r.(showEmergencyModal := s.showEmergencyModal) == s
  {
    s.(showEmergencyModal := true)
  }

  /** Hiding the dialog; the effect on `showEmergencyModal` resets the dialog only when the flag actually changes. */
  function Closed(s: PortalState): (r: PortalState)
    ensures !r.showEmergencyModal
    ensures s.showEmergencyModal ==> r.authStep == REVIEW && r.otp == "" && r.error == "" && r.accessDuration == DefaultDuration
    ensures r.grants == s.grants && r.isResending == s.isResending && r.verificationResults == s.verificationResults
  {
    if s.showEmergencyModal
    then s.(showEmergencyModal := false, authStep := REVIEW, otp := "", error := "", accessDuration := DefaultDuration)
    else s
  }

  /** `handleSendOtp`, first half: the button turns busy and the 800 ms timer starts. */
  function OtpRequested(s: PortalState): (r: PortalState)
    ensures r.isResending && r.(isResending := s.isResending) == s
  {
    s.(isResending := true)
  }

  /** The 800 ms timer fires: the dialog moves to the code step. */
  function OtpSent(s: PortalState): (r: PortalState)
    ensures !r.isResending && r.authStep == OTP && r.(isResending := s.isResending, authStep := s.authStep) == s
  {
    s.(isResending := false, authStep := OTP)
  }

  /** "Cancel & Go Back": back to REVIEW; the typed code is kept. */
  function Cancelled(s: PortalState): (r: PortalState)
    ensures r.authStep == REVIEW && r.otp == s.otp && r.(authStep := s.authStep) == s
  {
    s.(authStep := REVIEW)
  }

  /** The code field's change handler: four digits at most are accepted, and every attempt clears the error. */
  function OtpEdited(s: PortalState, value: string): (r: PortalState)
    ensures r.error == ""
    ensures r.otp == if JsLength(value) <= 4 && AllDigits(value) then value else s.otp
    ensures r == s.(otp := r.otp, error := "")
  {
    if JsLength(value) <= 4 && AllDigits(value) then s.(otp := value, error := "") else s.(error := "")
  }

  /** `handleVerifyOtp`: the right code moves to SUCCESS and schedules the grant; a wrong one clears the field. */
  function OtpChecked(s: PortalState, cams: seq<Camera>): (r: PortalState)
    ensures s.otp == MockOtp ==> r == s.(authStep := SUCCESS, grants := s.grants + [GrantFor(cams, s.accessDuration)])
    ensures s.otp != MockOtp ==> r == s.(error := InvalidOtpMessage, otp := "")
  {
    if s.otp == MockOtp
    then s.(authStep := SUCCESS, grants := s.grants + [GrantFor(cams, s.accessDuration)])
    else s.(error := InvalidOtpMessage, otp := "")
  }

  /** The 1500 ms timer fires: the grant runs and the dialog closes, unless `cameras[0]` threw first. */
  function GrantFired(s: PortalState): (r: PortalState)
    requires s.grants != []
    ensures r.grants == s.grants[1..]
    ensures s.grants[0].NoCamera? ==> r == s.(grants := s.grants[1..])
    ensures !s.grants[0].NoCamera? ==> !r.showEmergencyModal
    ensures r.verificationResults == s.verificationResults && r.selectedCameraId == s.selectedCameraId
  {
    var t := s.(grants := s.grants[1..]);
    if s.grants[0].NoCamera? then t else Closed(t)
  }

  /** `handleVerifyLocation`: the verdict is stored under the camera's id, and the busy marker cleared. */
  function LocationChecked(s: PortalState, id: string, verdict: Json): (r: PortalState)
    ensures id in r.verificationResults && r.verificationResults[id] == verdict && r.verifyingId.None?
    ensures r.(verificationResults := s.verificationResults, verifyingId := s.verifyingId) == s
  {
    s.(verificationResults := s.verificationResults[id := verdict], verifyingId := None)
  }

  /** `verification?.verified || cam.locationVerified` */
  predicate ShownVerified(results: map<string, Json>, cam: Camera) {
    (cam.id in results && PropTruthy(Get(results[cam.id], "verified"))) || cam.locationVerified
  }

  /** `!!verifyingId`: a check is under way (an empty id is falsy). */
  predicate VerifyBusy(s: PortalState) {
    s.verifyingId.Some? && s.verifyingId.value != []
  }

  // Properties of the dialog.

  /** The dialog's open, close, send and cancel steps keep the state well formed. */
  lemma DialogStepsKeepWellFormed(s: PortalState)
    requires WellFormed(s)
    ensures WellFormed(Opened(s)) && WellFormed(Closed(s)) && WellFormed(OtpRequested(s))
    ensures WellFormed(OtpSent(s)) && WellFormed(Cancelled(s))
  {
    KeepsWellFormed(s, Opened(s));
    ClosedWellFormed(s);
    KeepsWellFormed(s, OtpRequested(s));
    KeepsWellFormed(s, OtpSent(s));
    KeepsWellFormed(s, Cancelled(s));
  }

  /** Typing and checking a code keep the state well formed. */
  lemma CodeStepsKeepWellFormed(s: PortalState, cams: seq<Camera>, value: string)
    requires WellFormed(s)
    ensures WellFormed(OtpEdited(s, value)) && WellFormed(OtpChecked(s, cams))
  {
    assert JsLength("") == 0;
  }

  /** The grant callback and a location check keep the state well formed. */
  lemma CallbacksKeepWellFormed(s: PortalState, id: string, verdict: Json)
    requires WellFormed(s)
    ensures WellFormed(LocationChecked(s, id, verdict))
    ensures s.grants != [] ==> WellFormed(GrantFired(s))
  {
    KeepsWellFormed(s, LocationChecked(s, id, verdict));
    if s.grants != [] {
      var t := s.(grants := s.grants[1..]);
      KeepsWellFormed(s, t);
      ClosedWellFormed(t);
    }
  }

  /** A step that leaves the code and the duration alone keeps the state well formed. */
  lemma KeepsWellFormed(s: PortalState, t: PortalState)
    requires WellFormed(s) && t.otp == s.otp && t.accessDuration == s.accessDuration
    ensures WellFormed(t)
  {
  }

  lemma ClosedWellFormed(s: PortalState)
    requires WellFormed(s)
    ensures WellFormed(Closed(s))
  {
    assert JsLength("") == 0;
  }

  /** SUCCESS is reached only through the right code, and only then is a grant scheduled. */
  lemma SuccessNeedsCode(s: PortalState, cams: seq<Camera>)
    ensures OtpChecked(s, cams).authStep == SUCCESS ==> s.otp == MockOtp || s.authStep == SUCCESS
    ensures |OtpChecked(s, cams).grants| > |s.grants| <==> s.otp == MockOtp
    ensures OtpChecked(s, cams).grants[..|s.grants|] == s.grants
  {
  }

  /** A wrong code keeps the step, shows the error, empties the field and schedules nothing. */
  lemma WrongCodeChangesNoCamera(s: PortalState, cams: seq<Camera>)
    requires s.otp != MockOtp
    ensures OtpChecked(s, cams).authStep == s.authStep
    ensures OtpChecked(s, cams).error == InvalidOtpMessage && OtpChecked(s, cams).otp == ""
    ensures OtpChecked(s, cams).grants == s.grants
  {
  }

  /** Closing an open dialog resets it, and closing twice is closing once. */
  lemma CloseResets(s: PortalState)
    ensures Closed(Closed(s)) == Closed(s)
    ensures s.showEmergencyModal ==>
      Closed(s) == s.(showEmergencyModal := false, authStep := REVIEW, otp := "", error := "", accessDuration := DefaultDuration)
  {
  }

  /** The dialog round trip: REVIEW, code sent, OTP, cancel, back to REVIEW. */
  lemma SendThenCancel(s: PortalState)
    requires s.authStep == REVIEW && !s.isResending
    ensures OtpSent(OtpRequested(s)).authStep == OTP
    ensures Cancelled(OtpSent(OtpRequested(s))) == s
  {
  }

  /** A location check records only its own verdict, and the camera shows as verified exactly when the verdict says so or it already was. */
  lemma LocationCheckIsLocal(s: PortalState, cam: Camera, verdict: Json)
    ensures var r := LocationChecked(s, cam.id, verdict);
      && (forall id :: id != cam.id ==> (id in r.verificationResults <==> id in s.verificationResults))
      && (forall id :: id != cam.id && id in s.verificationResults ==> r.verificationResults[id] == s.verificationResults[id])
      && !VerifyBusy(r)
      && (ShownVerified(r.verificationResults, cam) <==> PropTruthy(Get(verdict, "verified")) || cam.locationVerified)
  {
  }

  /** The portal component: the fields of `PortalState`, stepped by the handlers. */
  class CitizenPortal {
    var showEmergencyModal: bool
    var authStep: AuthStep
    var otp: string
    var accessDuration: string
    var isResending: bool
    var error: string
    var grants: seq<Grant>
    var verifyingId: Option<string>
    var verificationResults: map<string, Json>
    var selectedCameraId: Option<string>

    function State(): PortalState
      reads this
    {
      PortalState(showEmergencyModal, authStep, otp, accessDuration, isResending, error,
                  grants, verifyingId, verificationResults, selectedCameraId)
    }

    constructor ()
      ensures State() == Initial && WellFormed(State())
    {
      showEmergencyModal := false;
      authStep := REVIEW;
      otp := "";
      accessDuration := DefaultDuration;
      isResending := false;
      error := "";
      grants := [];
      verifyingId := None;
      verificationResults := map[];
      selectedCameraId := None;
    }

    /** "Review Request" on the emergency banner. */
    method OpenEmergencyModal(reg: CameraRegistry)
      requires BannerShown(State(), reg.cameras)
      modifies this
      ensures State() == Opened(old(State()))
    {
      showEmergencyModal := true;
    }

    /** "Reject" in the dialog, or the grant callback, hides the dialog. */
    method CloseEmergencyModal()
      modifies this
      ensures State() == Closed(old(State()))
    {
      if showEmergencyModal {
        showEmergencyModal := false;
        authStep := REVIEW;
        otp := "";
        error := "";
        accessDuration := DefaultDuration;
      }
    }

    /** "Verify & Approve"; the button is disabled while a code is being sent. */
    method SendOtp()
      requires !isResending
      modifies this
      ensures State() == OtpRequested(old(State()))
    {
      isResending := true;
    }

    method OtpTimerFired()
      requires isResending
      modifies this
      ensures State() == OtpSent(old(State()))
    {
      isResending := false;
      authStep := OTP;
    }

    method CancelOtp()
      modifies this
      ensures State() == Cancelled(old(State()))
    {
      authStep := REVIEW;
    }

    method EditOtp(value: string)
      modifies this
      ensures State() == OtpEdited(old(State()), value)
    {
      if JsLength(value) <= 4 && AllDigits(value) {
        otp := value;
      }
      error := "";
    }

    /** "Confirm Access": the camera list is read, never written. */
    method VerifyOtp(reg: CameraRegistry)
      modifies this
      ensures State() == OtpChecked(old(State()), reg.cameras)
    {
      if otp == MockOtp {
        authStep := SUCCESS;
        grants := grants + [GrantFor(reg.cameras, accessDuration)];
      } else {
        error := InvalidOtpMessage;
        otp := "";
      }
    }

    /** The 1500 ms callback: `toggleSharing` for each scheduled id in turn, then the dialog closes. */
    method GrantTimerFired(reg: CameraRegistry)
      requires grants != []
      modifies this, reg
      ensures State() == GrantFired(old(State()))
      ensures reg.cameras == Granted(old(reg.cameras), old(grants[0]))
    {
      var g := grants[0];
      grants := grants[1..];
      match g {
        case Batch(ids, duration) =>
          var k := 0;
          while k < |ids|
            invariant 0 <= k <= |ids|
            invariant reg.cameras == ToggleEach(old(reg.cameras), ids[..k])
            modifies reg
          {
            reg.ToggleSharing(ids[k], duration);
            assert ids[..k + 1][..k] == ids[..k];
            k := k + 1;
          }
          assert ids[..|ids|] == ids;
          CloseEmergencyModal();
        case FirstCamera(id, duration) =>
          reg.ToggleSharing(id, duration);
          CloseEmergencyModal();
        case NoCamera =>
      }
    }

    /** "Verify with Maps": the verdict of the location check goes under the camera's id. */
    method VerifyLocation(cam: Camera, ask: Analysis.LocationQuery -> Analysis.Reply, parse: string -> Option<Json>)
      modifies this
      ensures State() == LocationChecked(old(State()), cam.id,
        Analysis.VerifyLocationContext(cam.location, cam.lat, cam.lng, ask, parse))
    {
      verifyingId := Some(cam.id);
      var verdict := Analysis.VerifyLocationContext(cam.location, cam.lat, cam.lng, ask, parse);
      RecordVerdict(cam.id, verdict);
    }

    /** The `finally`-side of the check: the verdict is stored and the busy marker cleared. */
    method RecordVerdict(id: string, verdict: Json)
      modifies this
      ensures State() == LocationChecked(old(State()), id, verdict)
    {
      verificationResults := verificationResults[id := verdict];
      verifyingId := None;
    }

    /** Opening a camera's live view, and going back to the grid. */
    method SelectCamera(id: Option<string>)
      modifies this
      ensures State() == old(State()).(selectedCameraId := id)
    {
      selectedCameraId := id;
    }
  }
}
