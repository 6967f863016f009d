/**
 * The camera registry of the application shell: one list of cameras and the
 * six handlers that rewrite the camera with a given id. Every handler is
 * `setCameras(prev => prev.map(cam => cam.id === id ? {...cam, ...} : cam))`;
 * here each map is a function over the camera sequence, and the registry
 * object holds the current sequence and replaces it, as `setCameras` does.
 */
module Registry {
  import opened Optional

  datatype CameraStatus = ACTIVE | OFFLINE | MAINTENANCE

  datatype PrivacyLevel = NONE | BLUR_FACES | ANONYMIZED

  /** A camera record; the video and thumbnail URLs are opaque to the logic and are not kept. */
  datatype Camera = Camera(
    id: string,
    name: string,
    location: string,
    ownerId: string,
    lat: real,
    lng: real,
    status: CameraStatus,
    privacySetting: PrivacyLevel,
    isShared: bool,
    pendingAccessRequest: bool,
    autoApprove: bool,
    locationVerified: bool)

  /** The ids of `cams`, in list order. */
  function Ids(cams: seq<Camera>): (ids: seq<string>)
    ensures |ids| == |cams|
    ensures forall i :: 0 <= i < |cams| ==> ids[i] == cams[i].id
  {
    seq(|cams|, i requires 0 <= i < |cams| => cams[i].id)
  }

  /** `cameras.find(c => c.id === id)` */
  function FindCamera(cams: seq<Camera>, id: string): (r: Option<Camera>)
    ensures r.Some? ==> r.value in cams && r.value.id == id
    ensures r.None? <==> id !in Ids(cams)
  {
    if cams == [] then None
    else if cams[0].id == id then Some(cams[0])
    else
      assert Ids(cams) == [cams[0].id] + Ids(cams[1..]);
      FindCamera(cams[1..], id)
  }

  /** `find` returns the first camera with the id: the one at the first index that carries it. */
  lemma {:induction false} FindCameraIsFirst(cams: seq<Camera>, id: string, k: nat)
    requires k < |cams| && cams[k].id == id
    requires forall j :: 0 <= j < k ==> cams[j].id != id
    ensures FindCamera(cams, id) == Some(cams[k])
  {
    if k > 0 {
      assert forall j :: 0 <= j < k - 1 ==> cams[1..][j].id == cams[j + 1].id;
      FindCameraIsFirst(cams[1..], id, k - 1);
    }
  }

  predicate UniqueIds(cams: seq<Camera>) {
    forall i, j :: 0 <= i < j < |cams| ==> cams[i].id != cams[j].id
  }

  /** `prev.map(cam => cam.id === id ? upd(cam) : cam)` */
  function UpdateWhere(cams: seq<Camera>, id: string, upd: Camera -> Camera): (r: seq<Camera>)
    ensures |r| == |cams|
    ensures forall i :: 0 <= i < |cams| ==> r[i] == if cams[i].id == id then upd(cams[i]) else cams[i]
  {
    if cams == [] then []
    else [if cams[0].id == id then upd(cams[0]) else cams[0]] + UpdateWhere(cams[1..], id, upd)
  }

  // The six transitions. Each `ensures` gives the whole new list: the same
  // length and order, the cameras with other ids untouched, and exactly which
  // fields of the matching cameras change.

  /** toggleSharing: flip `isShared`, always clearing the pending request. */
  function SharingToggled(cams: seq<Camera>, id: string): (r: seq<Camera>)
    ensures |r| == |cams|
    ensures forall i :: 0 <= i < |cams| ==>
      r[i] == if cams[i].id == id
              then cams[i].(isShared := !cams[i].isShared, pendingAccessRequest := false)
              else cams[i]
  {
    UpdateWhere(cams, id, (c: Camera) => c.(isShared := !c.isShared, pendingAccessRequest := false))
  }

  /** rejectRequest: clear the pending request, leaving `isShared` alone. */
  function RequestRejected(cams: seq<Camera>, id: string): (r: seq<Camera>)
    ensures |r| == |cams|
    ensures forall i :: 0 <= i < |cams| ==>
      r[i] == if cams[i].id == id then cams[i].(pendingAccessRequest := false) else cams[i]
  {
    UpdateWhere(cams, id, (c: Camera) => c.(pendingAccessRequest := false))
  }

  /** updatePrivacy: set the privacy level and nothing else. */
  function PrivacyUpdated(cams: seq<Camera>, id: string, level: PrivacyLevel): (r: seq<Camera>)
    ensures |r| == |cams|
    ensures forall i :: 0 <= i < |cams| ==>
      r[i] == if cams[i].id == id then cams[i].(privacySetting := level) else cams[i]
  {
    UpdateWhere(cams, id, (c: Camera) => c.(privacySetting := level))
  }

  /**
   * handleRequestAccess: under auto-approve the request is granted at once
   * (shared, nothing pending); otherwise it is recorded as pending and the
   * sharing flag is left as it is.
   */
  function AccessRequested(cams: seq<Camera>, id: string): (r: seq<Camera>)
    ensures |r| == |cams|
    ensures forall i :: 0 <= i < |cams| && cams[i].id == id && cams[i].autoApprove ==>
      r[i] == cams[i].(isShared := true, pendingAccessRequest := false)
    ensures forall i :: 0 <= i < |cams| && cams[i].id == id && !cams[i].autoApprove ==>
      r[i] == cams[i].(pendingAccessRequest := true)
    ensures forall i :: 0 <= i < |cams| && cams[i].id != id ==> r[i] == cams[i]
  {
    UpdateWhere(cams, id, (c: Camera) =>
      if c.autoApprove then c.(isShared := true, pendingAccessRequest := false)
      else c.(pendingAccessRequest := true))
  }

  /** handleVerifyCamera: mark the location as verified. */
  function CameraVerified(cams: seq<Camera>, id: string): (r: seq<Camera>)
    ensures |r| == |cams|
    ensures forall i :: 0 <= i < |cams| ==>
      r[i] == if cams[i].id == id then cams[i].(locationVerified := true) else cams[i]
  {
    UpdateWhere(cams, id, (c: Camera) => c.(locationVerified := true))
  }

  /** toggleAutoApprove: flip the auto-approve policy. */
  function AutoApproveToggled(cams: seq<Camera>, id: string): (r: seq<Camera>)
    ensures |r| == |cams|
    ensures forall i :: 0 <= i < |cams| ==>
      r[i] == if cams[i].id == id then cams[i].(autoApprove := !cams[i].autoApprove) else cams[i]
  {
    UpdateWhere(cams, id, (c: Camera) => c.(autoApprove := !c.autoApprove))
  }

  // Properties of the transitions.

  /**
   * Toggling twice restores every sharing flag and leaves the matching cameras
   * with no pending request: it is the same as rejecting the request.
   */
  lemma ToggleSharingTwice(cams: seq<Camera>, id: string)
    ensures SharingToggled(SharingToggled(cams, id), id) == RequestRejected(cams, id)
    ensures forall i :: 0 <= i < |cams| ==>
      SharingToggled(SharingToggled(cams, id), id)[i].isShared == cams[i].isShared
  {
    var twice := SharingToggled(SharingToggled(cams, id), id);
    assert forall i :: 0 <= i < |cams| ==> twice[i] == RequestRejected(cams, id)[i];
  }

  /** A reject never revokes a grant: an auto-approved request stays shared after a later reject. */
  lemma RejectKeepsGrant(cams: seq<Camera>, id: string)
    ensures forall i :: 0 <= i < |cams| ==> RequestRejected(cams, id)[i].isShared == cams[i].isShared
    ensures forall i :: 0 <= i < |cams| && cams[i].id == id && cams[i].autoApprove ==>
      RequestRejected(AccessRequested(cams, id), id)[i].isShared
  {
  }

  /** Requesting access a second time changes nothing more. */
  lemma RequestAccessIdempotent(cams: seq<Camera>, id: string)
    ensures AccessRequested(AccessRequested(cams, id), id) == AccessRequested(cams, id)
  {
    var once := AccessRequested(cams, id);
    assert forall i :: 0 <= i < |cams| ==> AccessRequested(once, id)[i] == once[i];
  }

  /** Verifying a location a second time changes nothing more. */
  lemma VerifyIdempotent(cams: seq<Camera>, id: string)
    ensures CameraVerified(CameraVerified(cams, id), id) == CameraVerified(cams, id)
  {
    var once := CameraVerified(cams, id);
    assert forall i :: 0 <= i < |cams| ==> CameraVerified(once, id)[i] == once[i];
  }

  /**
   * Turning auto-approve on or off resolves no pending request and changes no
   * sharing flag; toggling it twice restores the list.
   */
  lemma AutoApproveNotRetroactive(cams: seq<Camera>, id: string)
    ensures forall i :: 0 <= i < |cams| ==>
      && AutoApproveToggled(cams, id)[i].pendingAccessRequest == cams[i].pendingAccessRequest
      && AutoApproveToggled(cams, id)[i].isShared == cams[i].isShared
    ensures AutoApproveToggled(AutoApproveToggled(cams, id), id) == cams
  {
    var twice := AutoApproveToggled(AutoApproveToggled(cams, id), id);
    assert forall i :: 0 <= i < |cams| ==> twice[i] == cams[i];
  }

  /** Every transition keeps the list of ids, so unique ids stay unique. */
  lemma TransitionsKeepIds(cams: seq<Camera>, id: string, level: PrivacyLevel)
    ensures Ids(SharingToggled(cams, id)) == Ids(cams)
    ensures Ids(RequestRejected(cams, id)) == Ids(cams)
    ensures Ids(PrivacyUpdated(cams, id, level)) == Ids(cams)
    ensures Ids(AccessRequested(cams, id)) == Ids(cams)
    ensures Ids(CameraVerified(cams, id)) == Ids(cams)
    ensures Ids(AutoApproveToggled(cams, id)) == Ids(cams)
  {
    assert Ids(SharingToggled(cams, id)) == Ids(cams);
    assert Ids(RequestRejected(cams, id)) == Ids(cams);
    assert Ids(PrivacyUpdated(cams, id, level)) == Ids(cams);
    assert Ids(AccessRequested(cams, id)) == Ids(cams);
    assert Ids(CameraVerified(cams, id)) == Ids(cams);
    assert Ids(AutoApproveToggled(cams, id)) == Ids(cams);
  }

  /** An unknown id is never a fault: every transition leaves the list as it was. */
  lemma UnknownIdIsNoOp(cams: seq<Camera>, id: string, level: PrivacyLevel)
    requires id !in Ids(cams)
    ensures SharingToggled(cams, id) == cams
    ensures RequestRejected(cams, id) == cams
    ensures PrivacyUpdated(cams, id, level) == cams
    ensures AccessRequested(cams, id) == cams
    ensures CameraVerified(cams, id) == cams
    ensures AutoApproveToggled(cams, id) == cams
  {
    assert forall i :: 0 <= i < |cams| ==> cams[i].id != id by {
      forall i | 0 <= i < |cams| ensures cams[i].id != id {
        assert Ids(cams)[i] == cams[i].id;
      }
    }
    assert SharingToggled(cams, id) == cams;
    assert RequestRejected(cams, id) == cams;
    assert PrivacyUpdated(cams, id, level) == cams;
    assert AccessRequested(cams, id) == cams;
    assert CameraVerified(cams, id) == cams;
    assert AutoApproveToggled(cams, id) == cams;
  }

  /** No camera is both shared and waiting for a decision on a request. */
  predicate GrantsExclusive(cams: seq<Camera>) {
    forall i :: 0 <= i < |cams| ==> !(cams[i].isShared && cams[i].pendingAccessRequest)
  }

  /**
   * Toggling, rejecting, privacy, verification and auto-approve keep the
   * exclusion; a request keeps it when the requested camera is private, which
   * is the only kind of camera the dashboard lets an authority ask for.
   */
  lemma TransitionsKeepExclusion(cams: seq<Camera>, id: string, level: PrivacyLevel)
    requires GrantsExclusive(cams)
    ensures GrantsExclusive(SharingToggled(cams, id))
    ensures GrantsExclusive(RequestRejected(cams, id))
    ensures GrantsExclusive(PrivacyUpdated(cams, id, level))
    ensures GrantsExclusive(CameraVerified(cams, id))
    ensures GrantsExclusive(AutoApproveToggled(cams, id))
    ensures (forall i :: 0 <= i < |cams| && cams[i].id == id ==> !cams[i].isShared) ==>
      GrantsExclusive(AccessRequested(cams, id))
  {
  }

  /**
   * The exclusion is not an invariant of the handlers: a request for a camera
   * that is already shared, without auto-approve, leaves it shared and pending.
   */
  lemma RequestOnSharedCameraBreaksExclusion(c: Camera)
    requires c.isShared && !c.pendingAccessRequest && !c.autoApprove
    ensures GrantsExclusive([c])
    ensures !GrantsExclusive(AccessRequested([c], c.id))
  {
    assert AccessRequested([c], c.id)[0] == c.(pendingAccessRequest := true);
  }

  /**
   * The `cameras` state of the application shell. Each handler replaces the
   * whole list by the transition of the list it held.
   */
  class CameraRegistry {
    var cameras: seq<Camera>

    constructor (seed: seq<Camera>)
      ensures cameras == seed
    {
      cameras := seed;
    }

    /** The optional duration is only written to the log: it never changes the state. */
    method ToggleSharing(id: string, durationMinutes: Option<int>)
      modifies this
      ensures cameras == SharingToggled(old(cameras), id)
    {
      cameras := SharingToggled(cameras, id);
    }

    method RejectRequest(id: string)
      modifies this
      ensures cameras == RequestRejected(old(cameras), id)
    {
      cameras := RequestRejected(cameras, id);
    }

    method UpdatePrivacy(id: string, level: PrivacyLevel)
      modifies this
      ensures cameras == PrivacyUpdated(old(cameras), id, level)
    {
      cameras := PrivacyUpdated(cameras, id, level);
    }

    method RequestAccess(id: string)
      modifies this
      ensures cameras == AccessRequested(old(cameras), id)
    {
      cameras := AccessRequested(cameras, id);
    }

    method VerifyCamera(id: string)
      modifies this
      ensures cameras == CameraVerified(old(cameras), id)
    {
      cameras := CameraVerified(cameras, id);
    }

    method ToggleAutoApprove(id: string)
      modifies this
      ensures cameras == AutoApproveToggled(old(cameras), id)
    {
      cameras := AutoApproveToggled(cameras, id);
    }
  }
}
