/** The device logic of `useWebcam`: listing the cameras, choosing the next
    one, mirroring, and the Android width/height swap. Streams, canvases
    and captures are not modelled. */
module Webcam {
  import opened Results
  import opened Js
  import opened StateMachine

  /** `MediaDeviceInfo` as far as the hook reads it. */
  datatype MediaDevice = MediaDevice(kind: string, deviceId: string)

  const VideoInput := "videoinput"
  const SearchError := "Problem beim Suchen der Kamera(s)."

  /** `devices.filter(d => d.kind === "videoinput")`. */
  function VideoInputs(devices: seq<MediaDevice>): (r: seq<MediaDevice>)
    ensures forall d :: d in r <==> d in devices && d.kind == VideoInput
    ensures |r| <= |devices|
    decreases |devices|
  {
    if |devices| == 0 then []
    else
      var init := VideoInputs(devices[..|devices| - 1]);
      var last := devices[|devices| - 1];
      assert devices == devices[..|devices| - 1] + [last];
      if last.kind == VideoInput then init + [last] else init
  }

  /** The filter keeps the enumeration order: filtering a concatenation is
      concatenating the filtered parts. */
  lemma {:induction false} VideoInputsAppend(xs: seq<MediaDevice>, ys: seq<MediaDevice>)
    ensures VideoInputs(xs + ys) == VideoInputs(xs) + VideoInputs(ys)
    decreases |ys|
  {
    if |ys| == 0 {
      assert xs + ys == xs;
    } else {
      var ys' := ys[..|ys| - 1];
      var last := ys[|ys| - 1];
      VideoInputsAppend(xs, ys');
      assert (xs + ys)[..|xs + ys| - 1] == xs + ys';
      assert (xs + ys)[|xs + ys| - 1] == last;
      if last.kind == VideoInput {
        assert VideoInputs(xs) + VideoInputs(ys') + [last] == VideoInputs(xs) + (VideoInputs(ys') + [last]);
      }
    }
  }

  /** `getDevices()`: `undefined` when the enumeration fails. */
  function GetDevices(enumerated: Option<seq<MediaDevice>>): (r: Option<seq<MediaDevice>>)
    ensures r.None? <==> enumerated.None?
    ensures r.Some? ==> r.value == VideoInputs(enumerated.value)
  {
    match enumerated
    case None => None
    case Some(devices) => Some(VideoInputs(devices))
  }

  /** `devices?.length ?? 0`, the count the mount effect stores. */
  function DeviceCount(enumerated: Option<seq<MediaDevice>>): (n: nat)
    ensures enumerated.None? ==> n == 0
    ensures enumerated.Some? ==> n == |VideoInputs(enumerated.value)|
  {
    match GetDevices(enumerated)
    case None => 0
    case Some(devices) => |devices|
  }

  /** `findIndex(d => d.deviceId === selectedDeviceId)`; nothing matches a
      `null` selection. */
  function CurrentIndex(devices: seq<MediaDevice>, selected: Option<string>): (i: int)
    ensures -1 <= i < |devices|
    ensures i == -1 <==> selected.None? || forall j :: 0 <= j < |devices| ==> devices[j].deviceId != selected.value
    ensures i >= 0 ==> selected == Some(devices[i].deviceId)
                       && forall j :: 0 <= j < i ==> devices[j].deviceId != selected.value
    decreases |devices|
  {
    if selected.None? || |devices| == 0 then -1
    else if devices[0].deviceId == selected.value then 0
    else
      var i := CurrentIndex(devices[1..], selected);
      if i == -1 then -1 else i + 1
  }

  /** The index `doNextDevice` switches to: 0 for a single camera; with
      several, 1 when the current one is not listed and the following one
      (wrapping around) otherwise. */
  function NextIndex(devices: seq<MediaDevice>, selected: Option<string>): (i: nat)
    ensures |devices| >= 1 ==> i < |devices|
    ensures |devices| <= 1 ==> i == 0
    ensures |devices| > 1 && CurrentIndex(devices, selected) == -1 ==> i == 1
  {
    var current := CurrentIndex(devices, selected);
    if |devices| > 1 then (if current == -1 then 1 else (current + 1) % |devices|) else 0
  }

  /** With distinct ids, switching from the camera at `k` selects the one
      after it, and the last wraps to the first. */
  lemma NextFollows(devices: seq<MediaDevice>, k: nat)
    requires 1 < |devices| && k < |devices|
    requires forall a, b :: 0 <= a < b < |devices| ==> devices[a].deviceId != devices[b].deviceId
    ensures NextIndex(devices, Some(devices[k].deviceId)) == (if k == |devices| - 1 then 0 else k + 1)
  {
    IndexOfDistinct(devices, k);
    NextAfter(devices, Some(devices[k].deviceId), k);
  }

  /** From the device at `k`, the next index is `k + 1`, wrapping to 0. */
  lemma NextAfter(devices: seq<MediaDevice>, selected: Option<string>, k: nat)
    requires 1 < |devices| && k < |devices|
    requires CurrentIndex(devices, selected) == k
    ensures NextIndex(devices, selected) == (if k == |devices| - 1 then 0 else k + 1)
  {
    var n := |devices|;
    assert NextIndex(devices, selected) == (k + 1) % n;
    if k == n - 1 {
      ModSelf(n);
    } else {
      ModSmall(k + 1, n);
    }
  }

  lemma ModSelf(n: nat)
    requires n > 0
    ensures n % n == 0
  {
  }

  lemma ModSmall(x: nat, n: nat)
    requires x < n
    ensures x % n == x
  {
  }

  /** With distinct ids, a device is found at its own position. */
  lemma {:induction false} IndexOfDistinct(devices: seq<MediaDevice>, k: nat)
    requires k < |devices|
    requires forall a, b :: 0 <= a < b < |devices| ==> devices[a].deviceId != devices[b].deviceId
    ensures CurrentIndex(devices, Some(devices[k].deviceId)) == k
    decreases k
  {
    if k > 0 {
      assert devices[0].deviceId != devices[k].deviceId;
      assert devices[1..][k - 1] == devices[k];
      IndexOfDistinct(devices[1..], k - 1);
    }
  }

  /** The hook's camera state: status machine, selected device, mirroring. */
  datatype Camera = Camera(sm: Machine, selected: Option<string>, mirror: bool)

  /** `useStateMachine("LOADING")`, no selection, `mirrored` as given. */
  function InitCamera(mirrored: bool): (c: Camera)
    ensures c.sm.status == LOADING && c.selected.None? && c.mirror == mirrored
  {
    Camera(StateMachine.Init(Some(LOADING), Undefined), None, mirrored)
  }

  /** How `doNextDevice` ends: it returns, or it throws after setting
      LOADING (an empty list has no `videoDevices[0]`). */
  datatype Switch = Switched(cam: Camera) | SwitchThrew(cam: Camera)

  /** `doNextDevice()`. */
  function DoNextDevice(cam: Camera, enumerated: Option<seq<MediaDevice>>): (r: Switch)
    ensures enumerated.None? ==>
              r == Switched(cam.(sm := SetStatus(cam.sm, ERROR, Some(ErrorObject(SearchError)), Undefined)))
              && r.cam.sm.status == ERROR && r.cam.sm.error == Some(ErrorObject(SearchError))
              && r.cam.selected == cam.selected
    ensures enumerated.Some? && |VideoInputs(enumerated.value)| == 0 ==>
              r.SwitchThrew? && r.cam.sm.status == LOADING && r.cam.selected == cam.selected
    ensures enumerated.Some? && |VideoInputs(enumerated.value)| > 0 ==>
              var videos := VideoInputs(enumerated.value);
              && r.Switched? && r.cam.sm.status == READY && r.cam.sm.error == cam.sm.error
              && r.cam.selected == Some(videos[NextIndex(videos, cam.selected)].deviceId)
              && exists d :: d in enumerated.value && d.kind == VideoInput && r.cam.selected == Some(d.deviceId)
    ensures r.cam.mirror == cam.mirror
  {
    match GetDevices(enumerated)
    case None => Switched(cam.(sm := SetStatus(cam.sm, ERROR, Some(ErrorObject(SearchError)), Undefined)))
    case Some(videos) =>
      var loading := SetOnly(cam.sm, LOADING);
      if |videos| == 0 then SwitchThrew(cam.(sm := loading))
      else
        var next := videos[NextIndex(videos, cam.selected)];
        assert next in videos;
        Switched(cam.(sm := SetOnly(loading, READY), selected := Some(next.deviceId)))
  }

  /** `doMirrorDevice()`. */
  function DoMirrorDevice(cam: Camera): (r: Camera)
    ensures r.mirror == !cam.mirror && r.sm == cam.sm && r.selected == cam.selected
  {
    cam.(mirror := !cam.mirror)
  }

  lemma MirrorTwice(cam: Camera)
    ensures DoMirrorDevice(DoMirrorDevice(cam)) == cam
  {
  }

  /** A `{ min, ideal, max }` constraint; any part may be missing. */
  datatype Range = Range(min: Option<int>, ideal: Option<int>, max: Option<int>)

  /** The width and height parts of the video constraints. */
  datatype Constraints = Constraints(width: Option<Range>, height: Option<Range>)

  /** Width 576/720/1080; height ideal 1280, max 1920. */
  const DefaultConstraints := Constraints(Some(Range(Some(576), Some(720), Some(1080))),
                                          Some(Range(None, Some(1280), Some(1920))))

  /** The host's `videoConstraints`: a key may be absent (`None`) or
      present, possibly holding `undefined`. */
  datatype UserConstraints = UserConstraints(width: Option<Option<Range>>, height: Option<Option<Range>>)

  /** `{ ...defaultProps.videoConstraints, ...props.videoConstraints }`. */
  function MergeConstraints(user: Option<UserConstraints>): (c: Constraints)
    ensures user.None? ==> c == DefaultConstraints
    ensures user.Some? && user.value.width.Some? ==> c.width == user.value.width.value
    ensures user.Some? && user.value.width.None? ==> c.width == DefaultConstraints.width
    ensures user.Some? && user.value.height.Some? ==> c.height == user.value.height.value
    ensures user.Some? && user.value.height.None? ==> c.height == DefaultConstraints.height
  {
    match user
    case None => DefaultConstraints
    case Some(u) => Constraints(u.width.GetOr(DefaultConstraints.width), u.height.GetOr(DefaultConstraints.height))
  }

  /** The width and height the hook requests: swapped when the user agent
      is Android (`undefined` before detection counts as not Android). */
  function RequestedSize(c: Constraints, isAndroid: Option<bool>): (r: Constraints)
    ensures isAndroid == Some(true) ==> r.width == c.height && r.height == c.width
    ensures isAndroid != Some(true) ==> r == c
  {
    if isAndroid == Some(true) then Constraints(c.height, c.width) else c
  }

  /** On Android the defaults ask for a 1280-wide, 720-high ideal. */
  lemma AndroidDefaults()
    ensures RequestedSize(MergeConstraints(None), Some(true)).width.value.ideal == Some(1280)
    ensures RequestedSize(MergeConstraints(None), Some(true)).height.value.ideal == Some(720)
    ensures RequestedSize(MergeConstraints(None), None) == DefaultConstraints
  {
  }
}
