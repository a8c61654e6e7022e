/**
 * The receipt camera panel. The device is abstracted: a camera request is
 * either granted with a stream of tracks or denied, and a snapshot is an
 * opaque data-URL string. The 500 ms flash delay splits a capture into two
 * sequential steps, CaptureImage and CaptureTimeout.
 */
module CameraCapturePanel {
  import opened Wrappers

  /** A `MediaStreamTrack`; `ended` once `stop()` was called on it. */
  class MediaTrack {
    var ended: bool

    constructor ()
      ensures !ended
    {
      ended := false;
    }

    method Stop()
      modifies this
      ensures ended
    {
      ended := true;
    }
  }

  /** A `MediaStream` and the tracks `getTracks()` returns. */
  class MediaStream {
    const tracks: seq<MediaTrack>

    constructor (tracks: seq<MediaTrack>)
      ensures this.tracks == tracks
    {
      this.tracks := tracks;
    }
  }

  /** What `getUserMedia` resolves to, or that it rejected. */
  datatype CameraAccess = Granted(stream: MediaStream) | Denied

  /** JavaScript truthiness of `capturedImage`: set and not the empty string. */
  predicate Shown(image: Option<string>) {
    image.Some? && image.value != []
  }

  class Panel {
    /** Whether the `<video>` element, when rendered, binds `videoRef`. */
    const hasVideo: bool
    /** Whether the hidden `<canvas>` binds `canvasRef`. */
    const hasCanvas: bool
    /** The `srcObject` of the video element: the stream attached to it. */
    var srcObject: MediaStream?
    var isStreamActive: bool
    var capturedImage: Option<string>
    var isCapturing: bool
    /** The component is mounted; unmounting detaches every ref. */
    var mounted: bool

    /**
     * `videoRef.current` is set: the component is mounted and the `<video>`
     * is rendered, which happens only while no image is shown.
     */
    function VideoRefAttached(): (attached: bool)
      reads this
      ensures attached ==> mounted && hasVideo
      ensures Shown(capturedImage) ==> !attached
    {
      mounted && hasVideo && !Shown(capturedImage)
    }

    /**
     * The stream flag tells whether a stream is attached, and while mounted a
     * stream is attached only to a rendered video element.
     */
    ghost predicate Valid()
      reads this
    {
      (isStreamActive <==> srcObject != null) && (mounted && srcObject != null ==> VideoRefAttached())
    }

    /** The tracks of the attached stream. */
    function Tracks(): set<MediaTrack>
      reads this
    {
      if srcObject == null then {} else set t | t in srcObject.tracks
    }

    /**
     * The "Capture Receipt" button is rendered and enabled. It is offered only
     * while a stream is attached to the rendered video and no flash is running.
     */
    predicate CanCapture(): (offered: bool)
      reads this
      ensures offered ==> isStreamActive && !isCapturing && !Shown(capturedImage)
      ensures offered && Valid() && mounted ==> srcObject != null && VideoRefAttached()
    {
      !Shown(capturedImage) && isStreamActive && !isCapturing
    }

    constructor (hasVideo: bool, hasCanvas: bool)
      ensures this.hasVideo == hasVideo && this.hasCanvas == hasCanvas
      ensures srcObject == null && !isStreamActive && capturedImage == None && !isCapturing
      ensures mounted && Valid()
    {
      this.hasVideo, this.hasCanvas := hasVideo, hasCanvas;
      srcObject, isStreamActive, capturedImage, isCapturing := null, false, None, false;
      mounted := true;
    }

    /**
     * `startCamera`, run on mount and on retake. A denial is caught and leaves
     * the state alone; a granted stream is attached and marked active only if
     * the video element is there.
     */
    method StartCamera(access: CameraAccess)
      requires Valid()
      modifies this
      ensures Valid()
      ensures access.Granted? && old(VideoRefAttached()) ==> srcObject == access.stream && isStreamActive
      ensures !(access.Granted? && old(VideoRefAttached())) ==>
                srcObject == old(srcObject) && isStreamActive == old(isStreamActive)
      ensures capturedImage == old(capturedImage) && isCapturing == old(isCapturing)
      ensures mounted == old(mounted)
    {
      match access
      case Denied =>
      case Granted(stream) =>
        if VideoRefAttached() {
          srcObject := stream;
          isStreamActive := true;
        }
    }

    /**
     * `stopCamera`: with the video ref set and a stream attached, stop each of
     * its tracks, detach it and clear the flag; otherwise do nothing, so a
     * second call is a no-op.
     */
    method StopCamera()
      requires Valid()
      modifies this, Tracks()
      ensures Valid()
      ensures old(VideoRefAttached()) ==> srcObject == null && !isStreamActive
      ensures old(VideoRefAttached()) ==> forall t :: t in old(Tracks()) ==> t.ended
      ensures mounted ==> srcObject == null && !isStreamActive
      ensures !old(VideoRefAttached() && srcObject != null) ==>
                unchanged(this) && forall t :: t in old(Tracks()) ==> t.ended == old(t.ended)
      ensures capturedImage == old(capturedImage) && isCapturing == old(isCapturing)
      ensures mounted == old(mounted)
    {
      if VideoRefAttached() && srcObject != null {
        var tracks := srcObject.tracks;
        for i := 0 to |tracks|
          invariant forall j :: 0 <= j < i ==> tracks[j].ended
          modifies set t | t in tracks
        {
          tracks[i].Stop();
        }
        srcObject := null;
        isStreamActive := false;
      }
    }

    /** The synchronous part of `captureImage`: raise the flash flag when both elements are there. */
    method CaptureImage()
      requires Valid()
      modifies this
      ensures Valid()
      ensures old(VideoRefAttached()) && hasCanvas ==> isCapturing
      ensures !(old(VideoRefAttached()) && hasCanvas) ==> isCapturing == old(isCapturing)
      ensures srcObject == old(srcObject) && isStreamActive == old(isStreamActive)
      ensures capturedImage == old(capturedImage) && mounted == old(mounted)
    {
      if VideoRefAttached() && hasCanvas {
        isCapturing := true;
      }
    }

    /**
     * The deferred part of `captureImage`: store the snapshot, stop the
     * camera and lower the flash flag. React applies the new image only after
     * the callback, so the stop still sees the rendered video element; the
     * model therefore stops the camera before storing the image.
     */
    method CaptureTimeout(frame: string)
      requires Valid()
      modifies this, Tracks()
      ensures Valid()
      ensures old(VideoRefAttached()) && hasCanvas ==>
                capturedImage == Some(frame) && !isCapturing && srcObject == null && !isStreamActive
                && forall t :: t in old(Tracks()) ==> t.ended
      ensures !(old(VideoRefAttached()) && hasCanvas) ==>
                unchanged(this) && forall t :: t in old(Tracks()) ==> t.ended == old(t.ended)
      ensures mounted == old(mounted)
    {
      if VideoRefAttached() && hasCanvas {
        StopCamera();
        capturedImage := Some(frame);
        isCapturing := false;
      }
    }

    /** `resetCapture` (Retake): drop the image and start the camera again. */
    method ResetCapture(access: CameraAccess)
      requires Valid()
      modifies this
      ensures Valid()
      ensures capturedImage == None && isCapturing == old(isCapturing) && mounted == old(mounted)
      ensures access.Granted? && mounted && hasVideo ==> srcObject == access.stream && isStreamActive
      ensures !(access.Granted? && mounted && hasVideo) ==>
                srcObject == old(srcObject) && isStreamActive == old(isStreamActive)
    {
      capturedImage := None;
      StartCamera(access);
    }

    /**
     * `confirmCapture` (Use This Image): `delivered` is the argument of the
     * one `onCapture` call, or None when no image is shown and nothing happens.
     */
    method ConfirmCapture() returns (delivered: Option<string>)
      requires Valid()
      modifies this
      ensures Valid()
      ensures Shown(old(capturedImage)) ==> delivered == old(capturedImage) && capturedImage == None
      ensures !Shown(old(capturedImage)) ==> delivered == None && capturedImage == old(capturedImage)
      ensures srcObject == old(srcObject) && isStreamActive == old(isStreamActive)
      ensures isCapturing == old(isCapturing) && mounted == old(mounted)
    {
      if Shown(capturedImage) {
        delivered := capturedImage;
        capturedImage := None;
      } else {
        delivered := None;
      }
    }

    /**
     * The unmount cleanup as written: React detaches `videoRef` before the
     * effect cleanup runs, so the `stopCamera` it calls finds no video element
     * and stops nothing.
     */
    method Unmount()
      requires Valid() && mounted
      modifies this, Tracks()
      ensures Valid() && !mounted
      ensures srcObject == old(srcObject) && isStreamActive == old(isStreamActive)
      ensures capturedImage == old(capturedImage) && isCapturing == old(isCapturing)
      ensures forall t :: t in old(Tracks()) ==> t.ended == old(t.ended)
    {
      mounted := false;
      StopCamera();
    }

    /**
     * The cleanup as evidently intended: release the camera while the video
     * element is still reachable, then unmount.
     */
    method UnmountReleasingCamera()
      requires Valid() && mounted
      modifies this, Tracks()
      ensures Valid() && !mounted
      ensures srcObject == null && !isStreamActive
      ensures forall t :: t in old(Tracks()) ==> t.ended
      ensures capturedImage == old(capturedImage) && isCapturing == old(isCapturing)
    {
      StopCamera();
      mounted := false;
    }
  }

  // ---------------------------------------------------------------------------
  // Lifecycles
  // ---------------------------------------------------------------------------

  /**
   * Mount with the camera granted, capture, confirm, confirm again. Capture is
   * offered while streaming; the snapshot is delivered exactly once and the
   * camera track is stopped; afterwards capture is no longer offered, since
   * confirming does not restart the camera.
   */
  method CaptureThenConfirm(frame: string)
    returns (offered: bool, delivered: Option<string>, again: Option<string>, trackEnded: bool, offeredAfter: bool)
    ensures offered && trackEnded && !offeredAfter && again == None
    ensures frame != [] ==> delivered == Some(frame)
    ensures frame == [] ==> delivered == None
  {
    var track := new MediaTrack();
    var stream := new MediaStream([track]);
    var panel := new Panel(true, true);
    panel.StartCamera(Granted(stream));
    offered := panel.CanCapture();
    panel.CaptureImage();
    assert track in panel.Tracks();
    panel.CaptureTimeout(frame);
    delivered := panel.ConfirmCapture();
    again := panel.ConfirmCapture();
    trackEnded := track.ended;
    offeredAfter := panel.CanCapture();
  }

  /** A denied camera is caught: the panel stays inactive and never offers capture. */
  method DeniedCameraOffersNoCapture() returns (active: bool, offered: bool)
    ensures !active && !offered
  {
    var panel := new Panel(true, true);
    panel.StartCamera(Denied);
    active := panel.isStreamActive;
    offered := panel.CanCapture();
  }

  /**
   * The guard lives in the button only: driven directly, a capture on a panel
   * whose camera was denied still stores the snapshot.
   */
  method CaptureIgnoresStreamFlag(frame: string) returns (offered: bool, stored: Option<string>)
    ensures !offered && stored == Some(frame)
  {
    var panel := new Panel(true, true);
    panel.StartCamera(Denied);
    offered := panel.CanCapture();
    panel.CaptureImage();
    panel.CaptureTimeout(frame);
    stored := panel.capturedImage;
  }

  /** Without a canvas element a capture does nothing, not even the flash. */
  method CaptureNeedsCanvas(frame: string) returns (flashing: bool, stored: Option<string>, active: bool)
    ensures !flashing && stored == None && active
  {
    var stream := new MediaStream([]);
    var panel := new Panel(true, false);
    panel.StartCamera(Granted(stream));
    panel.CaptureImage();
    flashing := panel.isCapturing;
    panel.CaptureTimeout(frame);
    stored := panel.capturedImage;
    active := panel.isStreamActive;
  }

  /**
   * Retake after a capture: the image is dropped, the new stream is attached
   * and capture is offered again; the first stream's track stays stopped.
   */
  method RetakeOffersCaptureAgain(frame: string) returns (stored: Option<string>, offered: bool, firstEnded: bool)
    requires frame != []
    ensures stored == None && offered && firstEnded
  {
    var first := new MediaTrack();
    var panel := new Panel(true, true);
    var stream := new MediaStream([first]);
    panel.StartCamera(Granted(stream));
    panel.CaptureImage();
    assert first in panel.Tracks();
    panel.CaptureTimeout(frame);
    var track2 := new MediaTrack();
    var second := new MediaStream([track2]);
    panel.ResetCapture(Granted(second));
    stored := panel.capturedImage;
    offered := panel.CanCapture();
    firstEnded := first.ended;
  }

  /** As written: unmounting a panel that is streaming leaves its camera track running. */
  method UnmountWhileStreamingLeavesCameraOn() returns (trackEnded: bool, active: bool)
    ensures !trackEnded && active
  {
    var track := new MediaTrack();
    var stream := new MediaStream([track]);
    var panel := new Panel(true, true);
    panel.StartCamera(Granted(stream));
    panel.Unmount();
    trackEnded := track.ended;
    active := panel.isStreamActive;
  }

  /**
   * Closing the panel during the flash: the timer still fires after unmount,
   * but both refs are gone, so it neither stores the frame nor stops the camera.
   */
  method UnmountDuringFlashLeavesCameraOn(frame: string) returns (trackEnded: bool, stored: bool)
    ensures !trackEnded && !stored
  {
    var track := new MediaTrack();
    var stream := new MediaStream([track]);
    var panel := new Panel(true, true);
    panel.StartCamera(Granted(stream));
    panel.CaptureImage();
    panel.Unmount();
    panel.CaptureTimeout(frame);
    trackEnded := track.ended;
    stored := panel.capturedImage.Some?;
  }

  /** As intended: unmounting a panel that is streaming stops its camera track. */
  method UnmountReleasingCameraStopsTrack() returns (trackEnded: bool)
    ensures trackEnded
  {
    var track := new MediaTrack();
    var stream := new MediaStream([track]);
    var panel := new Panel(true, true);
    panel.StartCamera(Granted(stream));
    assert track in panel.Tracks();
    panel.UnmountReleasingCamera();
    trackEnded := track.ended;
  }
}
