/**
 * The camera capture component: acquiring a video stream, a simulated face
 * detection after a delay, an optional three-second countdown, capturing a
 * frame to an image handed to the `onCapture` callback, and stopping the
 * stream. Timers are explicit events; the media stream is an opaque handle
 * whose tracks can be stopped.
 */
module FaceScanner {
  import opened Wrappers

  const CameraErrorMessage := "Could not access camera. Please ensure you have granted permission."
  const PulseClass := "animate-pulse"
  const FlashClass := "flash-effect"
  const CountdownStart := 3

  /** One track of a media stream. */
  class Track {
    var stopped: bool

    constructor ()
      ensures !stopped
    {
      stopped := false;
    }
  }

  /** A media stream handle and its tracks. */
  datatype Stream = Stream(tracks: seq<Track>)

  /** How a request for a camera stream settles. */
  datatype DeviceResult = Granted(stream: Stream) | Denied

  /** The manual capture button: not rendered, or rendered and enabled or disabled. */
  datatype CaptureButton = NoButton | Button(enabled: bool)

  /** What the start/stop toggle does when clicked. */
  datatype ToggleAction = StopCamera | StartCamera

  class Scanner {
    /** Props and mounted elements. */
    const autoCapture: bool
    const videoMounted: bool
    const canvasMounted: bool

    /** `videoRef.current.srcObject`. */
    var srcObject: Option<Stream>

    /** Component state. */
    var isStreamActive: bool
    var cameraError: string
    var countdown: Option<int>
    var faceDetected: bool
    var animationClass: string

    /** The canvas size set by the last capture. */
    var canvasWidth: int
    var canvasHeight: int

    /** Detection and flash-clearing timers scheduled and not yet fired. */
    var pendingDetections: nat
    var pendingFlashClears: nat

    /** Every image handed to `onCapture`, in order. */
    var captured: seq<string>

    /**
     * The countdown is unset or between 1 and 3 between events (it passes
     * through 0 only inside a tick, see `Tick`); a stream attached to the
     * video element is what makes the stream active.
     */
    ghost predicate Valid()
      reads this
    {
      && (countdown.Some? ==> 1 <= countdown.value <= CountdownStart)
      && (isStreamActive <==> srcObject.Some?)
      && (srcObject.Some? ==> videoMounted)
    }

    /** The tracks of the attached stream. */
    function Tracks(): set<Track>
      reads this
    {
      if srcObject.Some? then set t | t in srcObject.value.tracks else {}
    }

    constructor (autoCapture: bool, videoMounted: bool, canvasMounted: bool)
      ensures Valid()
      ensures this.autoCapture == autoCapture && this.videoMounted == videoMounted && this.canvasMounted == canvasMounted
      ensures srcObject == None && !isStreamActive && cameraError == "" && countdown == None
      ensures !faceDetected && animationClass == "" && captured == []
      ensures pendingDetections == 0 && pendingFlashClears == 0
    {
      this.autoCapture := autoCapture;
      this.videoMounted := videoMounted;
      this.canvasMounted := canvasMounted;
      srcObject := None;
      isStreamActive := false;
      cameraError := "";
      countdown := None;
      faceDetected := false;
      animationClass := "";
      canvasWidth, canvasHeight := 0, 0;
      pendingDetections, pendingFlashClears := 0, 0;
      captured := [];
    }

    /**
     * `startVideo`, at the moment the device request settles. A granted
     * stream is attached only if the video element is mounted; a failure
     * only sets the error message.
     */
    method StartVideo(result: DeviceResult)
      requires Valid()
      modifies this
      ensures Valid()
      ensures result.Granted? && videoMounted ==>
        && srcObject == Some(result.stream) && isStreamActive && cameraError == ""
        && pendingDetections == old(pendingDetections) + 1
      ensures result.Granted? && !videoMounted ==>
        && srcObject == old(srcObject) && isStreamActive == old(isStreamActive)
        && cameraError == old(cameraError) && pendingDetections == old(pendingDetections)
      ensures result.Denied? ==>
        && cameraError == CameraErrorMessage && srcObject == old(srcObject)
        && isStreamActive == old(isStreamActive) && pendingDetections == old(pendingDetections)
      ensures countdown == old(countdown) && faceDetected == old(faceDetected)
      ensures animationClass == old(animationClass) && captured == old(captured)
      ensures pendingFlashClears == old(pendingFlashClears)
      ensures canvasWidth == old(canvasWidth) && canvasHeight == old(canvasHeight)
    {
      match result
      case Granted(stream) =>
        if videoMounted {
          srcObject := Some(stream);
          isStreamActive := true;
          cameraError := "";
          pendingDetections := pendingDetections + 1;
        }
      case Denied =>
        cameraError := CameraErrorMessage;
    }

    /** The simulated detection timer fires: a face is detected, and with auto-capture the countdown starts at 3. */
    method DetectionFired()
      requires Valid() && pendingDetections > 0
      modifies this
      ensures Valid()
      ensures pendingDetections == old(pendingDetections) - 1
      ensures faceDetected && animationClass == PulseClass
      ensures countdown == if autoCapture then Some(CountdownStart) else old(countdown)
      ensures srcObject == old(srcObject) && isStreamActive == old(isStreamActive)
      ensures cameraError == old(cameraError) && captured == old(captured)
      ensures pendingFlashClears == old(pendingFlashClears)
      ensures canvasWidth == old(canvasWidth) && canvasHeight == old(canvasHeight)
    {
      pendingDetections := pendingDetections - 1;
      faceDetected := true;
      animationClass := PulseClass;
      if autoCapture {
        StartCountdown();
      }
    }

    /** `startCountdown`. */
    method StartCountdown()
      modifies this`countdown
      ensures countdown == Some(CountdownStart)
    {
      countdown := Some(CountdownStart);
    }

    /**
     * `stopVideo`: with a stream attached, stop each of its tracks, detach it
     * and clear the active, detected and animation state; otherwise nothing.
     * Pending timers and the countdown are left as they are.
     */
    method StopVideo()
      requires Valid()
      modifies this, Tracks()
      ensures Valid()
      ensures old(videoMounted && srcObject.Some?) ==>
        && (forall t :: t in old(srcObject).value.tracks ==> t.stopped)
        && srcObject == None && !isStreamActive && !faceDetected && animationClass == ""
      ensures !old(videoMounted && srcObject.Some?) ==>
        && srcObject == old(srcObject) && isStreamActive == old(isStreamActive)
        && faceDetected == old(faceDetected) && animationClass == old(animationClass)
      ensures countdown == old(countdown) && cameraError == old(cameraError) && captured == old(captured)
      ensures pendingDetections == old(pendingDetections) && pendingFlashClears == old(pendingFlashClears)
      ensures canvasWidth == old(canvasWidth) && canvasHeight == old(canvasHeight)
    {
      if videoMounted && srcObject.Some? {
        var tracks := srcObject.value.tracks;
        var i := 0;
        while i < |tracks|
          invariant 0 <= i <= |tracks|
          invariant forall k :: 0 <= k < i ==> tracks[k].stopped
          modifies set t | t in tracks
        {
          tracks[i].stopped := true;
          i := i + 1;
        }
        srcObject := None;
        isStreamActive := false;
        faceDetected := false;
        animationClass := "";
      }
    }

    /**
     * `capturePhoto`, with the frame size, whether a 2D context is obtained and
     * the encoded image as inputs. Without the video, the canvas or an active
     * stream nothing happens; otherwise the canvas takes the frame size and,
     * given a context, the image goes to `onCapture` once and a flash starts.
     */
    method CapturePhoto(videoWidth: int, videoHeight: int, hasContext: bool, image: string)
      requires Valid()
      modifies this
      ensures Valid()
      ensures captured == if videoMounted && canvasMounted && old(isStreamActive) && hasContext
        then old(captured) + [image] else old(captured)
      ensures !old(isStreamActive) ==> captured == old(captured)
      ensures videoMounted && canvasMounted && old(isStreamActive) ==> canvasWidth == videoWidth && canvasHeight == videoHeight
      ensures !(videoMounted && canvasMounted && old(isStreamActive)) ==>
        canvasWidth == old(canvasWidth) && canvasHeight == old(canvasHeight)
      ensures animationClass == if |captured| > |old(captured)| then FlashClass else old(animationClass)
      ensures pendingFlashClears == old(pendingFlashClears) + |captured| - |old(captured)|
      ensures srcObject == old(srcObject) && isStreamActive == old(isStreamActive) && countdown == old(countdown)
      ensures faceDetected == old(faceDetected) && cameraError == old(cameraError)
      ensures pendingDetections == old(pendingDetections)
    {
      if !videoMounted || !canvasMounted || !isStreamActive {
        return;
      }
      canvasWidth := videoWidth;
      canvasHeight := videoHeight;
      if hasContext {
        captured := captured + [image];
        animationClass := FlashClass;
        pendingFlashClears := pendingFlashClears + 1;
      }
    }

    /** The flash-clearing timer fires. */
    method FlashCleared()
      requires Valid() && pendingFlashClears > 0
      modifies this
      ensures Valid()
      ensures animationClass == "" && pendingFlashClears == old(pendingFlashClears) - 1
      ensures srcObject == old(srcObject) && isStreamActive == old(isStreamActive) && countdown == old(countdown)
      ensures faceDetected == old(faceDetected) && cameraError == old(cameraError) && captured == old(captured)
      ensures pendingDetections == old(pendingDetections)
      ensures canvasWidth == old(canvasWidth) && canvasHeight == old(canvasHeight)
    {
      animationClass := "";
      pendingFlashClears := pendingFlashClears - 1;
    }

    /**
     * The countdown timer fires; its timer exists exactly while the countdown
     * is set and positive. It steps n to n - 1; on reaching 0 the countdown
     * effect runs in the same render: one capture attempt, then the countdown
     * is cleared.
     */
    method Tick(videoWidth: int, videoHeight: int, hasContext: bool, image: string)
      requires Valid() && countdown.Some?
      modifies this
      ensures Valid()
      ensures old(countdown.value) > 1 ==>
        && countdown == Some(old(countdown.value) - 1) && captured == old(captured)
        && animationClass == old(animationClass) && pendingFlashClears == old(pendingFlashClears)
        && canvasWidth == old(canvasWidth) && canvasHeight == old(canvasHeight)
      ensures old(countdown.value) == 1 ==>
        && countdown == None
        && captured == (if videoMounted && canvasMounted && old(isStreamActive) && hasContext
          then old(captured) + [image] else old(captured))
        && animationClass == (if |captured| > |old(captured)| then FlashClass else old(animationClass))
        && pendingFlashClears == old(pendingFlashClears) + |captured| - |old(captured)|
        && (videoMounted && canvasMounted && old(isStreamActive) ==>
              canvasWidth == videoWidth && canvasHeight == videoHeight)
        && (!(videoMounted && canvasMounted && old(isStreamActive)) ==>
              canvasWidth == old(canvasWidth) && canvasHeight == old(canvasHeight))
      ensures srcObject == old(srcObject) && isStreamActive == old(isStreamActive)
      ensures faceDetected == old(faceDetected) && cameraError == old(cameraError)
      ensures pendingDetections == old(pendingDetections)
    {
      var next := countdown.value - 1;
      countdown := Some(next);
      if next == 0 {
        countdown := None;
        CapturePhoto(videoWidth, videoHeight, hasContext, image);
      }
    }

    /** The manual capture button: absent with auto-capture, enabled only with an active stream and a detected face. */
    function ManualCaptureButton(): (b: CaptureButton)
      reads this
      ensures autoCapture <==> b == NoButton
      ensures b.Button? ==> (b.enabled <==> isStreamActive && faceDetected)
    {
      if autoCapture then NoButton else Button(isStreamActive && faceDetected)
    }

    /** The start/stop toggle stops an active stream and starts an inactive one. */
    function Toggle(): (a: ToggleAction)
      reads this
      ensures a == StopCamera <==> isStreamActive
    {
      if isStreamActive then StopCamera else StartCamera
    }

    /** A click on the toggle; `result` is how the device request settles if one is made. */
    method ToggleClicked(result: DeviceResult)
      requires Valid()
      modifies this, Tracks()
      ensures Valid()
      ensures old(isStreamActive) ==>
        && old(srcObject).Some? && (forall t :: t in old(srcObject).value.tracks ==> t.stopped)
        && srcObject == None && !isStreamActive && !faceDetected && animationClass == ""
        && cameraError == old(cameraError) && pendingDetections == old(pendingDetections)
      ensures !old(isStreamActive) && result.Granted? && videoMounted ==>
        && srcObject == Some(result.stream) && isStreamActive && cameraError == ""
        && pendingDetections == old(pendingDetections) + 1
        && faceDetected == old(faceDetected) && animationClass == old(animationClass)
      ensures !old(isStreamActive) && result.Granted? && !videoMounted ==>
        && srcObject == old(srcObject) && isStreamActive == old(isStreamActive) && cameraError == old(cameraError)
        && pendingDetections == old(pendingDetections)
        && faceDetected == old(faceDetected) && animationClass == old(animationClass)
      ensures !old(isStreamActive) && result.Denied? ==>
        && cameraError == CameraErrorMessage
        && srcObject == old(srcObject) && isStreamActive == old(isStreamActive)
        && pendingDetections == old(pendingDetections)
        && faceDetected == old(faceDetected) && animationClass == old(animationClass)
      ensures captured == old(captured) && countdown == old(countdown)
      ensures pendingFlashClears == old(pendingFlashClears)
      ensures canvasWidth == old(canvasWidth) && canvasHeight == old(canvasHeight)
    {
      if isStreamActive {
        StopVideo();
      } else {
        StartVideo(result);
      }
    }
  }

  /**
   * With auto-capture, a granted stream, the detection timer and three
   * countdown ticks hand exactly one image to `onCapture`, on the third tick.
   */
  method AutoCaptureAfterThreeTicks(w: int, h: int, image: string) returns (beforeLast: seq<string>, after: seq<string>)
    ensures beforeLast == [] && after == [image]
  {
    var sc := new Scanner(true, true, true);
    var t := new Track();
    sc.StartVideo(Granted(Stream([t])));
    sc.DetectionFired();
    sc.Tick(w, h, true, image);
    sc.Tick(w, h, true, image);
    beforeLast := sc.captured;
    sc.Tick(w, h, true, image);
    after := sc.captured;
    assert sc.countdown == None;
  }

  /**
   * Stopping the camera during a countdown does not cancel it, but the
   * capture it ends in finds no active stream and hands nothing to `onCapture`.
   */
  method StopDuringCountdown(w: int, h: int, image: string) returns (captures: seq<string>, tracksStopped: bool)
    ensures captures == [] && tracksStopped
  {
    var sc := new Scanner(true, true, true);
    var t := new Track();
    sc.StartVideo(Granted(Stream([t])));
    sc.DetectionFired();
    sc.Tick(w, h, true, image);
    sc.StopVideo();
    sc.Tick(w, h, true, image);
    sc.Tick(w, h, true, image);
    captures := sc.captured;
    tracksStopped := t.stopped;
  }

  /** On one trace: a failed request shows the error; a later successful one clears it and activates the stream. */
  method RetryAfterDenial() returns (errorAfterDenial: string, errorAfterRetry: string, active: bool)
    ensures errorAfterDenial == CameraErrorMessage && errorAfterRetry == "" && active
  {
    var sc := new Scanner(false, true, true);
    sc.StartVideo(Denied);
    errorAfterDenial := sc.cameraError;
    var t := new Track();
    sc.StartVideo(Granted(Stream([t])));
    errorAfterRetry := sc.cameraError;
    active := sc.isStreamActive;
  }

  /** On one trace: stopping twice leaves the same state as stopping once. */
  method StopTwice() returns (onceActive: bool, twiceActive: bool, onceDetected: bool, twiceDetected: bool)
    ensures !onceActive && !twiceActive && !onceDetected && !twiceDetected
  {
    var sc := new Scanner(false, true, true);
    var t := new Track();
    sc.StartVideo(Granted(Stream([t])));
    sc.DetectionFired();
    sc.StopVideo();
    onceActive, onceDetected := sc.isStreamActive, sc.faceDetected;
    sc.StopVideo();
    twiceActive, twiceDetected := sc.isStreamActive, sc.faceDetected;
  }

  /** On one trace: a capture requested without an active stream hands nothing to `onCapture`. */
  method CaptureWithoutStream(w: int, h: int, image: string) returns (captures: seq<string>)
    ensures captures == []
  {
    var sc := new Scanner(false, true, true);
    sc.CapturePhoto(w, h, true, image);
    captures := sc.captured;
  }
}
