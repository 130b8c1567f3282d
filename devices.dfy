/** The camera probe `check_camera` and the `/check-devices` route that runs
    both probes and reports their verdicts. The camera is an input: whether
    `cv2.VideoCapture(0)` opened, and the `ret` flag its one `read()` gives. */
module Devices {
  import Signal

  /** `check_camera`: an unopened device fails without a read; an opened one
      reports whether its single frame read succeeded. */
  function CheckCamera(isOpened: bool, frameRead: bool): (ok: bool)
    ensures ok <==> isOpened && frameRead
  {
    if !isOpened then false else frameRead
  }

  /** The hardware probes, in the order the route runs them. */
  datatype Probe = Microphone | Camera

  /** The JSON body and status code of `/check-devices`. */
  datatype DeviceResponse = Ready | NotReady(mic: bool, camera: bool)
  {
    /** The `status` field of the JSON body. */
    function Status(): (status: string)
      ensures status == "success" <==> Ready?
      ensures status == "success" || status == "error"
    {
      if Ready? then "success" else "error"
    }

    /** The HTTP status code. */
    function Code(): (code: int)
      ensures code == 200 <==> Ready?
      ensures code == 200 || code == 400
    {
      if Ready? then 200 else 400
    }
  }

  /** The response chosen from the two verdicts: success with 200 exactly when
      both pass, otherwise an error with 400 that reports both verdicts. */
  function Respond(mic: bool, camera: bool): (r: DeviceResponse)
    ensures (r.Status() == "success" && r.Code() == 200) <==> mic && camera
    ensures (r.Status() == "error" && r.Code() == 400) <==> !(mic && camera)
    ensures r.NotReady? ==> r.mic == mic && r.camera == camera
  {
    if !mic || !camera then NotReady(mic, camera) else Ready
  }

  /** `check_devices`: both probes always run, microphone first, and the
      response reports their verdicts. */
  method CheckDevices(read: nat -> Signal.Chunk, cameraOpened: bool, frameRead: bool)
    returns (r: DeviceResponse, probes: seq<Probe>)
    ensures probes == [Microphone, Camera]
    ensures r.Ready? <==>
      Signal.MicVerdict(Signal.RecordedSamples(read)) && cameraOpened && frameRead
    ensures r.NotReady? ==>
      r.mic == Signal.MicVerdict(Signal.RecordedSamples(read)) &&
      r.camera == (cameraOpened && frameRead)
  {
    // `probes` records the order in which the probes are called.
    var micWorking := Signal.CheckMic(read);
    probes := [Microphone];
    var cameraWorking := CheckCamera(cameraOpened, frameRead);
    probes := probes + [Camera];
    r := Respond(micWorking, cameraWorking);
  }

  /** A silent microphone makes the route fail with mic=false, whatever the
      camera does. */
  lemma SilentMicFails(samples: seq<Signal.int16>, cameraOpened: bool, frameRead: bool)
    requires forall i :: 0 <= i < |samples| ==> samples[i] == 0
    ensures Respond(Signal.MicVerdict(samples), CheckCamera(cameraOpened, frameRead))
      == NotReady(false, cameraOpened && frameRead)
  {
  }

  /** A camera that opens but yields no frame makes the route fail with
      camera=false, whatever the microphone does. */
  lemma FramelessCameraFails(mic: bool)
    ensures Respond(mic, CheckCamera(true, false)) == NotReady(mic, false)
  {
  }
}
