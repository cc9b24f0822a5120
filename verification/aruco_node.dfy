/**
  The `ArucoNode` as a state record and pure event handlers. Subscriptions are
  modelled by handle: the node creates image subscriptions with fresh handles,
  keeps the last one in `imgSub`, and the middleware delivers a message to the
  node's callback only while a subscription for it is live.
 */
module ArucoNode {
  import opened Wrappers
  import opened Messages
  import opened MarkerSizes
  import opened Calibration
  import opened FrameProcessor

  datatype Node = Node(
    config: Config,
    active: bool,
    imgSub: Option<nat>,          // `img_sub`; never reset to `None` once set
    liveImageSubs: set<nat>,      // image subscriptions not yet destroyed
    imageSubsCreated: nat,        // handles `0 .. imageSubsCreated - 1` were issued
    infoSubLive: bool,            // `info_sub` not yet destroyed
    calibration: Option<Calibration>)

  /**
    The state the constructor leaves: inactive, no image subscription, the
    camera-info subscription open and no calibration.
   */
  function Init(cfg: Config): (n: Node)
    ensures Inv(n) && n.config == cfg
    ensures !n.active && n.liveImageSubs == {} && n.imgSub.None?
    ensures n.infoSubLive && n.calibration.None?
  {
    Node(cfg, false, None, {}, 0, true, None)
  }

  /**
    The constructor's configuration work: the size table built from the
    `marker_map` text, then the initial state; an uncaught exception aborts it.
   */
  function Create(markerSize: real, markerMap: JsonDoc, cameraFrame: string): (r: Result<Node, StartupError>)
    ensures r.Ok? <==> BuildMarkerMap(markerMap).Ok?
    ensures r.Ok? ==> r.value == Init(Config(SizeTable(markerSize, BuildMarkerMap(markerMap).value), cameraFrame))
  {
    match BuildSizeTable(markerSize, markerMap)
    case Err(e) => Err(e)
    case Ok(sizes) => Ok(Init(Config(sizes, cameraFrame)))
  }

  /**
    The node's bookkeeping invariant: an image subscription is live exactly
    while the node is active, and then it is the one `imgSub` holds; the
    camera-info subscription is live exactly until calibration is captured.
   */
  predicate Inv(n: Node) {
    && (n.active ==> n.imgSub.Some? && n.liveImageSubs == {n.imgSub.value})
    && (!n.active ==> n.liveImageSubs == {})
    && (n.infoSubLive <==> n.calibration.None?)
  }

  /** `start`: subscribe to images unless already active; always succeeds. */
  function Start(n: Node): (r: (Node, bool))
    ensures r.1 && r.0.active
    ensures n.active ==> r.0 == n
    ensures r.0.calibration == n.calibration && r.0.config == n.config && r.0.infoSubLive == n.infoSubLive
  {
    if n.active then (n, true)
    else
      var h := n.imageSubsCreated;
      (n.(active := true, imgSub := Some(h), liveImageSubs := n.liveImageSubs + {h},
          imageSubsCreated := h + 1), true)
  }

  /**
    `stop`: go inactive and destroy the subscription `img_sub` refers to, if any
    was ever created; always succeeds.
   */
  function Stop(n: Node): (r: (Node, bool))
    ensures r.1 && !r.0.active
    ensures r.0.liveImageSubs <= n.liveImageSubs
    ensures r.0.imgSub == n.imgSub
    ensures n.imgSub.Some? ==> n.imgSub.value !in r.0.liveImageSubs
    ensures forall h :: h in n.liveImageSubs && Some(h) != n.imgSub ==> h in r.0.liveImageSubs
    ensures r.0.imageSubsCreated == n.imageSubsCreated
    ensures r.0.calibration == n.calibration && r.0.config == n.config && r.0.infoSubLive == n.infoSubLive
  {
    var live := if n.imgSub.Some? then n.liveImageSubs - {n.imgSub.value} else n.liveImageSubs;
    (n.(active := false, liveImageSubs := live), true)
  }

  /** `info_callback`: store the calibration, then destroy the camera-info subscription. */
  function InfoCallback(n: Node, info: CameraInfo): (r: Node)
    ensures r.calibration == Some(Capture(info))
    ensures !r.infoSubLive
    ensures r.active == n.active && r.config == n.config
    ensures r.imgSub == n.imgSub && r.liveImageSubs == n.liveImageSubs && r.imageSubsCreated == n.imageSubsCreated
  {
    n.(calibration := Some(Capture(info)), infoSubLive := false)
  }

  /** The inputs the node reacts to. */
  datatype Event =
    | StartRequest                      // `aruco/start` service call
    | StopRequest                       // `aruco/stop` service call
    | CameraInfoArrives(info: CameraInfo)
    | ImageArrives(img: Image)

  /** What the node does in response to one event. */
  datatype Output =
    | Response(success: bool)           // service reply
    | CalibrationStored
    | FrameHandled(outcome: ImageOutcome)
    | NotDelivered                      // no live subscription for the message

  /** One event: service calls always run; messages run a callback only if subscribed. */
  function Step(v: Vision, n: Node, e: Event): (r: (Node, Output))
    ensures e.StartRequest? || e.StopRequest? ==> r.1 == Response(true)
    ensures e.CameraInfoArrives? ==> (r.1 == CalibrationStored <==> n.infoSubLive)
    ensures e.ImageArrives? ==> r.0 == n && (r.1.FrameHandled? <==> n.liveImageSubs != {})
    ensures !e.CameraInfoArrives? ==> r.0.calibration == n.calibration
    ensures r.0.config == n.config
  {
    match e
    case StartRequest =>
      var (n', ok) := Start(n);
      (n', Response(ok))
    case StopRequest =>
      var (n', ok) := Stop(n);
      (n', Response(ok))
    case CameraInfoArrives(info) =>
      if n.infoSubLive then (InfoCallback(n, info), CalibrationStored) else (n, NotDelivered)
    case ImageArrives(img) =>
      if n.liveImageSubs != {} then (n, FrameHandled(ImageCallback(v, n.config, n.calibration, img)))
      else (n, NotDelivered)
  }

  /** A sequence of events, one output per event. */
  function Run(v: Vision, n: Node, es: seq<Event>): (r: (Node, seq<Output>))
    ensures |r.1| == |es|
    decreases |es|
  {
    if |es| == 0 then (n, [])
    else
      var (n1, o) := Step(v, n, es[0]);
      var (nf, os) := Run(v, n1, es[1..]);
      (nf, [o] + os)
  }

  /** Every event keeps the bookkeeping invariant. */
  lemma StepPreservesInv(v: Vision, n: Node, e: Event)
    requires Inv(n)
    ensures Inv(Step(v, n, e).0)
  {
  }

  /** Every state reachable from a valid state satisfies the invariant. */
  lemma {:induction false} RunPreservesInv(v: Vision, n: Node, es: seq<Event>)
    requires Inv(n)
    ensures Inv(Run(v, n, es).0)
    decreases |es|
  {
    if |es| > 0 {
      StepPreservesInv(v, n, es[0]);
      RunPreservesInv(v, Step(v, n, es[0]).0, es[1..]);
    }
  }

  /** Whatever happens, the node never holds more than one live image subscription. */
  lemma AtMostOneImageSubscription(v: Vision, cfg: Config, es: seq<Event>)
    ensures |Run(v, Init(cfg), es).0.liveImageSubs| <= 1
    ensures Run(v, Init(cfg), es).0.active <==> Run(v, Init(cfg), es).0.liveImageSubs != {}
  {
    RunPreservesInv(v, Init(cfg), es);
  }

  /** `start` from idle opens exactly one new image subscription. */
  lemma StartFromIdle(n: Node)
    requires Inv(n) && !n.active
    ensures var n' := Start(n).0;
      && Inv(n')
      && n'.imageSubsCreated == n.imageSubsCreated + 1
      && |n'.liveImageSubs| == 1
  {
  }

  /** Calling `start` twice is the same as calling it once. */
  lemma StartIdempotent(n: Node)
    ensures Start(Start(n).0) == Start(n)
  {
  }

  /** Calling `stop` twice is the same as calling it once. */
  lemma StopIdempotent(n: Node)
    ensures Stop(Stop(n).0) == Stop(n)
  {
    if n.imgSub.Some? {
      var h := n.imgSub.value;
      assert n.liveImageSubs - {h} - {h} == n.liveImageSubs - {h};
    }
  }

  /** After `stop`, no image subscription is live, whatever the prior state. */
  lemma StopClosesImages(n: Node)
    requires Inv(n)
    ensures Inv(Stop(n).0) && Stop(n).0.liveImageSubs == {}
  {
  }

  /** An image arriving while idle is dropped: no output and no trace in the state. */
  lemma IdleDropsImage(v: Vision, n: Node, img: Image)
    requires Inv(n) && !n.active
    ensures Step(v, n, ImageArrives(img)) == (n, NotDelivered)
  {
  }

  /** An image arriving while active is handed to `image_callback` and changes no state. */
  lemma ActiveHandlesImage(v: Vision, n: Node, img: Image)
    requires Inv(n) && n.active
    ensures Step(v, n, ImageArrives(img)) == (n, FrameHandled(ImageCallback(v, n.config, n.calibration, img)))
  {
  }

  /** The calibration of the first camera-info message in `es`, if any. */
  function FirstCapture(es: seq<Event>): Option<Calibration>
    decreases |es|
  {
    if |es| == 0 then None
    else if es[0].CameraInfoArrives? then Some(Capture(es[0].info))
    else FirstCapture(es[1..])
  }

  /**
    One-shot capture: once calibration is present it never changes; before that
    the first camera-info message to arrive is the one kept.
   */
  lemma {:induction false} CalibrationIsOneShot(v: Vision, n: Node, es: seq<Event>)
    requires Inv(n)
    ensures Run(v, n, es).0.calibration ==
              if n.calibration.Some? then n.calibration else FirstCapture(es)
    decreases |es|
  {
    if |es| > 0 {
      var n1 := Step(v, n, es[0]).0;
      StepPreservesInv(v, n, es[0]);
      CalibrationIsOneShot(v, n1, es[1..]);
    }
  }

  /** From start-up, the calibration after any events is the first one delivered. */
  lemma FirstCalibrationKept(v: Vision, cfg: Config, es: seq<Event>)
    ensures Run(v, Init(cfg), es).0.calibration == FirstCapture(es)
  {
    CalibrationIsOneShot(v, Init(cfg), es);
  }

  /**
    Once idle, no image is observed until the next `start`: every image event
    before a start request yields `NotDelivered`.
   */
  lemma {:induction false} IdleUntilStart(v: Vision, n: Node, es: seq<Event>)
    requires Inv(n) && !n.active
    requires forall i :: 0 <= i < |es| ==> !es[i].StartRequest?
    ensures !Run(v, n, es).0.active
    ensures forall i :: 0 <= i < |es| && es[i].ImageArrives? ==> Run(v, n, es).1[i] == NotDelivered
    decreases |es|
  {
    if |es| > 0 {
      var n1 := Step(v, n, es[0]).0;
      StepPreservesInv(v, n, es[0]);
      IdleUntilStart(v, n1, es[1..]);
      var outs := Run(v, n, es).1;
      assert outs == [Step(v, n, es[0]).1] + Run(v, n1, es[1..]).1;
      forall i | 0 <= i < |es| && es[i].ImageArrives?
        ensures outs[i] == NotDelivered
      {
        if i > 0 {
          assert es[1..][i - 1] == es[i];
        }
      }
    }
  }

  /** Before any calibration, every delivered image produces no output. */
  lemma NoOutputBeforeCalibration(v: Vision, n: Node, img: Image)
    requires n.calibration.None?
    ensures Step(v, n, ImageArrives(img)).1 in {FrameHandled(NoCameraInfo), NotDelivered}
  {
  }
}
