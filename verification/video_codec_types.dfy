/** Data model of the WebRTC video codec configuration: the codec-agnostic
    encoder configuration and per-layer streams that come in, the codec record
    (`VideoCodec`) that goes out, and the collaborators whose code is not part
    of this model. */
module VideoCodecTypes {

  /** Capacities and bounds from the repository's common headers. */
  const kMaxSimulcastStreams: nat := 4
  const kMaxSpatialLayers: nat := 5
  const kMaxTemporalStreams: nat := 4

  /** Defaults of the timing-frame thresholds written at translation time. */
  const kDefaultTimingFramesDelayMs: int := 200
  const kDefaultOutlierFrameSizePercent: int := 250

  /** Ranges of the C++ integer types the core casts to. */
  const kUint8Max: int := 0xFF
  const kUint16Max: int := 0xFFFF
  const kIntMax: int := 0x7FFF_FFFF

  datatype Option<T> = None | Some(value: T)

  /** `rtc::Optional<int>::value_or`. */
  function ValueOr(o: Option<int>, fallback: int): int
  {
    match o
    case Some(v) => v
    case None => fallback
  }

  /** The codec types; I420 and Generic stand for every type without
      codec-specific handling. */
  datatype VideoCodecType = VP8 | VP9 | H264 | I420 | Generic | Multiplex | Unknown

  /** Content type of the encoder configuration. */
  datatype ContentType = RealtimeVideo | Screen

  /** Mode of the codec record (zero is real-time video). */
  datatype VideoCodecMode = RealtimeVideoMode | ScreensharingMode

  datatype VP8ResilienceMode = ResilienceOff | ResilientStream | ResilientFrames

  /** One requested simulcast or quality layer, bitrates in bits per second. */
  datatype VideoStream = VideoStream(
    width: int,
    height: int,
    maxFramerate: int,
    minBitrateBps: int,
    targetBitrateBps: int,
    maxBitrateBps: int,
    maxQp: int,
    numTemporalLayers: Option<int>,
    active: bool)

  /** One layer descriptor of the codec record, bitrates in kbit/s.
      The same record shape serves spatial and simulcast layers. */
  datatype SpatialLayer = SpatialLayer(
    width: int,
    height: int,
    numberOfTemporalLayers: int,
    maxBitrate: int,
    targetBitrate: int,
    minBitrate: int,
    qpMax: int,
    active: bool)

  type SimulcastStream = SpatialLayer

  /** The all-zero layer descriptor. */
  const ZeroLayer: SpatialLayer := SpatialLayer(0, 0, 0, 0, 0, 0, 0, false)

  /** VP8-specific block of the codec record. */
  datatype VideoCodecVP8 = VideoCodecVP8(
    numberOfTemporalLayers: int,
    resilience: VP8ResilienceMode,
    denoisingOn: bool,
    automaticResizeOn: bool,
    frameDroppingOn: bool,
    keyFrameInterval: int)

  /** VP9-specific block of the codec record. */
  datatype VideoCodecVP9 = VideoCodecVP9(
    numberOfTemporalLayers: int,
    numberOfSpatialLayers: int,
    resilienceOn: bool,
    flexibleMode: bool,
    denoisingOn: bool,
    frameDroppingOn: bool,
    keyFrameInterval: int,
    adaptiveQpMode: bool,
    automaticResizeOn: bool)

  /** H264-specific block of the codec record. */
  datatype VideoCodecH264 = VideoCodecH264(
    frameDroppingOn: bool,
    keyFrameInterval: int)

  /** The codec-specific union of the codec record; `ZeroedSpecific` is the
      union as the initial zero fill leaves it. */
  datatype CodecSpecific =
    | ZeroedSpecific
    | Vp8Specific(vp8: VideoCodecVP8)
    | Vp9Specific(vp9: VideoCodecVP9)
    | H264Specific(h264: VideoCodecH264)

  /** Encoder-specific settings an encoder configuration may carry. */
  datatype EncoderSpecificSettings =
    | Vp8Settings(vp8: VideoCodecVP8)
    | Vp9Settings(vp9: VideoCodecVP9)
    | H264Settings(h264: VideoCodecH264)

  /** What `FillEncoderSpecificSettings` writes into the codec record: the
      supplied block replaces the codec-specific union. */
  function FillEncoderSpecificSettings(s: EncoderSpecificSettings): (c: CodecSpecific)
    ensures c != ZeroedSpecific
    ensures s.Vp8Settings? ==> c == Vp8Specific(s.vp8)
    ensures s.Vp9Settings? ==> c == Vp9Specific(s.vp9)
    ensures s.H264Settings? ==> c == H264Specific(s.h264)
  {
    match s
    case Vp8Settings(v) => Vp8Specific(v)
    case Vp9Settings(v) => Vp9Specific(v)
    case H264Settings(h) => H264Specific(h)
  }

  /** The codec-agnostic encoder configuration. */
  datatype VideoEncoderConfig = VideoEncoderConfig(
    codecType: VideoCodecType,
    contentType: ContentType,
    encoderSpecificSettings: Option<EncoderSpecificSettings>,
    spatialLayers: seq<SpatialLayer>,
    minTransmitBitrateBps: int)

  /** The code this core calls but which is not part of this model: the
      payload-name lookup, the SVC layer generator and the encoder defaults. */
  datatype Collaborators = Collaborators(
    payloadStringToCodecType: string -> VideoCodecType,
    getSvcConfig: (int, int, int, int) -> seq<SpatialLayer>,
    defaultVp8: VideoCodecVP8,
    defaultVp9: VideoCodecVP9,
    defaultH264: VideoCodecH264)

  datatype TimingFrameTriggerThresholds = TimingFrameTriggerThresholds(
    delayMs: int,
    outlierRatioPercent: int)

  const DefaultTimingFrameThresholds: TimingFrameTriggerThresholds :=
    TimingFrameTriggerThresholds(kDefaultTimingFramesDelayMs, kDefaultOutlierFrameSizePercent)

  /** The codec record handed to an encoder. Its two layer arrays have the
      fixed capacities of the source's record. */
  class VideoCodec {
    var codecType: VideoCodecType
    var plType: int
    var width: int
    var height: int
    var startBitrate: int
    var maxBitrate: int
    var minBitrate: int
    var targetBitrate: int
    var maxFramerate: int
    var active: bool
    var qpMax: int
    var numberOfSimulcastStreams: int
    const simulcastStream: array<SimulcastStream>
    const spatialLayers: array<SpatialLayer>
    var mode: VideoCodecMode
    var timingFrameThresholds: TimingFrameTriggerThresholds
    var codecSpecific: CodecSpecific

    /** The layer arrays have their fixed capacities and are distinct. */
    ghost predicate Valid()
    {
      && simulcastStream.Length == kMaxSimulcastStreams
      && spatialLayers.Length == kMaxSpatialLayers
      && simulcastStream != spatialLayers
    }

    /** A zero-filled record whose codec type is then set. */
    constructor (codecType: VideoCodecType)
      ensures Valid() && fresh(simulcastStream) && fresh(spatialLayers)
      ensures this.codecType == codecType
      ensures plType == 0 && width == 0 && height == 0 && startBitrate == 0
      ensures maxBitrate == 0 && minBitrate == 0 && targetBitrate == 0
      ensures maxFramerate == 0 && !active && qpMax == 0 && numberOfSimulcastStreams == 0
      ensures mode == RealtimeVideoMode
      ensures timingFrameThresholds == TimingFrameTriggerThresholds(0, 0)
      ensures codecSpecific == ZeroedSpecific
      ensures forall i :: 0 <= i < simulcastStream.Length ==> simulcastStream[i] == ZeroLayer
      ensures forall i :: 0 <= i < spatialLayers.Length ==> spatialLayers[i] == ZeroLayer
    {
      this.codecType := codecType;
      plType, width, height, startBitrate := 0, 0, 0, 0;
      maxBitrate, minBitrate, targetBitrate := 0, 0, 0;
      maxFramerate, active, qpMax, numberOfSimulcastStreams := 0, false, 0, 0;
      simulcastStream := new SimulcastStream[kMaxSimulcastStreams](_ => ZeroLayer);
      spatialLayers := new SpatialLayer[kMaxSpatialLayers](_ => ZeroLayer);
      mode := RealtimeVideoMode;
      timingFrameThresholds := TimingFrameTriggerThresholds(0, 0);
      codecSpecific := ZeroedSpecific;
    }
  }
}
