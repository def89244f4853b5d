/** What translating an encoder configuration produces, stated as functions
    of the inputs: the preconditions the translation asserts, the per-stream
    projections it aggregates, and the codec-specific layering rules. */
module CodecTranslation {
  import opened VideoCodecTypes
  import opened Aggregates

  /** The floor applied to the aggregate bitrates, in kbit/s. */
  const kEncoderMinBitrateKbps: int := 30

  // ---------------------------------------------------------------------
  // Preconditions (the assertions of the translation and the ranges of the
  // casts it makes)
  // ---------------------------------------------------------------------

  /** What the translation asserts of one stream, plus the ranges of the
      16-bit and 8-bit fields its values are stored in. */
  predicate StreamWithinLimits(s: VideoStream, first: VideoStream, content: ContentType): (ok: bool)
    ensures ok ==> 0 <= s.minBitrateBps / 1000 <= s.targetBitrateBps / 1000 <= s.maxBitrateBps / 1000
  {
    && 0 < s.width <= kUint16Max
    && 0 < s.height <= kUint16Max
    && 0 < s.maxFramerate
    && (content != Screen ==> s.maxFramerate == first.maxFramerate)
    && 0 <= s.minBitrateBps <= s.targetBitrateBps <= s.maxBitrateBps <= kIntMax
    && s.minBitrateBps / 1000 <= kUint16Max
    && 0 <= s.maxQp
    && (s.numTemporalLayers.Some? ==> 0 <= s.numTemporalLayers.value <= kUint8Max)
  }

  /** The assertions over the whole stream list: one to `kMaxSimulcastStreams`
      streams, each within its limits; the first stream's frame rate is then
      positive, as asserted again before it is copied. */
  predicate StreamsWithinLimits(config: VideoEncoderConfig, streams: seq<VideoStream>): (ok: bool)
    ensures ok ==> 0 < |streams| && 0 < streams[0].maxFramerate
  {
    && 0 < |streams| <= kMaxSimulcastStreams
    && 0 <= config.minTransmitBitrateBps
    && forall i :: 0 <= i < |streams| ==>
         StreamWithinLimits(streams[i], streams[0], config.contentType)
  }

  /** Supplied encoder-specific settings must be of the codec's own kind;
      codec types without a specific block accept none. */
  predicate SettingsFitCodec(settings: Option<EncoderSpecificSettings>, codecType: VideoCodecType): (ok: bool)
    ensures ok && settings.Some? ==> codecType in {VP8, VP9, H264}
    ensures settings.None? ==> ok
  {
    match settings
    case None => true
    case Some(s) =>
      || (codecType == VP8 && s.Vp8Settings?)
      || (codecType == VP9 && s.Vp9Settings?)
      || (codecType == H264 && s.H264Settings?)
  }

  // ---------------------------------------------------------------------
  // Codec-specific blocks before the layering rules
  // ---------------------------------------------------------------------

  /** The VP8 block: the supplied one, else the encoder default. */
  function BaseVp8(config: VideoEncoderConfig, env: Collaborators): (b: VideoCodecVP8)
    requires SettingsFitCodec(config.encoderSpecificSettings, VP8)
    ensures config.encoderSpecificSettings.Some? ==>
              FillEncoderSpecificSettings(config.encoderSpecificSettings.value) == Vp8Specific(b)
    ensures config.encoderSpecificSettings.None? ==> b == env.defaultVp8
  {
    match config.encoderSpecificSettings
    case Some(s) => s.vp8
    case None => env.defaultVp8
  }

  /** The VP9 block: the supplied one, else the encoder default. */
  function BaseVp9(config: VideoEncoderConfig, env: Collaborators): (b: VideoCodecVP9)
    requires SettingsFitCodec(config.encoderSpecificSettings, VP9)
    ensures config.encoderSpecificSettings.Some? ==>
              FillEncoderSpecificSettings(config.encoderSpecificSettings.value) == Vp9Specific(b)
    ensures config.encoderSpecificSettings.None? ==> b == env.defaultVp9
  {
    match config.encoderSpecificSettings
    case Some(s) => s.vp9
    case None => env.defaultVp9
  }

  /** The H264 block: the supplied one, else the encoder default. */
  function BaseH264(config: VideoEncoderConfig, env: Collaborators): (b: VideoCodecH264)
    requires SettingsFitCodec(config.encoderSpecificSettings, H264)
    ensures config.encoderSpecificSettings.Some? ==>
              FillEncoderSpecificSettings(config.encoderSpecificSettings.value) == H264Specific(b)
    ensures config.encoderSpecificSettings.None? ==> b == env.defaultH264
  {
    match config.encoderSpecificSettings
    case Some(s) => s.h264
    case None => env.defaultH264
  }

  /** The last stream's explicit temporal-layer count, else `fallback`. */
  function LastStreamTemporalLayers(streams: seq<VideoStream>, fallback: int): (n: int)
    requires |streams| > 0
    ensures streams[|streams| - 1].numTemporalLayers.Some? ==> n == streams[|streams| - 1].numTemporalLayers.value
    ensures streams[|streams| - 1].numTemporalLayers.None? ==> n == fallback
  {
    ValueOr(streams[|streams| - 1].numTemporalLayers, fallback)
  }

  // ---------------------------------------------------------------------
  // Per-stream values of the record
  // ---------------------------------------------------------------------

  /** Some stream is active; the record as a whole is active exactly then. */
  ghost predicate SomeStreamActive(streams: seq<VideoStream>): (some: bool)
    ensures some ==> 0 < |streams|
    ensures 0 < |streams| && streams[0].active ==> some
  {
    exists i :: 0 <= i < |streams| && streams[i].active
  }

  /** The coding mode follows the content type. */
  function ModeFor(content: ContentType): (m: VideoCodecMode)
    ensures m == ScreensharingMode <==> content == Screen
    ensures m == RealtimeVideoMode <==> content == RealtimeVideo
  {
    match content
    case RealtimeVideo => RealtimeVideoMode
    case Screen => ScreensharingMode
  }

  /** The legacy target-bitrate hint: set only for screen content whose first
      stream has exactly two temporal layers. */
  function ScreenshareTargetBitrate(config: VideoEncoderConfig, streams: seq<VideoStream>): (r: int)
    requires StreamsWithinLimits(config, streams)
    ensures r != 0 ==> config.contentType == Screen && streams[0].numTemporalLayers == Some(2)
    ensures config.contentType == Screen && streams[0].numTemporalLayers == Some(2) ==>
              r == streams[0].targetBitrateBps / 1000
  {
    if config.contentType == Screen && streams[0].numTemporalLayers == Some(2)
    then streams[0].targetBitrateBps / 1000
    else 0
  }

  /** The simulcast-layer entry describing one stream: its bitrates in
      whole kbit/s, an unset temporal-layer count read as one layer. */
  function SimulcastEntry(s: VideoStream): (e: SimulcastStream)
    ensures e.width == s.width && e.height == s.height && e.qpMax == s.maxQp && e.active == s.active
    ensures s.minBitrateBps <= s.targetBitrateBps <= s.maxBitrateBps ==>
              e.minBitrate <= e.targetBitrate <= e.maxBitrate
    ensures s.numTemporalLayers.None? ==> e.numberOfTemporalLayers == 1
  {
    SpatialLayer(
      width := s.width,
      height := s.height,
      numberOfTemporalLayers := ValueOr(s.numTemporalLayers, 1),
      maxBitrate := s.maxBitrateBps / 1000,
      targetBitrate := s.targetBitrateBps / 1000,
      minBitrate := s.minBitrateBps / 1000,
      qpMax := s.maxQp,
      active := s.active)
  }

  // ---------------------------------------------------------------------
  // Layering rules
  // ---------------------------------------------------------------------

  /** The VP8 rule: the last stream's explicit temporal-layer count replaces
      the block's, and a single temporal layer under NACK switches
      resilience off. */
  function ResolvedVp8(config: VideoEncoderConfig, streams: seq<VideoStream>, nackEnabled: bool,
                       env: Collaborators): (r: VideoCodecVP8)
    requires |streams| > 0 && SettingsFitCodec(config.encoderSpecificSettings, VP8)
    ensures r.numberOfTemporalLayers == LastStreamTemporalLayers(streams, BaseVp8(config, env).numberOfTemporalLayers)
    ensures nackEnabled && r.numberOfTemporalLayers == 1 ==> r.resilience == ResilienceOff
  {
    var base := BaseVp8(config, env);
    var layered := base.(numberOfTemporalLayers := LastStreamTemporalLayers(streams, base.numberOfTemporalLayers));
    if nackEnabled && layered.numberOfTemporalLayers == 1
    then layered.(resilience := ResilienceOff)
    else layered
  }

  /** The VP8 block after the rule takes its temporal-layer count from the
      last stream when that stream sets one and keeps the base block's
      otherwise; resilience is off under NACK with one temporal layer and
      the base block's otherwise; nothing else in the block changes. */
  lemma ResolvedVp8Shape(config: VideoEncoderConfig, streams: seq<VideoStream>, nackEnabled: bool,
                         env: Collaborators)
    requires |streams| > 0 && SettingsFitCodec(config.encoderSpecificSettings, VP8)
    ensures var r := ResolvedVp8(config, streams, nackEnabled, env);
            var last := streams[|streams| - 1];
            && (last.numTemporalLayers.Some? ==> r.numberOfTemporalLayers == last.numTemporalLayers.value)
            && (last.numTemporalLayers.None? ==>
                  r.numberOfTemporalLayers == BaseVp8(config, env).numberOfTemporalLayers)
            && (nackEnabled && r.numberOfTemporalLayers == 1 ==> r.resilience == ResilienceOff)
            && (!(nackEnabled && r.numberOfTemporalLayers == 1) ==>
                  r.resilience == BaseVp8(config, env).resilience)
            && r == BaseVp8(config, env).(numberOfTemporalLayers := r.numberOfTemporalLayers,
                                          resilience := r.resilience)
  {
  }

  /** VP9 screen sharing with supplied settings has a fixed layer shape; the
      record's mode is then screen sharing. */
  predicate Vp9FixedScreenShape(config: VideoEncoderConfig): (fixed: bool)
    ensures fixed ==> ModeFor(config.contentType) == ScreensharingMode && config.encoderSpecificSettings.Some?
  {
    config.contentType == Screen && config.encoderSpecificSettings.Some?
  }

  /** The VP9 temporal-layer count before the spatial layers are chosen. */
  function Vp9StreamTemporalLayers(config: VideoEncoderConfig, streams: seq<VideoStream>,
                                   env: Collaborators): (n: int)
    requires |streams| > 0 && SettingsFitCodec(config.encoderSpecificSettings, VP9)
    ensures streams[|streams| - 1].numTemporalLayers.Some? ==> n == streams[|streams| - 1].numTemporalLayers.value
    ensures streams[|streams| - 1].numTemporalLayers.None? ==> n == BaseVp9(config, env).numberOfTemporalLayers
  {
    LastStreamTemporalLayers(streams, BaseVp9(config, env).numberOfTemporalLayers)
  }

  /** The spatial layers: the configuration's explicit ones, else those the
      SVC generator derives from the aggregate size and the layer counts. */
  function ChosenSpatialLayers(config: VideoEncoderConfig, streams: seq<VideoStream>,
                               env: Collaborators): (layers: seq<SpatialLayer>)
    requires |streams| > 0 && SettingsFitCodec(config.encoderSpecificSettings, VP9)
    ensures |config.spatialLayers| > 0 ==> layers == config.spatialLayers
    ensures |config.spatialLayers| == 0 ==>
              layers == env.getSvcConfig(MaxOver(streams, Width, |streams|), MaxOver(streams, Height, |streams|),
                                         BaseVp9(config, env).numberOfSpatialLayers,
                                         Vp9StreamTemporalLayers(config, streams, env))
  {
    if |config.spatialLayers| > 0 then config.spatialLayers
    else env.getSvcConfig(MaxOver(streams, Width, |streams|), MaxOver(streams, Height, |streams|),
                          BaseVp9(config, env).numberOfSpatialLayers,
                          Vp9StreamTemporalLayers(config, streams, env))
  }

  /** The VP9 rule: screen sharing with supplied settings turns flexible mode
      on; otherwise the chosen spatial layers set the spatial-layer count
      and the temporal-layer count; one temporal and one spatial layer under
      NACK switch resilience off. */
  function ResolvedVp9(config: VideoEncoderConfig, streams: seq<VideoStream>, nackEnabled: bool,
                       env: Collaborators): (r: VideoCodecVP9)
    requires |streams| > 0 && SettingsFitCodec(config.encoderSpecificSettings, VP9)
    requires !Vp9FixedScreenShape(config) ==> |ChosenSpatialLayers(config, streams, env)| > 0
    ensures Vp9FixedScreenShape(config) ==> r.flexibleMode
    ensures nackEnabled && r.numberOfTemporalLayers == 1 && r.numberOfSpatialLayers == 1 ==> !r.resilienceOn
  {
    Vp9NackRule(Vp9Layered(config, streams, env), nackEnabled)
  }

  /** The VP9 block with the layer shape applied and the NACK rule not yet. */
  function Vp9Layered(config: VideoEncoderConfig, streams: seq<VideoStream>,
                      env: Collaborators): (r: VideoCodecVP9)
    requires |streams| > 0 && SettingsFitCodec(config.encoderSpecificSettings, VP9)
    requires !Vp9FixedScreenShape(config) ==> |ChosenSpatialLayers(config, streams, env)| > 0
    ensures Vp9FixedScreenShape(config) ==>
              r.flexibleMode && r.numberOfSpatialLayers == BaseVp9(config, env).numberOfSpatialLayers
    ensures !Vp9FixedScreenShape(config) ==> r.numberOfSpatialLayers == |ChosenSpatialLayers(config, streams, env)|
    ensures r.resilienceOn == BaseVp9(config, env).resilienceOn
  {
    var temporal := BaseVp9(config, env).(numberOfTemporalLayers := Vp9StreamTemporalLayers(config, streams, env));
    if Vp9FixedScreenShape(config) then temporal.(flexibleMode := true)
    else
      var layers := ChosenSpatialLayers(config, streams, env);
      temporal.(numberOfSpatialLayers := |layers|,
                numberOfTemporalLayers := layers[|layers| - 1].numberOfTemporalLayers)
  }

  /** One temporal and one spatial layer under NACK switch resilience off. */
  function Vp9NackRule(vp9: VideoCodecVP9, nackEnabled: bool): (r: VideoCodecVP9)
    ensures r.resilienceOn <==>
              vp9.resilienceOn && !(nackEnabled && vp9.numberOfTemporalLayers == 1 && vp9.numberOfSpatialLayers == 1)
    ensures r == vp9.(resilienceOn := r.resilienceOn)
  {
    if nackEnabled && vp9.numberOfTemporalLayers == 1 && vp9.numberOfSpatialLayers == 1
    then vp9.(resilienceOn := false)
    else vp9
  }

  /** The VP9 block after the rule: in the fixed screen-sharing shape
      flexible mode is on, the temporal-layer count comes from the streams
      and the spatial-layer count from the base block; otherwise the counts
      are those of the chosen spatial layers and flexible mode is the base
      block's. Resilience stays on exactly when the base block has it and
      NACK does not meet a single temporal and spatial layer; nothing else
      in the block changes. */
  lemma ResolvedVp9Shape(config: VideoEncoderConfig, streams: seq<VideoStream>, nackEnabled: bool,
                         env: Collaborators)
    requires |streams| > 0 && SettingsFitCodec(config.encoderSpecificSettings, VP9)
    requires !Vp9FixedScreenShape(config) ==> |ChosenSpatialLayers(config, streams, env)| > 0
    ensures var r := ResolvedVp9(config, streams, nackEnabled, env);
            var base := BaseVp9(config, env);
            && (Vp9FixedScreenShape(config) ==>
                  && r.flexibleMode
                  && r.numberOfTemporalLayers == Vp9StreamTemporalLayers(config, streams, env)
                  && r.numberOfSpatialLayers == base.numberOfSpatialLayers)
            && (!Vp9FixedScreenShape(config) ==>
                  var layers := ChosenSpatialLayers(config, streams, env);
                  && r.flexibleMode == base.flexibleMode
                  && r.numberOfSpatialLayers == |layers|
                  && r.numberOfTemporalLayers == layers[|layers| - 1].numberOfTemporalLayers)
            && (r.resilienceOn <==>
                  base.resilienceOn && !(nackEnabled && r.numberOfTemporalLayers == 1 && r.numberOfSpatialLayers == 1))
            && r == base.(numberOfTemporalLayers := r.numberOfTemporalLayers,
                          numberOfSpatialLayers := r.numberOfSpatialLayers,
                          flexibleMode := r.flexibleMode,
                          resilienceOn := r.resilienceOn)
  {
  }

  /** What the translation asserts about the layer counts of VP8 and VP9,
      stated on the inputs. */
  predicate LayeringWithinLimits(config: VideoEncoderConfig, streams: seq<VideoStream>,
                                 codecType: VideoCodecType, env: Collaborators): (ok: bool)
    requires |streams| > 0 && SettingsFitCodec(config.encoderSpecificSettings, codecType)
    ensures ok && codecType == VP9 && !Vp9FixedScreenShape(config) ==>
              1 <= |ChosenSpatialLayers(config, streams, env)| <= kMaxSpatialLayers
  {
    match codecType
    case VP8 =>
      1 <= LastStreamTemporalLayers(streams, BaseVp8(config, env).numberOfTemporalLayers) <= kMaxTemporalStreams
    case VP9 =>
      var base := BaseVp9(config, env);
      var temporal := Vp9StreamTemporalLayers(config, streams, env);
      && 1 <= temporal <= kMaxTemporalStreams
      && if Vp9FixedScreenShape(config) then
           temporal == 1 && base.numberOfSpatialLayers == 2
         else
           var layers := ChosenSpatialLayers(config, streams, env);
           && (|config.spatialLayers| == 0 || |config.spatialLayers| == base.numberOfSpatialLayers)
           && 1 <= |layers| <= kMaxSpatialLayers
           && 1 <= layers[|layers| - 1].numberOfTemporalLayers <= kMaxTemporalStreams
    case _ => true
  }

  /** Everything the translation demands of its inputs. */
  predicate TranslationPreconditions(config: VideoEncoderConfig, streams: seq<VideoStream>,
                                     codecType: VideoCodecType, env: Collaborators): (ok: bool)
    ensures ok ==> 0 < |streams| <= kMaxSimulcastStreams
    ensures ok && codecType !in {VP8, VP9, H264} ==> config.encoderSpecificSettings.None?
  {
    && StreamsWithinLimits(config, streams)
    && SettingsFitCodec(config.encoderSpecificSettings, codecType)
    && LayeringWithinLimits(config, streams, codecType, env)
  }

  /** The codec-specific block after the layering rules. */
  function ResolvedSpecific(config: VideoEncoderConfig, streams: seq<VideoStream>,
                            codecType: VideoCodecType, nackEnabled: bool,
                            env: Collaborators): (r: CodecSpecific)
    requires TranslationPreconditions(config, streams, codecType, env)
    ensures r.Vp8Specific? <==> codecType == VP8
    ensures r.Vp9Specific? <==> codecType == VP9
    ensures r.H264Specific? <==> codecType == H264
    ensures r == ZeroedSpecific <==> codecType !in {VP8, VP9, H264}
  {
    match codecType
    case VP8 => Vp8Specific(ResolvedVp8(config, streams, nackEnabled, env))
    case VP9 => Vp9Specific(ResolvedVp9(config, streams, nackEnabled, env))
    case H264 => H264Specific(BaseH264(config, env))
    case _ => ZeroedSpecific
  }

  /** The resolved block is of the codec's own kind, its layer counts are
      within their maxima, the NACK rules hold, and the fixed VP9
      screen-sharing shape is flexible. */
  lemma ResolvedSpecificWithinLimits(config: VideoEncoderConfig, streams: seq<VideoStream>,
                                     codecType: VideoCodecType, nackEnabled: bool, env: Collaborators)
    requires TranslationPreconditions(config, streams, codecType, env)
    ensures var r := ResolvedSpecific(config, streams, codecType, nackEnabled, env);
            && (codecType == VP8 ==>
                  && r.Vp8Specific?
                  && 1 <= r.vp8.numberOfTemporalLayers <= kMaxTemporalStreams
                  && (nackEnabled && r.vp8.numberOfTemporalLayers == 1 ==> r.vp8.resilience == ResilienceOff))
            && (codecType == VP9 ==>
                  && r.Vp9Specific?
                  && 1 <= r.vp9.numberOfTemporalLayers <= kMaxTemporalStreams
                  && 1 <= r.vp9.numberOfSpatialLayers <= kMaxSpatialLayers
                  && (nackEnabled && r.vp9.numberOfTemporalLayers == r.vp9.numberOfSpatialLayers == 1 ==>
                        !r.vp9.resilienceOn)
                  && (Vp9FixedScreenShape(config) ==> r.vp9.flexibleMode))
            && (codecType == H264 ==> r.H264Specific?)
            && (codecType !in {VP8, VP9, H264} ==> r == ZeroedSpecific)
  {
    if codecType == VP8 {
      ResolvedVp8Shape(config, streams, nackEnabled, env);
    } else if codecType == VP9 {
      ResolvedVp9Shape(config, streams, nackEnabled, env);
    }
  }

  /** The spatial layers written into the record: the chosen ones for VP9
      outside the fixed screen-sharing shape, none otherwise. */
  function WrittenSpatialLayers(config: VideoEncoderConfig, streams: seq<VideoStream>,
                                codecType: VideoCodecType, env: Collaborators): (r: seq<SpatialLayer>)
    requires TranslationPreconditions(config, streams, codecType, env)
    ensures |r| <= kMaxSpatialLayers
    ensures codecType == VP9 && !Vp9FixedScreenShape(config) ==> |r| > 0
  {
    if codecType == VP9 && !Vp9FixedScreenShape(config)
    then ChosenSpatialLayers(config, streams, env)
    else []
  }

  /** The stream-derived part of the record a translation produces: the
      aggregates over the streams, one simulcast entry per stream and zero
      entries after them. */
  ghost predicate DescribesStreams(codec: VideoCodec, config: VideoEncoderConfig, streams: seq<VideoStream>)
    reads codec`mode, codec`targetBitrate, codec`plType, codec`startBitrate
    reads codec`numberOfSimulcastStreams, codec`active, codec`width, codec`height, codec`qpMax
    reads codec`minBitrate, codec`maxBitrate, codec`maxFramerate, codec`timingFrameThresholds
    reads codec.simulcastStream
    requires StreamsWithinLimits(config, streams)
  {
    && codec.simulcastStream.Length == kMaxSimulcastStreams
    && codec.mode == ModeFor(config.contentType)
    && codec.targetBitrate == ScreenshareTargetBitrate(config, streams)
    && codec.plType == 0
    && codec.startBitrate == 0
    && codec.numberOfSimulcastStreams == |streams|
    && (codec.active <==> SomeStreamActive(streams))
    && codec.width == MaxOver(streams, Width, |streams|)
    && codec.height == MaxOver(streams, Height, |streams|)
    && codec.qpMax == MaxOver(streams, MaxQp, |streams|)
    && codec.minBitrate == MinOver(streams, MinKbps, |streams|)
    && codec.maxBitrate == Max(kEncoderMinBitrateKbps, SumOver(streams, MaxKbps, |streams|))
    && codec.maxFramerate == streams[0].maxFramerate
    && codec.timingFrameThresholds == DefaultTimingFrameThresholds
    && (forall i :: 0 <= i < |streams| ==> codec.simulcastStream[i] == SimulcastEntry(streams[i]))
    && (forall i :: |streams| <= i < kMaxSimulcastStreams ==> codec.simulcastStream[i] == ZeroLayer)
  }

  /** The codec-specific part of the record a translation produces: the
      resolved block, and the written spatial layers followed by zero
      entries. */
  ghost predicate DescribesSpecific(codec: VideoCodec, config: VideoEncoderConfig, streams: seq<VideoStream>,
                                    codecType: VideoCodecType, nackEnabled: bool, env: Collaborators)
    reads codec`codecSpecific, codec.spatialLayers
    requires TranslationPreconditions(config, streams, codecType, env)
  {
    && codec.spatialLayers.Length == kMaxSpatialLayers
    && codec.codecSpecific == ResolvedSpecific(config, streams, codecType, nackEnabled, env)
    && var written := WrittenSpatialLayers(config, streams, codecType, env);
       && (forall i :: 0 <= i < |written| ==> codec.spatialLayers[i] == written[i])
       && (forall i :: |written| <= i < kMaxSpatialLayers ==> codec.spatialLayers[i] == ZeroLayer)
  }

  /** The record a translation produces, field by field. */
  ghost predicate Describes(codec: VideoCodec, config: VideoEncoderConfig, streams: seq<VideoStream>,
                            codecType: VideoCodecType, nackEnabled: bool, env: Collaborators)
    reads codec`mode, codec`targetBitrate, codec`plType, codec`startBitrate
    reads codec`numberOfSimulcastStreams, codec`active, codec`width, codec`height, codec`qpMax
    reads codec`minBitrate, codec`maxBitrate, codec`maxFramerate, codec`timingFrameThresholds
    reads codec`codecSpecific, codec.simulcastStream, codec.spatialLayers
    requires TranslationPreconditions(config, streams, codecType, env)
  {
    && codec.Valid()
    && DescribesStreams(codec, config, streams)
    && DescribesSpecific(codec, config, streams, codecType, nackEnabled, env)
  }

  /** The translation never reads the configuration's own codec type: it
      works from the codec type it is handed, so relabelling the
      configuration changes neither what it demands nor what it produces. */
  lemma PreconditionsIgnoreConfigCodecType(config: VideoEncoderConfig, streams: seq<VideoStream>,
                                           codecType: VideoCodecType, env: Collaborators,
                                           relabelled: VideoCodecType)
    requires TranslationPreconditions(config, streams, codecType, env)
    ensures TranslationPreconditions(config.(codecType := relabelled), streams, codecType, env)
  {
    var other := config.(codecType := relabelled);
    assert other.contentType == config.contentType;
    assert other.encoderSpecificSettings == config.encoderSpecificSettings;
    assert other.spatialLayers == config.spatialLayers;
  }

  lemma DescribesIgnoresConfigCodecType(codec: VideoCodec, config: VideoEncoderConfig, streams: seq<VideoStream>,
                                        codecType: VideoCodecType, nackEnabled: bool, env: Collaborators,
                                        relabelled: VideoCodecType)
    requires TranslationPreconditions(config, streams, codecType, env)
    requires TranslationPreconditions(config.(codecType := relabelled), streams, codecType, env)
    ensures Describes(codec, config.(codecType := relabelled), streams, codecType, nackEnabled, env) <==>
            Describes(codec, config, streams, codecType, nackEnabled, env)
  {
    var other := config.(codecType := relabelled);
    assert other.contentType == config.contentType;
    assert other.encoderSpecificSettings == config.encoderSpecificSettings;
    assert other.spatialLayers == config.spatialLayers;
    assert ScreenshareTargetBitrate(other, streams) == ScreenshareTargetBitrate(config, streams);
    assert ResolvedSpecific(other, streams, codecType, nackEnabled, env) ==
           ResolvedSpecific(config, streams, codecType, nackEnabled, env);
    assert WrittenSpatialLayers(other, streams, codecType, env) == WrittenSpatialLayers(config, streams, codecType, env);
  }
}
