/** The video codec initializer: turns an encoder configuration and its
    streams into a populated `VideoCodec` record and picks the kind of
    bitrate allocator for it. */
module VideoCodecInitializer {
  import opened VideoCodecTypes
  import opened Aggregates
  import opened CodecTranslation

  /** The bitrate-allocation strategies; only the chosen kind is modelled. */
  datatype AllocatorKind = SimulcastAllocator | SvcAllocator | DefaultAllocator

  /** The codec type a setup works with: the configured one, or the one the
      payload name maps to when the configured type is unknown. */
  function ResolvedCodecType(config: VideoEncoderConfig, payloadName: string,
                             env: Collaborators): (t: VideoCodecType)
    ensures config.codecType != Unknown ==> t == config.codecType
    ensures config.codecType == Unknown ==> t == env.payloadStringToCodecType(payloadName)
  {
    if config.codecType == Unknown then env.payloadStringToCodecType(payloadName)
    else config.codecType
  }

  /** The codec type whose rules lay out the record: a multiplex codec is
      laid out as VP9. */
  function LayoutCodecType(t: VideoCodecType): (u: VideoCodecType)
    ensures u != Multiplex
    ensures t == Multiplex ==> u == VP9
    ensures t != Multiplex ==> u == t
  {
    if t == Multiplex then VP9 else t
  }

  /** Allocator selection: simulcast for VP8, SVC for VP9, the default
      strategy for every other type, H264 and multiplex included. */
  function CreateBitrateAllocator(codec: VideoCodec): (kind: AllocatorKind)
    reads codec
    ensures kind == SimulcastAllocator <==> codec.codecType == VP8
    ensures kind == SvcAllocator <==> codec.codecType == VP9
    ensures kind == DefaultAllocator <==> codec.codecType !in {VP8, VP9}
  {
    match codec.codecType
    case VP8 => SimulcastAllocator
    case VP9 => SvcAllocator
    case _ => DefaultAllocator
  }

  /** The search for an active stream, stopping at the first one. */
  method AnyStreamActive(streams: seq<VideoStream>) returns (codecActive: bool)
    ensures codecActive <==> SomeStreamActive(streams)
  {
    codecActive := false;
    var i := 0;
    while i < |streams|
      invariant 0 <= i <= |streams|
      invariant !codecActive
      invariant forall k :: 0 <= k < i ==> !streams[k].active
    {
      if streams[i].active {
        codecActive := true;
        break;
      }
      i := i + 1;
    }
  }

  /** Builds the codec record for `codecType` from the configuration and its
      streams. */
  method VideoEncoderConfigToVideoCodec(config: VideoEncoderConfig, streams: seq<VideoStream>,
                                        codecType: VideoCodecType, nackEnabled: bool,
                                        env: Collaborators) returns (codec: VideoCodec)
    requires TranslationPreconditions(config, streams, codecType, env)
    ensures fresh(codec) && fresh(codec.simulcastStream) && fresh(codec.spatialLayers)
    ensures codec.codecType == codecType
    ensures Describes(codec, config, streams, codecType, nackEnabled, env)
  {
    codec := ConfigureStreams(config, streams, codecType);
    ConfigureCodecSpecific(codec, config, streams, nackEnabled, env);
  }

  /** The stream-derived part of the translation: a zeroed record gets its
      mode, aggregates and one simulcast entry per stream. */
  method ConfigureStreams(config: VideoEncoderConfig, streams: seq<VideoStream>,
                          codecType: VideoCodecType) returns (codec: VideoCodec)
    requires StreamsWithinLimits(config, streams)
    ensures fresh(codec) && fresh(codec.simulcastStream) && fresh(codec.spatialLayers)
    ensures codec.Valid() && codec.codecType == codecType
    ensures DescribesStreams(codec, config, streams)
    ensures codec.codecSpecific == ZeroedSpecific
    ensures forall k :: 0 <= k < kMaxSpatialLayers ==> codec.spatialLayers[k] == ZeroLayer
  {
    codec := new VideoCodec(codecType);
    ConfigureStreamHeader(codec, config, streams);
    AddSimulcastStreams(codec, streams);
    CapMaxBitrate(codec, streams);
  }

  /** The fields set before the per-stream loop: the mode and the legacy
      screen-sharing target, the stream count, the active flag, the
      floored first minimum bitrate and the timing thresholds. */
  method ConfigureStreamHeader(codec: VideoCodec, config: VideoEncoderConfig, streams: seq<VideoStream>)
    requires StreamsWithinLimits(config, streams)
    requires codec.targetBitrate == 0
    modifies codec`mode, codec`targetBitrate, codec`plType, codec`numberOfSimulcastStreams
    modifies codec`minBitrate, codec`active, codec`timingFrameThresholds
    ensures codec.mode == ModeFor(config.contentType)
    ensures codec.targetBitrate == ScreenshareTargetBitrate(config, streams)
    ensures codec.plType == 0
    ensures codec.numberOfSimulcastStreams == |streams|
    ensures codec.active <==> SomeStreamActive(streams)
    ensures codec.minBitrate == Max(kEncoderMinBitrateKbps, streams[0].minBitrateBps / 1000)
    ensures codec.timingFrameThresholds == DefaultTimingFrameThresholds
  {
    match config.contentType {
      case RealtimeVideo =>
        codec.mode := RealtimeVideoMode;
      case Screen =>
        codec.mode := ScreensharingMode;
        if |streams| > 0 && streams[0].numTemporalLayers == Some(2) {
          codec.targetBitrate := streams[0].targetBitrateBps / 1000;
        }
    }
    codec.plType := 0;
    codec.numberOfSimulcastStreams := |streams|;
    codec.minBitrate := streams[0].minBitrateBps / 1000;
    var codecActive := AnyStreamActive(streams);
    codec.active := codecActive;
    if codec.minBitrate < kEncoderMinBitrateKbps {
      codec.minBitrate := kEncoderMinBitrateKbps;
    }
    codec.timingFrameThresholds := DefaultTimingFrameThresholds;
  }

  /** The fields set after the per-stream loop: an unset maximum bitrate
      falls back to one bit per pixel, the maximum bitrate is floored, and
      the first stream's frame rate becomes the record's. */
  method CapMaxBitrate(codec: VideoCodec, streams: seq<VideoStream>)
    requires 0 < |streams| && codec.maxFramerate == 0
    modifies codec`maxBitrate, codec`maxFramerate
    ensures codec.maxBitrate == Max(kEncoderMinBitrateKbps, old(codec.maxBitrate))
    ensures codec.maxFramerate == streams[0].maxFramerate
  {
    if codec.maxBitrate == 0 {
      // The one-bit-per-pixel cap reads the frame rate before it is set
      // below, so it is always zero here.
      codec.maxBitrate := (codec.width * codec.height * codec.maxFramerate) / 1000;
    }
    if codec.maxBitrate < kEncoderMinBitrateKbps {
      codec.maxBitrate := kEncoderMinBitrateKbps;
    }
    codec.maxFramerate := streams[0].maxFramerate;
  }

  /** The per-stream loop of the translation: one simulcast entry per
      stream, with the record's size, quality, minimum and maximum bitrate
      folded over the streams. The running minimum starts from the floored
      first stream and takes the first stream in again, which undoes the
      floor. */
  method AddSimulcastStreams(codec: VideoCodec, streams: seq<VideoStream>)
    requires codec.simulcastStream.Length == kMaxSimulcastStreams && 0 < |streams| <= kMaxSimulcastStreams
    requires codec.width == 0 && codec.height == 0 && codec.qpMax == 0 && codec.maxBitrate == 0
    requires codec.minBitrate == Max(kEncoderMinBitrateKbps, streams[0].minBitrateBps / 1000)
    requires forall k :: 0 <= k < kMaxSimulcastStreams ==> codec.simulcastStream[k] == ZeroLayer
    modifies codec`width, codec`height, codec`qpMax, codec`minBitrate, codec`maxBitrate
    modifies codec.simulcastStream
    ensures codec.width == MaxOver(streams, Width, |streams|)
    ensures codec.height == MaxOver(streams, Height, |streams|)
    ensures codec.qpMax == MaxOver(streams, MaxQp, |streams|)
    ensures codec.minBitrate == MinOver(streams, MinKbps, |streams|)
    ensures codec.maxBitrate == SumOver(streams, MaxKbps, |streams|)
    ensures forall k :: 0 <= k < |streams| ==> codec.simulcastStream[k] == SimulcastEntry(streams[k])
    ensures forall k :: |streams| <= k < kMaxSimulcastStreams ==> codec.simulcastStream[k] == ZeroLayer
  {
    var i := 0;
    while i < |streams|
      modifies codec`width, codec`height, codec`qpMax, codec`minBitrate, codec`maxBitrate
      modifies codec.simulcastStream
      invariant 0 <= i <= |streams|
      invariant forall k :: 0 <= k < kMaxSimulcastStreams ==>
                  codec.simulcastStream[k] == if k < i then SimulcastEntry(streams[k]) else ZeroLayer
      invariant codec.width == MaxOver(streams, Width, i)
      invariant codec.height == MaxOver(streams, Height, i)
      invariant codec.qpMax == MaxOver(streams, MaxQp, i)
      invariant i == 0 ==> codec.minBitrate == Max(kEncoderMinBitrateKbps, streams[0].minBitrateBps / 1000)
      invariant 0 < i ==> codec.minBitrate == MinOver(streams, MinKbps, i)
      invariant codec.maxBitrate == SumOver(streams, MaxKbps, i)
    {
      var s := streams[i];
      codec.simulcastStream[i] := SimulcastEntry(s);
      codec.width := Max(codec.width, s.width);
      codec.height := Max(codec.height, s.height);
      codec.minBitrate := Min(codec.minBitrate, s.minBitrateBps / 1000);
      codec.maxBitrate := codec.maxBitrate + s.maxBitrateBps / 1000;
      codec.qpMax := Max(codec.qpMax, s.maxQp);
      i := i + 1;
    }
  }

  /** The codec-specific part of the translation: supplied settings replace
      the codec-specific block, else the codec's defaults do, and then the
      layering rules of the codec type apply. */
  method ConfigureCodecSpecific(codec: VideoCodec, config: VideoEncoderConfig, streams: seq<VideoStream>,
                                nackEnabled: bool, env: Collaborators)
    requires TranslationPreconditions(config, streams, codec.codecType, env)
    requires codec.Valid() && DescribesStreams(codec, config, streams)
    requires codec.codecSpecific == ZeroedSpecific
    requires forall k :: 0 <= k < kMaxSpatialLayers ==> codec.spatialLayers[k] == ZeroLayer
    modifies codec`codecSpecific, codec.spatialLayers
    ensures DescribesSpecific(codec, config, streams, codec.codecType, nackEnabled, env)
  {
    if config.encoderSpecificSettings.Some? {
      codec.codecSpecific := FillEncoderSpecificSettings(config.encoderSpecificSettings.value);
    }

    match codec.codecType {
      case VP8 =>
        if config.encoderSpecificSettings.None? {
          codec.codecSpecific := Vp8Specific(env.defaultVp8);
        }
        var vp8 := codec.codecSpecific.vp8;
        vp8 := vp8.(numberOfTemporalLayers :=
                      ValueOr(streams[|streams| - 1].numTemporalLayers, vp8.numberOfTemporalLayers));
        assert 1 <= vp8.numberOfTemporalLayers <= kMaxTemporalStreams;
        if nackEnabled && vp8.numberOfTemporalLayers == 1 {
          vp8 := vp8.(resilience := ResilienceOff);
        }
        codec.codecSpecific := Vp8Specific(vp8);
      case VP9 =>
        ConfigureVp9(codec, config, streams, nackEnabled, env);
      case H264 =>
        if config.encoderSpecificSettings.None? {
          codec.codecSpecific := H264Specific(env.defaultH264);
        }
      case _ =>
        assert config.encoderSpecificSettings.None?;
    }
  }

  /** The VP9 branch of the codec-specific translation. */
  method ConfigureVp9(codec: VideoCodec, config: VideoEncoderConfig, streams: seq<VideoStream>,
                      nackEnabled: bool, env: Collaborators)
    requires TranslationPreconditions(config, streams, VP9, env)
    requires codec.Valid() && codec.mode == ModeFor(config.contentType)
    requires codec.width == MaxOver(streams, Width, |streams|)
    requires codec.height == MaxOver(streams, Height, |streams|)
    requires config.encoderSpecificSettings.Some? ==>
               codec.codecSpecific == FillEncoderSpecificSettings(config.encoderSpecificSettings.value)
    requires forall k :: 0 <= k < kMaxSpatialLayers ==> codec.spatialLayers[k] == ZeroLayer
    modifies codec`codecSpecific, codec.spatialLayers
    ensures DescribesSpecific(codec, config, streams, VP9, nackEnabled, env)
  {
    if config.encoderSpecificSettings.None? {
      codec.codecSpecific := Vp9Specific(env.defaultVp9);
    }
    var vp9 := codec.codecSpecific.vp9;
    assert vp9 == BaseVp9(config, env);
    vp9 := vp9.(numberOfTemporalLayers :=
                  ValueOr(streams[|streams| - 1].numTemporalLayers, vp9.numberOfTemporalLayers));
    assert 1 <= vp9.numberOfTemporalLayers <= kMaxTemporalStreams;
    assert codec.mode == ScreensharingMode <==> config.contentType == Screen;
    if codec.mode == ScreensharingMode && config.encoderSpecificSettings.Some? {
      vp9 := vp9.(flexibleMode := true);
      assert vp9.numberOfTemporalLayers == 1 && vp9.numberOfSpatialLayers == 2;
    } else {
      assert |config.spatialLayers| == 0 || |config.spatialLayers| == vp9.numberOfSpatialLayers;
      var layers: seq<SpatialLayer>;
      if |config.spatialLayers| > 0 {
        layers := config.spatialLayers;
      } else {
        layers := env.getSvcConfig(codec.width, codec.height,
                                   vp9.numberOfSpatialLayers, vp9.numberOfTemporalLayers);
      }
      assert layers == ChosenSpatialLayers(config, streams, env);
      CopySpatialLayers(codec.spatialLayers, layers);
      vp9 := vp9.(numberOfSpatialLayers := |layers|);
      vp9 := vp9.(numberOfTemporalLayers := layers[|layers| - 1].numberOfTemporalLayers);
      assert 1 <= vp9.numberOfTemporalLayers <= kMaxTemporalStreams;
    }
    assert vp9 == Vp9Layered(config, streams, env);
    if nackEnabled && vp9.numberOfTemporalLayers == 1 && vp9.numberOfSpatialLayers == 1 {
      vp9 := vp9.(resilienceOn := false);
    }
    codec.codecSpecific := Vp9Specific(vp9);
  }

  /** The copy of the chosen spatial layers into the record's zeroed
      spatial-layer array. */
  method CopySpatialLayers(spatialLayers: array<SpatialLayer>, layers: seq<SpatialLayer>)
    requires |layers| <= spatialLayers.Length
    requires forall k :: 0 <= k < spatialLayers.Length ==> spatialLayers[k] == ZeroLayer
    modifies spatialLayers
    ensures forall k :: 0 <= k < |layers| ==> spatialLayers[k] == layers[k]
    ensures forall k :: |layers| <= k < spatialLayers.Length ==> spatialLayers[k] == ZeroLayer
  {
    var j := 0;
    while j < |layers|
      invariant 0 <= j <= |layers|
      invariant forall k :: 0 <= k < spatialLayers.Length ==>
                  spatialLayers[k] == if k < j then layers[k] else ZeroLayer
    {
      spatialLayers[j] := layers[j];
      j := j + 1;
    }
  }

  /** Sets up the codec record and the allocator kind. A multiplex codec is
      set up as VP9 by one nested call and then relabelled; the allocator
      then stays the one chosen for VP9. The set-up always succeeds. */
  method SetupCodec(config: VideoEncoderConfig, payloadName: string, streams: seq<VideoStream>,
                    nackEnabled: bool, env: Collaborators)
    returns (ok: bool, codec: VideoCodec, allocator: AllocatorKind)
    requires TranslationPreconditions(config, streams,
                                      LayoutCodecType(ResolvedCodecType(config, payloadName, env)), env)
    ensures ok
    ensures fresh(codec) && fresh(codec.simulcastStream) && fresh(codec.spatialLayers)
    ensures codec.codecType == ResolvedCodecType(config, payloadName, env)
    ensures Describes(codec, config, streams,
                      LayoutCodecType(ResolvedCodecType(config, payloadName, env)), nackEnabled, env)
    ensures codec.codecType == Multiplex ==> allocator == SvcAllocator
    ensures codec.codecType != Multiplex ==> allocator == CreateBitrateAllocator(codec)
    decreases if ResolvedCodecType(config, payloadName, env) == Multiplex then 1 else 0
  {
    var codecType := config.codecType;
    if codecType == Unknown {
      codecType := env.payloadStringToCodecType(payloadName);
    }
    if codecType == Multiplex {
      var associatedConfig := config.(codecType := VP9);
      PreconditionsIgnoreConfigCodecType(config, streams, VP9, env, VP9);
      var innerOk;
      innerOk, codec, allocator := SetupCodec(associatedConfig, payloadName, streams, nackEnabled, env);
      if !innerOk {
        // Unreachable: the direct set-up below always succeeds.
        assert false;
      }
      DescribesIgnoresConfigCodecType(codec, config, streams, VP9, nackEnabled, env, VP9);
      codec.codecType := Multiplex;
      ok := true;
      return;
    }

    codec := VideoEncoderConfigToVideoCodec(config, streams, codecType, nackEnabled, env);
    allocator := CreateBitrateAllocator(codec);
    ok := true;
  }
}
