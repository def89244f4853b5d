/** Properties of the record a translation produces, stated over the
    `DescribesStreams` and `Describes` predicates that the translating
    methods establish. */
module InitializerProperties {
  import opened VideoCodecTypes
  import opened Aggregates
  import opened CodecTranslation

  /** Width, height and the quantizer ceiling are the maxima over the
      streams: each stream is within them and some stream attains each. */
  lemma DescribedSizeIsStreamMaximum(codec: VideoCodec, config: VideoEncoderConfig, streams: seq<VideoStream>)
    requires StreamsWithinLimits(config, streams)
    requires DescribesStreams(codec, config, streams)
    ensures forall k :: 0 <= k < |streams| ==>
              streams[k].width <= codec.width && streams[k].height <= codec.height &&
              streams[k].maxQp <= codec.qpMax
    ensures exists k :: 0 <= k < |streams| && streams[k].width == codec.width
    ensures exists k :: 0 <= k < |streams| && streams[k].height == codec.height
    ensures exists k :: 0 <= k < |streams| && streams[k].maxQp == codec.qpMax
  {
    var n := |streams|;
    MaxOverBounds(streams, Width, n);
    MaxOverBounds(streams, Height, n);
    MaxOverBounds(streams, MaxQp, n);
    var w := MaxOverAttained(streams, Width, n);
    var h := MaxOverAttained(streams, Height, n);
    var q := MaxOverAttained(streams, MaxQp, n);
    assert streams[w].width == codec.width;
    assert streams[h].height == codec.height;
    assert streams[q].maxQp == codec.qpMax;
  }

  /** The minimum bitrate is the smallest stream minimum in kbit/s. The
      floor applied before the loop does not survive it: the record's
      minimum is below the floor exactly when some stream's is. */
  lemma DescribedMinBitrateIsStreamMinimum(codec: VideoCodec, config: VideoEncoderConfig,
                                           streams: seq<VideoStream>)
    requires StreamsWithinLimits(config, streams)
    requires DescribesStreams(codec, config, streams)
    ensures forall k :: 0 <= k < |streams| ==> codec.minBitrate <= streams[k].minBitrateBps / 1000
    ensures exists k :: 0 <= k < |streams| && codec.minBitrate == streams[k].minBitrateBps / 1000
    ensures codec.minBitrate < kEncoderMinBitrateKbps <==>
              exists k :: 0 <= k < |streams| && streams[k].minBitrateBps / 1000 < kEncoderMinBitrateKbps
  {
    MinOverBounds(streams, MinKbps, |streams|);
    var k := MinOverAttained(streams, MinKbps, |streams|);
    assert codec.minBitrate == streams[k].minBitrateBps / 1000;
  }

  /** The maximum bitrate is never below the floor, bounds every stream's
      maximum, and is exactly the floor when every stream's maximum is
      below one kbit/s: the one-bit-per-pixel fallback contributes
      nothing. */
  lemma DescribedMaxBitrateFloor(codec: VideoCodec, config: VideoEncoderConfig, streams: seq<VideoStream>)
    requires StreamsWithinLimits(config, streams)
    requires DescribesStreams(codec, config, streams)
    ensures kEncoderMinBitrateKbps <= codec.maxBitrate
    ensures forall k :: 0 <= k < |streams| ==> streams[k].maxBitrateBps / 1000 <= codec.maxBitrate
    ensures (forall k :: 0 <= k < |streams| ==> streams[k].maxBitrateBps < 1000) ==>
              codec.maxBitrate == kEncoderMinBitrateKbps
  {
    SumOverBounds(streams, MaxKbps, |streams|);
  }

  /** Each simulcast entry keeps the stream's bitrate order in kbit/s and
      lies within the record's aggregates. */
  lemma DescribedSimulcastEntriesWithinAggregates(codec: VideoCodec, config: VideoEncoderConfig,
                                                  streams: seq<VideoStream>)
    requires StreamsWithinLimits(config, streams)
    requires DescribesStreams(codec, config, streams)
    ensures forall k :: 0 <= k < |streams| ==>
              && 0 <= codec.simulcastStream[k].minBitrate
              && codec.simulcastStream[k].minBitrate <= codec.simulcastStream[k].targetBitrate
              && codec.simulcastStream[k].targetBitrate <= codec.simulcastStream[k].maxBitrate
              && codec.simulcastStream[k].maxBitrate <= codec.maxBitrate
              && codec.minBitrate <= codec.simulcastStream[k].minBitrate
              && codec.simulcastStream[k].width <= codec.width
              && codec.simulcastStream[k].height <= codec.height
  {
    DescribedSizeIsStreamMaximum(codec, config, streams);
    DescribedMinBitrateIsStreamMinimum(codec, config, streams);
    DescribedMaxBitrateFloor(codec, config, streams);
  }

  /** A record described by the translation carries the block of its own
      codec kind, has its layer counts within their maxima, keeps both NACK
      rules, and is flexible in the fixed VP9 screen-sharing shape. */
  lemma DescribedLayerCountsWithinLimits(codec: VideoCodec, config: VideoEncoderConfig, streams: seq<VideoStream>,
                                         codecType: VideoCodecType, nackEnabled: bool, env: Collaborators)
    requires TranslationPreconditions(config, streams, codecType, env)
    requires Describes(codec, config, streams, codecType, nackEnabled, env)
    ensures codecType == VP8 ==>
              && codec.codecSpecific.Vp8Specific?
              && 1 <= codec.codecSpecific.vp8.numberOfTemporalLayers <= kMaxTemporalStreams
              && (nackEnabled && codec.codecSpecific.vp8.numberOfTemporalLayers == 1 ==>
                    codec.codecSpecific.vp8.resilience == ResilienceOff)
    ensures codecType == VP9 ==>
              && codec.codecSpecific.Vp9Specific?
              && 1 <= codec.codecSpecific.vp9.numberOfTemporalLayers <= kMaxTemporalStreams
              && 1 <= codec.codecSpecific.vp9.numberOfSpatialLayers <= kMaxSpatialLayers
              && (nackEnabled && codec.codecSpecific.vp9.numberOfTemporalLayers == 1
                    && codec.codecSpecific.vp9.numberOfSpatialLayers == 1
                  ==> !codec.codecSpecific.vp9.resilienceOn)
              && (Vp9FixedScreenShape(config) ==> codec.codecSpecific.vp9.flexibleMode)
    ensures codecType == H264 ==> codec.codecSpecific.H264Specific?
    ensures codecType !in {VP8, VP9, H264} ==> codec.codecSpecific == ZeroedSpecific
  {
    ResolvedSpecificWithinLimits(config, streams, codecType, nackEnabled, env);
  }

  /** Two real-time VP8 streams, 640x360 and 1280x720, with one temporal
      layer each and NACK off. */
  function ExampleStreams(): seq<VideoStream>
  {
    [VideoStream(640, 360, 30, 100000, 200000, 300000, 56, Some(1), true),
     VideoStream(1280, 720, 30, 150000, 400000, 600000, 56, Some(1), true)]
  }

  /** The record for the two example streams: the larger size, the smaller
      minimum, the summed maximum, one entry per stream in kbit/s, and the
      VP8 block with the last stream's single temporal layer and the
      resilience of the block it started from. */
  lemma TwoStreamVp8Example(codec: VideoCodec, config: VideoEncoderConfig, env: Collaborators)
    requires config == VideoEncoderConfig(VP8, RealtimeVideo, None, [], 0)
    requires TranslationPreconditions(config, ExampleStreams(), VP8, env)
    requires Describes(codec, config, ExampleStreams(), VP8, false, env)
    ensures codec.width == 1280 && codec.height == 720
    ensures codec.minBitrate == 100 && codec.maxBitrate == 900
    ensures codec.numberOfSimulcastStreams == 2 && codec.active
    ensures codec.simulcastStream[0] == SpatialLayer(640, 360, 1, 300, 200, 100, 56, true)
    ensures codec.simulcastStream[1] == SpatialLayer(1280, 720, 1, 600, 400, 150, 56, true)
    ensures codec.codecSpecific == Vp8Specific(env.defaultVp8.(numberOfTemporalLayers := 1))
  {
    var streams := ExampleStreams();
    assert streams[0].active;
    assert MaxOver(streams, Width, 2) == 1280;
    assert MinOver(streams, MinKbps, 2) == 100;
    assert SumOver(streams, MaxKbps, 2) == 900;
  }
}
