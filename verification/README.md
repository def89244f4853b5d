# Video codec initializer

A Dafny model of WebRTC's `VideoCodecInitializer`. It turns a codec-agnostic
`VideoEncoderConfig` and its ordered list of `VideoStream`s into a filled-in
`VideoCodec` record, and it picks the kind of bitrate allocator for that record.

The model has five modules:

- `VideoCodecTypes` (`video_codec_types.dfy`) holds the data model:
  - the stream and configuration records;
  - the VP8, VP9 and H264 blocks as datatypes, and the codec-specific union;
  - `VideoCodec` as a class whose two fixed-capacity layer arrays are sized
    `kMaxSimulcastStreams` (4) and `kMaxSpatialLayers` (5);
  - `Collaborators`, which carries the code this core calls but which is not
    part of this model: `PayloadStringToCodecType`, `GetSvcConfig` and the
    three `GetDefault*Settings` functions.
- `Aggregates` (`aggregates.dfy`) holds the folds the per-stream loop computes:
  the maximum, minimum and sum of one field over the first `n` streams. Lemmas
  state their bounds and show that the maximum and minimum are attained.
- `CodecTranslation` (`codec_translation.dfy`) states what a translation
  produces, as functions of its inputs:
  - `TranslationPreconditions` gathers every `RTC_DCHECK` of the source, plus
    the ranges of the 8-bit and 16-bit fields the source casts into.
  - `ResolvedVp8`, `ResolvedVp9` and `ResolvedSpecific` give the codec-specific
    layering rules.
  - `DescribesStreams`, `DescribesSpecific` and `Describes` state the finished
    record field by field.
- `VideoCodecInitializer` (`video_codec_initializer.dfy`) holds the operations:
  - `SetupCodec` and `CreateBitrateAllocator`;
  - `VideoEncoderConfigToVideoCodec`, written as imperative methods over the
    `VideoCodec` object. They zero the record, fill in the header fields, run
    the per-stream loop, cap the maximum bitrate and apply the codec-specific
    rules. Each method is proved against the predicates of `CodecTranslation`.
- `InitializerProperties` (`initializer_properties.dfy`) proves what such a
  record guarantees:
  - the aggregates are the maxima, minima and sums over the streams;
  - every simulcast entry lies within the aggregates;
  - the layer counts stay within their maxima;
  - a worked two-stream VP8 example.

Two results follow the code rather than the comments around it:

- **The minimum bitrate is not floored.** The 30 kbit/s floor on `minBitrate`
  (lines 122-123) is applied before the per-stream loop. The loop then takes
  the minimum again, with the first stream included (lines 158-160). So the
  final `minBitrate` is the plain minimum of the streams' minimum bitrates in
  kbit/s. `DescribedMinBitrateIsStreamMinimum` proves that the final value is
  below 30 exactly when some stream's minimum is.
- **The one-bit-per-pixel fallback is always zero.** The fallback for an unset
  maximum bitrate (lines 166-171) multiplies by `maxFramerate`. That field is
  still zero from the initial zero fill, because it is only assigned at line
  176. So the final `maxBitrate` is the larger of 30 and the sum of the
  streams' maximum bitrates.

## Model

| member | source | states |
|---|---|---|
| VideoCodecInitializer.SetupCodec | modules/video_coding/video_codec_initializer.cc:29-60 | Always returns true. The record's codec type is the configured type, or the payload name's type when the configured one is unknown. The record is the translation for that type, with multiplex laid out as VP9. A multiplex record gets the SVC allocator chosen inside the single nested VP9 call, although its own type is then multiplex. Every other type gets the allocator for its own type. |
| VideoCodecInitializer.ResolvedCodecType | modules/video_coding/video_codec_initializer.cc:36-42 | The configured codec type when it is known; otherwise the type the payload name maps to. |
| VideoCodecInitializer.LayoutCodecType | modules/video_coding/video_codec_initializer.cc:43-46 | The type whose rules lay out the record is never multiplex. Multiplex is laid out as VP9, and every other type as itself. |
| CodecTranslation.PreconditionsIgnoreConfigCodecType | modules/video_coding/video_codec_initializer.cc:43-47 | Relabelling the configuration's codec type, as the multiplex path does when it copies the configuration, keeps every precondition of the translation. |
| CodecTranslation.DescribesIgnoresConfigCodecType | modules/video_coding/video_codec_initializer.cc:43-51 | A record describes the translation of the relabelled configuration exactly when it describes that of the original one. So relabelling the result back to multiplex leaves all other fields as computed for VP9. |
| VideoCodecInitializer.CreateBitrateAllocator | modules/video_coding/video_codec_initializer.cc:62-79 | Simulcast exactly for VP8, SVC exactly for VP9, and the default allocator exactly for every other type, H264 and multiplex included. |
| VideoCodecInitializer.VideoEncoderConfigToVideoCodec | modules/video_coding/video_codec_initializer.cc:82-276 | Returns a fresh record of the given codec type that `Describes` the translation: all of the stream-derived fields and all of the codec-specific ones. |
| CodecTranslation.Describes | modules/video_coding/video_codec_initializer.cc:82-276 | The definition of the whole record a translation produces. The record is valid: its two layer arrays have their fixed capacities and are distinct. Its stream-derived part is as `DescribesStreams` defines, and its codec-specific part as `DescribesSpecific` defines. |
| VideoCodecTypes.VideoCodec.constructor | modules/video_coding/video_codec_initializer.cc:91-93 | The zero fill: every field is zero, false or the zero variant, and both layer arrays hold zero entries. Only the codec type is set. |
| VideoCodecInitializer.ConfigureStreams | modules/video_coding/video_codec_initializer.cc:91-176 | The new record satisfies `DescribesStreams`: mode, legacy target, stream count, active flag, maxima of width, height and quantizer, minimum of the minimum bitrates, the larger of 30 and the summed maximum bitrates, the first stream's frame rate, the timing thresholds, one simulcast entry per stream and zero entries after them. Its codec-specific block and spatial layers are still zero. |
| CodecTranslation.DescribesStreams | modules/video_coding/video_codec_initializer.cc:91-176 | The definition of the stream-derived fields, one by one. The mode follows the content type. Then come the screen-share target, a zero payload type and a zero start bitrate, and the stream count. The record is active exactly when some stream is. Width, height and quantizer ceiling are the maxima. The minimum bitrate is the minimum of the kbit/s minima, and the maximum bitrate the larger of 30 and the summed kbit/s maxima. The frame rate is the first stream's, with the default timing thresholds. Entry `i` is stream `i`'s simulcast entry, with zero entries after the last stream. |
| CodecTranslation.StreamsWithinLimits | modules/video_coding/video_codec_initializer.cc:126-142 | The assertions over the stream list: one to four streams and a non-negative transmit minimum (lines 88-89), with every stream within its limits. It implies the positive first frame rate that line 175 asserts again. |
| CodecTranslation.TranslationPreconditions | modules/video_coding/video_codec_initializer.cc:88-273 | Everything the translation asserts of its inputs: the stream limits, settings of the codec's own kind and the layer-count limits. It implies one to four streams, and no supplied settings for types without a specific block. |
| CodecTranslation.StreamWithinLimits | modules/video_coding/video_codec_initializer.cc:130-142 | A stream's assertions: positive size and frame rate, one frame rate for all non-screen streams, min ≤ target ≤ max bitrate and a non-negative quantizer, plus the cast ranges. It implies that the kbit/s bitrates keep the same order. |
| CodecTranslation.ModeFor | modules/video_coding/video_codec_initializer.cc:95-105 | The mode is screen sharing exactly for screen content, and real-time video exactly for real-time content. |
| CodecTranslation.ScreenshareTargetBitrate | modules/video_coding/video_codec_initializer.cc:95-103 | The target bitrate is nonzero only for screen content whose first stream has exactly two temporal layers. It is then that stream's target bitrate in kbit/s. |
| VideoCodecInitializer.ConfigureStreamHeader | modules/video_coding/video_codec_initializer.cc:95-125 | Mode is screen sharing exactly for screen content. It sets the legacy target bitrate, a zero payload type, the stream count, active exactly when some stream is active, the first stream's minimum bitrate floored at 30, and the default timing thresholds. |
| VideoCodecInitializer.AnyStreamActive | modules/video_coding/video_codec_initializer.cc:113-121 | The search stops at the first active stream. It returns true exactly when some stream is active. |
| CodecTranslation.SomeStreamActive | modules/video_coding/video_codec_initializer.cc:113-121 | Some stream is active. An empty list never is, and a list whose first stream is active always is. |
| CodecTranslation.SimulcastEntry | modules/video_coding/video_codec_initializer.cc:144-152 | A stream's simulcast entry copies its size, quantizer ceiling and active flag. Its kbit/s bitrates keep the stream's min ≤ target ≤ max order, and an unset temporal-layer count reads as one layer. |
| VideoCodecInitializer.AddSimulcastStreams | modules/video_coding/video_codec_initializer.cc:126-164 | Starts from zero accumulators and the floored first minimum. Afterwards width, height and quantizer ceiling are the maxima over all streams. The minimum bitrate is the minimum over all streams, which undoes the floor. The maximum bitrate is the sum. Entry `i` describes stream `i` and the entries after the last stream stay zero. |
| VideoCodecInitializer.CapMaxBitrate | modules/video_coding/video_codec_initializer.cc:166-176 | The maximum bitrate becomes the larger of 30 and the accumulated sum, because the pixel-rate fallback reads a zero frame rate. The frame rate then becomes the first stream's. |
| VideoCodecTypes.FillEncoderSpecificSettings | modules/video_coding/video_codec_initializer.cc:179-180 | Supplied settings replace the zeroed union with the block they carry, kept as its own kind: VP8 settings become the VP8 block, VP9 the VP9 block, and H264 the H264 block. |
| CodecTranslation.SettingsFitCodec | modules/video_coding/video_codec_initializer.cc:270-271 | Supplied settings are accepted only for VP8, VP9 or H264, and only of that codec's own kind. No settings always fit. |
| CodecTranslation.BaseVp8 | modules/video_coding/video_codec_initializer.cc:184-186 | The VP8 block before the layering rule is the one the supplied settings fill in, or the encoder default when none are supplied. |
| CodecTranslation.BaseVp9 | modules/video_coding/video_codec_initializer.cc:203-205 | The VP9 block before the layering rule is the one the supplied settings fill in, or the encoder default when none are supplied. |
| CodecTranslation.BaseH264 | modules/video_coding/video_codec_initializer.cc:264-265 | The H264 block is the one the supplied settings fill in, or the encoder default when none are supplied. |
| CodecTranslation.ResolvedSpecific | modules/video_coding/video_codec_initializer.cc:182-273 | The reference definition of the codec-specific block. It is a VP8, VP9 or H264 block exactly for that codec type, and the zeroed union exactly for the other types. |
| VideoCodecInitializer.ConfigureCodecSpecific | modules/video_coding/video_codec_initializer.cc:178-273 | The record satisfies `DescribesSpecific`. Its block is the resolved VP8, VP9 or H264 block, from the supplied settings or else the defaults. It is left zero for other types, which carry no settings. The spatial layers are the written ones, followed by zero entries. |
| CodecTranslation.DescribesSpecific | modules/video_coding/video_codec_initializer.cc:178-273 | The definition of the codec-specific fields. The block is `ResolvedSpecific`. The spatial-layer array holds the written layers at its front and zero entries after them. |
| CodecTranslation.LastStreamTemporalLayers | modules/video_coding/video_codec_initializer.cc:188-190 | The last stream's explicit temporal-layer count, or the fallback when that stream sets none. Lines 207-209 use the same rule. |
| CodecTranslation.ResolvedVp8 | modules/video_coding/video_codec_initializer.cc:183-200 | The reference definition of the VP8 rule. The temporal count is the last stream's explicit one, or else the base block's, and one temporal layer under NACK turns resilience off. `ResolvedVp8Shape` adds that nothing else changes. |
| CodecTranslation.ResolvedVp8Shape | modules/video_coding/video_codec_initializer.cc:183-200 | The VP8 temporal-layer count is the last stream's explicit count, or else the base block's. Resilience is off under NACK with one temporal layer, and the base block's otherwise. Nothing else in the block changes. |
| VideoCodecInitializer.ConfigureVp9 | modules/video_coding/video_codec_initializer.cc:202-261 | The record's VP9 block and spatial layers are those `DescribesSpecific` gives for VP9. |
| CodecTranslation.Vp9FixedScreenShape | modules/video_coding/video_codec_initializer.cc:214-215 | The condition for the fixed VP9 shape: screen content with supplied settings. It implies that the record's mode is screen sharing and that settings were supplied, as the source tests. |
| CodecTranslation.Vp9StreamTemporalLayers | modules/video_coding/video_codec_initializer.cc:207-212 | The VP9 temporal count before layering is the last stream's explicit count, or else the base block's. |
| CodecTranslation.ResolvedVp9 | modules/video_coding/video_codec_initializer.cc:202-261 | The reference definition of the VP9 rule, as the layer shape followed by the NACK rule. The fixed screen-sharing shape is flexible, and one temporal and one spatial layer under NACK leave resilience off. `ResolvedVp9Shape` gives the whole block. |
| CodecTranslation.Vp9Layered | modules/video_coding/video_codec_initializer.cc:207-253 | The VP9 block with the layer shape applied. The fixed screen-sharing shape is flexible and keeps the base spatial count. Otherwise the spatial count is the number of chosen layers. Resilience is still the base block's. |
| CodecTranslation.ChosenSpatialLayers | modules/video_coding/video_codec_initializer.cc:225-234 | The configuration's explicit spatial layers win when there are any. Otherwise the SVC generator is asked with the aggregate width and height, the base spatial count and the streams' temporal count. |
| CodecTranslation.LayeringWithinLimits | modules/video_coding/video_codec_initializer.cc:191-252 | The layer-count assertions, stated on the inputs. For VP9 outside the fixed screen-sharing shape they imply one to `kMaxSpatialLayers` chosen layers. |
| CodecTranslation.Vp9NackRule | modules/video_coding/video_codec_initializer.cc:255-260 | Resilience stays on exactly when it was on and NACK does not meet one temporal and one spatial layer. Nothing else in the block changes. |
| CodecTranslation.ResolvedVp9Shape | modules/video_coding/video_codec_initializer.cc:202-261 | In screen sharing with supplied settings, flexible mode is on and the temporal count comes from the streams. Otherwise the spatial count is the number of chosen layers, the temporal count is the last chosen layer's, and flexible mode is kept. Resilience stays on exactly when the base block has it and NACK does not meet one temporal and one spatial layer. Nothing else changes. |
| CodecTranslation.WrittenSpatialLayers | modules/video_coding/video_codec_initializer.cc:218-239 | At most `kMaxSpatialLayers` layers are written. For VP9 outside the fixed screen-sharing shape at least one is. |
| VideoCodecInitializer.CopySpatialLayers | modules/video_coding/video_codec_initializer.cc:237-239 | The chosen layers are copied to the front of the spatial-layer array, and the entries after them stay zero. |
| CodecTranslation.ResolvedSpecificWithinLimits | modules/video_coding/video_codec_initializer.cc:182-273 | The resolved block is of the codec's own kind, and its temporal and spatial counts lie in [1, max]. The NACK rules of VP8 and VP9 hold, and the fixed VP9 screen-sharing shape is flexible. Types other than VP8, VP9 and H264 keep the zeroed union. |
| Aggregates.MaxOver | modules/video_coding/video_codec_initializer.cc:154-157 | The reference definition of the running maximum over the first `n` streams, started from the zero-filled accumulator as the loop at lines 154-157 and 162-163 does. Its meaning is proved by its partners `MaxOverBounds` (every folded value is at most it) and `MaxOverAttained` (some folded value equals it). |
| Aggregates.MaxOverBounds | modules/video_coding/video_codec_initializer.cc:154-157 | The running maximum bounds the value of every stream folded so far. |
| Aggregates.MaxOverAttained | modules/video_coding/video_codec_initializer.cc:154-163 | Over non-negative values, the running maximum equals the value of one of the folded streams. |
| Aggregates.MinOverBounds | modules/video_coding/video_codec_initializer.cc:158-160 | The running minimum is at most the value of every stream folded so far. |
| Aggregates.MinOverAttained | modules/video_coding/video_codec_initializer.cc:158-160 | The running minimum equals the value of one of the folded streams. |
| Aggregates.MinOver | modules/video_coding/video_codec_initializer.cc:158-160 | The running minimum over the first `n` streams, with the first stream taken into the fold again. It is never above the first stream's value, so the floor applied to that value before the loop cannot survive it. `MinOverBounds` and `MinOverAttained` give its meaning. |
| Aggregates.SumOverBounds | modules/video_coding/video_codec_initializer.cc:161 | Over non-negative values, the running sum bounds every summand, and it is zero exactly when every summand is. |
| Aggregates.SumOver | modules/video_coding/video_codec_initializer.cc:161 | The running sum over the first `n` streams from a zero accumulator. A single stream sums to its own value. `SumOverBounds` gives its bounds. |
| InitializerProperties.DescribedSizeIsStreamMaximum | modules/video_coding/video_codec_initializer.cc:154-157 | The record's width, height and quantizer ceiling bound every stream's, and some stream attains each of them. |
| InitializerProperties.DescribedMinBitrateIsStreamMinimum | modules/video_coding/video_codec_initializer.cc:112-160 | The record's minimum bitrate is the smallest stream minimum in kbit/s. It is below the 30 kbit/s floor exactly when some stream's minimum is. |
| InitializerProperties.DescribedMaxBitrateFloor | modules/video_coding/video_codec_initializer.cc:161-173 | The maximum bitrate is at least 30 and at least every stream's maximum. It is exactly 30 when every stream's maximum is below 1 kbit/s. |
| InitializerProperties.DescribedSimulcastEntriesWithinAggregates | modules/video_coding/video_codec_initializer.cc:128-163 | Every simulcast entry has min ≤ target ≤ max in kbit/s. Its maximum is at most the record's, its minimum at least the record's, and its size within the record's. |
| InitializerProperties.DescribedLayerCountsWithinLimits | modules/video_coding/video_codec_initializer.cc:182-273 | A described record carries the block of its own codec kind, and the zeroed union for types without one. Its VP8 temporal count is in [1, 4], and resilience is off under NACK with one layer. Its VP9 temporal and spatial counts are within their maxima, resilience is off under NACK with one temporal and one spatial layer, and the fixed screen-sharing shape is flexible. |
| InitializerProperties.TwoStreamVp8Example | modules/video_coding/video_codec_initializer.cc:128-200 | Two VP8 streams, 640x360 (100/200/300 kbit/s) and 1280x720 (150/400/600 kbit/s), give size 1280x720, minimum 100, maximum 900 and the two entries in kbit/s. The VP8 block is the default with one temporal layer, and its resilience is kept because NACK is off. |

## Left out

- The bitrate allocators `SimulcastRateAllocator`, `SvcRateAllocator` and `DefaultVideoBitrateAllocator` are represented only by the kind chosen (`AllocatorKind`). Their algorithms and the `unique_ptr` ownership are not part of this model.
- `PayloadStringToCodecType`, `GetSvcConfig` and `GetDefaultVp8Settings`/`GetDefaultVp9Settings`/`GetDefaultH264Settings` are not part of this model. They are fields of the `Collaborators` parameter, and nothing is assumed about them beyond what the source's assertions demand of their results.
- `FillEncoderSpecificSettings` is a virtual call into code that is not part of this model. It is modelled as replacing the codec-specific block with the supplied one. Its own check that the settings match the codec type is a precondition (`SettingsFitCodec`).
- The `RTC_DCHECK` assertions are preconditions, so the behaviour of a build with assertions switched off is not modelled. This includes the spatial-layer copy writing past the array before the count is checked (lines 236-244).
- The `static_cast` truncations to `uint16_t` and `unsigned char` are not modelled as wrap-around. The preconditions keep every cast value within range.
- `RTC_LOG` calls are left out because they have no effect on the result.
- `VideoCodecInitializer.SetupCodec` returns a fresh `VideoCodec` and the allocator kind instead of writing through the `codec` and `bitrate_allocator` out-pointers. The source's `*codec = ...` is a value copy, so the caller's earlier record plays no part either way.
- `VideoCodecInitializer.SetupCodec`: the `false` result of a failed nested call is not reachable under the preconditions, so that path is an `assert false` instead of a modelled return.
- `config.Copy()` is modelled as the datatype update `config.(codecType := VP9)`.
- The codec types without special handling are represented by `I420`, `Generic` and `Unknown`. Only VP8, VP9, H264 and multiplex are distinguished.
- The values of `kMaxSimulcastStreams`, `kMaxSpatialLayers`, `kMaxTemporalStreams`, `kDefaultTimingFramesDelayMs` and `kDefaultOutlierFrameSizePercent` come from headers that are not part of this model. They are fixed here at 4, 5, 4, 200 and 250.
