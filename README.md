# Audio output engine and MIDI capture, modelled in Dafny

This project models the sequential logic inside the Rust layer of an audio and
MIDI library that a host application drives through a foreign-function
boundary. There are three parts.

- **Output buffer engine** (`OutputEngine`). The caller sends samples into a queue
  and advances the *source cursor*. The device callback fills its hardware
  buffer in chunks of `channels * downsample` slots. It writes one queued sample
  into every slot of a chunk and advances the *sink cursor*. It stops at the
  first chunk for which the queue is empty. *Samples behind* is
  `sink_cursor + buffer_padding - source_cursor`. It is computed in `u64` and
  then cast to `i32`. The engine appears twice, identically, in
  `src/low-level/low-level-rust/src/lib.rs:39-144` and
  `src/audio-io/audio-io-rs/src/lib.rs:33-138`. It is modelled once, as the class
  `OutputStream<T>`, which is generic over the sample type.
- **MIDI capture** (`Vlq`, `MidiCapture`). A MIDI input holds its capability,
  which can be used for exactly one connection, and two snapshots of the ports:
  the port list that connect indexes, and the names read from a second
  enumeration.
  Each event's callback queues `VLQ(delta_ms) ++ message`. Here `delta_ms` is the
  time since the previous event, in whole milliseconds. The VLQ is the
  variable-length quantity of the Standard MIDI File 1.0 specification
  ("Conventions" chapter): the value is clamped to 28 bits and written as 7-bit
  groups, most significant first, with a continuation bit 0x80 on every byte
  except the last. The drain hands back all the queued records, concatenated
  in arrival order.
- **Integer downmix** (`Downmix`). Interleaved samples are cut into frames of
  `channels` samples. Each frame becomes its truncating integer mean.

`Wrappers` holds `Option`, `Result` and `Outcome`. `Prims` holds the Rust
integer widths (`u64` wrap-around, the `as i32` and `as usize` casts) and the
chunk count of `chunks`/`chunks_mut`.

The two threads are modelled as methods of one object, called one after the
other. The channel between them is a `seq` field named `queue`. The sink cursor
is a plain field; in Rust it sits behind a lock. Each `OutputStream` keeps the
invariant `sourceCursor == sinkCursor + |queue|`: every sample sent is either
still queued or consumed. So samples behind equals the padding minus the
backlog (`SamplesBehindIsShortfall`).

Where the intended behaviour and the code differ, the model follows the code:

- Averaging the channels of the 16-bit stereo frame `(32767, -32768)` in real
  arithmetic gives about `-0.0000153`. The code takes the integer mean first,
  and Rust truncates `-1 / 2` to `0`, so the value is `0`. This is
  `StereoExample`.
- An out-of-range port index should be refused before any resource is
  touched. The code takes the capability first, so a bad index consumes it.
  See Findings.
- Construction with `downsample <= 0` and `set_buffer_padding` with a negative
  value are invalid arguments; the code stops them with `assert!` panics. The
  model returns `Err(InvalidArgument)` and `Fail(InvalidArgument)`, with no
  state change.
- Samples behind is meant as a signed quantity. The code subtracts in
  `u64`, so the model wraps modulo 2^64 (what a release build does) and then
  applies the `as i32` cast. `SamplesBehindSigned` proves that the result is the
  true signed difference whenever that difference fits in an `i32`. A debug
  build would panic instead when the caller is ahead.

## Model

| member | source | states |
|---|---|---|
| `Prims.U64ToI32` | src/audio-io/audio-io-rs/src/lib.rs:131-133 | `v as i32` keeps the value modulo 2^32 and lands in the `i32` range |
| `Prims.WrapU64` | src/audio-io/audio-io-rs/src/lib.rs:98-102 | wrapping `u64` arithmetic: the result is in range and congruent to the exact value modulo 2^64 |
| `Prims.I32ToUsize` | src/low-level/low-level-rust/src/lib.rs:301 | `i as usize` is congruent to `i` modulo 2^64, so a negative index becomes a huge one |
| `Prims.IndexInBounds` | src/low-level/low-level-rust/src/lib.rs:301 | for any slice shorter than `2^64 - 2^31`, `ports[i as usize]` is in bounds exactly when `0 <= i < n`; both connects use it to state their success condition on the signed index |
| `Prims.SignedThroughU64` | src/audio-io/audio-io-rs/src/lib.rs:131-133 | a difference that fits in `i32` survives the wrap to `u64` and the cast back unchanged |
| `Prims.ChunkCount` | src/low-level/low-level-rust/src/lib.rs:62 | `chunks_mut(k)` on n slots yields m chunks with `n <= m*k < n + k` |
| `Prims.ChunkCountUnique` | src/low-level/low-level-rust/src/lib.rs:62 | a helper of `Fill`'s and `ChannelMeans`'s proofs, a fact about division: the chunk count is the only m with `n <= m*k < n + k` |
| `Vlq.Clamp` | src/low-level/low-level-rust/src/lib.rs:271 | `x.min(0x0FFFFFFF)`: x itself up to the bound, the bound above it |
| `Vlq.Continued` | src/low-level/low-level-rust/src/lib.rs:279-285 | a 7-bit group or-ed with `TOP_BIT`: the top bit is set and the payload is the group; `DecodeEncode` relies on it |
| `Vlq.Payload` | src/low-level/low-level-rust/src/lib.rs:279-288 | `b & 0x7F`: below 0x80, the byte itself without its top bit; `DecodeEncode` recovers the value from these payloads |
| `Vlq.Encode` | src/low-level/low-level-rust/src/lib.rs:270-289 | the output is 1 to 4 bytes; only the last has the top bit clear; a multi-byte output does not start with 0x80 |
| `Vlq.ClampSaturates` | src/low-level/low-level-rust/src/lib.rs:271 | every input at or above 0x0FFFFFFF encodes like 0x0FFFFFFF |
| `Vlq.DecodeEncode` | src/low-level/low-level-rust/src/lib.rs:274-288 | summing `(b & 0x7F) * 128^k` over the output gives back `min(x, 0x0FFFFFFF)` |
| `Vlq.EncodeDecode` | src/low-level/low-level-rust/src/lib.rs:278-288 | every minimal quantity of at most 4 bytes is the encoding of its value, so the encoder's image is exactly the well-formed quantities |
| `Vlq.ReadEncoded` | src/low-level/low-level-rust/src/lib.rs:270-289 | the Standard MIDI File reader, run on an encoding followed by any bytes, returns the clamped value and the encoding's length |
| `Vlq.Examples` | src/low-level/low-level-rust/src/lib.rs:274-288 | `0 -> [0x00]`, `0x7F -> [0x7F]`, `0x80 -> [0x81, 0x00]`, `0x1FFFFF -> [0xFF, 0xFF, 0x7F]`, `0x0FFFFFFF -> [0xFF, 0xFF, 0xFF, 0x7F]`, and `0x10000000` encodes like `0x0FFFFFFF` |
| `MidiCapture.DeltaMs` | src/low-level/low-level-rust/src/lib.rs:304-309 | 0 for the first event; otherwise the elapsed microseconds divided by 1000 and truncated |
| `MidiCapture.EventRecord` | src/low-level/low-level-rust/src/lib.rs:310-316 | the record the callback pushes, `Encode(delta_ms) ++ message`; what it means is stated by `EventRecordParses` |
| `MidiCapture.EventRecordParses` | src/low-level/low-level-rust/src/lib.rs:310-316 | a queued record is a VLQ that reads back as `min(delta_ms, 0x0FFFFFFF)`, followed by exactly the message bytes |
| `MidiCapture.TruncationDrift` | src/low-level/low-level-rust/src/lib.rs:304-309 | the reported deltas over a run of events never add up to more than the elapsed time, and lose less than 1 ms per event |
| `MidiCapture.FlattenAppend` | src/low-level/low-level-rust/src/lib.rs:330-338 | flattening two queues one after the other equals flattening their concatenation |
| `MidiCapture.MidiInput.constructor` | src/low-level/low-level-rust/src/lib.rs:232-253 | a new input has its capability available, no connection, an empty queue, the given length of the `ports` list and the given names from the second enumeration, with no relation assumed between the two |
| `MidiCapture.MidiInput.ConnectAsWritten` | src/low-level/low-level-rust/src/lib.rs:292-326 | succeeds exactly when the capability is available and `port_index as usize` is below the length of `ports`; after any call the capability is gone, so a connect after that is refused with InputAlreadyUsed and changes nothing; for any realistic port count it succeeds exactly when the capability is available and `0 <= port_index < ports.len()`; on success the connection is bound to that port, with an empty queue and no previous timestamp |
| `MidiCapture.MidiInput.Connect` | src/low-level/low-level-rust/src/lib.rs:292-326 | the corrected connect: the same success condition, also stated on the signed index, but every refused connect changes nothing |
| `MidiCapture.MidiInput.OnEvent` | src/low-level/low-level-rust/src/lib.rs:303-320 | queues exactly `Encode(delta_ms) ++ message` at the back; the previous timestamp becomes `ts`; nothing else changes |
| `MidiCapture.MidiInput.Drain` | src/low-level/low-level-rust/src/lib.rs:328-339 | returns every queued record concatenated in FIFO order and leaves the queue empty, so an immediate second drain returns `[]`; with no connection it returns `[]` |
| `MidiCapture.CaptureScenario` | src/low-level/low-level-rust/src/lib.rs:292-339 | the connect as written, two events 250.7 ms apart, drain, drain again, connect again: the first drain gives `[0x00, 0x90, 60, 100, 0x81, 0x7A, 0x80, 60, 0]`, the second gives `[]`, and the second connect is refused |
| `MidiCapture.BadIndexConsumesInput` | src/low-level/low-level-rust/src/lib.rs:296-301 | as written, connect(-1) is refused and the two later connect(0) calls both fail because the capability is gone |
| `MidiCapture.BadIndexKeepsInput` | src/low-level/low-level-rust/src/lib.rs:296-301 | corrected, connect(-1) is refused and the later connect(0) succeeds |
| `OutputEngine.SamplesBehindU64` | src/audio-io/audio-io-rs/src/lib.rs:98-102 | `OutputStream::samples_behind`: congruent to `sink + padding - source` modulo 2^64, and equal to it whenever the caller is not ahead |
| `OutputEngine.SamplesBehindI32` | src/audio-io/audio-io-rs/src/lib.rs:131-133 | the `as i32` of that value: congruent to `sink + padding - source` modulo 2^32; `SamplesBehindSigned` pins it to the exact difference |
| `OutputEngine.SamplesBehindSigned` | src/audio-io/audio-io-rs/src/lib.rs:98-102 | the `u64` result cast to `i32` equals `sink + padding - source` whenever that fits in an `i32`, negative values included |
| `OutputEngine.PaddingShift` | src/audio-io/audio-io-rs/src/lib.rs:126-128 | with the cursors held, changing the padding by d changes samples behind by exactly d |
| `OutputEngine.ChunkOf` | src/audio-io/audio-io-rs/src/lib.rs:56-61 | a helper of `Fill`'s proof, a fact about division: a slot between `c*k` and `c*k + k` has `slot / k == c` |
| `OutputEngine.Replicate` | src/audio-io/audio-io-rs/src/lib.rs:58-60 | writes the sample into every slot of one chunk and nowhere else |
| `OutputEngine.OutputStream.constructor` | src/audio-io/audio-io-rs/src/lib.rs:44-81 | a new stream has both cursors at 0, an empty queue, padding `native_rate / 20`, and the given rate, channel count and factor |
| `OutputEngine.OutputStream.SampleRateHz` | src/audio-io/audio-io-rs/src/lib.rs:83-85 | the result is `floor(native_rate / downsample)`, so it equals `native_rate` when the factor is 1 |
| `OutputEngine.OutputStream.SamplesBehind` | src/audio-io/audio-io-rs/src/lib.rs:131-133 | the value a caller reads from a stream; `SamplesBehindIsShortfall` states that it is the padding minus the backlog |
| `OutputEngine.OutputStream.SamplesBehindIsShortfall` | src/audio-io/audio-io-rs/src/lib.rs:98-102 | samples behind equals padding minus the number of queued samples; it is positive exactly while fewer samples are queued than the padding |
| `OutputEngine.OutputStream.PlaySample` | src/audio-io/audio-io-rs/src/lib.rs:91-96 | appends the sample to the queue and raises the source cursor by exactly 1; N calls therefore raise it by N |
| `OutputEngine.OutputStream.SetBufferPadding` | src/audio-io/audio-io-rs/src/lib.rs:126-129 | succeeds exactly when the argument is non-negative and then sets the padding to it; a negative argument fails with InvalidArgument and leaves the padding unchanged |
| `OutputEngine.OutputStream.Fill` | src/low-level/low-level-rust/src/lib.rs:60-71 | with `k = channels * downsample` and `m` the smaller of the queue length and `ceil(len / k)`: slot `i < m*k` holds `queue[i / k]`; slots from `m*k` on are unchanged; the first m samples leave the queue; the sink cursor rises by exactly m |
| `OutputEngine.CreateOutputStream` | src/audio-io/audio-io-rs/src/lib.rs:110-116 | refuses a downsample factor `<= 0`; otherwise returns a new stream in its initial state |
| `OutputEngine.PaddingScenario` | src/audio-io/audio-io-rs/src/lib.rs:126-133 | padding -1 is refused; setting 5 and then 9 raises samples behind by exactly 4 |
| `Downmix.TruncDiv` | src/low-level/low-level-rust/src/lib.rs:211 | Rust's signed `/`: the quotient is rounded toward zero for either sign of the dividend |
| `Downmix.Mean` | src/low-level/low-level-rust/src/lib.rs:211 | the sum of a chunk divided by its length, truncated toward zero; `MeanWithin` bounds it by the chunk's samples |
| `Downmix.Frame` | src/low-level/low-level-rust/src/lib.rs:209 | the c-th chunk of `chunks(channels)`: 1 to `channels` samples starting at `c * channels`, short only at the end of the input; `ChannelMeansAt` uses it |
| `Downmix.ChannelMeans` | src/low-level/low-level-rust/src/lib.rs:208-214 | one output per chunk of `channels` samples |
| `Downmix.ChannelMeansAt` | src/low-level/low-level-rust/src/lib.rs:209-211 | output c is the truncated mean of samples `c*channels` up to `min((c+1)*channels, len)`; every frame is non-empty, and only the last may be short |
| `Downmix.MeanWithin` | src/low-level/low-level-rust/src/lib.rs:211 | the truncated mean of a frame lies between the smallest and largest sample of the frame |
| `Downmix.StereoExample` | src/low-level/low-level-rust/src/lib.rs:208-211 | frames `(0,0), (32767,-32768), (16384,16384)` give `[0, 0, 16384]`; Rust's `-1/2` is 0, where Dafny's `/` gives -1 |

## Left out

- Device opening and negotiation (`OutputStreamCore::new`, `build_output_stream`, `stream.play`) are calls into the cpal library. The native rate and the channel count are constructor parameters, and device errors are not modelled.
- `OutputEngine.CreateOutputStream` requires `channels >= 1`. A device always reports at least one channel, and `chunks_mut(0)` would panic.
- Threads and scheduling are not modelled. The callbacks run atomically between the caller's calls. The `RwLock` around the sink cursor, and its `unwrap` on a poisoned lock, are left out.
- A `send` failure on either channel is not modelled. The model assumes that each receiver outlives its sender: the audio receiver is moved into the device callback given to `build_output_stream`, and how long cpal keeps that callback is not visible in this code. `PlaySample` therefore always queues the sample. `OutputStream.Valid()`'s `sourceCursor == sinkCursor + |queue|`, and with it `SamplesBehindIsShortfall`, rest on this assumption: if the callback were dropped, `play_sample` would still raise the source cursor for samples that are never queued, and samples behind would keep falling. The MIDI callback's log-and-drop branch is left out on the same assumption.
- Cursors are unbounded naturals. A `u64` cursor overflowing after 2^64 samples is not modelled.
- The `as i32` casts in `sample_rate_hz` and `num_channels` are left out, because rates and channel counts are far below 2^31. `num_channels` is the field `channels`.
- The midir library (`MidiInput::new`, `ports()`, `port_name`, and the driver's own `connect`) is not modelled. The length of the `ports` list and the port names are given to the constructor. A driver that refuses a connection, which panics in the code, is not modelled.
- `midi_port_names`, `get_num_midi_ports` and `is_midi_input_available` only read `portNames`, `portCount` (`ports.len()`, with its `as i32` cast left out) and `inputAvailable`, so they have no members of their own.
- `create_midi_input` enumerates the driver's ports twice: once for `ports`, which connect indexes, and once for the names. The model keeps both as separate fields and assumes no relation between them, so nothing it proves says that a name shown to the user belongs to the port of the same index; in the code that holds only when the two enumerations agree.
- `MidiCapture.MidiInput.OnEvent` requires timestamps in non-decreasing order. The code's `u64` subtraction assumes this: a debug build panics otherwise, and a release build wraps.
- The VLQ encoder's `FnMut` sink becomes a returned sequence. Shifts and masks are written as division and remainder on non-negative integers.
- All `#[ocaml::func]` wrappers, the finalizers, `env_logger_init` and the logging calls are left out.
- WAV decoding with `hound` and the floating-point normalisation by `2^(bits-1)` are left out: they are file I/O and floating point. Only the integer channel mean is modelled.
- `Downmix.ChannelMeans` requires `channels >= 1`. It relies on the WAV reader never reporting zero channels; `chunks(0)` would panic.
- `lib/audio-io/audio-io-rs/src/lib.rs` and `cpal-wrapper/cpal-wrapper-rs/src/lib.rs` are not part of this model. They only open a device and print.

## Findings

| source | as written | input that shows it | evidently intended | confidence | as-written member | corrected member |
|---|---|---|---|---|---|---|
| src/low-level/low-level-rust/src/lib.rs:296-301 | `midi_input.take()` runs before `ports[port_index as usize]` is indexed, so a connect with a bad index panics after it has consumed the capability | a new input with one port: `connect(-1)`, then `connect(0)`; if the host survives the panic, the second connect is refused as already used | a refused connect leaves the input usable: an out-of-range port index is refused before any resource is touched | medium; not executed | `MidiCapture.MidiInput.ConnectAsWritten`, `MidiCapture.BadIndexConsumesInput` | `MidiCapture.MidiInput.Connect`, `MidiCapture.BadIndexKeepsInput` |
