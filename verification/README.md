# Verified models of the desktop mascot's cores

This project models the parts of the repository whose correctness is hard to see from reading one
function: the state machines, the protocols between tasks and processes, the wire formats and the
numeric cores. Each module follows one component.

| module | component |
|---|---|
| `Segmenter`, `SegmenterCalls` | the voice activity segmenter: a three-state machine with two silence timeouts and an end-of-turn predictor; its use with settings changed at any time |
| `FrameCapture` | the double-buffered GPU readback, the row layout of its buffers, the alpha map and the cursor hit test |
| `Brokers` | the multiplexing broker and its gRPC sibling: tables of one-shot senders, dial and acknowledgement, time-outs, closing |
| `PluginHost` | the plugin manager: slots, a name index, and who calls `destroy` when |
| `PluginAbi` | the buffers that cross the native plugin boundary, and who frees them |
| `Base64` | the inline base64 codec (section 4 of RFC 4648) |
| `Text`, `Negotiation` | string splitting and number printing; the negotiation line, version lists, and what host and plugin agree on |
| `MelFilterbank` | the triangular filterbank and the normalisation that ends the log-mel computation |
| `FaceCrop`, `LeavingFace` | the crop that follows the face, its rounding, and the detector's per-frame state; a run in which landmarks leave the frame |
| `StdioStream` | the plugin's output on its way to the host: two readers, a merged queue, a forwarder, two writers |
| `Agent` | the tool loop of the agent and the sequential speech runner |
| `CommandReplay` | replaying a flat command buffer with nested windows |

How the models are made:

- Code that changes things step by step is a class or a method with loops; its contract ties the new
  state to a function of the old one, and the theorems are about that function and its runs.
- Floating-point numbers are reals. Conversions to integers (`round`, `as u32`, `floor`) and 32-bit
  wrap-around are exact where they matter.
- Whatever comes from outside is a parameter or a step of the environment: predictor answers, the
  network's output, what a provider or a tool replies, which map callbacks have run, when a time-out
  fires, which task moves next, which write fails.
- Concurrent protocols are state machines; a run is any list of steps, and steps that are not enabled
  do nothing.

Where the code does not do what its documentation or a reader would expect, the model follows the
code and the exact condition for success is proved; where that condition does not itself show a failing
input, a failing run is spelled out:

- A shorter silence timeout does not always give at least as many segments. It does on all recordings
  if and only if the minimum speech length does not exceed it (`ShorterTimeoutEndsMoreOften`). The
  default extended timeout, three times the normal one, wraps around at 32 bits
  (`DefaultExtendedIsLonger`).
- The map callback sets the ready flag without looking at the result. A failed map, a map settled
  between the two looks at the flag, and a size change while a map is outstanding lead to an invalid GPU
  operation (`FailedMapFaults`, `LateFailureFaults`, `RacedCaptureFaults`, `StaleCallbackFaults`); these
  are the only actions of caller and device that break the protocol (`SafeExactlyWhenAllowed`).
- A successful dial does not mean that anybody received the stream (`StaleEntryIsDialed`): it was
  received exactly if the receiver had not timed out (`HandedUnlessTimedOut`). Ids come round again after
  2^32 calls (`IdsRepeat`).
- The base64 decoder drops `=` wherever it stands and ignores leftover bits; re-encoding gives the
  text back exactly for the canonical texts of the RFC (`EncodeUndoesDecode`).
- A negotiation line survives its trip if and only if its texts have no pipe and no line break and its
  certificate is absent, or non-empty without white space at the end of the line (`HostReadsTheLine`). A
  line printed before it is read in its stead (`EarlierLineIsRead`).
- The documentation of `detect` promises landmarks in [0, 1] of the full frame. It keeps that, for
  whatever the network finds in its 192 by 192 input, over exactly the runs in which every crop used ends
  in the frame (`RunAsPromisedExactly`); frame by frame, while all stored landmarks lie in the frame, the
  crop alone decides (`CropDecides`), and for any state `AsPromisedExactlyWhenSound` says when. A crop need
  not end in the frame: its position and size are rounded separately when it is smoothed, and it can stick
  out by one pixel; exactly when is `SmoothedInFrameExactly`, and by frame size `SmoothingCanStickOut`. In
  the run of `LandmarkLeavesTheFrame` a landmark is then returned at 1.01. A landmark stored outside can
  stay there after the crop has come back: a miss returns it at 1.034 from a crop inside the frame
  (`LandmarkStaysOutside`). Raw values outside the network's input are accepted too; which land in the frame
  is `LandsInFrameExactly`, and how far the stored landmarks can be carried over any run is
  `RunLandmarksNear`. The crop estimate itself stays in the frame from a side of five pixels on
  (`InFrameExactlyFromFivePixels`).
- The documentation of `SpeechRunner::run` says that a failed turn is skipped; the code sends a
  failure outcome for it, and so does the model. After a failed turn the history has two user turns
  in a row (`RolesAlternateExactlyWhenAnswered`, `FailuresPileUpUserTurns`), and an answer that was cut
  off in the middle of a tool request leaves that request unanswered (`CutOffLeavesItUnanswered`); over
  whole conversations this is the only way (`UsesAnsweredExactly`).
- A failed write to the host's stdout is ignored. What the host writes is a prefix of what was printed,
  whatever that is, if and only if nothing is written after a failed write (`PrefixExactlyWithoutHoles`,
  `FailedWriteLeavesAHole`).

Check everything with `dafny verify dfyconfig.toml`.

## Model

| member | source | states |
|---|---|---|
| Segmenter.VadSegmenter.constructor | crates/speech-capture/src/segmenter.rs:46-56 | a new segmenter is idle, has an empty buffer and no predictor; its extended timeout is the wrapping 32-bit triple of the normal one |
| Segmenter.VadSegmenter.SetExtendedSilenceTimeoutMs | crates/speech-capture/src/segmenter.rs:63-65 | only the extended timeout changes; a segment in progress is untouched |
| Segmenter.VadSegmenter.SetEtdPredict | crates/speech-capture/src/segmenter.rs:71-73 | only the predictor changes |
| Segmenter.VadSegmenter.IsSpeaking | crates/speech-capture/src/segmenter.rs:77-79 | true exactly when a segment is open, trailing silence included |
| Segmenter.VadSegmenter.Feed | crates/speech-capture/src/segmenter.rs:88-180 | one call in place is one `Step` of the state machine, for every state, setting and frame; settings stay |
| Segmenter.SilenceEndsExactly | crates/speech-capture/src/segmenter.rs:142-176 | by the settings in milliseconds: an unvoiced frame ends a silence if and only if it comes the extended timeout after its onset when the prediction was incomplete, the normal one otherwise; it yields a VoiceEnd, and which, if and only if the segment has also lasted the minimum |
| Segmenter.DefaultExtendedIsLonger | crates/speech-capture/src/segmenter.rs:51 | exactly when the wrapped default extended timeout is not shorter than the normal one |
| Segmenter.OnlineIsOffline | crates/speech-capture/src/segmenter.rs:88-180 | on every recording, frame-by-frame feeding emits exactly the events of a look-ahead segmentation defined without any state machine: same frames, same audio, same times, same verdicts |
| Segmenter.RunFollowsTrack | crates/speech-capture/src/segmenter.rs:96-180 | the buffering machine and one that only remembers frame numbers stay in step over any run |
| Segmenter.TrackIsOffline | crates/speech-capture/src/segmenter.rs:96-180 | that machine, started idle anywhere in a recording, finds the boundaries the look-ahead finds |
| Segmenter.BufferHoldsTheOpenSegment | crates/speech-capture/src/segmenter.rs:96-180 | after any run: idle means an empty buffer; otherwise the last event was a VoiceStart and the buffer is exactly the audio of all frames since |
| Segmenter.StateAtIsTrackAt | crates/speech-capture/src/segmenter.rs:96-180 | after every prefix of a recording the buffering machine, its count of predictor calls included, is what the machine on frame numbers describes |
| SegmenterCalls.MakeCall | crates/speech-capture/src/segmenter.rs:63-180 | a frame or a setter, called on the object, is one step of the model of all calls |
| SegmenterCalls.StateTellsTheCalls | crates/speech-capture/src/segmenter.rs:63-180 | after any sequence of frames and setter calls: in a segment the latest event is its VoiceStart, the buffer is exactly the audio since, and in a silence no frame since the onset was voiced or had reached the timeout then in force; out of one the buffer is empty |
| SegmenterCalls.AskedOncePerSilence | crates/speech-capture/src/segmenter.rs:111-140 | the installed predictor is asked exactly once at the onset of each silence in a segment |
| SegmenterCalls.EveryEventIsSound | crates/speech-capture/src/segmenter.rs:106-176 | with settings changed at any time: every VoiceStart comes from a voiced frame outside a segment; every VoiceEnd directly follows its VoiceStart, carries exactly the audio in between, lasts at least the minimum, and fires at the silence onset with a true prediction, or at the first frame by which the silence has lasted the timeout in force at that frame; the prediction is the answer of the predictor then installed to the very call made at that onset, on the audio up to it |
| SegmenterCalls.EventsExactlyWhenDue | crates/speech-capture/src/segmenter.rs:96-180 | conversely nothing is missed: a call returns an event if and only if it is a frame that begins a segment or rightly ends one that lasted long enough |
| Segmenter.FirstDueIsFirst | crates/speech-capture/src/segmenter.rs:151-170 | no earlier frame of the silence had reached the timeout |
| Segmenter.WaitingLongerMerges | crates/speech-capture/src/segmenter.rs:142-176 | two runs on the same frames, one waiting at most and the other at least a limit: whenever the patient one is idle so is the eager one, every start of the patient one is a start of the eager one, and with no segment too short the eager one has ended at least as many |
| Segmenter.IncompletePredictorMerges | crates/speech-capture/src/segmenter.rs:130-156 | the same between no predictor and one that always says incomplete, with an extended timeout at least the normal one |
| Segmenter.ExtendedReplacesNormal | crates/speech-capture/src/segmenter.rs:130-156 | a run with a predictor that always says incomplete and extended timeout E emits what a run without predictor and timeout E emits: same frames, audio and times, only never an end of turn |
| Segmenter.ShorterTimeoutEndsMoreOften | crates/speech-capture/src/segmenter.rs:151-170 | a shorter timeout ends at least as many segments on every monotone recording if and only if the minimum length does not exceed it (or the timeouts are equal) |
| FrameCapture.AlignedBprIsLeast | crates/renderer/src/scene.rs:668-670 | the row stride is the least multiple of 256 that holds a row |
| FrameCapture.MaskIsRounding | crates/renderer/src/scene.rs:714 | masking the low byte of a 32-bit word rounds it down to a multiple of 256 |
| FrameCapture.UnpadUndoesCopy | crates/renderer/src/scene.rs:729-734 | reading rows out of a strided buffer gives back the pixels copied into it, whatever the padding held |
| FrameCapture.UnpadAt | crates/renderer/src/scene.rs:729-734 | byte c of row r of the unpadded frame is byte c of row r of the buffer, in bounds |
| FrameCapture.ReadRows | crates/renderer/src/scene.rs:729-734 | the row loop stays in bounds and computes the unpadding |
| FrameCapture.ExtractAlpha | crates/app/src/update.rs:440-444 | the loop collects byte 3 of every pixel, in order |
| FrameCapture.HitTestReadsTheAlphaByte | crates/app/src/app.rs:310-313 | the hit test at (lx, ly) is decided by the alpha byte of row ly, column lx of the staging buffer and nothing else; out of range it is false |
| FrameCapture.HitTestMissesOutside | crates/app/src/app.rs:310-313 | outside the window, or beyond the end of an alpha map of another size, the hit test is false |
| FrameCapture.CaptureKeepsInv | crates/renderer/src/scene.rs:706-797 | one capture, with any callbacks in the poll and between the two looks at the flag that do not misfire: the free buffer is current again, the other requested or mapped exactly while a capture is pending, no copy meets a buffer in use, no read an unmapped one; exactly when a frame is copied and when one is returned, and which |
| FrameCapture.AllowedRunIsSafe | crates/renderer/src/scene.rs:645-797 | every run of allowed actions, size changes included, keeps the protocol invariant and never faults |
| FrameCapture.FramesSurviveAllButResizes | crates/renderer/src/scene.rs:645-797 | over every such run the frames returned and at most one in flight are the frames copied, in order, with as many missing as size changes caught a frame in flight, each at most one |
| FrameCapture.FramesArriveInOrder | crates/renderer/src/scene.rs:706-797 | over any run of allowed actions without a size change, the frames returned, followed by at most one still in flight, are exactly the frames copied, in order |
| FrameCapture.RenderedFrameReturns | crates/renderer/src/scene.rs:706-797 | the frame rendered last is the one that a call copies, and the one that the next call returns once its map is done |
| FrameCapture.FiringSettlesTheMap | crates/renderer/src/scene.rs:718-756 | callbacks can only settle the one outstanding map, and the first to do so counts |
| FrameCapture.OwedCallbacksRunOnce | crates/renderer/src/scene.rs:785-788 | each callback still owed by a replaced buffer runs once and sets the flag |
| FrameCapture.RacedCaptureFaults | crates/renderer/src/scene.rs:718-756 | a map that completes between the two looks leaves a mapped buffer current, and the next call is invalid whatever happens |
| FrameCapture.FailedMapFaults | crates/renderer/src/scene.rs:785-788 | a failed map sets the flag as a successful one does: the call that polls it, or the next one, reads an unmapped buffer |
| FrameCapture.LateFailureFaults | crates/renderer/src/scene.rs:748-788 | a map that fails between the two looks loses its frame and sets the flag for the next, unmapped buffer |
| FrameCapture.StaleCallbackFaults | crates/renderer/src/scene.rs:645-692 | resizing while a map is outstanding lets the old callback announce a buffer that is not mapped |
| FrameCapture.SafeExactlyWhenAllowed | crates/renderer/src/scene.rs:645-797 | each action of caller or device keeps the protocol invariant if and only if it is none of these, and faults at once exactly when a capture's own poll brings the failure |
| FrameCapture.FrameCapturer.constructor | crates/renderer/src/scene.rs:364-365 | before the first size there is no texture, no buffer, no pending capture |
| FrameCapture.FrameCapturer.EnsureFrameCapture | crates/renderer/src/scene.rs:645-692 | nothing at the current size; otherwise fresh texture and buffers, index 0, no flag, nothing pending |
| FrameCapture.ResizeGives | crates/renderer/src/scene.rs:645-692 | the size asked for is the size obtained, with a texture of that many pixels and buffers of padded rows for it; asking again changes nothing |
| FrameCapture.ResizedHoldsTheFrame | crates/renderer/src/scene.rs:645-737 | after a resize a frame of the new size that is copied is read back as it was |
| FrameCapture.FramesArriveAtOneSize | crates/renderer/src/scene.rs:645-797 | asked for one and the same size before every call, from the start on, every frame copied but at most the latest has been returned, in order |
| FrameCapture.FrameCapturer.ReadAndUnmap | crates/renderer/src/scene.rs:727-739 | returns the unpadded frame, unmaps that buffer, clears the flag, changes nothing else |
| FrameCapture.FrameCapturer.ReadBackIfReady | crates/renderer/src/scene.rs:722-746 | the first look: nothing unless a capture is pending and the flag set; then the readback, refused by the device when the buffer is not mapped |
| FrameCapture.FrameCapturer.CopyAndRequestMap | crates/renderer/src/scene.rs:756-793 | the current buffer gets the texture and a map request, then the buffers swap |
| FrameCapture.FrameCapturer.CopyIfFree | crates/renderer/src/scene.rs:748-796 | the second look: no copy while a capture is pending, unready and not just consumed; a copy into a buffer in use is refused |
| FrameCapture.FrameCapturer.CaptureFrameAsync | crates/renderer/src/scene.rs:706-797 | the method in place is the modelled step for every state of the fields and all callbacks in the poll and between the looks, faults included; it keeps the invariant unless they misfire |
| Brokers.StepKeepsInv | crates/go-plugin/src/mux_broker.rs:131-209 | every step (register, dial, look up, acknowledge, hand over, time-out, close, end of a dial) keeps: each sender is in one place at most, and only a handler of its own id holds it |
| Brokers.RunKeepsInv | crates/go-plugin/src/mux_broker.rs:131-209 | so does every interleaving |
| Brokers.SettledOnce | crates/go-plugin/src/mux_broker.rs:131-139 | once a registration is resolved, no later step of any run changes its outcome |
| Brokers.OwnStreamOnly | crates/go-plugin/src/mux_broker.rs:188-209 | a receiver only gets a stream that carries its own id, and no two get the same |
| Brokers.NoMoreConnectionsThanRegistrations | crates/go-plugin/src/mux_broker.rs:144-177 | an id never has more successful dials than registrations |
| Brokers.HandedUnlessTimedOut | crates/go-plugin/src/mux_broker.rs:188-209 | after the handler is done its stream was received, unless that receiver had timed out |
| Brokers.StaleEntryIsDialed | crates/go-plugin/src/mux_broker.rs:131-139 | a time-out leaves its table entry, so that a later dial succeeds though nobody receives the stream |
| Brokers.HandshakeDelivers | crates/go-plugin/src/mux_broker.rs:131-209 | a waiting registration that nothing disturbs until a stream of its id is looked up gets that stream, however the handler's three steps are interleaved with anything else but the receiver's own time-out |
| Brokers.HeldUntilReceived | crates/go-plugin/src/mux_broker.rs:188-209 | once a handler has the sender, then in every interleaving without the receiver's time-out it keeps it, the receiver waiting, until the stream is received |
| Brokers.StaysInTable | crates/go-plugin/src/mux_broker.rs:131-139 | until then it waits in the table through every interleaving without its time-out, a close, a new registration of the id or a look-up of it |
| Brokers.DialSucceeds | crates/go-plugin/src/mux_broker.rs:144-177 | once the ACK is written the dial succeeds in every interleaving in which the dialer reads it before giving up |
| Brokers.UnregisteredIsRefused | crates/go-plugin/src/mux_broker.rs:199-208 | a stream looked up while its id is not registered is lost for good: whatever follows, nobody receives it, its dial never succeeds, and it has failed once the dialer reads the end |
| Brokers.DialFailsForAReason | crates/go-plugin/src/mux_broker.rs:144-177 | a dial fails only because of that, or because it is given up |
| Brokers.DialSettlesOnce | crates/go-plugin/src/mux_broker.rs:144-177 | a dial has one outcome for good, and giving up is one |
| Brokers.WhoIsResolved | crates/go-plugin/src/mux_broker.rs:131-209 | exactly which step resolves a waiting receiver, and how: its time-out, closing or a new registration while its sender is in the table, or the hand-over |
| Brokers.EveryRun | crates/go-plugin/src/mux_broker.rs:131-209 | from a new broker on, after every interleaving: the invariant, own streams only and unshared, no more connections than registrations of an id |
| Brokers.CloseCancelsTheTable | crates/go-plugin/src/mux_broker.rs:180-184 | closing empties the table, cancels exactly the waiters in it, and only those whose stream is already in a handler's hands still wait |
| Brokers.IdsRepeat | crates/go-plugin/src/mux_broker.rs:123-125 | in every run from a new broker, two calls return the same id exactly when a multiple of 2^32 calls lies between them, the first included |
| Brokers.ConnectionBroker.NextId | crates/go-plugin/src/grpc_broker.rs:55-57 | returns the counter and advances it, wrapping at 32 bits |
| Brokers.ConnectionBroker.RegisterPending | crates/go-plugin/src/grpc_broker.rs:191-195 | the new sender takes the place of an older one of that id, whose receiver is cancelled |
| Brokers.ConnectionBroker.TakeSender | crates/go-plugin/src/mux_broker.rs:199-201 | the handler takes the sender of the stream's id out of the table, if there is one |
| Brokers.ConnectionBroker.SendStream | crates/go-plugin/src/mux_broker.rs:201-208 | the stream reaches the receiver exactly when it still waits |
| Brokers.ConnectionBroker.HandleInboundStream | crates/go-plugin/src/mux_broker.rs:188-209 | look up, acknowledge, hand over, in this order |
| Brokers.ConnectionBroker.Deliver | crates/go-plugin/src/grpc_broker.rs:198-209 | no entry, a waiting receiver and a dropped receiver give the three different results, and the entry is used up |
| Brokers.ConnectionBroker.CloseBroker | crates/go-plugin/src/grpc_broker.rs:211-215 | empties the table entry by entry; together that is one close step |
| PluginHost.LoadRefinesMap | crates/dynplug/src/manager.rs:68-79 | on the map from names to backends: loading adds a free name and changes nothing for a taken one; the index stays a bijection onto occupied slots |
| PluginHost.LoadEachGrows | crates/dynplug/src/manager.rs:152-196 | loading a directory of native and Wasm files adds one plugin per success, loses and destroys none, and leaves no opened plugin's name free |
| PluginHost.UnloadRefinesMap | crates/dynplug/src/manager.rs:308-318 | unloading removes exactly that name and destroys exactly that plugin, if it has a VTable |
| PluginHost.DropOrderIsLive | crates/dynplug/src/manager.rs:321-327 | going down the slots destroys each live plugin with a VTable once, the latest first |
| PluginHost.UnloadAllDestroysTheRest | crates/dynplug/src/manager.rs:321-327 | unloading everything leaves an empty map and destroys exactly what was live, in reverse load order |
| PluginHost.DestroyedExactlyOnce | crates/dynplug/src/manager.rs:351-355 | over any sequence of operations and the final drop, each registered plugin with a VTable is destroyed exactly once and nothing else ever |
| PluginHost.PluginManager.LoadFile | crates/dynplug/src/manager.rs:48-89 | a library that does not open changes nothing; otherwise it is loaded under its VTable's name, or the one derived from its file |
| PluginHost.PluginManager.LoadWasm | crates/dynplug/src/manager.rs:99-116 | the same for a Wasm file, which has nothing to destroy |
| PluginHost.LibraryIsNamed | crates/dynplug/src/manager.rs:54-68 | a library is named by its VTable if it has one, otherwise by its file without the platform's prefix |
| PluginHost.FileIsFoundUnder | crates/dynplug/src/manager.rs:50-90 | the name, kind and VTable under which a library or a Wasm file is found after it has been loaded |
| PluginHost.PluginManager.LoadFromDirectory | crates/dynplug/src/manager.rs:152-196 | the loop loads each native or Wasm file in turn, skips the rest and counts the successes |
| PluginHost.PluginManager.Find | crates/dynplug/src/manager.rs:242-274 | the lookup through index and slot is the lookup in the map |
| PluginHost.PluginManager.UnloadPlugin | crates/dynplug/src/manager.rs:308-318 | index entry and slot go together |
| PluginHost.PluginManager.TakeAllSlots | crates/dynplug/src/manager.rs:321-325 | the downward loop appends exactly the destructions of all slots, last slot first |
| PluginHost.PluginManager.UnloadEverything | crates/dynplug/src/manager.rs:321-327 | afterwards no slot and no name is left |
| PluginAbi.PluginHeap.FreeBuffer | crates/dynplug/src/export.rs:92-98 | a null or empty buffer is ignored; otherwise exactly that allocation, which must be live and of that length, is released |
| PluginAbi.PluginInvoke | crates/dynplug/src/export.rs:35-90 | the plugin's side: return code, out-parameters and new allocation for a reply, an error and a panic, empty or not |
| PluginAbi.HostFinish | crates/dynplug/src/native.rs:69-93 | the host's side: what it returns for each return code, and that it frees exactly the buffer handed over |
| PluginAbi.Invoke | crates/dynplug/src/native.rs:51-94 | a whole call leaves the plugin's live buffers as they were and returns exactly its bytes or error text, "unknown error" for an empty one |
| PluginAbi.InvokeAll | crates/dynplug/src/native.rs:51-94 | so does any number of calls |
| Base64.AlphabetIsSymbols | crates/llm/src/types.rs:105-128 | the alphabet has 64 symbols in the RFC's order |
| Base64.ValueOfSymbol | crates/llm/src/types.rs:130-154 | the decoder's search inverts the alphabet and fails on everything else |
| Base64.EncoderBits | crates/llm/src/types.rs:105-128 | on 32-bit words the shifts, ORs and masks are sums and digits |
| Base64.OrIsPlus | crates/llm/src/types.rs:130-154 | OR-ing a symbol in below zero bits adds it |
| Base64.BelowZeroBits | crates/llm/src/types.rs:141-144 | a symbol shifted to its place meets only the zero bits below those before it |
| Base64.DecoderShifts | crates/llm/src/types.rs:143 | the decoder's shifts are the factors of `Shifted` |
| Base64.DecoderMasks | crates/llm/src/types.rs:145-151 | the decoder's shifts and masks take the bytes of its 24-bit word |
| Base64.EncodeBytes | crates/llm/src/types.rs:105-128 | the chunk loop computes `Encode` |
| Base64.GroupValue | crates/llm/src/types.rs:141-144 | the inner loop accumulates a group's value, or stops at the first character that is no symbol |
| Base64.DecodeString | crates/llm/src/types.rs:130-154 | the group loop computes `Decode`, error cases included |
| Base64.GroupDecodes | crates/llm/src/types.rs:140-152 | what any group of one to four symbols decodes to, canonical or not; bits left over are ignored |
| Base64.DecodeUndoesEncode | crates/llm/src/types.rs:105-154 | decoding the encoding of any byte string gives it back |
| Base64.EncodeShape | crates/llm/src/types.rs:105-128 | the output has four characters for every three bytes or part of them; padding stands only at the end, as much as the RFC says |
| Base64.EncodeIsCanonical | crates/llm/src/types.rs:105-128 | the encoder only produces canonical texts: whole quanta, and zero unused bits before padding |
| Base64.EncodeUndoesDecode | crates/llm/src/types.rs:105-154 | re-encoding what was decoded gives the text back if and only if the text is canonical |
| Base64.DecodeAccepts | crates/llm/src/types.rs:130-154 | the decoder accepts exactly the texts of symbols and `=`, wherever placed, and how many bytes they yield |
| Text.SplitUndoesJoin | crates/go-plugin/src/protocol.rs:133-135 | splitting at a separator undoes joining with it, for parts without it |
| Text.ParseUndoesDecimal | crates/go-plugin/src/protocol.rs:144-150 | every 32-bit number is read back from its decimal text |
| Text.NumberExactly | crates/go-plugin/src/protocol.rs:145-151 | what counts as a number: digits only |
| Text.SignAndZeros | crates/go-plugin/src/protocol.rs:145-151 | one plus sign and leading zeros are allowed and change nothing; a second sign or no digits are refused |
| Text.TrimStrips | crates/go-plugin/src/protocol.rs:134 | trimming takes white space, and all of it, off both ends |
| Negotiation.ParseOfEncode | crates/go-plugin/src/protocol.rs:133-213 | what the host reads from any pipe-free line, in all three output shapes |
| Negotiation.ParseUndoesEncode | crates/go-plugin/src/protocol.rs:133-213 | a line is read back as it was meant if and only if its texts have no pipe and its certificate is absent or survives trimming |
| Negotiation.LongLineIsRead | crates/go-plugin/src/protocol.rs:133-178 | a line with both optional fields, as other implementations write it: an empty certificate is none, only "true" turns multiplexing on, further fields are ignored |
| Negotiation.RefusedExactly | crates/go-plugin/src/protocol.rs:133-178 | which lines are refused: fewer than five fields, a version that is no 32-bit number, an unknown protocol; and which field becomes what |
| Negotiation.HostReadsTheLine | crates/go-plugin/src/runner.rs:39-50 | the host reads the line back as it was meant, whatever follows it, if and only if it survives, no text in it has a line break, and what stands before it on its line (no pipe) leaves the first number as it is, as white space does |
| Negotiation.EarlierLineIsRead | crates/go-plugin/src/runner.rs:39-50 | after a complete line printed earlier the negotiation line is not read at all |
| Negotiation.LineIsRead | crates/go-plugin/src/runner.rs:39-50 | otherwise what is read is the line with all that stands before it |
| Negotiation.VersionListRoundTrip | crates/go-plugin/src/protocol.rs:251-264 | every list of versions, the empty one too, is read back unchanged |
| Negotiation.ItemsCountByThemselves | crates/go-plugin/src/protocol.rs:260-264 | in any list each item counts by itself: trimmed, and dropped if it is no 32-bit number |
| Negotiation.SortUnstableSorts | crates/go-plugin/src/server.rs:136-137 | the sort used on both sides orders and permutes |
| Negotiation.CollectKeys | crates/go-plugin/src/server.rs:136 | collecting a hash map's keys yields each of them once and nothing else |
| Negotiation.SupportedVersions | crates/go-plugin/src/client.rs:298-306 | the host's sorted list holds exactly the versions it supports |
| Negotiation.GreatestCommon | crates/go-plugin/src/server.rs:139-143 | the downward scan with early return finds the greatest common version, or says that there is none |
| Negotiation.NegotiateServerVersion | crates/go-plugin/src/server.rs:109-149 | what the plugin serves: the greatest common version, its least one without a host list, otherwise the handshake version, each with the matching plugins |
| Negotiation.AnswerToLine | crates/go-plugin/src/client.rs:167-179 | the host's answer to an intact line, read from the plugin's output: a core version other than 1 is refused, otherwise the version check decides |
| Negotiation.AcceptsExactly | crates/go-plugin/src/client.rs:167-176 | which lines, whoever wrote them, the host accepts, and with which version |
| Negotiation.VersionsAgree | crates/go-plugin/src/client.rs:167-179 | end to end, through environment and line: with a common version both sides end on the greatest; otherwise the host accepts exactly if it supports the plugin's handshake version |
| MelFilterbank.ColumnsAreATrapezoid | crates/etd/src/mel.rs:83-97 | over strictly increasing points the filters sum to exactly 1 from the first centre to the last, to linear ramps at the two ends, to 0 outside, and always to a value in [0, 1] |
| MelFilterbank.BinPointsIncrease | crates/etd/src/mel.rs:65-79 | equally spaced mel points become strictly increasing bin points, whatever increasing logarithm and power are used |
| MelFilterbank.OuterEdges | crates/etd/src/mel.rs:65-79 | the first and last point are the two frequencies in bins, when logarithm and power undo each other |
| MelFilterbank.PointsAreEquallySpaced | crates/etd/src/mel.rs:65-79 | the bin points, as frequencies, are equally spaced on the mel scale |
| MelFilterbank.MelScaleAnchors | crates/etd/src/mel.rs:38-45 | the scale: 0 at 0 Hz and 2595 for every factor of ten of 1 + f/700 |
| MelFilterbank.Filterbank | crates/etd/src/mel.rs:54-100 | the nested loops fill row m, column k with filter m at bin k; degenerate sizes and frequency ranges give an empty or zero matrix |
| MelFilterbank.FillTriangles | crates/etd/src/mel.rs:83-97 | the two loops, in place, over any points |
| MelFilterbank.FilterbankIsPartitionOfUnity | crates/etd/src/mel.rs:54-100 | on the matrix returned and the parameters themselves: columns from the first centre to the last, and no others, have total weight 1, none has more, and those with any weight are exactly those strictly between the two frequencies |
| MelFilterbank.NormalizeLogMel | crates/etd/src/mel.rs:147-163 | the three passes in place: each value becomes its floored logarithm, raised to 8 below the largest, shifted and scaled |
| MelFilterbank.NormalizedRange | crates/etd/src/mel.rs:147-163 | outputs lie in [-1, 1], 1 exactly for the loudest and -1 exactly for those 8 or more below; order is kept |
| MelFilterbank.NormalizedIsAffine | crates/etd/src/mel.rs:147-163 | within 8 of the loudest, differences of logarithms become quarters of themselves; values below the floor count as the floor |
| FaceCrop.RoundIsNearest | crates/tracker/src/face_mesh.rs:228-230 | rounding errs by at most a half, and halves go away from zero |
| FaceCrop.CenterIsCentred | crates/tracker/src/face_mesh.rs:213-225 | the crop of the first frame and of every fall-back is a square of 45 percent of the shorter side, centred on both axes to a pixel |
| FaceCrop.SmoothingKeepsAlmostInFrame | crates/tracker/src/face_mesh.rs:227-237 | smoothing towards a crop in the frame keeps the crop non-empty and within one pixel of the frame, although position and size are rounded separately |
| FaceCrop.SmoothedInFrameExactly | crates/tracker/src/face_mesh.rs:227-237 | for every smoothing step a run can take, exactly when its result lies in the frame, by how far the two crops are from the edge and the distance of their starts modulo ten |
| FaceCrop.SmoothingStaysInsideExactly | crates/tracker/src/face_mesh.rs:227-237 | from inside the frame it leaves the frame exactly when both crops end at the edge and their starts differ by an odd multiple of five |
| FaceCrop.SmoothingCanStickOut | crates/tracker/src/face_mesh.rs:227-237 | smoothing between crops inside the frame always stays inside if and only if the frame has at most five pixels a side |
| FaceCrop.EstimateFaceCrop | crates/tracker/src/face_mesh.rs:242-288 | the loop over at most 468 landmarks and the clipping compute `NextCrop` |
| FaceCrop.CropIsCentred | crates/tracker/src/face_mesh.rs:260-279 | the crop made for a face is a square of one and a half times its larger side, centred on it to a pixel on each axis, moved to 0 where it would begin before the frame and cut off at the far edges |
| FaceCrop.OnlyTheMeshCounts | crates/tracker/src/face_mesh.rs:248-258 | the estimate depends on the first 468 landmarks alone |
| FaceCrop.ExtentIsTight | crates/tracker/src/face_mesh.rs:248-258 | the loop's box is the smallest around the landmarks |
| FaceCrop.NextCropInFrame | crates/tracker/src/face_mesh.rs:266-287 | whatever the landmarks, the estimate is non-empty and inside a frame of at least five pixels |
| FaceCrop.MinSizeIsAFifth | crates/tracker/src/face_mesh.rs:281-287 | a crop falls back to the centre below a fifth of the shorter side |
| FaceCrop.InFrameExactlyFromFivePixels | crates/tracker/src/face_mesh.rs:281-287 | this holds for all meshes if and only if both sides have at least five pixels |
| FaceCrop.CropContainsFace | crates/tracker/src/face_mesh.rs:260-279 | whatever of a face of at least 16/3 pixels (and below 2^32 - 1) lies in the frame lies in the crop made around it, truncations and clipping included, however far the face reaches beyond |
| FaceCrop.NextCropShowsEveryLandmark | crates/tracker/src/face_mesh.rs:242-288 | so the next crop, unless it falls back to the centre, shows every landmark in the frame, wherever the others are: for every face below 2^32 - 1 pixels in frames of forty pixels a side, in smaller ones for faces of at least 16/3 pixels |
| FaceCrop.SmallFaceIsCut | crates/tracker/src/face_mesh.rs:260-288 | a face of 5.3 pixels in a frame of 39 whose edge the crop misses, without a fall back to the centre |
| FaceCrop.StrideIsThree | crates/tracker/src/face_mesh.rs:143-152 | the stride the landmark normaliser derives from the lengths is 3 whenever there are enough landmarks |
| FaceCrop.DetectKeepsInv | crates/tracker/src/face_mesh.rs:116-207 | one frame keeps: at most 30 misses, a crop is stored exactly when landmarks are, and the stored crop is almost in the frame |
| FaceCrop.RepliesExactly | crates/tracker/src/face_mesh.rs:90-207 | what comes back and what is kept for a failed inference, a miss, a frame with too few landmarks and an accepted one |
| FaceCrop.RunKeepsInv | crates/tracker/src/face_mesh.rs:63-210 | so does any run at one frame size, for the crop that is used as well as for the one stored |
| FaceCrop.MissesHoldTheLast | crates/tracker/src/face_mesh.rs:116-137 | after a good frame the landmarks are returned for exactly 30 misses in a row; the 31st forgets crop and landmarks |
| FaceCrop.ShownThenHeld | crates/tracker/src/face_mesh.rs:116-137 | what an accepted frame showed is returned for exactly the 30 misses after it |
| FaceCrop.FollowsGeometrically | crates/tracker/src/face_mesh.rs:166-192 | in the detector: while accepted frames show a landmark at one place, its stored error falls to a tenth per frame at the eye lids and to four tenths elsewhere, whatever the crop does meanwhile |
| FaceCrop.EyeLidsAre | crates/tracker/src/face_mesh.rs:290-300 | which sixteen landmarks follow faster: upper lid, lower lid and corners of both eyes |
| FaceCrop.LandsInFrameExactly | crates/tracker/src/face_mesh.rs:155-162 | exactly which raw points land in the frame, inside the network's input or not |
| FaceCrop.CropLands | crates/tracker/src/face_mesh.rs:155-162 | where a raw point lands, in pixels: 192 units span the crop, from its corner on |
| FaceCrop.FirstFrameLands | crates/tracker/src/face_mesh.rs:63-162 | where the raw points of the very first frame land, for every frame size |
| FaceCrop.LaterFrameLands | crates/tracker/src/face_mesh.rs:66-162 | the same for later frames: in the crop stored before |
| FaceCrop.CropMoves | crates/tracker/src/face_mesh.rs:194-207 | the first stored crop is the estimate; later ones move three tenths of the way to it, each number rounded, and never vanish |
| FaceCrop.InputMapsIntoFrameExactly | crates/tracker/src/face_mesh.rs:155-162 | before smoothing, all points of the network's input land in the frame if and only if the crop ends in it, whatever crop that is |
| FaceCrop.AsPromisedExactlyWhenSound | crates/tracker/src/face_mesh.rs:61-210 | for every state: the next reply lies in [0, 1], whatever the network finds in its input, if and only if the current crop ends in the frame, the stored landmarks lie in it unless a miss would drop them, and blending them with either corner of the crop stays in it |
| FaceCrop.CropDecides | crates/tracker/src/face_mesh.rs:61-210 | with all stored landmarks in [0, 1], if and only if the current crop ends in the frame |
| FaceCrop.RunAsPromisedExactly | crates/tracker/src/face_mesh.rs:61-210 | over any run in which the network keeps to its input: every frame up to the n-th is answered in [0, 1], whatever it were to show, if and only if every crop used up to then ends in the frame |
| FaceCrop.RunLandmarksNear | crates/tracker/src/face_mesh.rs:154-192 | over any run, whatever the network returns: the landmarks kept reach no further beyond the frame than raw points ever reached beyond its input, plus the one pixel of the crop |
| LeavingFace.LandmarkLeavesTheFrame | crates/tracker/src/face_mesh.rs:63-210 | a run from the start, the network keeping to its input, in which the crop comes to end one pixel beyond the frame and the next reply has a landmark at 1.01 |
| LeavingFace.LandmarkStaysOutside | crates/tracker/src/face_mesh.rs:116-137 | two frames later in that run the crop lies in the frame again, and a miss returns the stored landmark at 1.034 |
| FaceCrop.FaceMeshDetector.DetectFrame | crates/tracker/src/face_mesh.rs:63-210 | the method in place, with its early returns, is the modelled step and keeps the invariant |
| StdioStream.ReadIntoChannel | crates/go-plugin/src/grpc_stdio.rs:107-124 | with one buffer reused for every read, the i-th message is exactly what the i-th read yields; the task goes on exactly until the first read that yields nothing or the first message that the channel does not take |
| StdioStream.AllIsSent | crates/go-plugin/src/grpc_stdio.rs:107-124 | if no read fails before the end of the input and there is room for every message, all of the input is sent, in order |
| StdioStream.StepKeepsInv | crates/go-plugin/src/grpc_stdio.rs:107-229 | every step keeps, for each channel: without a failed write, written, in flight and held by the reader make up what was read; after one, the gap has its place and size; queues stay within 128 |
| StdioStream.WrittenIsAPrefix | crates/go-plugin/src/grpc_stdio.rs:107-229 | in every interleaving, with hang-ups, read errors and failed writes, what the first host writes on one channel is a prefix of what the plugin printed on that channel, unless it wrote on after a failed write |
| StdioStream.PrefixExactlyWithoutHoles | crates/go-plugin/src/grpc_stdio.rs:214-229 | a schedule keeps the prefix for all inputs of given lengths if and only if it writes nothing after a failed write |
| StdioStream.AlikeRuns | crates/go-plugin/src/grpc_stdio.rs:107-229 | a schedule does the same to inputs of the same lengths |
| StdioStream.OnlyTheFirstCallReceives | crates/go-plugin/src/grpc_stdio.rs:138-149 | every later `stream_stdio` call gets an empty, closed stream |
| StdioStream.CallsAreCounted | crates/go-plugin/src/grpc_stdio.rs:138-166 | every `stream_stdio` call opens a stream |
| StdioStream.QueuesAreBounded | crates/go-plugin/src/grpc_stdio.rs:107-166 | a read takes up to 1024 bytes; no queue ever holds more than 128 messages, and exactly a full one makes its sender wait |
| StdioStream.StoppedReadsNothing | crates/go-plugin/src/grpc_stdio.rs:112-123 | a reader that has met an error, the end or a closed queue reads nothing more |
| StdioStream.HungUpWritesNothing | crates/go-plugin/src/grpc_stdio.rs:205-229 | a host that has hung up writes nothing more |
| StdioStream.InternalStepsDecreaseWork | crates/go-plugin/src/grpc_stdio.rs:107-166 | under any schedule only finitely many steps remain |
| StdioStream.NoDeadlock | crates/go-plugin/src/grpc_stdio.rs:107-166 | while the first host listens, some task can move until all is drained |
| StdioStream.MaximalRunDeliversEverything | crates/go-plugin/src/grpc_stdio.rs:107-229 | a run without errors in which no task can move any more has written both inputs completely, each to its own writer, and closed the stream |
| StdioStream.FailedWriteLeavesAHole | crates/go-plugin/src/grpc_stdio.rs:219-225 | a run from the start: the first byte is lost in a failed write, the second one written, and the host has what the plugin did not begin with |
| StdioStream.GRPCStdioClient.ProcessStream | crates/go-plugin/src/grpc_stdio.rs:214-229 | each writer gets exactly its own channel's bytes, in order; other channels are ignored |
| StdioStream.CarriedIsBytes | crates/go-plugin/src/grpc_stdio.rs:154-157 | the channel number on the wire keeps the two apart |
| StdioStream.NumbersOnTheWire | crates/go-plugin/src/grpc_stdio.rs:154-218 | 1 and 2, and no other number, stand for the two channels |
| StdioStream.GRPCStdioServer.TakeReceiver | crates/go-plugin/src/grpc_stdio.rs:138-149 | the receiver is handed out once and replaced by a dummy |
| Agent.LlmAgent.RunToolCalls | crates/llm-agent/src/agent.rs:88-119 | the loop computes `Tools`: one result per tool use, ids in request order |
| Agent.ToolsAnswerEveryUse | crates/llm-agent/src/agent.rs:88-119 | this holds whether tools exist, fail or work |
| Agent.EveryResultReports | crates/llm-agent/src/agent.rs:88-119 | each result holds the output or the error of the first tool of that name, called with the request's own input after all calls for earlier requests, or says that there is no such tool; only an output is no error |
| Agent.Lookup | crates/llm-agent/src/tools.rs:55-60 | the first tool of that name, or none when no tool has it |
| Agent.LlmAgent.ExtractText | crates/llm-agent/src/agent.rs:134-148 | the non-empty texts joined by newlines |
| Agent.LlmAgent.RespondTo | crates/llm-agent/src/agent.rs:43-84 | the loop in place is `Respond`, and history only grows |
| Agent.TurnCountsCalls | crates/llm-agent/src/agent.rs:49-80 | one iteration makes one call to the provider and one for every request of a known tool |
| Agent.RespondShape | crates/llm-agent/src/agent.rs:43-84 | a response appends only; each tool round is answered at once by one user turn with the same ids in order; k iterations add 2k messages with k at most the limit, giving up adds one more than twice the limit, a provider error an odd number; an answer is the text of the last message |
| Agent.RolesAlternateExactlyWhenAnswered | crates/llm-agent/src/agent.rs:43-84 | user and assistant alternate through a conversation if and only if every response before the last ended with an answer |
| Agent.FailuresPileUpUserTurns | crates/llm-agent/src/agent.rs:43-56 | with a provider that cannot be reached two utterances leave two user turns in a row |
| Agent.ToolUsesStayAnswered | crates/llm-agent/src/agent.rs:65-80 | a response leaves a tool use without its results if and only if it ends on an answer that still asks for tools |
| Agent.UsesAnsweredExactly | crates/llm-agent/src/agent.rs:43-84 | over whole conversations, by the provider's behaviour alone: every tool use has its results if and only if no request that is really made is answered by asking for tools and stopping for another reason; once left, a tool use stays unanswered |
| Agent.WellBehavedProvider | crates/llm-agent/src/agent.rs:43-84 | with a provider that never does so, nothing is left unanswered in any conversation |
| Agent.CutOffLeavesItUnanswered | crates/llm-agent/src/agent.rs:65-69 | with a provider whose answers are cut off in the middle of a tool request, that request stays unanswered |
| Agent.SpeechRunner.Drain | crates/llm-agent/src/speech.rs:82-102 | one outcome per non-blank transcript, failures included, in queue order and each on the history left by those before, until the consumer has left |
| Agent.BlankIsWhite | crates/llm-agent/src/speech.rs:82-102 | the transcripts passed over are those of nothing but white space |
| Agent.UnreachableOutcome | crates/llm-agent/src/speech.rs:82-102 | what the consumer is told when the provider cannot be reached |
| Agent.EndlessOutcome | crates/llm-agent/src/agent.rs:82-84 | what it is told when the model never stops asking for tools |
| CommandReplay.ReplayInner | crates/lua-imgui/src/commands.rs:145-174 | the loop makes the calls of the widgets in a slice |
| CommandReplay.OwnIsInvertible | crates/lua-imgui/src/commands.rs:145-174 | brackets, tree nodes and text inputs show nothing; every other command makes one call, from which it can be told with all its arguments |
| CommandReplay.InnerShowsTheCommands | crates/lua-imgui/src/commands.rs:145-174 | the calls made in a window are its showing commands, each once, in order, with all their arguments |
| CommandReplay.FindMatchingEnd | crates/lua-imgui/src/commands.rs:118-133 | the depth counter finds the index it should, in bounds on any buffer |
| CommandReplay.ReplayNested | crates/lua-imgui/src/commands.rs:112-143 | the two loops together, as effects on the user interface |
| CommandReplay.ScanIsParse | crates/lua-imgui/src/commands.rs:118-133 | the depth counter stops at the bracket where a recursive parser stops |
| CommandReplay.InnerIsLeaves | crates/lua-imgui/src/commands.rs:145-174 | the flat pass over a window draws the leaves of its whole subtree in order |
| CommandReplay.ReplayIsMeaning | crates/lua-imgui/src/commands.rs:112-143 | on every buffer, balanced or not, replaying shows the meaning of the forest the buffer parses to |
| CommandReplay.ParseUndoesPrint | crates/lua-imgui/src/commands.rs:112-143 | every printed forest is parsed back |
| CommandReplay.ReplayOfPrint | crates/lua-imgui/src/commands.rs:112-174 | replaying a printed forest shows its top-level windows in order, each with the leaves of its whole subtree |
| CommandReplay.ReplayOfRepair | crates/lua-imgui/src/commands.rs:112-143 | an unbalanced buffer shows what its balanced repair shows |

## Left out

- Rounding of 32-bit floats: reals instead, so infinities and NaN (a sample rate of 0, a frame of size 0) are not modelled.
- Segmenter.OnlineIsOffline: settings stay the same through a recording; what holds when they change is in `SegmenterCalls`.
- Negotiation.HostReadsTheLine: a pipe printed earlier on the same line, which shifts the fields, is left to `LineIsRead`.
- MelFilterbank.BinPointsIncrease: asks for frequencies above -700 Hz, where the mel scale is defined.
- The FFT and the product of filters and power spectrum in `log_mel_spectrogram`.
- FrameCapture.FrameCapturer.EnsureFrameCapture: asks for sizes whose buffer length fits 32 bits, beyond which `scene.rs` overflows.
- The GPU's own work, pipelines, shaders, windowing and the rest of the application's event handling.
- Brokers: the transport under a stream, the four bytes of an id on it (both ends use little-endian, against a comment in the handler), read errors before the id is complete, and the gRPC broker's own `accept` and `dial` variants over sockets.
- Brokers.ConnectionBroker.CloseBroker: does not drop the gRPC broker's outbound stream sender, which no step here uses.
- Brokers.ConnectionBroker.HandleInboundStream: runs its three steps in one go; interleavings are covered by the step relation.
- PluginHost: `load_wasm_manifest`, path lists, metadata and health checks, which use the same registration.
- PluginAbi.Invoke: error texts stay bytes; the lossy conversion to UTF-8 is not modelled, nor is panic unwinding itself.
- Negotiation.SortUnstableSorts: the library sort is an insertion sort here; only order and elements matter.
- Negotiation: starting the plugin process, reading its line with a time limit, parsing the address, TLS and the magic cookie.
- FaceCrop: cropping and scaling the image, the network, and the other crate users of its landmarks.
- StdioStream: pipes of the operating system and the HTTP/2 transport, which is taken to be reliable and in order.
- StdioStream.GRPCStdioServer.TakeReceiver: only the swap; the forwarding task and its stream are steps of the system.
- StdioStream.GRPCStdioClient.ProcessStream: its writers do not fail; failing ones are a step of the system instead.
- Agent: the providers, JSON of tool inputs, and `SpeechRunner::step`, which differs from `run` only in passing errors on.
- Agent: transcripts that the speech callback drops when the queue is full.
- CommandReplay: `replay`, the variant without nesting, and windows that the user interface reports as collapsed.
- The VRM solvers, hand tracking, resampler, frame chunker, hex codec, light and blink cycles: easier than what is here.
