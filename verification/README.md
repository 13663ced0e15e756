# Verified models of three parts of the JavaFX tree

This project models, in Dafny, code of the repository that is hard to get right by reading, and proves what that
code is for. Every theorem is stated for all inputs, all runs or all images.

**The GL trace tools (`tools/gltrace`).** A recorder intercepts GL and EGL calls and appends each one to a binary log
that is written through 1 MiB mapped chunks, under a recursive lock, by any number of threads. A replayer parses the
log. The format is not self-describing: what `glDrawElements` writes depends on buffer bindings and enabled vertex
attributes that both programs track on their own. The main results are
`TraceRoundTrip.ReplayInverts` (replaying a recording of any length gives back exactly the recorded calls, with both
shadow states in lockstep), `TraceSession.RecordAndReplay` (the same from end to end, through the chunked writer, the
file header and the reader), `TraceThreads.LogExplained` (what the log is after every interleaving of threads and every
nesting of commands) and `TraceConcurrent.SharedReplayIff` (threads that share a GL context: the replay of their log is
exact if and only if every draw drew like the shadow state that the log makes). `TraceHistory` states what a replayed
draw holds in terms of the arguments of the calls before it, and `TraceFrames` where the frame limit stops the replay.

**The software effects (`modules/graphics/src/main/native-decora`).** Box blur, box shadow and linear convolution are
fast forms of simple sums. The methods keep the arrays, offsets, running sums and ring buffers of the original and are
proved to draw the simple form: `BoxBlurPasses.FilterHorizontal`, `BoxBlurPasses.FilterVertical`, the three box shadow
passes, `LinearConvolve.FilterHV`, `ConvolveShadow.ShadowHV`, `Sampling.LAccumSample` and
`VectorFilter.FilterVector`. The laws of the simple forms are lemmas: exactness of the fixed-point
reciprocal (if and only if), conservation, monotonicity, premultiplied colours, transposition, and
`VectorFilter.VectorIsConv`: the sampling path and the ring-buffer path agree on every image and kernel.

**Three small state machines.** The name splitter of `fontpath.c` that cuts up the buffer it reads, the growing outline
arrays of `freetype.c`, and the three prefetch slots of the slide show.

Modelling choices: integers are unbounded, and 32-bit patterns, shifts and products that have to fit into a `jint` are
explicit (`Words`, `BoxBlur.ScaledFits`). `jfloat` values of the effects are real numbers. Floats in a trace are their
32-bit patterns. Words in a trace are little-endian. The pixels of a picture are described by `Canvas.Drawn`: every cell
of the destination has its value and nothing outside the destination has changed.

Properties that turn out not to hold of the code are stated with the exact condition under which they do:

- `getFloatPtr` does not consume the second word after a marker: it stays in step if and only if the pointer was
  neither NULL nor pointed at the marker (`TraceValues.FloatPtrRoundTrip`, `TraceRoundTrip.TurnIffSteady`). The
  replay of any run is exact up to the first such pointer (`TraceRoundTrip.ReplayUntilUnsteady`).
- `getPtr` sign-extends 4-byte pointers: they survive if and only if they lie below 2 GiB (`TraceValues.PtrSurvives`).
- The replayer gives up at `glBlendColor`, `glUniform2i`, `glUniform3i`, `glUniform4i`, `glUniform4iv` and
  `eglTerminate`, which the recorder writes (`TraceOpcodes.LayoutsAgree`), and at EGL attribute lists of 32 or more
  pairs. `TraceReplayer.Replayable` is this condition; the replay is exact up to the first such call.
- The box blur averages if and only if `0x7fffffff % (size * 255) < 2^23`; 33026 columns is a window that fails
  (`BoxBlur.RoundsIffExact`, `BoxBlur.InexactExample`).
- Without spread the box shadow is the alpha channel of the box blur if and only if
  `(size - 1) * kscale < 2^23 <= size * kscale`, which holds up to 256 columns and fails at 257
  (`BoxShadow.AgreeIff`, `BoxShadow.UnlikeExample`).
- A draw is decoded as itself, from exactly its own bytes, if and only if recorder and replayer have the same client
  arrays and agree on whether an element buffer is bound, or pointers have 4 bytes and the index word is zero, which
  both getters read as NULL (`TraceDraws.DrawIff`). When threads share a context this can fail, because `glBindBuffer`
  updates its shadow after releasing the lock and nested calls update it without being logged:
  `TraceRaces.RaceIff` and `TraceRaces.NestedIff` say exactly when such runs are misread. The replay of a run is exact
  if and only if all its draws are alike (`TraceConcurrent.SharedReplayIff`), and runs that avoid both are
  (`TraceOrder.InterleavedReplay`).
- A channel of the coloured box shadow grows with coverage and spread if and only if its level just below full coverage
  does not exceed the level at it; 100 columns and a component of 0.999 fail (`BoxShadow.TintCoverageIff`,
  `BoxShadow.TintSpreadIff`, `BoxShadow.UnsettledExample`).
- The outline coordinates survive the cast to `float` if and only if they have at most 24 significant bits;
  16777217 does not (`Outline.OutlineRoundTrip`, `FloatCast.InexactExample`).
- With images kept, a slide show waits for an image that was never requested if and only if its first move goes
  backwards from the first file of a loop (`SlideShow.StallsIff`); with images not kept, every reversal waits
  (`SlideShow.StallsWithoutKeeping`).

## Model

| member | source | states |
|---|---|---|
| `TraceValues.IntPtrRoundTrip` | tools/gltrace/iolib.c:185-202 | the marker escape separates NULL from a value equal to the marker; the reader is in step afterwards |
| `TraceValues.FloatPtrRoundTrip` | tools/gltrace/iolib.c:378-391 | the value comes back, and the reader is in step if and only if the pointer was neither NULL nor at the marker |
| `TraceValues.StringRoundTrip` | tools/gltrace/iolib.c:270-292 | strings come back, NULL as the empty string, with the padding skipped |
| `TraceValues.BlobRoundTrip` | tools/gltrace/iolib.c:294-314 | blobs come back, with the padding skipped; a negative size reads as NULL |
| `TraceValues.PtrRoundTrip` | tools/gltrace/iolib.c:402-409 | pointers of either word size come back sign-extended |
| `TraceValues.PtrSurvives` | tools/gltrace/iolib.c:402-409 | a pointer is unchanged if and only if it is 8 bytes wide or below 2 GiB |
| `TraceValues.ValuesRoundTrip` | tools/gltrace/iolib.c:344-436 | any sequence of in-step values, read with the matching getters, comes back and leaves exactly what follows it |
| `TraceOpcodes.LayoutsAgree` | tools/gltrace/retrace.c:2486-2530 | for every opcode with a fixed payload the replayer reads the kinds the recorder writes, or is one of the six that are recorded only |
| `TraceProtocol.CommandSteps` | tools/gltrace/iolib.c:156-174 | putCmd, any puts, putTime and endCmd add one whole record, or nothing when nested |
| `TraceWriter.Writer.Init` | tools/gltrace/iolib.c:69-73 | the log starts with the five header words |
| `TraceWriter.Writer.Fini` | tools/gltrace/iolib.c:110-120 | the file is exactly the bytes of everything put |
| `TraceWriter.Writer.Enlarge` | tools/gltrace/iolib.c:126-154 | a fresh chunk is mapped behind the full one and the log does not change |
| `TraceWriter.Writer.Copy` | tools/gltrace/iolib.c:279-290 | the copy loop appends exactly its bytes across any number of chunks, and ends even when no space is left |
| `TraceWriter.Writer.Pad` | tools/gltrace/iolib.c:291-291 | the padding loop appends zeros up to the next word and stays inside the chunk |
| `TraceWriter.Writer.PutInt` | tools/gltrace/iolib.c:176-183 | appends one value unless nested; the cursor stays aligned |
| `TraceWriter.Writer.PutIntPtr` | tools/gltrace/iolib.c:185-202 | appends the escaped value unless nested |
| `TraceWriter.Writer.PutFloat` | tools/gltrace/iolib.c:204-211 | appends one value unless nested |
| `TraceWriter.Writer.PutFloatPtr` | tools/gltrace/iolib.c:213-230 | appends the escaped value unless nested |
| `TraceWriter.Writer.PutLongLong` | tools/gltrace/iolib.c:232-249 | appends eight bytes, across a chunk end if need be, unless nested |
| `TraceWriter.Writer.PutPtr` | tools/gltrace/iolib.c:251-268 | appends a pointer of the recorder's word size, unless nested |
| `TraceWriter.Writer.PutString` | tools/gltrace/iolib.c:270-292 | appends the terminated and padded string, a zero word for NULL, unless nested |
| `TraceWriter.Writer.PutBytes` | tools/gltrace/iolib.c:294-314 | appends size and padded bytes, size 0 for NULL, no bytes for a negative size, unless nested |
| `TraceWriter.Writer.PutCmd` | tools/gltrace/iolib.c:160-174 | takes the lock; the outermost command announces a new thread and its opcode |
| `TraceWriter.Writer.EndCmd` | tools/gltrace/iolib.c:324-329 | releases one level of the lock |
| `TraceWriter.Writer.PutTime` | tools/gltrace/iolib.c:316-322 | both times, then endCmd |
| `TraceThreads.OwnerOnlyHolds` | tools/gltrace/iolib.c:156-174 | in every run only the lock owner is inside a command, as deep as the reentrance count |
| `TraceThreads.LogExplained` | tools/gltrace/iolib.c:156-174 | after every run the log is the whole finished outermost records plus at most one unfinished record of the owner |
| `TraceThreads.ProgramOrder` | tools/gltrace/iolib.c:316-329 | the finished records of each thread are its own outermost commands in program order |
| `TraceThreads.NestedIsSilent` | tools/gltrace/iolib.c:160-183 | a nested command of a run, with all puts and commands inside it, leaves the log as it was |
| `TraceThreads.AnnouncedOnChange` | tools/gltrace/iolib.c:166-171 | the records of one thread follow each other without announcements |
| `TraceThreads.RecordsRoundTrip` | tools/gltrace/retrace.c:2475-2484 | a log of records is read back record by record, each under the thread that issued it, by a reader that is given the kinds of the values of each record |
| `TraceThreads.InterleavedRoundTrip` | tools/gltrace/retrace.c:2475-2484 | after every interleaving that ends outside all commands, a reader that is given the kinds of the values of each record decodes the finished records, each under its thread, each thread's in program order |
| `TraceRecorder.PackedFetch` | tools/gltrace/gles.c:193-206 | fetching a vertex from the packed blob with stride 0 gives the bytes that pointer and stride gave |
| `TraceHistory.BindingsAreLast` | tools/gltrace/gles.c:275-280 | after any run the two bindings are the buffers of the last glBindBuffer for their targets |
| `TraceHistory.SwitchesAreLast` | tools/gltrace/gles.c:1005-1020 | an attribute is enabled if and only if it was last enabled and not disabled |
| `TraceHistory.PointersAreLast` | tools/gltrace/gles.c:2225-2249 | size, type, normalization, stride and pointer of an attribute are the arguments of its last glVertexAttribPointer |
| `TraceHistory.DrawFetches` | tools/gltrace/gles.c:180-207 | after any run a client-side draw carries, for every attribute switched on and every vertex below the packed count, the bytes that the arguments of the last glVertexAttribPointer and the memory define |
| `TraceHistory.DrawIndices` | tools/gltrace/gles.c:970-975 | a draw without element buffer carries index after index as it lies in memory |
| `TraceHistory.QuadsAreCovered` | tools/gltrace/gles.c:163-163 | the packed count covers every index of a draw of quads and is reached by the last one |
| `TraceHistory.EventTellsCall` | tools/gltrace/retrace.c:2486-2530 | with 8-byte pointers a replayed call holds the arguments and results of the call that was made |
| `TraceHistory.IssuesAt` | tools/gltrace/retrace.c:2473-2486 | every replayable call is issued in its place, with its thread and its times |
| `TraceHistory.EglListLimit` | tools/gltrace/retrace.c:3482-3491 | an EGL attribute list stops the replayer if and only if it has 32 pairs or more |
| `TraceGl.Pack` | tools/gltrace/gles.c:195-204 | the copy loops fill the buffer with the packed vertices and stay inside it |
| `TraceGl.GlRecorder.LargestPacked` | tools/gltrace/gles.c:184-190 | the shared buffer is large enough for every enabled attribute |
| `TraceGl.GlRecorder.PutVertexAttrib` | tools/gltrace/gles.c:180-207 | one blob for each enabled attribute, in ascending order |
| `TraceGl.GlRecorder.Fixed` | tools/gltrace/gles.c:210-224 | a call with a fixed payload adds one whole record |
| `TraceGl.GlRecorder.IdList` | tools/gltrace/gles.c:823-842 | the count and every identifier |
| `TraceGl.GlRecorder.ShaderSource` | tools/gltrace/gles.c:1704-1730 | each source string as a blob or as a string, by its length |
| `TraceGl.GlRecorder.ActiveUniform` | tools/gltrace/gles.c:1209-1233 | results are written exactly for the pointers that are not NULL |
| `TraceGl.GlRecorder.EglCreate` | tools/gltrace/egl.c:207-233 | the attribute pairs up to the terminator, then the result |
| `TraceGl.GlRecorder.DrawElements` | tools/gltrace/gles.c:962-987 | pointer or index blob by the element binding; vertex blobs when no array buffer is bound |
| `TraceGl.GlRecorder.Note` | tools/gltrace/gles.c:275-280 | glBindBuffer, glEnable/DisableVertexAttribArray and glVertexAttribPointer change the bindings and attribute records, each exactly its own part; no other call does |
| `TraceGl.GlRecorder.Record` | tools/gltrace/gles.c:261-283 | any call: one record, and the shadow state after it |
| `TraceReader.Reader.Open` | tools/gltrace/iolib.c:75-107 | the header is consumed; a file that is no trace is refused, and so is a word size other than 4 and 8 |
| `TraceReader.Reader.GetCmd` | tools/gltrace/iolib.c:335-342 | the next word, or OPC_EOF without moving when fewer than four bytes are left |
| `TraceReader.Reader.GetInt` | tools/gltrace/iolib.c:344-351 | the next word, or 0 without moving when fewer than four bytes are left |
| `TraceReader.Reader.GetIntPtr` | tools/gltrace/iolib.c:353-367 | one word, or after the marker a second one, which is NULL if it is 0; the cursor moves over what was read; nothing is read past the mapping |
| `TraceReader.Reader.GetFloatPtr` | tools/gltrace/iolib.c:378-391 | the value of the word behind a marker, NULL if it is 0.0, but the cursor moves over one word only |
| `TraceReader.Reader.GetLongLong` | tools/gltrace/iolib.c:393-400 | the next eight bytes, or 0 without moving when fewer are left |
| `TraceReader.Reader.GetPtr` | tools/gltrace/iolib.c:402-409 | the next pointer of the recorded word size, sign-extended, or 0 without moving when fewer bytes are left |
| `TraceReader.Reader.GetString` | tools/gltrace/iolib.c:411-421 | the text up to its terminator; the cursor behind the padding |
| `TraceReader.Reader.GetBytes` | tools/gltrace/iolib.c:423-436 | the blob; the cursor behind the padding |
| `TraceRetrace.Retracer.ReadArrays` | tools/gltrace/retrace.c:2807-2814 | one blob for each enabled attribute, in ascending order |
| `TraceRetrace.Retracer.ReadDrawElements` | tools/gltrace/retrace.c:2802-2817 | decodes by the replayer's own bindings and attributes |
| `TraceRetrace.Retracer.ReadActiveUniform` | tools/gltrace/retrace.c:2902-2923 | reads results exactly for the pointers that are not NULL |
| `TraceRetrace.Retracer.ReadEglCreate` | tools/gltrace/retrace.c:3478-3503 | reads the attribute pairs, and stops when they do not fit into 64 integers |
| `TraceRetrace.Retracer.ReadEvent` | tools/gltrace/retrace.c:2486-2530 | decodes one command of any kind |
| `TraceRetrace.Retracer.Note` | tools/gltrace/retrace.c:2513-2524 | the same updates on the replayer side, without stride and pointer |
| `TraceRetrace.Retracer.Next` | tools/gltrace/retrace.c:2473-2486 | one turn of the loop: thread prefix, command, times |
| `TraceRetrace.Retracer.Process` | tools/gltrace/retrace.c:2468-2484 | the whole loop is the replay function, with the same final state when the log is used up |
| `TraceFrames.FrameLimit` | tools/gltrace/retrace.c:3649-3654 | replaying any bytes with a limit gives what replaying them without one gives, up to and including the last eglSwapBuffers that the limit allows |
| `TraceFrames.IssuesLimit` | tools/gltrace/retrace.c:3649-3654 | the recorded calls under a limit are those up to and including that eglSwapBuffers |
| `TraceFrames.NoLimit` | tools/gltrace/retrace.c:2473-2473 | a negative limit is none |
| `TraceDraws.ArraysReadBack` | tools/gltrace/retrace.c:2807-2814 | if both sides have the same client arrays, in the same attributes and formats when the calls are executed and in the same number otherwise, the vertex blobs are read back |
| `TraceDraws.DrawReadsBack` | tools/gltrace/retrace.c:2802-2817 | if the two sides draw alike, a draw is read back whole and nothing more is consumed; they do even with different element bindings when pointers have 4 bytes and the index word is zero |
| `TraceDraws.DrawIff` | tools/gltrace/retrace.c:2802-2817 | a draw is decoded as itself from exactly its own bytes if and only if the two sides draw alike: the same client arrays, and the same element binding or, with 4-byte pointers, a zero index word |
| `TraceDraws.DrawGoesWrong` | tools/gltrace/retrace.c:2802-2817 | otherwise it is decoded as another draw, runs past the end of the log, or, with 8-byte pointers and a NULL index, leaves the replayer exactly one word off |
| `TraceDraws.ShiftedTimes` | tools/gltrace/iolib.c:438-443 | times read one word off are wrong unless begin and end are equal, and leave the wrong rest |
| `TraceRoundTrip.EventReadsBack` | tools/gltrace/retrace.c:2486-2530 | every recordable call in step is read back whole, a draw if the two sides draw alike, or stops the replay if it is not replayable |
| `TraceRoundTrip.FixedFallsBehind` | tools/gltrace/iolib.c:378-391 | a call whose float pointer is out of step is decoded with its values and leaves exactly one word over |
| `TraceRoundTrip.LockstepStep` | tools/gltrace/retrace.c:951-963 | every call moves both shadow states alike, whatever shadow state its payload was taken from |
| `TraceRoundTrip.TurnReadsBack` | tools/gltrace/retrace.c:2473-2486 | one turn reads one record in step, with its thread and times, and leaves the rest |
| `TraceRoundTrip.TurnIffSteady` | tools/gltrace/retrace.c:2473-2486 | a turn decodes the call and its thread, and leaves exactly what follows the record if and only if no float pointer of the call is out of step |
| `TraceRoundTrip.TurnIffAlike` | tools/gltrace/retrace.c:2802-2817 | a turn reads a draw with its thread and times from exactly its own bytes if and only if the two sides draw alike; if the draw took time, it is otherwise not even replayed as itself |
| `TraceRoundTrip.ReplayIff` | tools/gltrace/retrace.c:2468-2484 | replaying the log of any calls, each taken from a shadow state of its own, reads back the calls, each from its own bytes, if and only if every draw drew like the state that the logged calls before it make; if the draws took time, this can be told from the replayed calls alone; then the log is used up and the replayer ends in that state |
| `TraceRoundTrip.ReplayInverts` | tools/gltrace/retrace.c:2468-2484 | replaying any recording whose float pointers are in step gives the recorded calls up to the frame limit or the first call that is not replayable; without either the log is used up and the shadow states agree at the end |
| `TraceRoundTrip.ReplayUntilUnsteady` | tools/gltrace/retrace.c:2468-2484 | replaying a recording of any calls at all gives back the recorded calls up to the first float pointer that is out of step |
| `TraceSession.HeaderReadsBack` | tools/gltrace/iolib.c:93-106 | the header words are read back |
| `TraceSession.RecordRun` | tools/gltrace/iolib.c:110-120 | recording any run through the chunked writer leaves the header and the recording in the file |
| `TraceSession.RecordSteps` | tools/gltrace/iolib.c:156-174 | any interleaving of putCmd, put and endCmd steps goes through the chunked writer into the file, which outside all commands holds the header and the finished records |
| `TraceSession.RecordAndReplay` | tools/gltrace/retrace.c:2468-2484 | record, close, open and replay, for float pointers in step: exactly the recorded calls, each under its thread |
| `TraceConcurrent.RunMirrors` | tools/gltrace/gles.c:261-283 | every run of threads that share a shadow state, with the late update of glBindBuffer as a step of its own, is a run of the log with the same owner, finished and open commands |
| `TraceConcurrent.SharedReplayIff` | tools/gltrace/retrace.c:2468-2484 | for every such run that ends outside all commands, the replay reads back the outermost commands, each under its thread and from its own bytes, if and only if every draw drew like the state that the logged commands before it make; if the draws took time, this can be told from the replayed commands alone |
| `TraceOrder.DisciplinedIsOrdered` | tools/gltrace/gles.c:273-280 | if no thread begins a command before another has updated the shadow for its glBindBuffer and no nested command changes the shadow, every draw is taken from the state of its place in the log |
| `TraceOrder.InterleavedReplay` | tools/gltrace/retrace.c:2468-2484 | for every run that keeps this discipline, the replay reads back the outermost commands, each under its thread and from its own bytes; replayed to the end it uses up the log and ends in the recorder's shadow state |
| `TraceOrder.InterleavedPrefix` | tools/gltrace/retrace.c:2468-2484 | disciplined runs of any calls at all are given back up to the first float pointer that is out of step |
| `TraceRaces.RaceIff` | tools/gltrace/gles.c:273-280 | two threads: one binds an element buffer, the other draws before the shadow is updated; the run is possible, and it is replayed exactly if and only if pointers have 4 bytes and the index word is zero |
| `TraceRaces.NestedIff` | tools/gltrace/iolib.c:164-164 | one thread: a buffer is bound inside another call, which is not logged; the next draw is replayed exactly if and only if pointers have 4 bytes and the index pointer is NULL |
| `TraceSharedSession.RecordAndReplayShared` | tools/gltrace/retrace.c:2468-2484 | recorded step by step by any threads through the chunked writer and replayed from the file, the commands of a run come back if every draw drew alike, and only then if the draws took time; in particular if the run keeps the discipline |
| `Pixels.UnpackPacked` | modules/graphics/src/main/native-decora/SSEBoxBlurPeer.cc:72-76 | each channel of a packed pixel is the byte that was packed |
| `Pixels.PackUnpacked` | modules/graphics/src/main/native-decora/SSEBoxBlurPeer.cc:58-71 | packing the channels of a pixel gives the pixel |
| `Pixels.BytesOfPixel` | modules/graphics/src/main/native-decora/SSEBoxBlurPeer.cc:72-76 | in little-endian memory a packed pixel is blue, green, red, alpha |
| `Canvas.CellsDiffer` | modules/graphics/src/main/native-decora/SSELinearConvolvePeer.cc:131-174 | distinct positions have distinct offsets, for horizontal and vertical strides alike |
| `BoxWindow.WindowSlides` | modules/graphics/src/main/native-decora/SSEBoxBlurPeer.cc:58-71 | taking one column out and one in slides the window sum |
| `BoxWindow.WindowsConserve` | modules/graphics/src/main/native-decora/SSEBoxBlurPeer.cc:49-80 | all window sums of a line together are the window size times the line's total |
| `BoxBlur.ScaledFits` | modules/graphics/src/main/native-decora/SSEBoxBlurPeer.cc:72-76 | sum times kscale never overflows a jint and ends in 0..255 |
| `BoxBlur.RoundsIffExact` | modules/graphics/src/main/native-decora/SSEBoxBlurPeer.cc:49-50 | all sums come out as the floor or ceiling of their mean if and only if the reciprocal is exact |
| `BoxBlur.SmallIsExact` | modules/graphics/src/main/native-decora/SSEBoxBlurPeer.cc:49-50 | the reciprocal is exact up to size * 255 <= 2^23 |
| `BoxBlur.FlatIffExact` | modules/graphics/src/main/native-decora/SSEBoxBlurPeer.cc:72-76 | a flat non-zero window keeps its value if and only if the reciprocal is exact |
| `BoxBlur.InexactExample` | modules/graphics/src/main/native-decora/SSEBoxBlurPeer.cc:49-50 | a white window of 33026 columns comes out as 254 |
| `BoxBlur.BlurAverages` | modules/graphics/src/main/native-decora/SSEBoxBlurPeer.cc:49-80 | every output channel is the window mean rounded down or up |
| `BoxBlur.BlurKeepsFlat` | modules/graphics/src/main/native-decora/SSEBoxBlurPeer.cc:49-80 | a flat window of value v gives v |
| `BoxBlur.BlurConserves` | modules/graphics/src/main/native-decora/SSEBoxBlurPeer.cc:49-80 | the output total of a line differs from its source total by less than the output width |
| `BoxBlur.BlurKeepsPremultiplied` | modules/graphics/src/main/native-decora/SSEBoxBlurPeer.cc:72-76 | premultiplied lines stay premultiplied |
| `BoxBlurPasses.BlurRow` | modules/graphics/src/main/native-decora/SSEBoxBlurPeer.cc:54-77 | the running sums of a line draw the window means |
| `BoxBlurPasses.FilterHorizontal` | modules/graphics/src/main/native-decora/SSEBoxBlurPeer.cc:35-80 | draws the blur of every line and changes nothing else |
| `BoxBlurPasses.FlatTest` | modules/graphics/src/main/native-decora/SSEBoxBlurPeer.cc:102-113 | comparing flat offsets tells whether the window has filled up, for every column |
| `BoxBlurPasses.FilterVertical` | modules/graphics/src/main/native-decora/SSEBoxBlurPeer.cc:87-132 | draws the blur of every column and changes nothing else |
| `BoxBlurPasses.PassKeepsPremultiplied` | modules/graphics/src/main/native-decora/SSEBoxBlurPeer.cc:124-128 | both passes draw premultiplied images from premultiplied images |
| `BoxBlurPasses.VerticalIsTransposed` | modules/graphics/src/main/native-decora/SSEBoxBlurPeer.cc:100-132 | the vertical pass over a transposed image is the transposed horizontal pass |
| `BoxShadow.MoreCoverage` | modules/graphics/src/main/native-decora/SSEBoxShadowPeer.cc:50-76 | the shadow is monotone in the coverage of the window |
| `BoxShadow.MoreSpread` | modules/graphics/src/main/native-decora/SSEBoxShadowPeer.cc:50-76 | the shadow is monotone in the spread |
| `BoxShadow.AmaxInterpolates` | modules/graphics/src/main/native-decora/SSEBoxShadowPeer.cc:51-53 | the coverage that counts as opaque runs from the whole window at spread 0 to one full column at spread 1, rounded up |
| `BoxShadow.AlphaIsScaled` | modules/graphics/src/main/native-decora/SSEBoxShadowPeer.cc:69-72 | between the clamps the level is the sum on the scale up to that coverage, within two levels |
| `BoxShadow.AgreeIff` | modules/graphics/src/main/native-decora/SSEBoxShadowPeer.cc:50-76 | without spread it agrees with the blur on every sum if and only if the reciprocal meets a condition |
| `BoxShadow.SmallIsLikeBlur` | modules/graphics/src/main/native-decora/SSEBoxShadowPeer.cc:50-76 | the condition holds up to 256 columns |
| `BoxShadow.UnlikeExample` | modules/graphics/src/main/native-decora/SSEBoxShadowPeer.cc:50-76 | with 257 columns the shadow drops a sum that the blur shows |
| `BoxShadow.ShadowPremultiplied` | modules/graphics/src/main/native-decora/SSEBoxShadowPeer.cc:148-187 | a premultiplied colour casts premultiplied shadows |
| `BoxShadow.TintCoverageIff` | modules/graphics/src/main/native-decora/SSEBoxShadowPeer.cc:170-181 | a channel of the coloured shadow is monotone in the coverage if and only if its level just below full coverage does not exceed the level at it |
| `BoxShadow.TintSpreadIff` | modules/graphics/src/main/native-decora/SSEBoxShadowPeer.cc:148-181 | it is monotone in the spread under the same condition, and only then unless the spread changes nothing |
| `BoxShadow.UnsettledExample` | modules/graphics/src/main/native-decora/SSEBoxShadowPeer.cc:162-181 | with 100 columns and a component of 0.999 a nearly covered pixel is brighter than a covered one |
| `BoxShadow.OpaqueSettles` | modules/graphics/src/main/native-decora/SSEBoxShadowPeer.cc:162-181 | a component of 1 always meets the condition |
| `BoxShadow.TintIsPart` | modules/graphics/src/main/native-decora/SSEBoxShadowPeer.cc:162-181 | each channel is its component times the black shadow, less than one level too much and less than two too little for windows up to 2^23 |
| `BoxShadowPasses.FilterHorizontalBlack` | modules/graphics/src/main/native-decora/SSEBoxShadowPeer.cc:36-76 | draws the clamped and scaled alpha windows of every line |
| `BoxShadowPasses.FilterVerticalBlack` | modules/graphics/src/main/native-decora/SSEBoxShadowPeer.cc:83-124 | the same for columns |
| `BoxShadowPasses.FilterVerticalTinted` | modules/graphics/src/main/native-decora/SSEBoxShadowPeer.cc:131-187 | the same with the shadow colour |
| `BoxShadowPasses.ShadowIsBlurAlpha` | modules/graphics/src/main/native-decora/SSEBoxShadowPeer.cc:50-76 | without spread, a black pass draws the alpha channel of the blur pass whenever the reciprocal meets the condition of AgreeIff |
| `BoxShadowPasses.SmallShadowIsBlurAlpha` | modules/graphics/src/main/native-decora/SSEBoxShadowPeer.cc:50-76 | in particular up to 256 columns |
| `BoxShadowPasses.TintedBlackIsBlack` | modules/graphics/src/main/native-decora/SSEBoxShadowPeer.cc:148-187 | opaque black through the coloured pass is the black pass |
| `BoxShadowPasses.SpreadDarkens` | modules/graphics/src/main/native-decora/SSEBoxShadowPeer.cc:50-76 | more spread never lightens a pixel of a pass |
| `BoxShadowPasses.BlackIsScaled` | modules/graphics/src/main/native-decora/SSEBoxShadowPeer.cc:36-76 | a black pass is transparent below a 255th of the opaque coverage, opaque from that coverage on, and the scaled sum between |
| `BoxShadowPasses.FullSpreadIsOpaque` | modules/graphics/src/main/native-decora/SSEBoxShadowPeer.cc:51-53 | with spread 1 a pixel is opaque as soon as its window sum is at least 255 |
| `BoxShadowPasses.CoverageDarkens` | modules/graphics/src/main/native-decora/SSEBoxShadowPeer.cc:50-76 | more alpha in the source never lightens a pixel of a pass |
| `BoxShadowPasses.TintedStaysPremultiplied` | modules/graphics/src/main/native-decora/SSEBoxShadowPeer.cc:148-187 | a premultiplied colour draws premultiplied images, whatever the source |
| `BoxShadowPasses.CoverageDarkensTinted` | modules/graphics/src/main/native-decora/SSEBoxShadowPeer.cc:148-187 | more alpha in the source never lowers a channel of a coloured pass that meets the condition of TintCoverageIff |
| `BoxShadowPasses.SpreadDarkensTinted` | modules/graphics/src/main/native-decora/SSEBoxShadowPeer.cc:148-187 | more spread never lowers a channel of a coloured pass that meets that condition |
| `BoxShadowPasses.TintedIsPart` | modules/graphics/src/main/native-decora/SSEBoxShadowPeer.cc:148-187 | a coloured pass draws each component times the black pass, less than one level too much or two too little |
| `Convolution.RingTurns` | modules/graphics/src/main/native-decora/SSELinearConvolvePeer.cc:142-152 | loading the next slot keeps every slot at the column of its age |
| `Convolution.RingIsConv` | modules/graphics/src/main/native-decora/SSELinearConvolvePeer.cc:157-163 | the rotated kernel against the ring is the direct convolution |
| `Convolution.TermsMonotone` | modules/graphics/src/main/native-decora/SSELinearConvolvePeer.cc:157-163 | convolution with a non-negative kernel is monotone in the signal |
| `LinearConvolve.Load` | modules/graphics/src/main/native-decora/SSELinearConvolvePeer.cc:143-148 | the four interleaved rings take the pixel of the next column |
| `LinearConvolve.Accumulate` | modules/graphics/src/main/native-decora/SSELinearConvolvePeer.cc:153-163 | each sum is that of its own channel against the rotated kernel |
| `LinearConvolve.ConvLine` | modules/graphics/src/main/native-decora/SSELinearConvolvePeer.cc:132-171 | a line is drawn as its direct convolution, with every ring, kernel and pixel index in range |
| `LinearConvolve.FilterHV` | modules/graphics/src/main/native-decora/SSELinearConvolvePeer.cc:107-178 | draws the direct convolution of every line and changes nothing else, ignoring a last odd kernel value; does nothing for more than 128 kernel values |
| `LinearConvolve.ConvKeepsPremultiplied` | modules/graphics/src/main/native-decora/SSELinearConvolvePeer.cc:153-168 | a non-negative kernel keeps images premultiplied |
| `LinearConvolve.ConvCutsOff` | modules/graphics/src/main/native-decora/SSELinearConvolvePeer.cc:164-168 | every channel is the direct convolution with its fraction cut off, 0 below 0 and 255 within 1/32 of 255 |
| `ConvolveShadow.FillTable` | modules/graphics/src/main/native-decora/SSELinearConvolveShadowPeer.cc:127-133 | the table holds the shadow colour at every coverage |
| `ConvolveShadow.HalfLow` | modules/graphics/src/main/native-decora/SSELinearConvolveShadowPeer.cc:166-173 | starting at -0.5, cutting off and adding one rounds half up, and the two guards clamp |
| `ConvolveShadow.LookUp` | modules/graphics/src/main/native-decora/SSELinearConvolveShadowPeer.cc:170-173 | the entry at the sum rounded half up and clamped to 0..255 |
| `ConvolveShadow.ShadowHV` | modules/graphics/src/main/native-decora/SSELinearConvolveShadowPeer.cc:115-183 | draws the table entry at the rounded direct convolution of the alpha channel |
| `ConvolveShadow.ShadowStaysPremultiplied` | modules/graphics/src/main/native-decora/SSELinearConvolveShadowPeer.cc:127-133 | a premultiplied colour casts premultiplied shadows, for every image and kernel |
| `ConvolveShadow.BlackShadowNearFilter` | modules/graphics/src/main/native-decora/SSELinearConvolveShadowPeer.cc:166-173 | an opaque black shadow is the filtered alpha or one level more |
| `ConvolveShadow.LevelIsNearest` | modules/graphics/src/main/native-decora/SSELinearConvolveShadowPeer.cc:166-173 | the level of the shadow is the nearest to the convolution, halves upwards, clamped to 0..255 |
| `ConvolveShadow.ShadowIsTinted` | modules/graphics/src/main/native-decora/SSELinearConvolveShadowPeer.cc:127-133 | each channel is its component times the level, with the fraction cut off |
| `Sampling.LAccum` | modules/graphics/src/main/native-decora/SSEUtils.cc:45-51 | adds the weighted channels in the order red, green, blue, alpha |
| `Sampling.WeightsArePartition` | modules/graphics/src/main/native-decora/SSEUtils.cc:116-131 | the four weights are non-negative and add up to one |
| `Sampling.RejectedIsZero` | modules/graphics/src/main/native-decora/SSEUtils.cc:109-111 | where the sampler reads nothing the interpolation of the zero-extended image is zero |
| `Sampling.CornersAreBilinear` | modules/graphics/src/main/native-decora/SSEUtils.cc:105-116 | adding 0.5 and casting finds the corners of the true floor |
| `Sampling.LAccumSample` | modules/graphics/src/main/native-decora/SSEUtils.cc:96-134 | adds factor times the bilinear interpolation at every point of the plane, with all reads in bounds |
| `Sampling.LSample` | modules/graphics/src/main/native-decora/SSEUtils.cc:53-94 | the interpolation at relative coordinates, divided by 255 |
| `Sampling.BilinearAtCentre` | modules/graphics/src/main/native-decora/SSEUtils.cc:96-134 | at the centre of a pixel the interpolation is that pixel |
| `Sampling.AffineIsReproduced` | modules/graphics/src/main/native-decora/SSEUtils.cc:96-134 | between centres the interpolation is linear: where four pixels lie on a plane, it lies on it |
| `Sampling.BilinearTransposed` | modules/graphics/src/main/native-decora/SSEUtils.cc:96-134 | exchanging the directions of the image exchanges those of the point |
| `VectorFilter.SamplePixel` | modules/graphics/src/main/native-decora/SSELinearConvolvePeer.cc:72-85 | the pixel of the weighted interpolations at steps of delta, each channel clamped |
| `VectorFilter.FilterVector` | modules/graphics/src/main/native-decora/SSELinearConvolvePeer.cc:41-96 | draws the samples around every mapped pixel centre; does nothing for more than 128 weights |
| `VectorFilter.VectorIsConv` | modules/graphics/src/main/native-decora/SSELinearConvolvePeer.cc:64-92 | with unit steps and offset -(K-1), filterVector draws what filterHV draws, for every image and kernel |
| `VectorFilter.VectorIsConvDown` | modules/graphics/src/main/native-decora/SSELinearConvolvePeer.cc:64-92 | with unit steps downwards filterVector draws what filterHV draws along the columns |
| `VectorFilter.PassTransposed` | modules/graphics/src/main/native-decora/SSELinearConvolvePeer.cc:64-92 | exchanging the two directions of image, mapping, offset and steps changes nothing |
| `VectorFilter.CentreIsMapped` | modules/graphics/src/main/native-decora/SSELinearConvolvePeer.cc:65-71 | every destination pixel is sampled around the image of its centre |
| `FontNames.JoinOfSplit` | modules/graphics/src/main/native-font/fontpath.c:345-364 | joining the parts rebuilds the name |
| `FontNames.SplitIsClean` | modules/graphics/src/main/native-font/fontpath.c:348-351 | every part ends at the first separator after its start |
| `FontNames.SplitOfJoin` | modules/graphics/src/main/native-font/fontpath.c:345-364 | the greedy split is the only list of parts with that property |
| `FontNames.DropLast` | modules/graphics/src/main/native-font/fontpath.c:358-363 | cutting the buffer before the last separator drops exactly the last part |
| `FontNames.SkipToLast` | modules/graphics/src/main/native-font/fontpath.c:349-351 | the inner loop ends at the start of the last part |
| `FontNames.PutMeans` | modules/graphics/src/main/native-font/fontpath.c:352-357 | every registered name leads to the file and no other name is touched |
| `FontNames.KeysAt` | modules/graphics/src/main/native-font/fontpath.c:352-357 | the keys are the lower-case parts from the last to the first |
| `FontNames.CollectionsAreSplit` | modules/graphics/src/main/native-font/fontpath.c:345-346 | the names of .ttc files are split, those of .ttf files are not |
| `FontNames.RegisterFont` | modules/graphics/src/main/native-font/fontpath.c:324-372 | exactly the parts of the split are registered, last to first; the first part is left in the buffer |
| `FloatCast.RoundedIff` | modules/graphics/src/main/native-font/freetype.c:344-344 | the cast to float keeps an integer if and only if it has at most 24 significant bits |
| `FloatCast.InexactExample` | modules/graphics/src/main/native-font/freetype.c:344-344 | 16777217 and 16777219 lie half way and go to their even neighbours |
| `FloatCast.RoundedIsExact` | modules/graphics/src/main/native-font/freetype.c:344-344 | what the cast gives, it keeps |
| `FloatCast.RoundedIsNearest` | modules/graphics/src/main/native-font/freetype.c:344-344 | no float is nearer to an integer than the one it is cast to |
| `Outline.OutlineRoundTrip` | modules/graphics/src/main/native-font/freetype.c:370-417 | the two arrays decode to the segments with their coordinates rounded by the cast, and to the segments themselves if and only if no coordinate has more than 24 significant bits |
| `Outline.DecodeInverts` | modules/graphics/src/main/native-font/freetype.c:370-417 | arrays of floats that decode are the encoding of what they decode to |
| `Outline.CountsAgree` | modules/graphics/src/main/native-font/freetype.c:370-417 | the number of coordinates is fixed by the types |
| `Outline.CoordsOfPoint` | modules/graphics/src/main/native-font/freetype.c:375-376 | the coordinates of a point are its 64ths, with y turned upside down |
| `Outline.TypesOfPath2D` | modules/graphics/src/main/native-font/freetype.c:370-417 | the four kinds of segments have the types 0 to 3 |
| `Outline.PathData.CheckSize` | modules/graphics/src/main/native-font/freetype.c:356-368 | there is room for the segment afterwards, and nothing stored is lost |
| `Outline.PathData.MoveToFunc` | modules/graphics/src/main/native-font/freetype.c:370-378 | appends exactly this segment |
| `Outline.PathData.LineToFunc` | modules/graphics/src/main/native-font/freetype.c:380-388 | appends exactly this segment |
| `Outline.PathData.ConicToFunc` | modules/graphics/src/main/native-font/freetype.c:390-401 | appends exactly this segment |
| `Outline.PathData.CubicToFunc` | modules/graphics/src/main/native-font/freetype.c:403-417 | appends exactly this segment |
| `Outline.Decompose` | modules/graphics/src/main/native-font/freetype.c:428-467 | after any sequence of callbacks the arrays decode to the rounded sequence, unchanged if and only if every coordinate is exact |
| `SlideShow.Files.Next` | apps/toys/FXSlideShow/src/fxslideshow/Files.java:140-152 | moves to the position announced as the next one, or reports the end; the announced positions fit the cursor afterwards, even in an empty list |
| `SlideShow.Files.Previous` | apps/toys/FXSlideShow/src/fxslideshow/Files.java:158-171 | moves to the position announced as the previous one, or reports the end; the announced positions fit the cursor afterwards, even in an empty list |
| `SlideShow.Files.SetLoop` | apps/toys/FXSlideShow/src/fxslideshow/Files.java:184-188 | the announced positions fit the cursor |
| `SlideShow.ThereAndBack` | apps/toys/FXSlideShow/src/fxslideshow/Files.java:112-134 | next and previous are inverse wherever they exist |
| `SlideShow.Show.constructor` | apps/toys/FXSlideShow/src/fxslideshow/FXSlideShow.java:691-699 | the initial fill puts the first two files in place |
| `SlideShow.Show.NextImage` | apps/toys/FXSlideShow/src/fxslideshow/FXSlideShow.java:444-503 | one move rotates the slots as Step says: the task ahead is shown as it is, the shown one is kept or given up, the one behind is given up; no slot holds a cancelled task, no task is in two slots, and the indicator tells whether the shown image has still to come |
| `SlideShow.RunStaysSynced` | apps/toys/FXSlideShow/src/fxslideshow/FXSlideShow.java:444-503 | in every run the shown image is the cursor's file and the other slots are empty or hold its neighbours |
| `SlideShow.MoveFills` | apps/toys/FXSlideShow/src/fxslideshow/FXSlideShow.java:475-502 | with images kept, a successful move leaves both neighbours in place as far as they exist |
| `SlideShow.OppositeMovesCancel` | apps/toys/FXSlideShow/src/fxslideshow/FXSlideShow.java:444-503 | in a full show a move and its opposite restore cursor and slots |
| `SlideShow.StallsIff` | apps/toys/FXSlideShow/src/fxslideshow/FXSlideShow.java:486-490 | with images kept, a move waits for an unrequested image if and only if it is the first one and goes backwards in a loop |
| `SlideShow.StallsWithoutKeeping` | apps/toys/FXSlideShow/src/fxslideshow/FXSlideShow.java:477-490 | with images not kept, a move waits if and only if it goes against the last move that succeeded, or is the first one and goes backwards in a loop |
| `SlideShow.LoopPosition` | apps/toys/FXSlideShow/src/fxslideshow/Files.java:140-171 | in a loop the cursor is the net number of moves modulo the number of files |
| `SlideShow.OpenPosition` | apps/toys/FXSlideShow/src/fxslideshow/Files.java:140-171 | in an open list the cursor walks and stops at both ends |

## Left out

- IEEE rounding in the effects: `jfloat` is modelled as `real`, and casts of values outside the `int` range are not modelled.
- The conversion of floats in a trace: they are bit patterns; a float pointer counts as zero when its pattern is that of +0.0 or -0.0.
- Big-endian machines.
- TraceReader.Reader.Open: refuses word sizes other than 4 and 8, with which the original goes on and reads pointers of that length.
- Reads past the end of a trace: the getters that would follow a wild pointer give `Overrun`; a version mismatch is only reported by the original and is ignored here.
- Strings and blobs larger than 0x7ffffffc bytes, whose rounding overflows in `getString` and `getBytes`.
- `eglChooseConfig`, `eglGetConfigAttrib` (argument evaluation order), `glGetAttachedShaders` (read only when executing) and the Mac OS X extensions of the trace tools.
- Unknown GL types, at which the recorder exits, and attribute indices of 128 and more, which the original does not check: `TraceRecorder.Recordable` excludes both.
- TraceRoundTrip.ReplayInverts: does not cover float pointers that were NULL or at the marker, because the reader falls out of step there; `TraceRoundTrip.ReplayUntilUnsteady` covers every run up to the first such pointer, and `TraceRoundTrip.TurnIffSteady` gives the exact condition for one command.
- TraceRoundTrip.EventReadsBack: the same float pointers; `TraceRoundTrip.FixedFallsBehind` says what happens to them.
- TraceRoundTrip.TurnReadsBack: the same float pointers; `TraceRoundTrip.TurnIffSteady` gives the exact condition.
- TraceSession.RecordAndReplay: the same float pointers.
- TraceOrder.InterleavedReplay: the same float pointers; `TraceOrder.InterleavedPrefix` covers every disciplined run up to the first one.
- TraceConcurrent.SharedReplayIff: the same float pointers; whether the driver's own binding agrees with the shadow is not modelled.
- TraceThreads.RecordsRoundTrip: the reader is given the kinds of the values; the replayer, which derives them from opcodes and shadow state, is the subject of `TraceRoundTrip` and `TraceConcurrent`.
- TraceThreads.InterleavedRoundTrip: the reader is given the kinds of the values, as above.
- TraceReplayer: the text output, frame counters, interactive mode, handle maps and the execution of the calls.
- The `MT_BUFFER_DATA_FIXED` branch of `getVertexCount` and `filterTranspose`, which are not compiled; vertex indices beyond the packed count.
- LinearConvolve.FilterHV: an empty kernel, with which the original's offset runs away, and kernels that are not stored twice.
- ConvolveShadow.ShadowHV: the same kernels, and shadow colours with components outside 0..1.
- SSELinearConvolveShadowPeer.filterVector and `fsample`: the same loops and branches as the members modelled, over nearest pixels and over float maps.
- FontNames.RegisterFont: an empty file name, for which the original reads before the buffer; case folding is a parameter.
- Outline.Decompose: failing allocations, coordinates beyond the range of `float`, and `FT_Outline_Decompose` itself, which is taken to call back once for each segment.
- SlideShow.Show.NextImage: the R key, which can cancel the shown task, transitions, timing and changes of the loop setting during a show.
- JNI, mapping of files, threads of the platform, GL, EGL, FreeType, DirectWrite, CoreText, Pango and fontconfig: only lock, append and truncate appear, as state.
