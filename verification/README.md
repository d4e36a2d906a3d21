# Verification of the audio filter and pipe library

Dafny 4.11 models of the hard parts of `src/async/audio`, with proofs.  `dafny verify dfyconfig.toml`
checks everything; to see that no proof needs contradictory assumptions or more than a modest effort, add
`--resource-limit 2000000 --verification-time-limit 0 --warn-contradictory-assumptions`.

- **Filter compiler and interpreter.**  `fid_run_new` turns a list of IIR and FIR sub-filters into a byte
  command list and a coefficient list; `filter_step` runs it on one shared buffer.  `Signals` and `Filters`
  give the reference meaning (a cascade of causal recurrences over the reals), `Commands` and `Stages` the
  abstract machine and its simulation, `Pairing` the hoisting of gains, `Emission`, `Compiler` and
  `Interpreter` the code itself, `FilterRun`, `Correctness` and `LongRuns` the theorems, `CompilerFaults` the inputs on
  which the code is wrong, `DesignCoef` the coefficient dump that must match the compiler, and `FilterPipe`
  the audio filter that uses it all.
- **Filter algebra.**  `Flatten` (in-place convolution, merging a cascade into one pair), `Response` (complex
  arithmetic and evaluation), `PoleZero` (prototype transforms, bilinear transform), `Biquads` (poles and
  zeros to filters, stability) and `Design` (the low-pass and high-pass back-ends from prototype to filter).
- **Multirate processing.**  `Blocks`, `Multirate` (decimator, interpolator) and `Processor` (the base class
  that carries partial blocks and undelivered output).
- **Flow-controlled pipes.**  `Fifo` (FIFO and reader), `Mixer`, `Splitter` and `Selector`.

Conventions: samples and coefficients are `real`; a sink takes any number of the samples it is offered (a
nondeterministic choice), except the reader, which is the real one, and sinks of a FIFO, mixer, splitter or
selector that are declared to take everything, or of a mixer to take nothing; ghost fields record what was accepted, delivered,
refused, resumed, flushed and acknowledged; calls to a source (`sourceResumeOutput`,
`sourceAllSamplesFlushed`) are counted, not executed; calls that the audio processor defers with `runTask` are
counted as scheduled, and made in steps of their own.  Objects that the code updates in place are classes
whose methods are proved to keep `Valid()`, so what follows from `Valid()` holds after every run.

## Where the code falls short of its promise

The models follow the code.  These promises fail on some inputs, and the condition is proved.

- The compiler stores the second IIR coefficient without scaling when a stage ends with command 13 or 15
  (`fidrf_cmdlist.h:330` and `337`).  `LongRuns.AnyCompiledCorrectIff` gives the exact condition for every
  list, `Correctness.CompiledCorrectIff` a simpler one for lists whose runs fit,
  `CompilerFaults.UnscaledTapIsWrong` an input.
- Counts of runs of equal three-tap stages are bytes (`fidrf_cmdlist.h:275`, `282`, `289`).  Beyond 255 the
  interpreter gets out of step with the compiler, and only then (`FilterRun.CompiledStaysInStep`); when the
  output is right all the same is part of `LongRuns.AnyCompiledCorrectIff`; `CompilerFaults.LongRunIsWrong`
  shows a wrong output.
- `fid_design_coef` does not step over plain gains between an IIR and its FIR, as the compiler does, and
  scales every coefficient (`DesignCoef.DumpAgreesIff`, `DesignCoef.DumpDiffers`).
- The interpolator drops the taps beyond the last whole phase (`Multirate.DroppedTapsIff`).
- A write that completes a held block and brings no further block leaves one output waiting without asking
  the sink (`Processor.AudioProcessor.WriteSamples`); a flush after it is never passed on
  (`Processor.LostWakeUp`).
- The audio processor passes every answer of its sink on, even when it has taken samples since that the sink
  knows nothing of, and forgets a flush that it keeps back at that moment
  (`Processor.AudioProcessor.AllSamplesFlushed`).  `Processor.AudioProcessor.AnswerCovers` says exactly when an
  answer covers everything, `Processor.AudioProcessor.FlushesAccounted` when a flush is lost;
  `Processor.AnsweredLate` is a run, `Processor.HeldWhenAnswered` the same for every decimator.  A flush
  deferred to a task reaches the sink after samples that were written, or without samples that were held,
  before the task ran (`Processor.FlushOvertakes`).
- `AudioFifo::clear` forgets a stopped source (`Fifo.ClearForgets`); its header also promises an
  acknowledgement to the source, while the code flushes the sink, and only if a flush was under way and the
  FIFO not empty (`Fifo.AudioFifo.Clear`).  `setPrebufSamples` can leave available samples nobody was asked
  to take (`Fifo.AudioFifo.SetPrebufSamples`, `Fifo.PrebufStrands`).
- The FIFO, the splitter and the selector note only that an answer is waited for, not which flush it is for.  A
  late answer to a flush that a write has cut short counts for the next one
  (`Fifo.LateAnswerCounts`, `Splitter.LateAnswerCounts`, `Selector.LateAnswerCounts`); in a splitter an answer
  is that to the last flush exactly under the condition of `Splitter.AudioSplitter.OwnAnswer`.  Such answers
  break the promise of `AsyncAudioSink.h:191-199`, but the audio processor gives them.
- The flush of an idle mixer source is acknowledged at once and again with the mixer's own flush:
  `Mixer.AskedAndAnswered` and `Mixer.AudioMixer.FlushesAccounted` give the exact condition,
  `Mixer.AcknowledgedTwice` a run.  A late answer of the sink acknowledges a newer flush
  (`Mixer.AnsweredEarly`); `Mixer.AudioMixer.AnswerCovers` says what an acknowledgement given on the sink's answer
  is worth.  When that answer finds samples in the source's FIFO, the FIFO gives the acknowledgement later, as
  soon as the mixer has read its last sample and before the sink has been given that sample
  (`Mixer.AudioMixer.EarlyAcks`, `Mixer.AudioMixer.Fill`).  `Mixer.AcknowledgedUndelivered` is a run, with a
  sink that answers in time.
- With flush waiting switched off, the selector's header promises an immediate acknowledgement; the code
  gives it only when another active source takes over (`Selector.AudioSelector.BranchFlushSamples`, `Selector.NotAnsweredAtOnce`).

## Model

| member | source | states |
|---|---|---|
| Signals.IirSolves | src/async/audio/fidrf_cmdlist.h:90-109 | the reference output of an IIR solves its difference equation at every sample |
| Signals.IirUnique | src/async/audio/fidrf_cmdlist.h:90-109 | and is the only causal signal that does |
| Filters.CascadeIsQuotient | src/async/audio/fidrf_cmdlist.h:191-209 | a list of sub-filters has the output of any other list with the same law Denominator * output == Numerator * input |
| Interpreter.Perform | src/async/audio/fidrf_cmdlist.h:90-118 | each macro on the real registers and buffer makes exactly the step of the abstract machine |
| Interpreter.PerformCounted | src/async/audio/fidrf_cmdlist.h:127-150 | a do-while command repeats its macros as often as its count says, a count of zero meaning once |
| Interpreter.ShiftDown | src/async/audio/fidrf_cmdlist.h:86-88 | the one memmove moves the whole buffer down by a slot and leaves the last slot alone |
| Interpreter.FilterStep | src/async/audio/fidrf_cmdlist.h:76-188 | one call runs the whole decoded command list on the shifted buffer and returns the last register value, whatever the list |
| Commands.RunConcat | src/async/audio/fidrf_cmdlist.h:120-177 | code behaves as its parts run one after another |
| Commands.OpsConcat | src/async/audio/fidrf_cmdlist.h:120-177 | whole commands decode independently of what follows them |
| Stages.TapsRun | src/async/audio/fidrf_cmdlist.h:90-116 | the taps of one stage on any machine state that holds its delay line compute its next output and next delay line, and touch nothing else |
| Stages.ChainRun | src/async/audio/fidrf_cmdlist.h:76-188 | shared-buffer simulation: the code of a chain of stages computes the next output of every stage and leaves each segment with that stage's own last intermediate values, oldest first |
| Emission.GeneralDecodes | src/async/audio/fidrf_cmdlist.h:294-340 | the bytes chosen for a pair without a code of its own decode to one macro per tap, oldest first, with the right macro kinds |
| Emission.EmitMeaning | src/async/audio/fidrf_cmdlist.h:273-341 | the emitted command bytes decode to the operations of the pairs, run-length coding included |
| Emission.InStepIffRunsFit | src/async/audio/fidrf_cmdlist.h:273-292 | emitted code reads exactly the coefficients emitted for it if and only if no run of equal three-tap pairs exceeds its byte count |
| Compiler.EmitShape | src/async/audio/fidrf_cmdlist.h:273-292 | a three-tap pair opens a command, turns it into a counted one, or increments the count byte with wrap-around |
| Compiler.EmitChunks | src/async/audio/fidrf_cmdlist.h:300-304 | taps of one kind become counted groups of four, at most 255 at a time, and up to three more |
| Compiler.EmitGeneral | src/async/audio/fidrf_cmdlist.h:293-341 | coefficients and commands of a general pair, oldest tap first, the last recursive one unscaled |
| Compiler.EmitPair | src/async/audio/fidrf_cmdlist.h:267-341 | one pair appends exactly its stage's coefficients and its commands, and no more of either than it has coefficients |
| Compiler.NextPair | src/async/audio/fidrf_cmdlist.h:246-272 | which entries make the next pair, and the gain carried over them |
| Compiler.FidRunNew | src/async/audio/fidrf_cmdlist.h:211-381 | for every list: fails exactly on an unknown type, otherwise yields the compiled list; coefficients <= sum of lengths + 1, commands <= sum + 4, so the worst-case arrays are never overrun |
| Pairing.CascadeIsChain | src/async/audio/fidrf_cmdlist.h:198-207 | hoisting every gain and every IIR head to the end of the chain preserves the output of the cascade |
| FilterRun.RunBuf.Step | src/async/audio/fidrf_cmdlist.h:76-88 | calls in sequence on one buffer compute the response to the whole input so far |
| FilterRun.RunBuf.Zap | src/async/audio/fidrf_cmdlist.h:454-458 | zeroing makes the buffer that of an empty input |
| FilterRun.CompiledStaysInStep | src/async/audio/fidrf_cmdlist.h:211-381 | compiled code never leaves its coefficient list or buffer, and consumes exactly the emitted coefficients if and only if all runs fit their byte counts |
| FilterRun.StepComputes | src/async/audio/fidrf_cmdlist.h:76-188 | one step of compiled code on a buffer holding the segments gives the next output and the next segments |
| FilterRun.CodeComputes | src/async/audio/fidrf_cmdlist.h:76-188 | for every input stream from a zeroed buffer: the output is that of the compiled stages, and the shared buffer holds every stage's own last values |
| Correctness.StagesCorrectIff | src/async/audio/fidrf_cmdlist.h:328-340 | the compiled stages compute the cascade on every input if and only if the list is harmless: its numerator is zero, or storing the unscaled coefficient does not change the denominator |
| Correctness.CompiledCorrectIff | src/async/audio/fidrf_cmdlist.h:76-381 | for lists whose runs fit their counts: the compiled code computes the plain cascade on every input stream, sample by sample, if and only if the list is harmless |
| LongRuns.CarriedExecutes | src/async/audio/fidrf_cmdlist.h:273-341 | which stages the emitted code carries out: all, except that a run counts modulo 256, and a count of zero as one |
| LongRuns.AnyCodeComputes | src/async/audio/fidrf_cmdlist.h:76-188 | for every list and input stream: the output is that of the stages carried out, with the coefficients as the interpreter cuts them up; the buffer holds their segments, then zeros |
| LongRuns.AnyCompiledCorrectIff | src/async/audio/fidrf_cmdlist.h:76-381 | compiler correctness for every list, overflowing runs included: the compiled code computes the plain cascade on every input stream if and only if the transfer function of the stages it carries out, cross-multiplied, is that of the list |
| LongRuns.FittingSameTransferIff | src/async/audio/fidrf_cmdlist.h:76-381 | for those lists being harmless is having the transfer function asked for |
| Correctness.FaithfulListsAreHarmless | src/async/audio/fidrf_cmdlist.h:328-340 | lists whose pairs ending in commands 13 or 15 have head 1 or a zero second coefficient are compiled correctly |
| Correctness.SinglePairIff | src/async/audio/fidrf_cmdlist.h:328-340 | for a single pair that condition is also necessary for the right denominator |
| CompilerFaults.UnscaledTapIsWrong | src/async/audio/fidrf_cmdlist.h:330 | a concrete list (head 2, second coefficient 1) whose compiled second output is -1/2 instead of -1/4 |
| CompilerFaults.LongRunIsWrong | src/async/audio/fidrf_cmdlist.h:280-286 | any positive multiple of 256 equal delays is executed as one: an impulse comes out after two samples |
| FilterPipe.AudioFilter.ProcessSamples | src/async/audio/AsyncAudioFilter.cpp:206-215 | the samples written are the next ones of the filtered stream, for any division into blocks |
| FilterPipe.FilteredIsCascade | src/async/audio/AsyncAudioFilter.cpp:160-189 | for lists whose transfer function the compiler keeps the audio filter computes output gain times the plain cascade |
| DesignCoef.FidDesignCoef | src/async/audio/fidlib.c:1612-1682 | fails exactly on an unknown type or a wrong coefficient count, otherwise writes the dump and returns the gain |
| DesignCoef.DumpCount | src/async/audio/fidlib.c:1600-1609 | without constant marks the dump is longer than the code's list by the number of IIRs directly followed by a plain gain |
| DesignCoef.MarkBits | src/async/audio/fidlib.c:1661-1669 | coefficient a is marked constant by bit a, and from the fifteenth on by bit 15 |
| DesignCoef.MarkedLeftOut | src/async/audio/fidlib.c:1658-1673 | with marks the dump is that of the list without marks, exactly the marked coefficients left out |
| DesignCoef.MarkedPair | src/async/audio/fidlib.c:1658-1673 | a pair with two marks, in full |
| DesignCoef.DumpAgreesIff | src/async/audio/fidlib.c:1606-1609 | without constants, the dump equals the compiled coefficient list if and only if no IIR is directly followed by a plain gain and every pair's unscaled coefficient is insensitive to scaling; the gains then agree |
| DesignCoef.DumpDiffers | src/async/audio/fidlib.c:1606-1609 | two lists, one for each half of the condition, whose dump is not what the code reads |
| Flatten.Convolve | src/async/audio/fidlib.c:1726-1740 | the descending in-place loop leaves the product of both polynomials, although it overwrites its input |
| Flatten.FidFlatten | src/async/audio/fidlib.c:1748-1805 | fails exactly on an unknown type, otherwise yields an IIR with head 1 and a FIR; times the head of the product of all IIRs their coefficients are those of the products of all IIRs and of all FIRs; the size check after the convolutions cannot fail |
| Flatten.FlattenedHead | src/async/audio/fidlib.c:1799-1802 | the same of the flattened pair that the theorems speak of |
| Flatten.FlattenedRunsAlike | src/async/audio/fidlib.c:1742-1805 | on every input the flattened pair gives the output of the cascade |
| Response.CMul | src/async/audio/fidlib.c:334-340 | complex product |
| Response.CSqu | src/async/audio/fidlib.c:346-352 | complex square |
| Response.CDiv | src/async/audio/fidlib.c:377-384 | the quotient times the divisor is the dividend, for a non-zero divisor |
| Response.CRecip | src/async/audio/fidlib.c:390-395 | the result times the argument is one, for a non-zero argument |
| Response.Evaluate | src/async/audio/fidlib.c:472-497 | running powers compute the value of the polynomial |
| Response.EvalProduct | src/async/audio/fidlib.c:472-497 | evaluation is multiplicative over convolution |
| Response.ResponseParts | src/async/audio/fidlib.c:574-592 | numerator and denominator of the response as products over the list; fails exactly on an unknown type |
| Response.FlattenedRespondsAlike | src/async/audio/fidlib.c:1742-1805 | at every complex point top' * bot == top * bot' for the flattened filter |
| PoleZero.Lowpass | src/async/audio/fidmkf.h:365-380 | poles scaled, all zeros at minus infinity; with a positive frequency the left half plane is kept |
| PoleZero.Highpass | src/async/audio/fidmkf.h:386-409 | for poles other than zero: each pole times its new value is the frequency, all zeros at the origin; with a positive frequency the left half plane is kept |
| PoleZero.EntryInverted | src/async/audio/fidmkf.h:386-409 | the same of one entry, in numbers: for a pair both parts of pole times new value |
| PoleZero.S2zBilinear | src/async/audio/fidmkf.h:539-578 | every real and complex entry of both lists becomes (2 + s)/(2 - s), minus infinity becoming -1 |
| PoleZero.EntryTransformed | src/async/audio/fidmkf.h:539-578 | the same of one entry, in numbers: for a pair both parts of (2 - s) z = 2 + s |
| PoleZero.BilinearStableIff | src/async/audio/fidmkf.h:534-578 | the transformed poles all lie strictly inside the unit circle if and only if the originals all lie in the open left half plane |
| Biquads.Z2FidFilter | src/async/audio/fidmkf.h:634-733 | fails exactly when the lists differ in length or cannot be paired, otherwise emits the filters of the lists |
| Biquads.FiltersListed | src/async/audio/fidmkf.h:634-733 | the filters two entries at a time: the poles' IIR without marks, the zeros' FIR with the marks given, left out when marks are given and both zeros are at the origin; then the same for a last lone pole and zero |
| Biquads.FiltersHaveRoots | src/async/audio/fidmkf.h:634-733 | at every complex point the emitted denominators multiply to the product over the poles, the numerators to gain times the product over the zeros, skipped constant zeros included |
| Biquads.RealTriangle | src/async/audio/fidmkf.h:649-656 | the filter of two real poles satisfies -1 < a2 < 1 and -(1 + a2) < a1 < 1 + a2 if and only if both poles lie strictly inside the unit circle |
| Biquads.ConjTriangle | src/async/audio/fidmkf.h:657-664 | the same for a conjugate pair |
| Biquads.StableIffInside | src/async/audio/fidmkf.h:634-733 | all emitted pole filters are stable if and only if all poles lie strictly inside the unit circle |
| Design.DoLowpass | src/async/audio/fidlib.c:759-767 | any left half plane prototype that can be paired becomes the filters of its scaled and transformed poles, with all zeros at -1; every pole filter is stable and the response at frequency zero is exactly one |
| Design.DoHighpass | src/async/audio/fidlib.c:769-777 | the same for high-pass: poles inverted, zeros at 1, response exactly one at half the sampling rate |
| Design.StableWithUnitGain | src/async/audio/fidlib.c:759-777 | what both promise of the filters, in numbers: every pole filter is in the triangle of stability, and numerator and denominator of the response agree at the frequency of unit gain |
| Design.ResponseAt | src/async/audio/fidlib.c:568-597 | the magnitude of the response where numerator and denominator are real: times the denominator it is the numerator |
| Multirate.Decimator.ProcessSamples | src/async/audio/AsyncAudioDecimator.cpp:133-168 | for any whole number of blocks the outputs written are the next ones of "filter, then keep every M-th sample"; the count assertion at the end holds |
| Multirate.DecimatedGrows | src/async/audio/AsyncAudioDecimator.cpp:144-164 | one more block of input adds exactly one output and changes no earlier one |
| Multirate.Polyphase | src/async/audio/AsyncAudioInterpolator.cpp:156-168 | a phase of the coefficients over the plain input equals the filter over the zero-stuffed input |
| Multirate.InterpolatedAt | src/async/audio/AsyncAudioInterpolator.cpp:156-168 | output L * i + p of the stream is L times phase p of the coefficients over the samples up to the i-th |
| Multirate.Interpolator.ProcessSamples | src/async/audio/AsyncAudioInterpolator.cpp:139-174 | the outputs written are the next ones of "stuff with zeros, filter, scale by L" |
| Multirate.DroppedTapsIff | src/async/audio/AsyncAudioInterpolator.cpp:117-119 | when the tap count is no multiple of L: the full filter is computed for every input if and only if all left-over taps are zero |
| Multirate.DroppedTapShows | src/async/audio/AsyncAudioInterpolator.cpp:117-119 | an input on which a non-zero left-over tap is missed |
| Processor.AudioProcessor.constructor | src/async/audio/AsyncAudioProcessor.cpp:118-124 | a new processor satisfies the invariant, for every rate pair its kind sets |
| Processor.AudioProcessor.ProcessSamples | src/async/audio/AsyncAudioProcessor.cpp:165-181 | whole input blocks in, the next outputs appended, nothing else in the buffer touched; the decimator's block assertion never fires |
| Processor.AudioProcessor.WriteFromBuf | src/async/audio/AsyncAudioProcessor.cpp:311-360 | under any acceptance by the sink: terminates; nothing waits for a sink that has not stopped; a pending flush is scheduled exactly when everything has been delivered; the resume of a stopped source is scheduled once |
| Processor.AudioProcessor.RunFlushTask | src/async/audio/AsyncAudioProcessor.cpp:343-347 | a scheduled flush reaches the sink with what it has been given by then, in any state the source has brought about since |
| Processor.AudioProcessor.RunResumeTask | src/async/audio/AsyncAudioProcessor.cpp:354-359 | a scheduled resume reaches the source |
| Processor.AudioProcessor.WriteSamples | src/async/audio/AsyncAudioProcessor.cpp:133-201 | accepts a prefix, nothing exactly when there is no room, everything when it fits, and otherwise a held block and as many whole blocks as have room; the invariant holds; a call on a processor that is not stalled stalls it if and only if the sink had not stopped before and the call completes the held block without bringing a whole block besides |
| Processor.TakesWhatFits | src/async/audio/AsyncAudioProcessor.cpp:170-191 | samples are left over only if those held and those taken make whole blocks and their outputs leave no room for those of one more block |
| Processor.AudioProcessor.FlushSamples | src/async/audio/AsyncAudioProcessor.cpp:204-227 | each flush is passed on, scheduled or kept back exactly once, at once if and only if nothing is buffered or held; the held block is padded with zeros; on a stalled buffer nothing is passed on |
| Processor.AudioProcessor.ResumeOutput | src/async/audio/AsyncAudioProcessor.cpp:230-235 | from any state but for what the resumed sink did before: the invariant is restored, a resume always ends a stall, and a waiting source is scheduled to be woken exactly when output was buffered and the buffer is not full |
| Processor.AudioProcessor.AllSamplesFlushed | src/async/audio/AsyncAudioProcessor.cpp:238-243 | the source is acknowledged whatever the state; a flush is forgotten if and only if one is kept back |
| Processor.AudioProcessor.FlushesAccounted | src/async/audio/AsyncAudioProcessor.cpp:133-360 | after any run: every flush asked for has been passed on, is scheduled or kept back, has joined another, been withdrawn by a write or been forgotten; none that the source counts on is lost if and only if none was forgotten |
| Processor.AudioProcessor.WhatIsAwaited | src/async/audio/AsyncAudioProcessor.cpp:133-360 | after any run: a flush is kept back only while output waits, a sink counts as stopped only if it took nothing when last asked, and a source waits only for such a sink and while a block has no room |
| Processor.AudioProcessor.AnswerCovers | src/async/audio/AsyncAudioProcessor.cpp:238-243 | after any run: the sink has been asked to flush everything that the source has handed over if and only if nothing is held or buffered and the sink has been given nothing since it was last asked |
| Processor.AnsweredLate | src/async/audio/AsyncAudioProcessor.cpp:238-243 | a run (factor 2, flush, one sample, the sink's answer): the source is acknowledged, its sample held, nothing delivered |
| Processor.HeldWhenAnswered | src/async/audio/AsyncAudioProcessor.cpp:238-243 | the same for every decimator that holds nothing |
| Processor.FlushOvertakes | src/async/audio/AsyncAudioProcessor.cpp:343-347 | for every decimator with a scheduled flush and nothing held: a sample written before the task runs is not covered by the flush |
| Processor.AudioProcessor.Conservation | src/async/audio/AsyncAudioProcessor.cpp:133-360 | after any run: delivered plus buffered output is the image of the whole input stream, whatever the blocks and the sink's acceptance; the held samples are exactly the last ones that do not fill a block |
| Processor.LostWakeUp | src/async/audio/AsyncAudioProcessor.cpp:165-181 | a run (factor 2, two single-sample writes, flush) that ends stalled: the flush is kept back and nothing is scheduled; the sink has neither stopped nor refused anything, and so owes no resume |
| Fifo.AudioFifo.Counted | src/async/audio/AsyncAudioFifo.cpp:150-165 | the sample count is the length of the ring's contents, full and empty included |
| Fifo.AudioFifo.Lossless | src/async/audio/AsyncAudioFifo.cpp:225-289 | with nothing overwritten or cleared: delivered plus ring contents is the accepted input |
| Fifo.AudioFifo.NewestKept | src/async/audio/AsyncAudioFifo.cpp:253-270 | a ring that is not full holds the newest accepted samples, at most size - 1 of them |
| Fifo.AudioFifo.ServedAtOnce | src/async/audio/AsyncAudioFifo.cpp:225-408 | after any run: samples wait only for a sink that took nothing when last asked and has not resumed since, or, while there are too few, for pre-buffering |
| Fifo.AudioFifo.Put | src/async/audio/AsyncAudioFifo.cpp:253-270 | one more sample; the oldest is lost exactly when overwriting with one slot free, and the ring gets full exactly when the last slot goes without overwriting |
| Fifo.AudioFifo.WriteSamplesFromFifo | src/async/audio/AsyncAudioFifo.cpp:365-408 | terminates; a prefix of the ring goes to the sink in order; afterwards nothing available waits for a sink that has not stopped; source woken and flush passed on exactly when due |
| Fifo.AudioFifo.WriteSamples | src/async/audio/AsyncAudioFifo.cpp:225-291 | accepts everything unless the ring fills up, nothing exactly when it is full; keeps conservation and both wake-up promises; overwriting never fills the ring; pre-buffering ends exactly when the samples buffered and offered reach its threshold, and until then all are held back; without it, and with nothing buffered, a reader gets as much of this write as it has room for, and a sink that takes everything all of it |
| Fifo.AudioFifo.FlushSamples | src/async/audio/AsyncAudioFifo.cpp:294-307 | passed on at once exactly when the ring is or becomes empty; a request is counted, and whether it joined one that waits |
| Fifo.AudioFifo.ResumeOutput | src/async/audio/AsyncAudioFifo.cpp:310-324 | a stopped sink gets the ring's samples in order; a waiting flush is passed on exactly when this empties the ring |
| Fifo.AudioFifo.AllSamplesFlushed | src/async/audio/AsyncAudioFifo.cpp:335-351 | the source is acknowledged exactly when a flush is under way and the ring is empty |
| Fifo.AudioFifo.Clear | src/async/audio/AsyncAudioFifo.cpp:168-181 | drops exactly the ring; a stopped source keeps its promise of being woken if and only if there was none; the source is acknowledged if and only if a flush was under way, the FIFO was not empty and the sink is a reader, and otherwise a flush under way stays under way |
| Fifo.AudioFifo.FlushesAccounted | src/async/audio/AsyncAudioFifo.cpp:168-408 | after any run: the acknowledgements are the flushes asked for, without those that joined another, were withdrawn by a write, or wait |
| Fifo.LateAnswerCounts | src/async/audio/AsyncAudioFifo.cpp:335-351 | for every FIFO whose sink has yet to answer a flush: when the source writes and flushes again and the sink takes the sample, the answer to the first flush acknowledges the second |
| Fifo.AudioFifo.SetPrebufSamples | src/async/audio/AsyncAudioFifo.cpp:184-191 | everything is kept but the wake-up promise, which breaks exactly when enough samples were held back and the sink had not stopped |
| Fifo.ClearForgets | src/async/audio/AsyncAudioFifo.cpp:168-181 | a run (FIFO filled, a write refused, clear) after which the stopped source will not be woken and has not been acknowledged |
| Fifo.PrebufStrands | src/async/audio/AsyncAudioFifo.cpp:184-191 | a run (threshold two, one sample, threshold one) after which an available sample waits for a sink that was never asked |
| Fifo.AudioReader.WriteSamples | src/async/audio/AsyncAudioReader.cpp:151-165 | takes as much as there is room for, and notes a refusal |
| Fifo.AudioReader.ReadSamples | src/async/audio/AsyncAudioReader.cpp:129-148 | through the real call chain: the reader gets the oldest samples of its FIFO, exactly as many as asked for or as there are when there is no pre-buffering; it counts as stopped exactly when the FIFO takes it to be |
| Mixer.MixerSrc.WriteSamples | src/async/audio/AsyncAudioMixer.cpp:97-104 | accepted samples are appended to the source's FIFO, none is read; the source is neither flushed nor flushing; every flush that waited is withdrawn and none acknowledged |
| Mixer.MixerSrc.FlushSamples | src/async/audio/AsyncAudioMixer.cpp:106-120 | acknowledges at once exactly when the source was idle; notes the request, and whether it found the source idle or joined one that waits; nothing is lost |
| Mixer.MixerSrc.MixerFlushedAllSamples | src/async/audio/AsyncAudioMixer.cpp:127-135 | the mixer's answer acknowledges a waiting flush if the FIFO is empty; if not, the FIFO owes the acknowledgement |
| Mixer.MixerSrc.ActiveIff | src/async/audio/AsyncAudioMixer.cpp:122-125 | a flushing source with an empty FIFO is never active |
| Mixer.MixerSrc.ReadSamples | src/async/audio/AsyncAudioMixer.cpp:140-143 | reads exactly as many as asked for or as wait, in order; acknowledges exactly when the FIFO owed it and runs empty |
| Mixer.MixerSrc.NothingLost | src/async/audio/AsyncAudioMixer.cpp:85-152 | accepted samples are those taken by the mixer followed by those in the FIFO |
| Mixer.AudioMixer.MaxRead | src/async/audio/AsyncAudioMixer.cpp:327-343 | the most every active source can give, as much as one of them has; zero exactly when there is no active source or one of them has nothing |
| Mixer.AudioMixer.MixOne | src/async/audio/AsyncAudioMixer.cpp:360-371 | a source gives exactly the requested samples (the assertion holds) and they are added to the output |
| Mixer.AudioMixer.Fill | src/async/audio/AsyncAudioMixer.cpp:354-374 | the output buffer, and what is added to the mixed stream, is the sum of the next samples of all active sources, the others untouched; the turns recorded are those of the active sources; an acknowledgement that a FIFO owes is given exactly if this was all it had, and before any of these samples is delivered |
| Mixer.AudioMixer.CheckFlush | src/async/audio/AsyncAudioMixer.cpp:381-401 | when nothing can be mixed, flushes the sink exactly if it is not flushed already and no source is active at all |
| Mixer.AudioMixer.OutputHandler | src/async/audio/AsyncAudioMixer.cpp:302-378 | terminates; every source has given all that was mixed if it is still active, and all it had if not, and its acknowledgements follow from that; the record grows by exactly that, with the state each source was in; a flush is passed on at most once, and only when everything mixed has been delivered, every FIFO is empty and every source has flushed; afterwards nothing that could be mixed or flushed waits unless the sink has refused samples |
| Mixer.AudioMixer.WhatIsAwaited | src/async/audio/AsyncAudioMixer.cpp:302-401 | after any run, with the timer off: either the sink has refused mixed samples, or it has all of them, and then some source that has not flushed has no sample, or all sources have flushed and given everything and so has the mixer |
| Mixer.AudioMixer.SourceWrites | src/async/audio/AsyncAudioMixer.cpp:97-104 | one source's samples are appended to its FIFO and its waiting flushes withdrawn, the other sources are as before, and the timer of the handler is set |
| Mixer.AudioMixer.SourceFlushes | src/async/audio/AsyncAudioMixer.cpp:106-120 | changes only that source's flags and account; acknowledged at once exactly when it was idle; the timer is set when its FIFO is empty |
| Mixer.AudioMixer.ResumeOutput | src/async/audio/AsyncAudioMixer.cpp:218-223 | from any state but for what the resumed sink did before: mixing goes on as above, with a sink that takes everything until nothing can be mixed; a flush only under the condition above |
| Mixer.AudioMixer.AllSamplesFlushed | src/async/audio/AsyncAudioMixer.cpp:233-241 | acknowledges exactly the sources whose flush waits and whose FIFO is empty; a waiting flush with samples left is owed by the FIFO |
| Mixer.AudioMixer.FlushAnswered | src/async/audio/AsyncAudioMixer.cpp:106-135 | for every mixer and source: a flush and the mixer's answer to it give, with what the FIFO still owes, one acknowledgement, and two if the source was idle |
| Mixer.AskedAndAnswered | src/async/audio/AsyncAudioMixer.cpp:106-135 | a flush that is answered leads to exactly one acknowledgement if and only if the source was not idle, at once or when its FIFO has been read |
| Mixer.AudioMixer.FlushesAccounted | src/async/audio/AsyncAudioMixer.cpp:85-152 | after any run: acknowledged, withdrawn, joined and waiting flushes are those asked for, if and only if none found its source idle; each that did adds one |
| Mixer.AudioMixer.AnswerCovers | src/async/audio/AsyncAudioMixer.cpp:127-135 | between calls of the handler, after any run: the sink has been asked to flush everything accepted from a source if and only if its FIFO is empty and it has had no turn since the last flush; while the mixer counts as flushed, an empty FIFO is enough |
| Mixer.AudioMixer.EarlyAcks | src/async/audio/AsyncAudioMixer.cpp:360-378 | at all times, within the handler too: the acknowledgements are those to an idle source, those on the sink's answer and those of the FIFO; each of the last kind was given when the last sample accepted so far had been read and the sink had not been given it |
| Mixer.AudioMixer.Mixing | src/async/audio/AsyncAudioMixer.cpp:302-378 | after any run: every output sample is the sum of the next unread sample of each active source; a source had a turn if and only if it had been accepted a sample it had not given, and one without a turn had flushed and given everything; no accepted sample is lost, doubled or reordered |
| Mixer.AcknowledgedTwice | src/async/audio/AsyncAudioMixer.cpp:106-135 | a run of a mixer with two sources: one request, two acknowledgements |
| Mixer.AnsweredEarly | src/async/audio/AsyncAudioMixer.cpp:233-241 | a run in which the sink's answer to one flush acknowledges a source whose samples the sink has not been asked to flush |
| Mixer.AcknowledgedUndelivered | src/async/audio/AsyncAudioMixer.cpp:360-366 | a run in which the FIFO acknowledges a source whose last sample the sink never takes: one of two samples mixed has been delivered |
| Splitter.Branch.SinkWriteSamples | src/async/audio/AsyncAudioSplitter.cpp:131-151 | an enabled branch passes on what its sink takes, nothing while stopped; a disabled one swallows everything |
| Splitter.AudioSplitter.WriteSamples | src/async/audio/AsyncAudioSplitter.cpp:324-367 | accepts all or, while a block is kept, nothing; keeps the invariant; a flush under way is cut short; every sample a branch passes is marked as heard exactly if it is enabled |
| Splitter.AudioSplitter.FirstPass | src/async/audio/AsyncAudioSplitter.cpp:339-362 | every branch is offered the block, and it is kept exactly as it was unless all took all of it |
| Splitter.AudioSplitter.WriteFromBuffer | src/async/audio/AsyncAudioSplitter.cpp:442-478 | terminates; afterwards the block is done with, or some branch has not had all of it and every such branch is enabled and stopped; a waiting flush begins when the block is done |
| Splitter.AudioSplitter.FlushSamples | src/async/audio/AsyncAudioSplitter.cpp:370-393 | a round begins at once exactly when no block is kept, and then asks every branch; acknowledged at once exactly when every branch is disabled |
| Splitter.AudioSplitter.FlushAllBranches | src/async/audio/AsyncAudioSplitter.cpp:481-488 | after asking, branches answered plus branches flushing are all branches |
| Splitter.AudioSplitter.BranchResumeOutput | src/async/audio/AsyncAudioSplitter.cpp:491-499 | the source is woken exactly when it waits and the block is done |
| Splitter.AudioSplitter.ResumeOutput | src/async/audio/AsyncAudioSplitter.cpp:174-181 | from any state but for what the resumed sink did before: a resume of any branch restores the invariant and keeps what every branch has had; a flush that waited begins on all branches exactly when the block is done, and otherwise no branch is flushed or answered; an acknowledgement only after draining with nobody flushing |
| Splitter.AudioSplitter.AnySinkMay | src/async/audio/AsyncAudioSplitter.cpp:174-181 | after any run, the sink of any branch may do so |
| Splitter.AudioSplitter.AllSamplesFlushed | src/async/audio/AsyncAudioSplitter.cpp:183-192 | an answer counts exactly if the branch is enabled and waited for, whichever flush it is for; the source is acknowledged exactly by the last one that counts |
| Splitter.AudioSplitter.OwnAnswer | src/async/audio/AsyncAudioSplitter.cpp:183-192 | after any run: when its sink answers in order, the next answer of a branch that is waited for is that to its last flush if and only if as many answers have been ignored as flushes cut short by a write |
| Splitter.AudioSplitter.AllAnswered | src/async/audio/AsyncAudioSplitter.cpp:153-192 | after any run: a branch that is not waited for has as many unanswered flushes as flushes cut short without an ignored answer |
| Splitter.LateAnswerCounts | src/async/audio/AsyncAudioSplitter.cpp:183-192 | a run (flush, write, flush, one answer): the source is acknowledged, the sink asked twice and answered once |
| Splitter.AudioSplitter.SetEnabled | src/async/audio/AsyncAudioSplitter.cpp:104-129 | switching a branch off lets the block and a flush go on without it, and flushes its sink unless it is flushing or flushed already; a waiting source is woken exactly when this drains the block, and goes on waiting otherwise; acknowledges only when drained with nobody flushing |
| Splitter.SwitchedOffKept | src/async/audio/AsyncAudioSplitter.cpp:104-129 | a branch that has not stopped and is switched off: its sink is flushed unless it is flushing or flushed already, and its samples, position and marks stay |
| Splitter.AudioSplitter.Conservation | src/async/audio/AsyncAudioSplitter.cpp:131-478 | after any run: a branch that has never been switched off has passed on exactly the stream since it joined, without what is left of the kept block; any other exactly the samples it was on for |
| Splitter.AudioSplitter.NoLostWakeUp | src/async/audio/AsyncAudioSplitter.cpp:442-499 | after any run: a branch with samples left is enabled and its sink has stopped; a waiting source waits for such a branch; every time the source was told to wait it has been woken since, or waits still |
| Selector.Branch.Unselect | src/async/audio/AsyncAudioSelector.cpp:188-206 | a stopped branch is woken, a flushing one acknowledged, the others untouched |
| Selector.AudioSelector.SelectBranch | src/async/audio/AsyncAudioSelector.cpp:444-478 | for any branch or none: the assertion holds; the old branch is let go; the sink is flushed exactly when it was in use and the new branch has nothing to send |
| Selector.AudioSelector.SelectSource | src/async/audio/AsyncAudioSelector.cpp:329-339 | selecting by hand makes exactly that branch, or none, the selected one; the one before is left with nobody waiting |
| Selector.AudioSelector.SelectHighestPrioActiveBranch | src/async/audio/AsyncAudioSelector.cpp:481-503 | selects the first active automatic branch of the highest priority, otherwise none if asked to, otherwise leaves the selection |
| Selector.AudioSelector.BestMeans | src/async/audio/AsyncAudioSelector.cpp:484-498 | being the best: active and automatic, of higher priority than every such branch before it and of no lower one than those after |
| Selector.AudioSelector.WriteSamples | src/async/audio/AsyncAudioSelector.cpp:114-137 | the selection moves exactly to an automatic branch of higher priority than the selected one; samples reach the sink exactly from the selected branch, all of them if it takes everything; others are thrown away |
| Selector.AudioSelector.BranchWriteSamples | src/async/audio/AsyncAudioSelector.cpp:401-411 | the samples the sink takes are recorded as sent by the selected branch |
| Selector.AudioSelector.FlushSamples | src/async/audio/AsyncAudioSelector.cpp:139-164 | exactly when a flush is answered at once, when another branch takes over, which is then the best, and when it waits for the sink; a repeated request is ignored |
| Selector.AudioSelector.BranchFlushSamples | src/async/audio/AsyncAudioSelector.cpp:414-441 | a branch that does not wait hands over to the best other active automatic branch if there is one; otherwise it is answered at once if the sink is idle, and else stays selected and flushing together with the sink |
| Selector.NotAnsweredAtOnce | src/async/audio/AsyncAudioSelector.cpp:414-441 | a run in which a branch that is not to wait for flushes waits for the sink |
| Selector.AudioSelector.ResumeOutput | src/async/audio/AsyncAudioSelector.cpp:365-373 | the assertion holds; the selected branch is woken if it was stopped, and otherwise as it was |
| Selector.AudioSelector.AllSamplesFlushed | src/async/audio/AsyncAudioSelector.cpp:382-392 | the sink's answer ends the flush of the selected branch, which gives up the selection if it is automatic; any other answer changes nothing |
| Selector.LateAnswerCounts | src/async/audio/AsyncAudioSelector.cpp:382-392 | for every selector whose selected branch waits for the sink: when it writes and flushes again, one answer of the sink ends the second flush |
| Selector.AudioSelector.DisableAutoSelect | src/async/audio/AsyncAudioSelector.cpp:100-107 | a selected branch loses the selection to the best other active automatic branch, or to none, with nobody left waiting; any other selection stays |
| Selector.AudioSelector.RemoveSource | src/async/audio/AsyncAudioSelector.cpp:276-288 | a removed branch leaves nobody waiting; if it was selected, the best other active automatic branch is selected, or none if there is none; any other selection stays, and the other branches keep their order |
| Selector.AudioSelector.Safety | src/async/audio/AsyncAudioSelector.cpp:114-503 | after any run: only the selected branch is stopped or flushing, and only while the sink is; every flush is acknowledged once, withdrawn by a write, or under way; every sample sent came from the branch selected at that moment |

## Left out

- LongRuns.AnyCompiledCorrectIff: IIRs have at least two coefficients and a non-zero head, because the code divides by the head and reads the second coefficient.
- Correctness.CompiledCorrectIff: stated for lists whose runs fit; `LongRuns.AnyCompiledCorrectIff` covers the others.
- Compiler.FidRunNew: the same two conditions on IIRs; without them the source reads past a coefficient list or divides by zero.
- Compiler.NextPair: likewise.
- DesignCoef.DumpAgreesIff: lists without constant-coefficient marks; with marks the dump leaves coefficients out on purpose, those that `DesignCoef.MarkedLeftOut` says.
- Multirate.Interpolator.ProcessSamples: needs at least L taps; with fewer the delay line has no element to write to.
- Design.ResponseAt: only the two frequencies the back-ends use, where both parts are real and the magnitude needs no square root.
- Response.ResponseParts: the magnitude and the point on the unit circle need `hypot`, `cos` and `sin`; the point is a parameter.
- PoleZero.Lowpass: the cut-off is a parameter in radians; prewarping needs `tan`.
- PoleZero.Highpass: a zero pole, by which the source divides, is excluded.
- Design.DoLowpass: the cut-off is not prewarped (`tan`), and the matched-Z mode (`exp`, `cos`) is not modelled.
- Design.DoHighpass: likewise.
- Processor.AudioProcessor.FlushSamples: that a pending flush is eventually passed on is shown as "the sink has stopped and owes a resume, or the buffer is stalled", not as liveness.
- Mixer.AudioMixer.AllSamplesFlushed: the model does not record which of several outstanding flushes the sink answers; `Mixer.AudioMixer.AnswerCovers` and `Mixer.AudioMixer.EarlyAcks` are about what the sink has been asked to flush or been given.
- FilterPipe.AudioFilter.ProcessSamples: the output gain is fixed for the life of the filter, and `reset` in mid-stream is covered by `FilterRun.RunBuf.Zap` only.
- Splitter.AudioSplitter.AddSink: sinks are added only while no block is kept and no flush is under way; removing sinks is not modelled.
- Fifo.AudioFifo.Clear: `setSize`, which also clears, is not modelled.
- Floating-point rounding: doubles and floats are reals.
- Filter design (Butterworth, Bessel, Chebyshev, band-pass, band-stop, resonators, matched-Z, windows, `auto_adjust`, `search_peak`) and specification parsing: transcendental functions or text; pole lists are taken as given.
- The handle check by magic number, memory allocation, destructors and the lists' end markers: a list is a sequence of non-empty entries.
- Re-entrant calls from a source or sink during a call: modelled as separate later steps, as the mixer's timer and the processor's deferred tasks are.
- Switching FIFO buffering off, and the FIFO's idle flag, which nothing reads.
- Devices, files, recorders, codecs, the pacer, the jitter FIFO, delay lines, valves, clippers and state detectors.
