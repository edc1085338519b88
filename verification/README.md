# Verification of the audio and transform code

Dafny models of three groups of this repository's code, with proofs of what they are for. Every file is one module.

**Concurrent queues.** `ReaderWriterQueue` is the lock-free queue for one producer and one consumer. It is a
transition system: each load or store of a `weak_atomic` is one step, local variables are part of the program counter,
and the steps of the two threads interleave in any way over sequentially consistent memory. `Blocks` is the ring
buffer of one block, `PowersOfTwo` its size, `QueueInvariant` what every step keeps, `QueueSteps` the proof of it,
`QueueTheorems`, `QueueCalls` and `QueueCapacity` the results over whole runs and whole calls, `QueueWalk` the
destructor and the size, and `Decoder` the decoder thread that feeds the queue. `ActiveObject` is the mutex queue with
its worker and its shutdown message.

**Transforms.** `Arith` and `Complex` name integer and complex products so that proofs can use their laws; arithmetic
is exact. `Twiddles` says what a table of roots of unity is: the entry 0 is 1, entries multiply by adding indices
modulo the length, opposite entries are conjugate, only entry 0 is 1, and the direction fixes the quarter turn.
`Stage` and `Roots` are one recombination stage and the roots of each radix, `Butterflies`, `Factor`, `KissFft` and
`KissFftClass` the program, `Inversion` the inverse and the convolution theorem, `Fir` and `FastFir` the direct and
the streaming filter, `Fftnd` and `Fftr` the transforms of several dimensions and of real data. `Hilbert` is the
space-filling curve of the line examples.

**Audio buffers.** `WasapiBuffer` is the ring buffer of the WASAPI back end, `Samples`, `ConvertBuffer` and
`ConvertRoundTrip` the integer formats, the channel layout and the copy between user and device, `ByteSwap` the byte
order, `JackDrain` the way a Jack stream is stopped, `Layer2` and `Layer2Frame` the two passes of MPEG layer II
decoding.

Where the code does not do what its documentation or use suggests, the model does what the code does:

- A `WasapiBuffer` is never empty: a fresh one refuses every push until something is pulled, and pulling everything
  makes the old samples come round again (`WasapiBuffer.EmptiedIsFull`).
- In `layer2.c` the first channel of an ungrouped joint sample keeps the second channel's multiplier
  (`Layer2Frame.OwnScaling`, `Layer2Frame.FirstChannelScaledTwice`).
- `decode_layer2` can set `jsbound` above `sblimit`, and then the count of the second loop wraps
  (`Layer2Frame.HeaderFits`); the two passes are proved for frames in which it is not.
- A stop that waits for the Jack drain is released exactly if three events come before another stop or an abort
  (`JackDrain.StopReleased`); otherwise nothing releases it before a restart (`JackDrain.SecondStopStrands`).
- `byteSwapBuffer` steps by two bytes through 24-bit samples, and so is right for one sample only
  (`ByteSwap.StridedIsRight`); of a duplex device that is not interleaved, `convertBuffer` clears the first channel
  only, so that other channels left out keep old samples (`ConvertBuffer.ClearedWhole`).
- `kiss_fftnd` with no dimensions leaves `fout` as it was.
- `kf_factor` gives at most 19 radices for a 31-bit length, since 2 * 3^19 is larger than 2^31.

## Model

| member | source | states |
|---|---|---|
| Blocks.MaskIsBump | libraries/common/readerwriterqueue.h:365 | For every power-of-two size, masking the incremented index with size - 1 is the step around the block that the queue model takes |
| PowersOfTwo.CeilToPow2Loop | libraries/common/readerwriterqueue.h:445-457 | The shifting loop returns the least power of two that is not below its argument |
| Blocks.CeilToPow2 | libraries/common/readerwriterqueue.h:64-68 | The size of the first block: the least power of two not below maxSize + 1 |
| QueueSteps.ProducerStepGood | libraries/common/readerwriterqueue.h:347-434 | Every single load or store of an enqueue, in whatever state the other thread has left the memory, keeps the whole invariant: ring of blocks, knowledge of both threads, first in first out |
| QueueSteps.ConsumerStepGood | libraries/common/readerwriterqueue.h:152-323 | The same for every load or store of try_dequeue, pop and peek |
| QueueSteps.WriteSlot | libraries/common/readerwriterqueue.h:366-372 | An element is constructed only in a slot that holds none, although the producer has compared with a front that may be old by then |
| QueueSteps.ReadNextBlock | libraries/common/readerwriterqueue.h:380-393 | The block after a full tail block that is not the front block is empty, so the producer's assertion on it holds |
| QueueSteps.ConsumerNext | libraries/common/readerwriterqueue.h:188-203 | The block after an empty front block that was not the tail block at the start of the call holds an element, so the consumer's assertion on it holds and no filled block is skipped |
| QueueSteps.StoreTailBlock | libraries/common/readerwriterqueue.h:396-399 | An element put into the next block becomes visible with the store of tailBlock, and as the last one |
| QueueSteps.Link | libraries/common/readerwriterqueue.h:410-413 | Linking a new block between the tail block and its successor keeps the ring, wherever the consumer has moved meanwhile |
| QueueSteps.AdvanceFront | libraries/common/readerwriterqueue.h:205-208 | Moving frontBlock on leaves an empty block behind and changes nothing about the contents |
| QueueTheorems.Reachable | libraries/common/readerwriterqueue.h:60-434 | After every interleaving of atomic steps the blocks form one ring along next in which those after frontBlock up to tailBlock hold elements and those beyond hold none, apart from one being prepared; elements lie exactly between front and tail |
| QueueTheorems.FirstInFirstOut | libraries/common/readerwriterqueue.h:151-434 | In every interleaving, the elements removed followed by those in the queue are the elements enqueued, in order: nothing lost, duplicated or reordered across blocks advanced over, reused or added |
| QueueTheorems.NeverFaults | libraries/common/readerwriterqueue.h:202-390 | In every interleaving no assertion on block emptiness fails, no element is constructed over another and no empty slot is read |
| QueueTheorems.DequeueFalse | libraries/common/readerwriterqueue.h:165-224 | If try_dequeue, pop or peek reports an empty queue, the queue was empty when it was called, whatever the producer does meanwhile |
| QueueTheorems.EnqueueFalse | libraries/common/readerwriterqueue.h:360-427 | If try_enqueue returns false, then when it was called the tail block was full and the block after it was the front block, whatever the consumer does meanwhile |
| QueueCapacity.HoldsMaxSize | libraries/common/readerwriterqueue.h:64-85 | Room for maxSize elements without allocation: try_enqueue fails only if the queue held so many when it was called, counting one just being removed |
| QueueTheorems.EnqueueSucceeds | libraries/common/readerwriterqueue.h:133-144 | enqueue, which may allocate, never returns false |
| QueueCalls.EnqueueCall | libraries/common/readerwriterqueue.h:113-434 | A whole call of enqueue or try_enqueue: the element is published exactly if it returns true; with room at the call it returns true and makes no block; with no room whenever it looks, try_enqueue returns false and enqueue adds one block of twice the largest size; try_enqueue never makes a block |
| QueueCalls.TryEnqueueAlone | libraries/common/readerwriterqueue.h:113-131 | While the consumer takes no step, try_enqueue returns true exactly if there is room when it is called |
| QueueCalls.DequeueCall | libraries/common/readerwriterqueue.h:151-323 | A whole call of try_dequeue, pop or peek: on a queue that is not empty it succeeds with the oldest element, on one that is and stays empty it fails, and peek removes nothing |
| QueueTheorems.WaitFree | libraries/common/readerwriterqueue.h:151-434 | In every run a call takes at most 11 steps of the producer or 10 of the consumer, and has returned by the last of so many, however many steps of the other thread come in between |
| QueueTheorems.PeekShowsHead | libraries/common/readerwriterqueue.h:231-264 | What peek returned points at the oldest element of the queue and keeps doing so under any steps of the producer |
| QueueCalls.PopAfterPeek | libraries/common/readerwriterqueue.h:231-323 | After a successful peek, pop succeeds and removes the element that was shown, whatever the producer does in between |
| QueueWalk.DestroyBlock | libraries/common/readerwriterqueue.h:98-106 | Destroys exactly the elements from front to tail, in order, and leaves no slot constructed |
| QueueWalk.Destroy | libraries/common/readerwriterqueue.h:89-113 | Visits every block once; together with what was dequeued it destroys each enqueued element exactly once |
| QueueWalk.SizeApprox | libraries/common/readerwriterqueue.h:327-340 | Between calls the sum over the blocks is the number of elements in the queue |
| Decoder.PlaysInOrder | libraries/audio/audio.h:74-104 | However often the queue is full and the decoder retries, the blocks that the player has taken and those waiting are a gap-free beginning of the blocks decoded, in order, short of it by at most the block being offered |
| Decoder.OfferedIsTaken | libraries/audio/audio.h:78-92 | The decoder does not give up: a block offered for the first time or again while the queue has room is in the queue after 11 steps of the decoder thread, whatever the player does |
| Decoder.RoomFor128 | libraries/audio/audio.h:71 | The queue refuses a block only when it holds 128, counting one that the player is just removing |
| Twiddles.RootSum | external/kissfft-1.3.0/kiss_fft.c:353-361 | The powers of a root of unity other than 1 sum to zero: the fact that makes the transform work |
| Stage.MixedRadix | external/kissfft-1.3.0/kiss_fft.c:237-302 | The radix-p combination of the transforms of the p decimated inputs is the transform of the whole input |
| Butterflies.Bfly2 | external/kissfft-1.3.0/kiss_fft.c:21-42 | Leaves in the p m samples the plain radix-2 combination of what was there, and the rest of the array alone |
| Butterflies.Bfly4 | external/kissfft-1.3.0/kiss_fft.c:44-90 | The same for radix 4, in both directions |
| Butterflies.Bfly3 | external/kissfft-1.3.0/kiss_fft.c:92-134 | The same for radix 3 |
| Butterflies.Bfly5 | external/kissfft-1.3.0/kiss_fft.c:136-195 | The same for radix 5 |
| Butterflies.GenericOutput | external/kissfft-1.3.0/kiss_fft.c:215-231 | One output of the generic butterfly, with the single conditional subtraction that keeps twidx in the table |
| Butterflies.IndexStep | external/kissfft-1.3.0/kiss_fft.c:220-224 | twidx stays below the length and equals q k fstride modulo it after one conditional subtraction |
| Butterflies.BflyGeneric | external/kissfft-1.3.0/kiss_fft.c:198-235 | The plain combination for every radix; so each special butterfly computes the same array as it |
| KissFft.KfWork | external/kissfft-1.3.0/kiss_fft.c:237-302 | At every level of the recursion and for every length and factor list, writes the discrete Fourier sum of the strided input to its part of Fout and nothing elsewhere |
| KissFft.KissFftStride | external/kissfft-1.3.0/kiss_fft.c:371-383 | Bin k of the transform of every in_stride-th sample lands at place k, also when input and output are one buffer |
| KissFft.KissFft | external/kissfft-1.3.0/kiss_fft.c:385-388 | The plain discrete Fourier transform of the input |
| KissFft.KissFftAlloc | external/kissfft-1.3.0/kiss_fft.c:339-368 | The configuration built from the factoriser's list is one for which the transform is correct |
| Factor.KfFactor | external/kissfft-1.3.0/kiss_fft.c:309-330 | Terminates for every 31-bit length and writes the radices and remainders of trial division by 4, 2, 3, 5, 7 and so on, within the table |
| Factor.Prepare | external/kissfft-1.3.0/kissfft.hh:29-47 | Pushes the same radices and remainders as kf_factor, although it gives up trial division earlier |
| KissFftClass.Kissfft.constructor | external/kissfft-1.3.0/kissfft.hh:66-70 | The stage lists from the factoriser multiply to the length stage by stage, down to remainder 1 |
| KissFftClass.Kissfft.KfWork | external/kissfft-1.3.0/kissfft.hh:78-111 | At every stage the discrete Fourier sum of the strided input, as for kf_work in C |
| KissFftClass.Kissfft.Transform | external/kissfft-1.3.0/kissfft.hh:72-75 | The discrete Fourier transform of src in dst, for two different buffers |
| Factor.FactorsChain | external/kissfft-1.3.0/kiss_fft.c:309-330 | For lengths above 1 the radices multiply to the length, each remainder is the one before divided by the radix, and each radix is 4, 2 or an odd prime |
| Factor.FactorsOrder | external/kissfft-1.3.0/kiss_fft.c:309-330 | The radices come in order: 4s first, then at most one 2, then odd primes from the smallest on |
| Factor.FactorsFit | external/kissfft-1.3.0/_kiss_fft_guts.h:22-31 | A 31-bit length has at most 19 radices, so the table of 32 suffices |
| Inversion.Inverse | external/kissfft-1.3.0/kiss_fft.c:339-388 | The transform with the opposite table after the forward one gives n times the input |
| Inversion.ConvolutionTheorem | external/kissfft-1.3.0/tools/kiss_fastfir.c:173-187 | The product of two spectra is the spectrum of the circular convolution |
| Fir.DirectOutput | external/kissfft-1.3.0/tools/kiss_fastfir.c:289-319 | One output of the direct filter, read from the two parts of the circular buffer, is the sum over the taps |
| Fir.DirectFileFilter | external/kissfft-1.3.0/tools/kiss_fastfir.c:254-338 | The direct filter gives one such sum for each full window of the input: the reference that the fast filter is compared with |
| Fir.CircularWindow | external/kissfft-1.3.0/tools/kiss_fastfir.c:148-154 | With the impulse response rotated left, the first nfft - nh + 1 samples of the circular convolution are direct filter outputs |
| Fir.FastConvolution | external/kissfft-1.3.0/tools/kiss_fastfir.c:159-187 | Inverse transform of the product with the scaled response is the circular convolution |
| FastFir.ChooseLength | external/kissfft-1.3.0/tools/kiss_fastfir.c:81-93 | The chosen size is the least power of two that is at least twice the length of the impulse response and at least the smallest size allowed |
| FastFir.State.constructor | external/kissfft-1.3.0/tools/kiss_fastfir.c:65-171 | Leaves the scaled spectrum of the left-rotated impulse response |
| FastFir.State.Fastconv1buf | external/kissfft-1.3.0/tools/kiss_fastfir.c:173-187 | Filters one block by circular convolution, also in place |
| FastFir.State.KffNocopy | external/kissfft-1.3.0/tools/kiss_fastfir.c:192-206 | Filters exactly as many whole steps of ngood samples as blocks fit into the input; every output is the direct sum |
| FastFir.State.KffFlush | external/kissfft-1.3.0/tools/kiss_fastfir.c:208-226 | Filters all the rest, with exactly n - nh + 1 outputs |
| FastFir.State.KissFastfir | external/kissfft-1.3.0/tools/kiss_fastfir.c:228-245 | Outputs are direct sums; the samples not used up are moved to the front and counted in offset |
| FastFir.State.FilterStream | external/kissfft-1.3.0/tools/kiss_fastfir.c:341-390 | For every way to split a stream of at least nh - 1 samples into reads, the outputs of all calls and the flush are exactly what the direct filter gives, N - nh + 1 samples |
| Fftnd.PassHolds | external/kissfft-1.3.0/tools/kiss_fftnd.c:177-182 | One pass transforms one more axis and rotates the order of the axes by one |
| Fftnd.Pass | external/kissfft-1.3.0/tools/kiss_fftnd.c:181-182 | The strided transforms of one pass, from one buffer to a different one |
| Fftnd.NdState.KissFftnd | external/kissfft-1.3.0/tools/kiss_fftnd.c:161-193 | For every list of dimensions the result in fout is the transform along each axis, with the axes in their original order, also when fin is fout |
| Fftr.EvenOdd | external/kissfft-1.3.0/kiss_fftr.c:67-121 | A bin of the double-length transform from the transforms of the even and the odd samples |
| Fftr.ForwardParts | external/kissfft-1.3.0/kiss_fftr.c:105-120 | The packing formulas of the loop give bin k and the bin opposite to it |
| Fftr.WritesAgree | external/kissfft-1.3.0/kiss_fftr.c:105-120 | Where k is ncfft/2 both formulas write the same bin, and agree: the root there is a quarter turn, and the bin is the conjugate of the packed one for the forward table |
| Fftr.BackwardParts | external/kissfft-1.3.0/kiss_fftr.c:139-157 | The packing formulas of the inverse give back the half-length bins, twice |
| Fftr.RealState.KissFftr | external/kissfft-1.3.0/kiss_fftr.c:67-121 | Bins 0 to ncfft of the discrete Fourier transform of the 2 ncfft real samples |
| Fftr.RealState.Repack | external/kissfft-1.3.0/kiss_fftr.c:135-157 | The spectrum that the inverse transforms, bin by bin |
| Fftr.RealState.KissFftri | external/kissfft-1.3.0/kiss_fftr.c:123-159 | The inverse half-length transform of the repacked bins, unpacked to real samples |
| Fftr.RealState.RoundTrip | external/kissfft-1.3.0/kiss_fftr.c:67-159 | The inverse half-length transform of the repacked bins of a real input gives every pair of samples times the number of samples |
| Fftr.ThereAndBack | external/kissfft-1.3.0/kiss_fftr.c:67-159 | kiss_fftr and then kiss_fftri on what it wrote: every sample times the number of samples, also into the buffer of the input |
| Hilbert.Hilbert3D | examples/three/lines_cubes.cpp:24-67 | For any labels and any iteration count, point i of the result is the one that the base-8 digits of i lead to; negative counts behave like zero |
| Hilbert.ChildDescribes | examples/three/lines_cubes.cpp:51-60 | Every tuple of labels passed down is again a symmetry of the cube: distinct labels that a linear map puts on the corners |
| Hilbert.SpotIsPlaced | examples/three/lines_cubes.cpp:24-67 | Under such labels the points are those of one integer walk, moved by the symmetry, scaled and centred |
| Hilbert.IndexOfPoint | examples/three/lines_cubes.cpp:47-64 | No point of the integer walk comes twice |
| Hilbert.PointOfIndex | examples/three/lines_cubes.cpp:47-64 | Every point of the lattice cube comes in the walk |
| Hilbert.Steps | examples/three/lines_cubes.cpp:51-60 | Consecutive points differ on one axis by one lattice step, also between the eighths |
| Hilbert.Ends | examples/three/lines_cubes.cpp:51-60 | At every depth the walk starts at the v0 corner and ends at the v7 corner |
| Hilbert.WalkIsHamiltonian | examples/three/lines_cubes.cpp:24-67 | From the labels 0 to 7, at every depth n, the 8^(n+1) points are exactly the lattice cube, pairwise distinct for a side other than 0, consecutive ones side/2^n apart on one axis, one octant after the other in the order of vec_s, from the point side - side/2^(n+1) towards -x, +y, -z to that towards +x, +y, -z |
| WasapiBuffer.Buffer.constructor | external/rtaudio-4.1.1/RtAudio.cpp:3627-3631 | An empty buffer that takes and gives nothing |
| WasapiBuffer.Buffer.SetBufferSize | external/rtaudio-4.1.1/RtAudio.cpp:3638-3646 | A new buffer holds its full size of zero samples |
| WasapiBuffer.Buffer.PushBuffer | external/rtaudio-4.1.1/RtAudio.cpp:3649-3707 | A push succeeds exactly if its samples fit beside those that wait, goes behind them across the wrap and overwrites none of them |
| WasapiBuffer.Buffer.PullBuffer | external/rtaudio-4.1.1/RtAudio.cpp:3710-3768 | A pull succeeds exactly if so many samples wait, and gets the oldest in order across the wrap |
| WasapiBuffer.PushTest | external/rtaudio-4.1.1/RtAudio.cpp:3658-3667 | The index comparison of pushBuffer, equal indices meaning full, decides exactly whether the samples fit |
| WasapiBuffer.PullTest | external/rtaudio-4.1.1/RtAudio.cpp:3719-3728 | The index comparison of pullBuffer decides exactly whether enough samples wait |
| WasapiBuffer.RunsInOrder | external/rtaudio-4.1.1/RtAudio.cpp:3649-3768 | Over every run, what came out and what waits are what waited at first and what went in, in order, exactly if no pull takes everything that waits |
| WasapiBuffer.EmptiedIsFull | external/rtaudio-4.1.1/RtAudio.cpp:3725-3765 | A pull of everything leaves the buffer full of old samples: it refuses every push and plays them again |
| Samples.PackBytes | external/rtaudio-4.1.1/RtAudio.h:644-661 | Packing keeps the three low bytes of an int, and reading them back gives its low 24 bits as a signed value |
| Samples.AsIntPack | external/rtaudio-4.1.1/RtAudio.h:644-661 | Every three bytes are the packing of the value they read as |
| Samples.RoundTrip | external/rtaudio-4.1.1/RtAudio.cpp:9783-10024 | Conversion to another integer format and back clears the bits the other format has no room for and no more; it is the identity exactly if there are none or they are clear |
| Samples.ConvertScale | external/rtaudio-4.1.1/RtAudio.cpp:9783-10024 | A converted sample keeps the fraction of the full scale it stands for: exactly when widening, rounded down to a step of the new format when narrowing |
| ConvertBuffer.PositionsApart | external/rtaudio-4.1.1/RtAudio.cpp:9557-9587 | Channel k of frame i lies behind i frames of all channels, or behind k buffers of one; different channels and frames lie at different places within the buffer, behind any first channel |
| ConvertBuffer.ClearedWhole | external/rtaudio-4.1.1/RtAudio.cpp:9621-9624 | After the clearing and the conversion, whatever the device buffer of a duplex stream held, every place that no sample went to is zero exactly if the device is interleaved or has at most one channel, or the buffer or the conversion is empty, or the channels in use leave out at most the first |
| ConvertBuffer.Stream.SetConvertInfo | external/rtaudio-4.1.1/RtAudio.cpp:9535-9613 | For both directions and all interleavings, the offsets and jumps are those of channel k of frame i on either side, with the first channel on the device's side |
| ConvertBuffer.Stream.ConvertBuffer | external/rtaudio-4.1.1/RtAudio.cpp:9615-10024 | Every sample of every channel and frame is converted to its place, and every other place keeps its value, after the clearing of a narrower duplex device |
| ConvertRoundTrip.ThereAndBackAgain | external/rtaudio-4.1.1/RtAudio.cpp:9615-10024 | If the user's channels fit behind the first channel, output conversion and then input conversion give back the user's buffer exactly if every sample survives the device's width; always if the device is as wide |
| ConvertRoundTrip.LoopBack | external/rtaudio-4.1.1/RtAudio.cpp:9535-10024 | The same through setConvertInfo and convertBuffer called in both modes on one stream |
| ByteSwap.ByteSwapBuffer | external/rtaudio-4.1.1/RtAudio.cpp:10052-10125 | The swaps of each format's loop, within the samples: whole samples in the opposite byte order, but for 24 bits, where three bytes are swapped at every second place |
| ByteSwap.SampleBytes | external/rtaudio-4.1.1/RtAudio.cpp:10052-10125 | Byte b of a swapped sample of w bytes is byte w - 1 - b of the same sample before |
| ByteSwap.FormatBytes | external/rtaudio-4.1.1/RtAudio.cpp:10052-10125 | By format: 2, 4 and 8 bytes a sample are mirrored, and other formats are left alone |
| ByteSwap.StridedIsRight | external/rtaudio-4.1.1/RtAudio.cpp:10087-10097 | The 24-bit loop, which steps by two bytes, is right on every buffer exactly if there is at most one sample |
| ByteSwap.StridedWrong | external/rtaudio-4.1.1/RtAudio.cpp:10087-10097 | For every larger number of samples a buffer on which it is wrong |
| ActiveObject.StepGood | libraries/common/active_object.h:17-43 | Every push, pop, notification, wake-up, call and destructor step keeps the invariant: order, one destructor message at the end, no sleep beside a non-empty queue without a notification to come |
| ActiveObject.RunsInOrder | libraries/common/active_object.h:35-43 | In every interleaving of senders, worker and destructor, the calls made are the first messages pushed, each once and in order; none pushed behind the destructor's message is called |
| ActiveObject.JoinedMeansAllRun | libraries/common/active_object.h:17-21 | When the destructor's join returns, exactly the callbacks pushed before its message have run |
| ActiveObject.EndComesNearer | libraries/common/shared_queue.h:16-31 | Once the destructor has pushed its message the worker can step or is about to be woken, each step of it brings the end of the loop nearer, and no sender pushes it away |
| ActiveObject.LoopEnds | libraries/common/active_object.h:17-43 | So after boundedly many steps of the worker the loop has ended and the join returns |
| ActiveObject.CallbacksRun | libraries/common/active_object.h:35-43 | On a live object, once the worker has got on 5 steps for each message queued and 4 more, all callbacks pushed before have run, whatever senders and destructor do meanwhile |
| ActiveObject.CallComesNearer | libraries/common/shared_queue.h:16-31 | While a callback waits, the worker can step or is about to be woken, each step of it brings the call nearer, and nothing puts it off |
| ActiveObject.SentIsCalled | libraries/common/active_object.h:23-43 | A callback sent to a live object is called in its place |
| ActiveObject.DestroyJoins | libraries/common/active_object.h:17-21 | The destructor gets its join after boundedly many steps of the worker, with exactly the callbacks pushed before it run |
| Layer2.DecodeAllocations | external/mpadec/libmpadec/layer2.c:39-61 | bit_alloc holds what the bitstream codes for each subband and channel, one code for both channels from jsbound on |
| Layer2.DecodeSelections | external/mpadec/libmpadec/layer2.c:53-65 | One selection for each entry with bits allocated, in order |
| Layer2.ReadFactors | external/mpadec/libmpadec/layer2.c:75-91 | Leaves a, b, c for selection 0, a, a, b for 1, a, a, a for 2 and a, b, b for 3, of the factors read in order (section 2.4.1.6 of ISO/IEC 11172-3) |
| Layer2.DecodeFactors | external/mpadec/libmpadec/layer2.c:71-94 | The three factors of the n-th entry with bits allocated stand at 3 n, within the array |
| Layer2.DecodeBitalloc | external/mpadec/libmpadec/layer2.c:30-95 | The whole allocation pass |
| Layer2.AllocatedShares | external/mpadec/libmpadec/layer2.c:47-52 | Above jsbound both entries of a subband are the same, on which the sample pass relies |
| Layer2.AllocationOrder | external/mpadec/libmpadec/layer2.c:42-52 | The allocations come one behind the other, channel 0 before channel 1 below jsbound and one code for both above |
| Layer2.FieldJoin | external/mpadec/libmpadec/layer2.c:44-64 | Two fields read one behind the other are one longer field with the first in its high bits |
| Layer2.DecodeSamples | external/mpadec/libmpadec/layer2.c:97-162 | Every subband and channel is decoded from its own codes with the factors at its own rank, the two cursors staying together; bands at or above sblimit or the downsampling limit are zero |
| Layer2Frame.DecodeLayer2 | external/mpadec/libmpadec/layer2.c:192-194 | Each of the twelve passes uses the factors of third i >> 2, and the bit position runs on from pass to pass |
| Layer2Frame.OwnFactor | external/mpadec/libmpadec/layer2.c:193-194 | The factor a pass uses is the one the allocation pass read for the same subband, channel and third |
| Layer2Frame.PassFactors | external/mpadec/libmpadec/layer2.c:75-91 | Which coded factor each of the twelve passes uses: under selection 1 the first for passes 0 to 7, under 3 the second from pass 4 on, under 2 one for all, under 0 one for each third |
| Layer2Frame.DecodedSample | external/mpadec/libmpadec/layer2.c:104-155 | Each channel of a subband comes from its own allocation, codes and factor; from jsbound on both channels read the same codes, and only the first channel of an ungrouped one comes out differently |
| Layer2Frame.SampleValue | external/mpadec/libmpadec/layer2.c:108-125 | Three codes behind each other, moved by the table's offset and scaled, or the three members of one code, each scaled by its own multiplier; zero without bits |
| Layer2Frame.OwnScaling | external/mpadec/libmpadec/layer2.c:136-144 | Every sample is scaled by its own channel's factor, except that the first channel of an ungrouped joint code is also scaled by the second's: harmless exactly if the sample is zero or that multiplier is one |
| Layer2Frame.FirstChannelScaledTwice | external/mpadec/libmpadec/layer2.c:136-144 | A frame of allocation table 2 in joint stereo, prepared from its bits, and its first pass: the first channel of band 4 comes out as the square of what it should be, 16/225 for 4/15 |
| Layer2Frame.HeaderFits | external/mpadec/libmpadec/layer2.c:171-185 | For two channels, jsbound is within sblimit except for joint stereo at bit rate indices 1 to 6 with a mode extension of 2 or more, at the third frequency of 3; then the unsigned count of the second loop is 2^32 - 4 or 2^32 - 8, beyond bit_alloc |
| Layer2Frame.HeaderTables | external/mpadec/libmpadec/layer2.c:169-184 | The allocation table that a header selects, against the two tables of the source entry by entry |
| JackDrain.RtApiJack.CallbackEvent | external/rtaudio-4.1.1/RtAudio.cpp:2501-2613 | A running event calls the user callback exactly at a drain counter of 0, stops the stream exactly on its value 2 or at a counter above 3, and otherwise plays one buffer: silence exactly if the counter is above 1, else the buffer of the last call; it never leaves a stopping stream at a counter of 0. Of a stopped, stopping or resized stream it changes nothing |
| JackDrain.RtApiJack.StopStream | external/rtaudio-4.1.1/RtAudio.cpp:2450-2470 | Waits exactly on an open output that is neither stopped nor draining yet, and leaves it running; otherwise an open stream is stopped at once. Plays nothing and calls nothing |
| JackDrain.RtApiJack.AbortStream | external/rtaudio-4.1.1/RtAudio.cpp:2472-2485 | An open stream is always stopped at once, without waiting, and no waiting stop is signalled |
| JackDrain.RtApiJack.StartStream | external/rtaudio-4.1.1/RtAudio.cpp:2376-2448 | A stream that was not running starts with a counter of 0 and no drain; a running one keeps both |
| JackDrain.DrainAfterLastBuffer | external/rtaudio-4.1.1/RtAudio.cpp:2518-2591 | Over every run without a restart, of output or input: after the user callback returns 1 it is not called again, its last buffer is played once, at most two silent buffers follow, and one stopping thread is started exactly if three events of the right size come before a stop, an abort or the end of an older stop |
| JackDrain.StopWaitsForDrain | external/rtaudio-4.1.1/RtAudio.cpp:2460-2466 | Over every run without a restart: one more blocked thread is signalled after a stop exactly if three events of the right size come before the next stop or abort; up to two silent buffers are played |
| JackDrain.StopReleased | external/rtaudio-4.1.1/RtAudio.cpp:2460-2485 | A stop that waits alone is signalled or has gone on, in a run without a restart, exactly if at least three events of the right size come before the first other stop or abort; once signalled it stops the stream |
| JackDrain.SecondStopStrands | external/rtaudio-4.1.1/RtAudio.cpp:2460-2485 | So if a second stop or an abort comes first, the first stop waits on through every run without a restart |
| JackDrain.RunSound | external/rtaudio-4.1.1/RtAudio.cpp:2450-2613 | In every run, restarts included, the counter stays at 4 or below, an internal drain has a counter above 0, and no more threads are signalled than wait |
| JackDrain.QuietUntilRestart | external/rtaudio-4.1.1/RtAudio.cpp:2501-2613 | Whatever stops, aborts and events come, once draining has begun the user callback stays quiet until a restart, only its last buffer and silence are played, and a stop never waits |
| JackDrain.AbortedByCallback | external/rtaudio-4.1.1/RtAudio.cpp:2541-2551 | Over every run without a restart after the user callback returned 2: it is not called again, nothing more is played, one stopping thread is started, and a stop stops the stream without waiting |

## Left out

- Weak memory: the queue's fences, cache-line padding and raw allocation. Atomic accesses are sequentially consistent, and a block's data is a sequence of slots.
- The order in which the two operands of `tailBlock_->next.load() != frontBlock` are loaded is not fixed in C++; next is loaded first. Only the producer writes next, so the other order gives the same values.
- PowersOfTwo.CeilToPow2Loop: a `size_t` of eight bytes and arguments from 1 to 2^63, above which the result would not fit.
- Construction, move and destruction of an element of the queue are one step with the slot access; the re-entrance guards of debug builds are not modelled.
- QueueWalk.SizeApprox: exact between calls only; during calls the value is an approximation by design.
- The condition variable of SharedQueue is a set of waiting threads with notifications and spurious wake-ups; pop_nowait, pop_wait_for, empty and size are easier members.
- Floating-point rounding, FIXED_POINT, USE_SIMD and the OpenMP branch of kf_work: all transforms are over exact reals.
- kf_cexp, sin and cos: the tables of roots are taken through their algebra; the super twiddles are taken from a table of twice the length.
- Factor.KfFactor: floor(sqrt(n)) is a parameter with its defining property.
- Factor.Prepare: p * p is unbounded, although it can overflow near 2^31.
- Butterflies.GenericOutput: twidx is unbounded, although `int` overflows for lengths above 2^30.
- The butterflies of kissfft.hh write the formulas of kiss_fft.c and are modelled once; kiss_fft_next_fast_size is an easier member.
- The byte layout of what the alloc functions return, and the memory they measure.
- FastFir.State.KffFlush: needs at least nh - 1 samples, since with fewer the source's count wraps below zero. The real-valued variant of the filter is not modelled, and the overlapping memcpy of kiss_fastfir is a move.
- Fir.DirectFileFilter: needs two taps, since with one the source writes past an empty circular buffer; file reads in pieces of 4096 are taken as one stream.
- Fftr.RealState.KissFftr: the cast of the real buffer to complex pairs is a copy. In the source a wrong direction ends the program and an odd length yields no configuration; here they are excluded by preconditions.
- Hilbert.Hilbert3D: coordinates are exact reals.
- WasapiBuffer.Buffer.PushBuffer: indices are unbounded, although `unsigned int` wraps for sizes above 2^31; one element type stands for the six formats, whose copies differ in element size only.
- ConvertBuffer.Stream.SetConvertInfo: the offset lists are still empty, as they are when a stream is opened.
- ConvertBuffer.Stream.ConvertBuffer: integer formats only; conversions from and to floating point round.
- JackDrain.RtApiJack.CallbackEvent: the audio data, conversion, xrun flags and time are left out, and what is played is recorded by the number of the callback that filled it. callbackEvent is atomic, and pthread_cond_wait does not wake without a signal.
- JackDrain.RtApiJack.StartStream: connecting ports may fail in the source; here it succeeds. The exception for a closed stream is a call that changes nothing.
- Layer2.DecodeBitalloc: the checksum and the bit cache behind GETBITS; bits beyond the end of the stream are zero.
- Layer2Frame.DecodeLayer2: downmixing and synthesis.
- Device probing, opening and back-end calls, layer I and III, the three.js port, examples and tools.
