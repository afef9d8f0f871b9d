# Pure Data externals and GrIPD, verified in Dafny

The repository is a collection of objects for Pure Data (signal processing and algorithmic composition, in C) and the
GrIPD interface builder (in Python). Most of its objects are small mutable loops that are meant to compute a clean
mathematical object over an unbounded run. This project models the hardest of them and proves that they do, for every
input and every number of calls, or states exactly when they do not.

| area | modules | main results |
|---|---|---|
| `partconv~`, partitioned convolution | `RootsOfUnity`, `Spectrum`, `PackedBuffers`, `Convolution`, `Dealing`, `PartitionedConvolution` | the scheduler is direct convolution, late by one partition less one block, plus an exact echo of what its input buffer held at first, and exactly when there is none |
| `pvoc~`, overlap-add ring | `OverlapAdd`, `HannWindow` | for any block sizes the ring is the infinite overlap-add sum of the frames its trigger starts; when that is one frame a hop; nothing is lost; unchanged frames give the source back, at one gain exactly when three or more overlap |
| `boids2d` | `Neighbours`, `Boids`, `Steering` | the bounded insertion sort finds the nearest neighbours; updating in place is a simultaneous move; a flight stays in reach; which way each rule turns a boid, and what its test for being in front really tests |
| `selfsimilar` | `Positional`, `SelfSimilar` | the recursion is an odometer; each level plays the tune of a smaller object |
| `oneoverf` | `OneOverF` | the ruler sequence and its renewal rates |
| `ifsmusic` | `IfsMusic` | interval products, reversals, the pitch of every note of a run, choice in range |
| `susloop~` | `SustainLoop` | wrapped phase and triangle wave, for any blocks, and exactly which steps and starts keep them |
| `genetic` | `Genetic`, `Roulette` | bit packing modulo a power of two; the best match is returned; truncation and roulette scan |
| GrIPD paths | `Strings`, `Paths`, `Slashes`, `PathMeaning` | when the rewriting loop ends, what it computes, what becomes of runs of slashes, when it keeps the meaning of a path |
| GrIPD control lists and files | `Numerals`, `Controls`, `ControlsRoundTrip`, `ControlFiles`, `ControlFormat` | which control lists can be read back, and what comes back; when a file gives what a duplication gives |

`Summation`, `Arithmetic` and `Wrappers` are shared helpers. The quantifiers over one value, such as
`forall now | now == time :: Holds(now)`, mean just `Holds(time)`; they keep the predicate folded in the solver.

How the model relates to the code:

- Samples, notes and positions are exact reals or integers. Random draws are parameters with the range the code gives
  them.
- FFTW is modelled by its meaning: `Spectrum` defines the packed real transform and its inverse over a table of powers
  of a primitive root of unity (`RootsOfUnity`) and proves the convolution theorem and the inversion, so that the sum
  buffers of `partconv~` hold what the library leaves in them, in frequency or in time. The two floats that the
  inverse transform leaves unspecified are an arbitrary parameter (`tail`).
- Objects whose methods update fields are classes; their `Valid()` is the invariant of every reachable state. Ghost
  fields record the history (samples heard, bangs, frames), so a contract about one call speaks about the whole run;
  the methods `Render`, `Play`, `Listen`, `LoopForward`, `LoopPingPong`, `Travel`, `Duplicate`, `SaveAndOpen` state
  the result for whole runs outright.

Where the code differs from what its comments or its name suggest:

- `partconv~` does not clear its input spectrum (`externals/bsaylor/partconv~.c:302-305`), but multiplies it into the
  ring during the first calls when a block is smaller than a partition. `Render` states what is then heard, sample by
  sample, for every content of the buffer: first the circular convolution of the signal it stands for (`Recovered`)
  with partition 0, later the products with the other partitions done before the first full block. `StaleImpulseHeard`
  is an instance. No impulse response lets anything be heard exactly when a block is a whole partition or the buffer
  is zero, but for the two floats that no transform looks at (`EcholessIff`). The sum buffers are cleared
  (`externals/bsaylor/partconv~.c:313`) but then planned with FFTW_MEASURE, which may overwrite them; the model takes
  them as zero after planning.
- The clamp marked "does this ever happen?" (`externals/bsaylor/partconv~.c:182`) never fires at a constant block
  size.
- `pvoc~` starts a frame only in a call that begins at a multiple of the hop size in its ring, and does not report
  larger blocks although its comment asks for an error. One frame starts at each hop if and only if the block size
  divides the hop size and the hop size the frame size (`RunOnTime`). Its window gives an even gain only from three
  overlapping frames on (`HannFlatIff`).
- `susloop~` corrects its position once per sample, from above only unless it moves down. Longer steps, steps back and
  starts far from the loop break the wrapped phase (`ForwardStepIff`, `PingPongStepIff`, `ForwardStartIff`,
  `PingPongStartIff`, `StepsBackMiss`).
- `boids2d` seeks the centre of the flock one step late, since it is computed before positions are saved
  (`CenterLags`). Its insertion loop reads `neighborDistSqr[j-1]` before it tests `j > 0`; the model tests first. The
  message that sets the number of neighbours accepts any number, and more than 4 overrun the arrays of each boid.
- The test whether a boid is in front of another (`externals/boids/boids2d.c:823-845`) claims a line at right angles to
  the course, but mirrors the course at a diagonal first (`InFrontMirrored`). It agrees with the claim for every place
  of the other boid exactly when the course is a diagonal (`InFrontIff`); `InFrontMisses` is a place it misjudges.
- `ifsmusic` divides by the sum of the weights without a test. With sum zero the thresholds are infinite or not
  numbers, yet every draw still chooses a function (`ChoiceInRange`).
- In `genetic`, the scan returns the number of individuals passed, not the index of the last one; it is the population
  size, one past the last individual, exactly when the draw lies in the last share (`Select`).
- `scrubPath` does not end on relative paths whose first segment would be taken back (`TerminatesIff`), takes back `.`
  and empty segments as if they were directories (`ScrubLosesMeaning`, `ScrubKeepsMeaningIff`). No clean absolute file
  survives being made relative to the root directory and absolute again (`RelativeThenAbsolute`).
- Reading a control list back fails if a text field equals the end marker. A missing text colour comes back as black,
  a missing background colour stays missing (one digit fewer is written), and the range of a spin button is dropped.
  Control types that are not known and images that do not load make reading fail. `Restored` is the record handed to
  the widget: what the widget keeps of it is not modelled (a mouse area drops its label).
- Duplicating deletes the line ends inside texts. A file is read line by line, so there a line end shifts all later
  fields (`FileLinesIff`), and reading fails or gives something else (`LineEndBreaks`, `OpenedSame`).

## Model

| member | source | states |
|---|---|---|
| `RootsOfUnity.PrimitiveRootTwiddles` | externals/bsaylor/partconv~.c:287 | the powers of any primitive root satisfy the laws the transforms rest on: addition, conjugation, full turn, order |
| `RootsOfUnity.Orthogonality` | externals/bsaylor/partconv~.c:305 | the powers of a root cancel over a full turn unless the exponent is a multiple of its order |
| `Spectrum.ConvolutionTheorem` | externals/bsaylor/partconv~.c:193-204 | bin by bin, the transform of a circular convolution is the complex product of the transforms |
| `Spectrum.AccumulatedIsConvolution` | externals/bsaylor/partconv~.c:189-206 | accumulating one product in the packed spectrum adds exactly one circular convolution to the signal it stands for |
| `Spectrum.Hermitian` | externals/bsaylor/partconv~.c:370-372 | the bins that the packed spectrum leaves out are the conjugates of those it holds |
| `Spectrum.InversionAll` | externals/bsaylor/partconv~.c:215 | the inverse transform of a spectrum is the signal scaled by the transform size |
| `PackedBuffers.ForwardRecovered` | externals/bsaylor/partconv~.c:302-305 | every packed buffer is the spectrum of the signal it stands for, but for the imaginary parts of the first and last bin |
| `PackedBuffers.RecoveredForward` | externals/bsaylor/partconv~.c:302-305 | the spectrum of a signal stands for that signal |
| `PackedBuffers.BackwardCleaned` | externals/bsaylor/partconv~.c:215 | the inverse transform does not see those two floats |
| `PackedBuffers.AccumulatedCleaned` | externals/bsaylor/partconv~.c:189-206 | products with a partition do not spread those two floats to others |
| `Convolution.PaddedCircularIsLinear` | externals/bsaylor/partconv~.c:166-167 | the circular convolution of two blocks padded to twice their size is the linear one |
| `Convolution.OverlapAddPartial` | externals/bsaylor/partconv~.c:220-224 | first half of one buffer plus second half of the one before is the direct sum over the partitions done so far |
| `Convolution.OverlapAddIsDirect` | externals/bsaylor/partconv~.c:184-224 | with all partitions this is the direct convolution with the undivided response, whatever input follows |
| `Dealing.DealWork` | externals/bsaylor/partconv~.c:94-112 | dealing one by one gives call i `parts/calls`, plus one if `i < parts mod calls`, and touches no other entry |
| `Dealing.DealtClosed` | externals/bsaylor/partconv~.c:106-112 | closed form of the number of partitions dealt before call j |
| `Dealing.DealtAll` | externals/bsaylor/partconv~.c:181-207 | a cycle deals every partition once and no prefix of it deals too many, so the clamp never fires |
| `Dealing.FirstShare` | externals/bsaylor/partconv~.c:209-216 | partition 0 is always done in call 0 |
| `Dealing.FirstDealtNext` | externals/bsaylor/partconv~.c:180-183 | while the deal was made for another number of calls, each call still takes its share of it, and calls beyond the deal take none |
| `PartitionedConvolution.PartitionResponse` | externals/bsaylor/partconv~.c:276-297 | partition i is the transform of the zero-padded piece i of the response, cut to 256 partitions |
| `PartitionedConvolution.PartCountCovers` | externals/bsaylor/partconv~.c:276-281 | the partitions cover the cut response and none is empty |
| `PartitionedConvolution.PartCountIs` | externals/bsaylor/partconv~.c:276-281 | there are as many partitions as the table needs, the last one perhaps incomplete, and never more than 256 |
| `PartitionedConvolution.CutIs` | externals/bsaylor/partconv~.c:276-281 | the response in use is the whole table, or its first 256 partitions |
| `PartitionedConvolution.LinkRing` | externals/bsaylor/partconv~.c:318-323 | `next` and `prev` step one slot round the ring of nparts+2 |
| `PartitionedConvolution.RingInverse` | externals/bsaylor/partconv~.c:318-323 | `next` and `prev` undo each other |
| `PartitionedConvolution.MultiplyInto` | externals/bsaylor/partconv~.c:189-204 | one pass over the bins adds the complex product to one row and leaves the other rows alone |
| `PartitionedConvolution.PartConv.constructor` | externals/bsaylor/partconv~.c:299-327 | a new object satisfies the invariant with nothing heard, whatever its input buffer holds from before; how many partitions will be multiplied with that is fixed by the deal at hand |
| `PartitionedConvolution.PartConv.MultiplyNext` | externals/bsaylor/partconv~.c:184-206 | doing one partition keeps the ledger: every slot ahead holds exactly the products done so far, and only one slot changes |
| `PartitionedConvolution.PartConv.ConvolveShare` | externals/bsaylor/partconv~.c:180-207 | a call's share keeps the ledger, advances `curpart` by the share, and changes neither the previous slot nor, after the first call, the current one |
| `PartitionedConvolution.PartConv.FinishCurrent` | externals/bsaylor/partconv~.c:212-216 | the inverse transform turns the complete current slot into scaled output samples and touches no other |
| `PartitionedConvolution.PartConv.ClearPrev` | externals/bsaylor/partconv~.c:171-172 | after clearing the slot that was read out, every slot holds what the next cycle starts from |
| `PartitionedConvolution.PartConv.Advance` | externals/bsaylor/partconv~.c:171-177 | stepping to the next slot keeps the ledger for the new block |
| `PartitionedConvolution.PartConv.BeginCycle` | externals/bsaylor/partconv~.c:154-178 | a full input buffer becomes the current block, transformed, dealt and with read positions 0 and P |
| `PartitionedConvolution.PartConv.Emit` | externals/bsaylor/partconv~.c:218-224 | the block output is the direct convolution at its time less P-n, plus the echo of the first input spectrum |
| `PartitionedConvolution.PartConv.Perform` | externals/bsaylor/partconv~.c:124-231 | every call keeps the invariant, hears its input, and outputs the direct convolution of everything heard, late by P-n, plus the echo of the first input spectrum |
| `PartitionedConvolution.Render` | externals/bsaylor/partconv~.c:124-231 | over any run, output sample t is the direct convolution of the input with the table, or with its first 256 partitions, at t-(P-n), zero before, plus the echo: the signal that the uninitialised input buffer stands for convolved with the partitions multiplied before the first full block, each in the slot it was added to; with whole-partition blocks it is the direct convolution outright |
| `PartitionedConvolution.EcholessIff` | externals/bsaylor/partconv~.c:302-305 | for every content of the input buffer: nothing is heard of it through any impulse response if and only if a block is a whole partition or all its floats but two are zero |
| `PartitionedConvolution.StaleImpulseHeard` | externals/bsaylor/partconv~.c:302-305 | with partitions of 2 and blocks of 1, a stale impulse is heard as sample 0 |
| `PartitionedConvolution.LeakFits` | externals/bsaylor/partconv~.c:180-183 | the partitions multiplied too early are at most all; none if a block is a whole partition, and otherwise some exactly when there are any |
| `OverlapAdd.MixedBehind` | externals/bsaylor/pvoc~.c:250 | no frame reaches the sample whose slot is zeroed, so zero is its right content |
| `OverlapAdd.RingTurn` | externals/bsaylor/pvoc~.c:247-254 | the slot the window leaves is the slot it enters |
| `OverlapAdd.Vocoder.AddFrame` | externals/bsaylor/pvoc~.c:241-244 | adding a frame makes the ring hold the sum with that frame for all fftsize samples to come |
| `OverlapAdd.Vocoder.Emit` | externals/bsaylor/pvoc~.c:247-254 | a block of output is the frame sum at its times, and the ring holds the sum for the samples after it |
| `OverlapAdd.Vocoder.Perform` | externals/bsaylor/pvoc~.c:135-256 | a call with a block of any size takes in a frame, starting at its time, exactly when the trigger fires, and outputs the frame sum |
| `OverlapAdd.BlockFits` | externals/bsaylor/pvoc~.c:136 | blocks whose size divides the hop size never cross a hop, so every frame is started |
| `OverlapAdd.StartedIff` | externals/bsaylor/pvoc~.c:136 | in a run of equal blocks a frame starts at sample t if and only if a call starts there and the trigger fires |
| `OverlapAdd.FiresIff` | externals/bsaylor/pvoc~.c:136 | the trigger fires at the multiples of the hop size within each turn of the ring, counted anew in every turn, also where the hop size does not divide it |
| `OverlapAdd.RunOnTime` | externals/bsaylor/pvoc~.c:136 | a run of equal blocks longer than a frame and a hop starts frames at the multiples of the hop size, at all of them and nowhere else, if and only if the block size divides the hop size and the hop size the frame size |
| `OverlapAdd.FramesOnTime` | externals/bsaylor/pvoc~.c:136 | the same of the trigger alone, over any range longer than a frame and a hop |
| `OverlapAdd.MissedHop` | externals/bsaylor/pvoc~.c:136 | if the hop size does not divide the frame size, the first multiple of it after the ring has turned starts no frame, for any block size |
| `OverlapAdd.RegularFrames` | externals/bsaylor/pvoc~.c:135-256 | when both divide, the frames started are one a hop: frame f starts at f*hop, and as many have started as there are hops begun |
| `OverlapAdd.Play` | externals/bsaylor/pvoc~.c:135-256 | over any run of blocks of any sizes, output sample t is the sum, over all frames the trigger starts at times s with s <= t < s+fftsize, of the shaped frame at t-s |
| `OverlapAdd.Conservation` | externals/bsaylor/pvoc~.c:241-251 | the sum of all output is the sum of all frames, wherever they start: each contribution is emitted exactly once |
| `OverlapAdd.UnchangedOutput` | externals/bsaylor/pvoc~.c:184-244 | frames left as read give the source back, times the overlapped squares of the window, which depend on t mod hop only |
| `HannWindow.HannFlat` | externals/bsaylor/pvoc~.c:266-274 | with three or more overlapping frames the overlapped squares of the window are 3/8 of the overlap at every offset |
| `HannWindow.HannFlatIff` | externals/bsaylor/pvoc~.c:266-274 | they are the same at every offset if and only if three or more frames overlap or the hop is one sample |
| `HannWindow.HannOutput` | externals/bsaylor/pvoc~.c:184-244 | frames left as read then give the source back times 3/8 of the overlap, sample by sample |
| `Neighbours.ShiftPlaces` | externals/boids/boids2d.c:699-707 | the inner loop puts the new boid at the place found and moves those behind it down by one, numbers and distances alike |
| `Neighbours.FoundNearest` | externals/boids/boids2d.c:671-711 | for every flock and 1 to 4 neighbours, the arrays hold the nearest candidates in order, lower numbers first among equals, and old entries behind them if there are too few |
| `Neighbours.NearestUnique` | externals/boids/boids2d.c:671-711 | the list so described is unique |
| `Neighbours.FoundFull` | externals/boids/boids2d.c:671-711 | with more than k boids in sight: k distinct other boids, sorted, distances matching, no unlisted boid closer than the last |
| `Boids.OrderIrrelevant` | externals/boids/boids2d.c:589-635 | updating boids in place in any order without repetition moves exactly those visited, each as if all moved at once |
| `Boids.AnyOrder` | externals/boids/boids2d.c:589-635 | every order that visits each boid once equals the simultaneous map of the saved flock |
| `Boids.NormalizedLength` | externals/boids/boids2d.c:931-943 | a direction gets unit length, or stays zero |
| `Boids.NextSpeed` | externals/boids/boids2d.c:622-629 | with minimum <= maximum the speed lies between them and is kept if it already did; otherwise it is the one or the other |
| `Boids.NextBounds` | externals/boids/boids2d.c:601-634 | after an update the speed is within the limits and the move at most maxSpeed times speedup/100 |
| `Boids.FlightBounds` | externals/boids/boids2d.c:568-637 | after t steps every speed is within the limits and no boid is farther than t such moves from its start |
| `Boids.CenterLags` | externals/boids/boids2d.c:579-588 | the centre sought in a step is that of the positions one step before |
| `Steering.CenterBalances` | externals/boids/boids2d.c:639-656 | the centre is where the offsets of all boids add up to nothing |
| `Steering.StepSaves` | externals/boids/boids2d.c:580-588 | a step saves the place and course of every boid before any is changed |
| `Steering.SeeksTowards` | externals/boids/boids2d.c:777-785 | the course to a point leads straight to it |
| `Steering.WallsPushIn` | externals/boids/boids2d.c:788-820 | outside a wall a boid is pushed inwards, as strongly as its course, and nowhere else; tested at the point ahead of it |
| `Steering.PushesAway` | externals/boids/boids2d.c:734-747 | a close neighbour pushes straight away from itself, by its distance and the preferred distance together |
| `Steering.AdviceIsMean` | externals/boids/boids2d.c:713-774 | the boid is told to avoid by the mean of the pushes of its close neighbours and to follow the sum of the courses of all |
| `Steering.AvoidsOne` | externals/boids/boids2d.c:734-771 | with one close neighbour it is told to fly away from it |
| `Steering.AdviceSpeed` | externals/boids/boids2d.c:749-760 | its speed is multiplied by the acceleration for every neighbour in front or close, and divided by it for every one that is both or neither |
| `Steering.InFrontMirrored` | externals/boids/boids2d.c:839-858 | what counts as in front, for a course that is neither level nor upright |
| `Steering.InFrontIff` | externals/boids/boids2d.c:823-845 | that is in front by the course itself, for every place off the dividing line, if and only if the course is a diagonal |
| `Steering.InFrontMisses` | externals/boids/boids2d.c:823-845 | for the course (2, 1) a boid ahead of it that does not count as in front |
| `Steering.InFrontUpright` | externals/boids/boids2d.c:860-873 | for an upright course it is in front by the course itself |
| `Steering.NextDirMixes` | externals/boids/boids2d.c:602-619 | the new course is, normalized, inertia times the old one plus the weighted pulls over the inertia, each weight with its own pull |
| `Steering.FliesStraight` | externals/boids/boids2d.c:602-619 | a boid that nothing pulls keeps its course |
| `Steering.NextFlies` | externals/boids/boids2d.c:589-635 | a step gives a boid that course, the speed its neighbours ask for within the limits, and moves it along the course by speed and speedup |
| `Steering.NeighboursFound` | externals/boids/boids2d.c:590-596 | for 1 to 4 neighbours the nearest boids are the ones followed and avoided; with none there is nothing to follow or avoid and no speed of its own |
| `Boids.Flock.FindFlockCenter` | externals/boids/boids2d.c:639-656 | the mean of the saved positions |
| `Boids.Flock.FindNeighbours` | externals/boids/boids2d.c:671-711 | both branches, the one for a single neighbour included, compute the same search and change only this boid's arrays |
| `Boids.Flock.MatchAndAvoid` | externals/boids/boids2d.c:713-778 | the loop over the neighbours computes the advice from saved poses only |
| `Boids.Flock.Fly` | externals/boids/boids2d.c:589-635 | one boid is updated from its own state and the saved poses; no other changes |
| `Boids.Flock.FlightStep` | externals/boids/boids2d.c:568-637 | the in-place step equals the simultaneous step on the flock |
| `Boids.Flock.Travel` | externals/boids/boids2d.c:568-637 | a run of steps is the iterated simultaneous step |
| `SelfSimilar.Player.constructor` | externals/algocomp/selfsimilar.c:111-143 | a new object shows time 0: all positions 0, all flagged, each level its first note |
| `SelfSimilar.ConfigureFields` | externals/algocomp/selfsimilar.c:117-135 | levels, transposition and melody come in this order, clipped to 2 to 16 levels; the values for what is not given |
| `SelfSimilar.Player.ChangePosition` | externals/algocomp/selfsimilar.c:37-60 | position i becomes digit i of t+1 in base nr_notes, level i is flagged exactly when nr_notes^i divides t+1, and the result is the carry |
| `SelfSimilar.Player.CreateMelody` | externals/algocomp/selfsimilar.c:62-75 | level l gets melody[0] plus the digit offsets from l upwards plus transpose*(levels-1-l) |
| `SelfSimilar.Player.Bang` | externals/algocomp/selfsimilar.c:77-94 | bang t sends out exactly the notes of the levels that moved at t |
| `SelfSimilar.TopNote` | externals/algocomp/selfsimilar.c:87 | the top level plays the melody itself |
| `SelfSimilar.NoteStep` | externals/algocomp/selfsimilar.c:62-75 | every other level plays its own offset and one transposition above the level over it |
| `SelfSimilar.EmittedInOrder` | externals/algocomp/selfsimilar.c:81-84 | a bang sends out from the lowest level to the highest, each level at most once and with its own note |
| `SelfSimilar.NoteShift` | externals/algocomp/selfsimilar.c:62-75 | at the moments level l moves, level l+j is level j of an object with l levels fewer |
| `SelfSimilar.SelfSimilarity` | externals/algocomp/selfsimilar.c:62-94 | all notes sent out at level l are, in order, the level-0 notes of an object with l levels fewer |
| `SelfSimilar.EmissionsRepeat` | externals/algocomp/selfsimilar.c:77-94 | after nr_notes^levels bangs everything sent out repeats |
| `SelfSimilar.Listen` | externals/algocomp/selfsimilar.c:77-143 | a whole run heard at one level is that level's voice |
| `OneOverF.RenewedDivides` | externals/algocomp/fractal.c:40-51 | tick t renews generator i exactly when 2^i divides t and, unless i is the last, 2^(i+1) does not |
| `OneOverF.RenewalRate` | externals/algocomp/fractal.c:39-51 | how often generator i is renewed in any number of ticks |
| `OneOverF.RenewalsPerPeriod` | externals/algocomp/fractal.c:39-51 | over 2^(n-1) ticks generator i < n-1 is renewed 2^(n-2-i) times and the top one once |
| `OneOverF.LargestPower` | externals/algocomp/fractal.c:40-51 | the descending search finds the largest power below 2^n that divides the counter |
| `OneOverF.Noise.Bang` | externals/algocomp/fractal.c:27-55 | a tick sends out the last sum, renews exactly the generator min(v2(t), n-1), keeps the output equal to the sum and moves it by at most 1/n |
| `OneOverF.Noise.OutputInUnitInterval` | externals/algocomp/fractal.c:52-54 | the output lies in [0, 1] in every state |
| `IfsMusic.AppliedInterval` | externals/algocomp/ifsmusic.c:39-51 | one function multiplies every interval by its scale, in mirrored places if it reverses |
| `IfsMusic.IntervalLaw` | externals/algocomp/ifsmusic.c:29-53 | after any run of functions every interval is the product of their scales times the original, mirrored after an odd number of reversals |
| `IfsMusic.FirstNote` | externals/algocomp/ifsmusic.c:39-51 | the first note goes up by the transposition, to the last place if the function reverses |
| `IfsMusic.SerieNote` | externals/algocomp/ifsmusic.c:29-53 | every note of every serie, from the pitch that the first note has come to and the intervals |
| `IfsMusic.LevelRises` | externals/algocomp/ifsmusic.c:43-45 | without reversals that pitch is the first note plus the sum of all transpositions |
| `IfsMusic.PlainKeeps` | externals/algocomp/ifsmusic.c:119-131 | the functions of a new object change nothing and are chosen equally often |
| `IfsMusic.ChoiceInRange` | externals/algocomp/ifsmusic.c:37 | whatever the weights, even if they sum to zero, every draw up to 1 chooses one of the functions |
| `IfsMusic.ZeroSumChoice` | externals/algocomp/ifsmusic.c:37 | if the weights add up to zero, every draw chooses the first function whose running sum is not negative |
| `IfsMusic.ThresholdWidth` | externals/algocomp/ifsmusic.c:90-107 | where the weights do not sum to zero, the draws that choose a function are its share of the weights |
| `IfsMusic.Music.SetFunctions` | externals/algocomp/ifsmusic.c:84-109 | the thresholds are the running sums over the total, with the infinities and the undefined value that dividing by zero gives; fewer than four numbers leave functions and thresholds alone |
| `IfsMusic.DescribedRead` | externals/algocomp/ifsmusic.c:90-99 | functions and weights listed as scale, transposition, reversal and weight are read as they were listed |
| `IfsMusic.DescribedUsed` | externals/algocomp/ifsmusic.c:84-109 | functions so listed are the ones in use afterwards, with thresholds from their weights; fewer than four numbers change nothing |
| `IfsMusic.TruncatedTowardsZero` | externals/algocomp/ifsmusic.c:95 | the reversal is cast towards zero |
| `IfsMusic.Music.ReverseAll` | externals/algocomp/ifsmusic.c:46-51 | the notes are reversed by way of a second array |
| `IfsMusic.Music.NextSerie` | externals/algocomp/ifsmusic.c:29-53 | at the end of a serie, and only there, the function that the draw chooses makes the next |
| `IfsMusic.Music.Bang` | externals/algocomp/ifsmusic.c:68-73 | a bang outputs the next note and starts the next serie after the last |
| `IfsMusic.Music.OutputSerie` | externals/algocomp/ifsmusic.c:55-66 | the whole serie is output and the next one made |
| `IfsMusic.Play` | externals/algocomp/ifsmusic.c:29-73 | a run of bangs plays, note by note, the series that the draws choose |
| `SustainLoop.WrapIsWrapped` | externals/bsaylor/susloop~.c:44-46 | the phase taken down by the fewest whole loops to at most b is unique and is the closed form |
| `SustainLoop.FoldIsTriangle` | externals/bsaylor/susloop~.c:66-72 | every mirror image of the phase between a and b is the triangle wave |
| `SustainLoop.PhaseOfRates` | externals/bsaylor/susloop~.c:48 | the phase is the start plus the sum of the rates over the sample rate |
| `SustainLoop.ForwardWraps` | externals/bsaylor/susloop~.c:35-54 | with steps between 0 and the loop length and a start at most one loop past the end, every forward sample is the accumulated phase wrapped into the loop |
| `SustainLoop.ForwardStepIff` | externals/bsaylor/susloop~.c:44-48 | a step from the wrapped phase gives the wrapped phase again, whatever the phase, if and only if it is between 0 and the loop length |
| `SustainLoop.ForwardStartIff` | externals/bsaylor/susloop~.c:44-46 | the first sample is the wrapped start if and only if the start is at most one loop past the end |
| `SustainLoop.ForwardMisses` | externals/bsaylor/susloop~.c:44-48 | the failing family: after a wrap, a step back past the loop start leaves the loop and misses the wrapped phase by the loop length |
| `SustainLoop.PingPongFolds` | externals/bsaylor/susloop~.c:56-81 | with such steps and a start in the loop or at most one loop past it, every ping-pong sample is the triangle wave at the accumulated phase |
| `SustainLoop.PingPongStepIff` | externals/bsaylor/susloop~.c:66-74 | a step from the triangle wave, in either direction, gives the triangle wave again, whatever the phase, if and only if it is between 0 and the loop length |
| `SustainLoop.PingPongStartIff` | externals/bsaylor/susloop~.c:66-72 | the first sample is the triangle wave at the start if and only if the start is in the loop or at most one loop past it |
| `SustainLoop.StepsBackMiss` | externals/bsaylor/susloop~.c:44-74 | steps 0.75 and -0.5 from 0.5 in the loop from 0 to 1 output -0.25 where the phase is 0.75; ping-pong leaves the loop with one step back |
| `SustainLoop.SusLoop.Forward` | externals/bsaylor/susloop~.c:35-54 | a block outputs and leaves the positions of the step recurrence |
| `SustainLoop.SusLoop.PingPong` | externals/bsaylor/susloop~.c:56-81 | a block outputs and leaves the positions and directions of the step recurrence |
| `SustainLoop.LoopForward` | externals/bsaylor/susloop~.c:35-54 | a run from a bang is the step recurrence for any start, steps and splitting into blocks, and the wrapped phase where start and steps keep to it |
| `SustainLoop.LoopPingPong` | externals/bsaylor/susloop~.c:56-81 | a run from a bang is the step recurrence for any start, steps and splitting into blocks, and the triangle wave where start and steps keep to it |
| `SustainLoop.SusLoop.Bang` | externals/bsaylor/susloop~.c:123-127 | a bang starts over at the start position, going up |
| `Genetic.PackUnpack` | externals/algocomp/helpers.c:1-5 | unpacking the low bits of any integer and packing them again gives it modulo 2^length |
| `Genetic.UnpackPack` | externals/algocomp/helpers.c:32-42 | packing bits and unpacking the number gives the bits back |
| `Genetic.BitIs` | externals/algocomp/helpers.c:1-5 | bit i is digit i in base 2, also of negative numbers |
| `Genetic.ChunksTile` | externals/algocomp/genetic.c:43-51 | chunks lie side by side: gene g is gene g mod size of chunk g / size |
| `Genetic.Target.Unpack` | externals/algocomp/helpers.c:1-5 | the genes from the given place become the bits of the number, lowest first, and no other gene changes |
| `Genetic.Target.Pack` | externals/algocomp/helpers.c:32-42 | the number whose binary digits the genes are; lengths out of range count as 8 |
| `Genetic.Target.SetTarget` | externals/algocomp/genetic.c:158-167 | chunks with a number become its bits, the others stay |
| `Genetic.Target.Print` | externals/algocomp/genetic.c:43-51 | the value of every whole chunk |
| `Genetic.SetAndPrint` | externals/algocomp/genetic.c:43-51 | setting a target and printing it gives each number modulo 2^chunksize and leaves the remaining chunks as they were, for chunk sizes 1 to 16 |
| `Roulette.LargestKept` | externals/algocomp/genetic.c:145-152 | the fittest individual is not below the mean, keeps its fitness and stays the fittest |
| `Roulette.MatchesCount` | externals/algocomp/genetic.c:131-132 | what is counted is the number of places where an individual equals the target |
| `Roulette.FitnessIs` | externals/algocomp/genetic.c:136 | fitness times length squared is that number squared, and more matches are fitter |
| `Roulette.LargestMatches` | externals/algocomp/genetic.c:138-142 | the fittest individual equals the target in the most places, and is the first that does |
| `Roulette.TruncatedIs` | externals/algocomp/genetic.c:147-151 | a fitness is kept if and only if it is at least the mean |
| `Roulette.DrawPasses` | externals/algocomp/genetic.c:84-88 | a draw passes a part of the wheel if and only if it exceeds its share of the whole |
| `Roulette.Population.Measure` | externals/algocomp/genetic.c:126-144 | every fitness, their sum, and the first place of the largest |
| `Roulette.Population.Truncate` | externals/algocomp/genetic.c:146-152 | what is below the mean becomes zero and the sum is that of the rest |
| `Roulette.Population.Evaluate` | externals/algocomp/genetic.c:120-155 | the returned individual equals the target in the most places and is the first that does; it has the largest fitness before and after truncation, unchanged, and the cumulative value is the sum of what is stored |
| `Roulette.Population.Select` | externals/algocomp/genetic.c:84-93 | for any draw up to 1 the scan ends within the population, at the first prefix sum that reaches the draw, just behind an individual of positive fitness; the count is the population size exactly for draws in the last share |
| `Roulette.EvaluateAndSelect` | externals/algocomp/genetic.c:84-155 | evaluating any population and scanning for any draw up to 1 never reads past it |
| `Paths.TerminatesIff` | extensions/gripd/gripdFunctions.py:136-138 | the first loop of `scrubPath` ends if and only if no inner `..` would take back the first segment of a relative path |
| `Paths.AbsoluteTerminates` | extensions/gripd/gripdFunctions.py:136-138 | it ends on every absolute path |
| `Paths.ScrubUp` | extensions/gripd/gripdFunctions.py:136-138 | the first loop is a stack over the segments |
| `Paths.ScrubHere` | extensions/gripd/gripdFunctions.py:139-141 | the second loop drops the inner `.` segments unless the path starts with one |
| `Paths.ScrubPath` | extensions/gripd/gripdFunctions.py:134-152 | all three stages together equal the segment form |
| `Slashes.SqueezeRun` | extensions/gripd/gripdFunctions.py:142 | the last stage halves every run of slashes, rounding up |
| `Slashes.SqueezeOther` | extensions/gripd/gripdFunctions.py:142 | and leaves every other character alone |
| `Slashes.SqueezeDoubles` | extensions/gripd/gripdFunctions.py:142 | it leaves a double slash if and only if it is given three in a row |
| `Slashes.ScrubbedDoubles` | extensions/gripd/gripdFunctions.py:134-152 | so `scrubPath` leaves one if and only if its first two stages leave three in a row |
| `PathMeaning.ScrubMeansClimb` | extensions/gripd/gripdFunctions.py:134-152 | only the climbs can change the place a path names |
| `PathMeaning.ScrubKeepsMeaning` | extensions/gripd/gripdFunctions.py:134-152 | an absolute path whose inner `..` all take back names keeps its meaning |
| `PathMeaning.ScrubKeepsMeaningIff` | extensions/gripd/gripdFunctions.py:134-152 | for every absolute path the meaning is kept if and only if the names wrongly kept and wrongly taken by its `..` cancel out, counted in one pass over the segments |
| `PathMeaning.SurplusBelow` | extensions/gripd/gripdFunctions.py:134-152 | below the root that count is zero exactly when each inner `..` takes back a name |
| `PathMeaning.ScrubKeepsMeaningBelow` | extensions/gripd/gripdFunctions.py:134-152 | a path that does not climb above the root keeps its meaning if and only if each inner `..` takes back a name |
| `PathMeaning.ScrubLosesMeaning` | extensions/gripd/gripdFunctions.py:136-138 | `/a/./../x` comes out as `/a/x`, for all names a and x |
| `PathMeaning.RelativeThenAbsolute` | extensions/gripd/gripdFunctions.py:154-183 | for clean absolute files and the directory of any panel, empty before it is saved, making relative and absolute again gives the file back if and only if the directory is not the root |
| `PathMeaning.BareMeans` | extensions/gripd/gripdFunctions.py:154-163 | a bare name made absolute is that name looked up in the directory, whether or not the directory ends in a slash |
| `PathMeaning.DottedMeans` | extensions/gripd/gripdFunctions.py:156-158 | a path that starts with dots is followed from the directory, if that ends in a slash |
| `PathMeaning.AbsoluteStays` | extensions/gripd/gripdFunctions.py:159-162 | an absolute path stays as it is and the empty one fails |
| `PathMeaning.RelativeForm` | extensions/gripd/gripdFunctions.py:175-183 | files below the directory are written from `./`, others as they are |
| `Numerals.AtoiRepr` | extensions/gripd/gripdMain.py:537-539 | every integer field reads back as it was written |
| `Numerals.ParseHexString` | extensions/gripd/gripdFunctions.py:72-83 | every colour reads back from its six hexadecimal digits |
| `Numerals.BuildHexString` | extensions/gripd/gripdFunctions.py:72-83 | the loop builds the six digits that read back as the colour |
| `ControlFormat.Lines` | extensions/gripd/gripdMain.py:485-529 | where each field of a control stands among its lines |
| `ControlFormat.Marker` | extensions/gripd/gripdMain.py:530 | the line that ends a control |
| `ControlFormat.Kinds` | extensions/gripd/gripdControls.py:26-41 | the numbers of the types with a range, the one that loses it, and of images |
| `ControlFormat.Decimal` | extensions/gripd/gripdMain.py:487 | numbers are written in decimal |
| `ControlFormat.Colours` | extensions/gripd/gripdMain.py:497-516 | colours are written in lower-case hexadecimal, red first, missing ones as five or six zeros |
| `ControlFormat.FontStops` | extensions/gripd/gripdMain.py:546-554 | reading a font stops at the first field that cannot be read and keeps what was read before |
| `Controls.Container.Chomp` | extensions/gripd/gripdMain.py:2208-2210 | every line loses its line ends, in place |
| `Controls.Container.WriteControls` | extensions/gripd/gripdMain.py:485-531 | the lines of all controls are appended in order |
| `Controls.ReadControls` | extensions/gripd/gripdMain.py:532-577 | as many controls as there are end markers are read and their lines deleted, or reading fails, as the specification says; a type that is not known or an image that does not load fails |
| `Controls.ChompedSame` | extensions/gripd/gripdMain.py:2208-2210 | removing line ends changes nothing if and only if there are none |
| `ControlsRoundTrip.MarkerLines` | extensions/gripd/gripdMain.py:486-531 | only the label, the two symbols and the font face can look like the end marker |
| `ControlsRoundTrip.ReadOneBack` | extensions/gripd/gripdMain.py:536-575 | the lines of one control give the control back, whatever was read before, or fail on its image path |
| `ControlsRoundTrip.ReadBack` | extensions/gripd/gripdMain.py:485-577 | a list written to a container reads back control by control, in order, with no line left over, if and only if every control is readable; otherwise reading fails |
| `ControlsRoundTrip.Duplicate` | extensions/gripd/gripdMain.py:485-577 | writing, chomping and reading gives the restored controls if and only if all are readable |
| `ControlsRoundTrip.RestoredSame` | extensions/gripd/gripdMain.py:485-577 | for controls other than images the record handed to the new widget is the one written, field by field, if and only if its texts have no line end, it has a text colour and it is no spin button |
| `ControlsRoundTrip.RestoredImage` | extensions/gripd/gripdMain.py:488-490 | an image that loads from a clean absolute path is read back as it was if and only if the panel is not in the root directory; panels not yet saved are included |
| `ControlFiles.FileLinesIff` | extensions/gripd/gripdMain.py:653-661 | a file gives the lines that a container gives if and only if no text written has a line end |
| `ControlFiles.OpenedSame` | extensions/gripd/gripdMain.py:485-577 | in a directory whose name has no line end, a file gives a list back as it was if and only if duplicating it does: all controls readable and restored as they were |
| `ControlFiles.LineEndBreaks` | extensions/gripd/gripdMain.py:536-541 | a line end in the first label makes opening fail unless a number follows it |
| `ControlFiles.SaveAndOpen` | extensions/gripd/gripdMain.py:637-731 | controls saved and opened again: without line ends the restored controls or failure, as when duplicating; in general the same list if and only if all are readable and restored as they were |

## Left out

- Floating-point rounding, denormals, NaN and infinities (outside the thresholds of `ifsmusic`) and C integer overflow; array limits are preconditions.
- The FFTW library itself, Pure Data's inlets, outlets, clocks and table lookup; the random sources.
- `partconv~` with a block size that changes within a cycle, and its vector variants.
- PartitionedConvolution.PartConv.constructor: assumes that the block size divides the partition size, since the object asks for a power of two that is at least the block size, and that sum buffers are zero after planning.
- PartitionedConvolution.Render: the same assumption; a block that does not divide the partition writes past the input buffer.
- `pvoc~` frame contents: table lookup, transients, phase propagation and locking; the inverse transforms are parameters.
- The 3-dimensional variant of boids, its messages and output; a division by zero (an acceleration factor of 0, a line of gradient zero) is an arbitrary function.
- Boids.Flock.Fly: assumes at most 4 neighbours, because with more the code writes past the arrays of the boid.
- Boids.Flock.FlightStep: the same assumption.
- Boids.Flock.Travel: the same assumption.
- Boids.Flock.constructor: random positions and directions are parameters.
- OneOverF.Noise.constructor: takes 1 to 31 generators, because with 32 the power of two no longer fits the integer it is cast to; changing the number of generators while running is not modelled.
- SustainLoop.ForwardWraps: assumes steps between 0 and the loop length and a start at most one loop past the end, the exact conditions of `ForwardStepIff` and `ForwardStartIff`; `StepsBackMiss` is a run without them.
- SustainLoop.PingPongFolds: assumes such steps and a start in the loop or at most one loop past it, the exact conditions of `PingPongStepIff` and `PingPongStartIff`.
- `ifsmusic` with notes replaced during a run; `genetic` crossover and mutation, which read the selected index that may be one past the population.
- Controls.Container.WriteControls: takes no graph controls, because their range is evaluated as Python code when read.
- ControlsRoundTrip.RestoredSame: speaks of the record handed to the widget; a mouse area drops its label.
- ControlFiles.SaveAndOpen: the five header lines of a file are not modelled; the file is opened from where it was saved.
- GrIPD widgets, dialogs, sockets, timers and the Windows path branches.
- Numerals.AtoiRepr: `atoi` is modelled on signed digit strings; the surrounding blanks that Python also accepts never occur in written files.
- Everything else in the repository (other externals, chaotic maps, filters, scripts): easier members or transcendental functions.
