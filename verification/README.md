# Verification of the device tree's algorithms

A Dafny model of the parts of the Moto sensor and power code that compute something, with proofs
about every input, every run or every reachable state. `dafny verify dfyconfig.toml` checks all of it.

Each part has the same shape. Functions on values say what a call does; lemmas prove what those
functions keep over whole runs, or that they agree with an independent definition; and where the
source updates arrays, fields or linked nodes in place, a class with the same fields and methods with
the same loops are proved to compute those functions.

| file | what it models |
|---|---|
| `PermSort.dfy` | the in-place selection sort that returns the sign of its permutation |
| `Numbers.dfy`, `Vectors.dfy`, `Quaternions.dfy` | exact arithmetic, vectors, quaternion products, renormalization and interpolation, with aliased arguments |
| `Frames.dfy` | rotation matrices, and the quaternion extracted from one |
| `GameRotation.dfy`, `GyroIntegration.dfy`, `Fusion.dfy` | the game rotation vector with its persistent state, and the gyro integration it feeds |
| `LinearAccelGravity.dfy` | gravity and linear acceleration from a rotation |
| `Crc32.dfy`, `CrcTable.dfy` | the table-driven CRC-32 against the definition in IEEE 802.3 section 3.2.9 |
| `Firmware.dfy` | file CRC, packets, and the download into flash |
| `EventReader.dfy` | the ring buffer with a doubled backing array |
| `SensorManager.dfy` | dependencies, listeners, drivers, delays and latencies |
| `Calibration.dfy` | the key = value file of the magnetometer calibration |
| `Perflock.dfy` | the linked list of performance locks |
| `MotoshEvents.dfy` | the event overflow queue and the one-shot glance sensors |
| `StepCounter.dfy` | 32-bit stitching of step counts across hub resets |
| `RateArbitration.dfy` | one rate per physical part for eleven clients |
| `RearProx.dfy` | near and far decisions with hysteresis |

## Conventions

- Floats are exact reals. `sqrt`, `sin` and `cos` come as a record of functions; the lemmas that need
  them require `MathLibrary.Valid()`: the square of a root is its argument, sine and cosine lie on the
  unit circle, and the sine of 0 is 0 and its cosine 1. `copysign` of a zero takes the positive sign;
  there is no negative zero.
- *Near unit* means a squared norm within 0.0001 of 1, the tolerance of `renormalize`.
- The answers of devices, allocators and the performance-lock library are parameters or arbitrary
  choices, so every theorem covers every combination of failures unless it says otherwise.
- Widths that matter are written out: the 32-bit CRC register, step counts and weights, the 16-bit
  delays, loop counter and casts of the calibration code.

## Where the code and its comments differ

- `renormalize` is documented to force a non-negative scalar part; it does so only when it rescales
  (`Quaternions.RenormalizedMeaning`). The comment in the game rotation code that the scalar part is
  non-negative by construction is false of the code: `GameRotation.OutputScalarPart` says exactly when
  it holds, and `GameRotation.ScalarPartTurnsNegative` gives a reading for which it does not.
- The quaternion extracted from a half turn loses the signs of its components, because `copysign` sees
  three zeros; `Frames.FrameQuatReproduces` says exactly when the matrix is reproduced, and
  `GameRotation.HalfTurnReading` gives a first reading for which it is not.
- Gravity is flipped when the product inside it is rescaled with a negative scalar part, and wrong when
  the product is too small to be rescaled; `LinearAccelGravity.GravityExact` says exactly when. Neither
  can happen with near-unit rotations. With an all-zero rotation the source divides zero by zero; the hub code ignores the fusion's result, so it
  can pass one on before the first fusion succeeds.
- `LoadInt` is documented not to overwrite its value on failure, but does so on a name mismatch
  (`Calibration.MismatchOverwrites`).
- The delay programmed by `syncDelay` is not the minimum when a zero delay stands behind a positive
  first one (`SensorManager.MinDelayIsMinimum`).
- A device that takes only a part of a packet counts as success, and the rest of the packet is lost
  (`Firmware.AttemptExact`). A firmware image whose CRC happens to be 0 never passes the version check
  (`Firmware.DownloadAndCheck`).
- `setDelay` of the stml0xx hub overwrites the error of an unsupported handle and reports success.
- The proximity sensor does not reset its weight when enabled; `RearProx.DecisionsAreDue` shows that
  this is harmless, from any weight.
- A number outside 32 bits in a calibration file is undefined for the C standard's scanner; it is cut
  to 32 bits here. Saved files contain none.

## Model

| member | source | states |
|---|---|---|
| `PermSort.PermSort` | hardware-moto-sensors/stml0xx_hal/GameRotationVector.cpp:45-87 | for every length and contents: `a` ends sorted by magnitude in descending order, `p` is a permutation with `a[i] == old(a)[p[i]]`, `p[0]` is the first place of largest magnitude, and the result is the sign of `p`, counted in inversions |
| `PermSort.SwapFlipsSign` | hardware-moto-sensors/stml0xx_hal/GameRotationVector.cpp:79-81 | exchanging any two different entries of a sequence of distinct numbers changes the parity of its inversions, which is why counting non-trivial swaps yields the sign |
| `PermSort.SortingStep` | hardware-moto-sensors/stml0xx_hal/GameRotationVector.cpp:69-82 | one pass of the selection sort keeps sortedness of the prefix, the rearrangement, and the agreement of swap count and sign |
| `PermSort.SortedMeaning` | hardware-moto-sensors/stml0xx_hal/GameRotationVector.cpp:69-82 | sorted by magnitude means that each later element lies between an earlier one and its negative |
| `Vectors.Cross3` | hardware-moto-sensors/stml0xx_hal/Quaternion.cpp:25-30 | the cross product, written element by element into an array other than the inputs |
| `Quaternions.FourSquares` | hardware-moto-sensors/stml0xx_hal/Quaternion.cpp:70-73 | Euler's identity: the squared norm of a product is the product of the squared norms |
| `Quaternions.HamiltonRules` | hardware-moto-sensors/stml0xx_hal/Quaternion.cpp:70-73 | the product obeys Hamilton's rules for the three imaginary units, orientation included |
| `Quaternions.ProductAssociative` | hardware-moto-sensors/stml0xx_hal/Quaternion.cpp:70-73 | the product is associative |
| `Quaternions.ConjugateInverts` | hardware-moto-sensors/stml0xx_hal/Quaternion.cpp:34-49 | the promised `q * inv(q) == inv(q) * q == 1` holds of every unit quaternion (in general the product is the squared norm) |
| `Quaternions.RenormalizedMeaning` | hardware-moto-sensors/stml0xx_hal/Quaternion.cpp:84-117 | the three outcomes of renormalization, with the exact effect on norm and sign: failure only below the tolerance, no change within it, unit norm and a non-negative scalar part when it rescales |
| `Quaternions.RenormalizedExactly` | hardware-moto-sensors/stml0xx_hal/Quaternion.cpp:92-117 | the same in numbers: the identity and code 1 below 0.0001, no change within 0.0001 of 1, and otherwise the positive multiple of the quaternion or its negative that has unit norm and a non-negative scalar part |
| `Quaternions.InterpolationSucceeds` | hardware-moto-sensors/stml0xx_hal/Quaternion.cpp:150-192 | for near-unit inputs and any factor in [0,1] the shorter-arc choice keeps the interpolant away from zero: it never fails and its result is near unit again |
| `Quaternions.ShorterArc` | hardware-moto-sensors/stml0xx_hal/Quaternion.cpp:182-184 | the distance test picks the sign for which the dot product is non-negative |
| `Quaternions.InterpolatedExactly` | hardware-moto-sensors/stml0xx_hal/Quaternion.cpp:169-192 | `alpha` weighs the first quaternion and the rest the second one, taken with the sign that faces the first |
| `Quaternions.Inv` | hardware-moto-sensors/stml0xx_hal/Quaternion.cpp:43-49 | the inverse is right for aliased arguments as well |
| `Quaternions.Renormalize` | hardware-moto-sensors/stml0xx_hal/Quaternion.cpp:92-117 | in-place renormalization computes the specified value and return code |
| `Quaternions.Mul` | hardware-moto-sensors/stml0xx_hal/Quaternion.cpp:65-82 | the renormalized product, also when the result is aliased with either factor |
| `Quaternions.MulNoRenormalize` | hardware-moto-sensors/stml0xx_hal/Quaternion.cpp:126-139 | the plain product, also when aliased |
| `Quaternions.LinInterp` | hardware-moto-sensors/stml0xx_hal/Quaternion.cpp:169-192 | the interpolant, also when aliased with either input |
| `Frames.FrameIsRotation` | hardware-moto-sensors/stml0xx_hal/GameRotationVector.cpp:146-178 | a unit up vector and a unit east vector orthogonal to it complete to an orthonormal right-handed frame, by rows and by columns |
| `Frames.TracesNonNegative` | hardware-moto-sensors/stml0xx_hal/GameRotationVector.cpp:184-191 | for a rotation all four square-root arguments are non-negative, so the `fabs` guards never bite in exact arithmetic |
| `Frames.Components` | hardware-moto-sensors/stml0xx_hal/GameRotationVector.cpp:184-191 | the extracted components are half the roots of the traces, each with the sign of its difference of off-diagonal entries, and the scalar part is never negative |
| `Frames.FrameQuatUnit` | hardware-moto-sensors/stml0xx_hal/GameRotationVector.cpp:187-191 | the quaternion extracted from a rotation has norm exactly 1 |
| `Frames.FrameQuatReproduces` | hardware-moto-sensors/stml0xx_hal/GameRotationVector.cpp:175-191 | conjugation by the extracted quaternion reproduces the matrix if and only if the fourth trace is positive or, at a half turn, the off-diagonal entries are not negative |
| `GameRotation.InitialEastOrthogonal` | hardware-moto-sensors/stml0xx_hal/GameRotationVector.cpp:126-134 | the initial east vector is orthogonal to the gravity reading |
| `GameRotation.InitialEastOnes` | hardware-moto-sensors/stml0xx_hal/GameRotationVector.cpp:126-134 | the initial east is 1 in both coordinates other than the first of largest magnitude |
| `GameRotation.FrameMeaning` | hardware-moto-sensors/stml0xx_hal/GameRotationVector.cpp:139-168 | when there is a frame, by lengths in numbers, and what its three axes are: up along gravity, east along the part of the kept east across it, north their product; a rejection leaves that part, or the kept east itself |
| `GameRotation.AcceptedIsRotation` | hardware-moto-sensors/stml0xx_hal/GameRotationVector.cpp:139-168 | every frame that is accepted is a rotation |
| `GameRotation.FirstFrameAccepted` | hardware-moto-sensors/stml0xx_hal/GameRotationVector.cpp:124-160 | the first frame after a reset is accepted if and only if the largest acceleration component exceeds twice the machine epsilon; the later checks cannot fail then |
| `GameRotation.FuseSound` | hardware-moto-sensors/stml0xx_hal/GameRotationVector.cpp:89-217 | every call keeps the integration state sound; it puts out the blend of its frame and its gyro state, with no renormalization failing, or nothing; and after a reset it succeeds exactly when not in free fall |
| `GameRotation.OutputsBlended` | hardware-moto-sensors/stml0xx_hal/GameRotationVector.cpp:89-217 | over any run of readings and resets every output is, up to rescaling, the blend of the unit quaternion of that call's frame with the gyro state that the run has led to, turned by the increment; no renormalization has failed on the way, the blend is away from zero, and the output is near unit |
| `GameRotation.KeptState` | hardware-moto-sensors/stml0xx_hal/GameRotationVector.cpp:89-217 | all that a call keeps besides the gyro state: the filtered gravity with its weights in numbers, when the algorithm counts as started, from which gravity and east the frame is built, and the east that is kept: the x axis turned by the output when there is one, otherwise as far as the frame got |
| `GameRotation.KeptEast` | hardware-moto-sensors/stml0xx_hal/GameRotationVector.cpp:199-214 | after every accepted reading the kept east is exactly the x axis conjugated by the output of that call |
| `GameRotation.EastFollows` | hardware-moto-sensors/stml0xx_hal/GameRotationVector.cpp:199-214 | over any run, the frame of the call after an output has its east along the x axis turned by that output, less its part along gravity: the reference heading follows the gyro |
| `GameRotation.OutputScalarPart` | hardware-moto-sensors/stml0xx_hal/GameRotationVector.cpp:194-197 | exactly when the scalar part of an output is non-negative, as the comment has it: if and only if the blend is rescaled or its own scalar part is non-negative; with the gyro turning fast in terms of the turned state and the side of the frame quaternion, and at a first call in terms of the increment and the turned frame quaternion |
| `GameRotation.ScalarPartTurnsNegative` | hardware-moto-sensors/stml0xx_hal/GameRotationVector.cpp:194-197 | a reading, after any history, whose output has a negative scalar part: a call with reset, face down, rolling by one radian per second |
| `GameRotation.HalfTurnReading` | hardware-moto-sensors/stml0xx_hal/GameRotationVector.cpp:126-191 | a first reading that is accepted and whose quaternion does not reproduce its frame |
| `GameRotation.GravityConverges` | hardware-moto-sensors/stml0xx_hal/GameRotationVector.cpp:113-117 | under a steady acceleration the persistent filtered gravity of any run without resets approaches it geometrically in every component, keeping 0.984 of its deviation at each call, accepted or not |
| `GameRotation.EastKept` | hardware-moto-sensors/stml0xx_hal/GameRotationVector.cpp:199-214 | without rotation in between, the east vector of a frame is kept exactly, under the condition for the frame itself |
| `GameRotation.GameRotationVector.SpreadEast` | hardware-moto-sensors/stml0xx_hal/GameRotationVector.cpp:126-136 | the chosen components of `h` are assigned through the permutation |
| `GameRotation.GameRotationVector.Orthonormalize` | hardware-moto-sensors/stml0xx_hal/GameRotationVector.cpp:139-168 | normalization, projection and cross product on arrays in place, with both rejections |
| `GameRotation.GameRotationVector.ProcessFusion` | hardware-moto-sensors/stml0xx_hal/GameRotationVector.cpp:89-217 | the whole call over its static state computes the specified successor state and result |
| `GameRotation.GameRotationVector.UpdateEast` | hardware-moto-sensors/stml0xx_hal/GameRotationVector.cpp:199-214 | east is re-read from the fused rotation by conjugation, the scratch quaternion being multiplied in place |
| `GyroIntegration.IncrementIsUnit` | hardware-moto-sensors/stml0xx_hal/GyroIntegration.cpp:66-100 | the incremental rotation of any gyro reading is near unit |
| `GyroIntegration.IncrementsCompose` | hardware-moto-sensors/stml0xx_hal/GyroIntegration.cpp:66-99 | integrating a steady rate over one interval and then another is integrating it over both, given the addition formulas at these angles |
| `GyroIntegration.PredictionSucceeds` | hardware-moto-sensors/stml0xx_hal/GyroIntegration.cpp:102-111 | the product of the state with the increment never fails |
| `GyroIntegration.TurnedByRate` | hardware-moto-sensors/stml0xx_hal/GyroIntegration.cpp:66-111 | what a step turns by, in numbers: around the direction of the gyro reading, by half of its rate times the seconds from the stamp of the state to that of the reading, or 5 ms for equal stamps; a first step starts from the reference |
| `GyroIntegration.NotTurned` | hardware-moto-sensors/stml0xx_hal/GyroIntegration.cpp:81-91 | below the threshold a step turns by nothing |
| `GyroIntegration.BlendWeights` | hardware-moto-sensors/stml0xx_hal/GyroIntegration.cpp:113-121 | the reference weighs 0.003 below half a radian per second and nothing above; the turned state has the rest, with the sign that faces the reference |
| `GyroIntegration.StepSound` | hardware-moto-sensors/stml0xx_hal/GyroIntegration.cpp:57-125 | with a near-unit input none of the three renormalizations of a step fails, the blend has squared norm at least 0.4, and the new state is that blend, rescaled if out of tolerance |
| `GyroIntegration.FastStep` | hardware-moto-sensors/stml0xx_hal/GyroIntegration.cpp:113-121 | above the rate threshold the fused rotation is the integrated one, up to the sign that faces the input |
| `GyroIntegration.RunNeverResets` | hardware-moto-sensors/stml0xx_hal/GyroIntegration.cpp:57-124 | over any run with near-unit inputs neither `mul` nor `linInterp` nor the renormalization of an increment ever reports failure, each counted over the run; so the reset branch is never taken, and the state stays near unit |
| `GyroIntegration.SteadyTurn` | hardware-moto-sensors/stml0xx_hal/GyroIntegration.cpp:57-124 | given the addition formulas, a run at a steady fast rate, sampled at any stamps that differ from one to the next, turns the state by the half angle of the whole time from the first stamp to the last, up to sign |
| `GyroIntegration.ScalarPart` | hardware-moto-sensors/stml0xx_hal/GyroIntegration.cpp:121-124 | the new scalar part is non-negative if and only if the blend is rescaled or its own scalar part is non-negative |
| `GyroIntegration.FastScalarPart` | hardware-moto-sensors/stml0xx_hal/GyroIntegration.cpp:113-124 | above the rate threshold, if and only if the turned state faces the reference with a non-negative scalar part, or faces away with a non-positive one |
| `GyroIntegration.FirstScalarPart` | hardware-moto-sensors/stml0xx_hal/GyroIntegration.cpp:57-124 | the same at a first step, decided by the increment and the turned reference alone |
| `GyroIntegration.Integrate` | hardware-moto-sensors/stml0xx_hal/GyroIntegration.cpp:30-125 | the in-place code, with input and output rotation possibly the same object, computes the specified step, and its three calls return the specified codes |
| `GyroIntegration.GyroDelta` | hardware-moto-sensors/stml0xx_hal/GyroIntegration.cpp:66-100 | the increment quaternion and the magnitude that selects the filter |
| `LinearAccelGravity.GravityExact` | hardware-moto-sensors/stml0xx_hal/LinearAccelGravity.cpp:70-88 | for every non-zero rotation gravity is the rotated up vector if and only if the rotation is near unit, or its third component is not positive and its squared norm is at least 0.0001 or the other three are zero; from that norm on it is otherwise exactly the opposite, and below it, where the product cannot be renormalized, it is read off the conjugate |
| `LinearAccelGravity.SmallGravityExact` | hardware-moto-sensors/stml0xx_hal/LinearAccelGravity.cpp:75-88 | below the smallest renormalizable norm gravity is right only for the half turn around the z axis that points down |
| `LinearAccelGravity.NormPositive` | hardware-moto-sensors/stml0xx_hal/LinearAccelGravity.cpp:85-88 | the all-zero rotation is the only one for which the code divides by zero |
| `LinearAccelGravity.GravityLength` | hardware-moto-sensors/stml0xx_hal/LinearAccelGravity.cpp:76-88 | for a near-unit rotation the rotated up vector has zero scalar part and gravity has length exactly `GRAVITY_EARTH` |
| `LinearAccelGravity.GravityInNumbers` | hardware-moto-sensors/stml0xx_hal/LinearAccelGravity.cpp:70-88 | the three components of gravity for a near-unit rotation, in numbers |
| `LinearAccelGravity.FrameGravity` | hardware-moto-sensors/stml0xx_hal/LinearAccelGravity.cpp:70-88 | for the quaternion of an accepted frame gravity is exactly `GRAVITY_EARTH` along the up vector of that frame |
| `LinearAccelGravity.RunGravityLength` | hardware-moto-sensors/stml0xx_hal/LinearAccelGravity.cpp:70-97 | whatever rotation a run of game-rotation fusion last delivered, gravity computed from it has length exactly `GRAVITY_EARTH` |
| `LinearAccelGravity.ProcessFusion` | hardware-moto-sensors/stml0xx_hal/LinearAccelGravity.cpp:70-97 | the code over scratch quaternions stores that gravity, and gravity plus linear acceleration is the acceleration |
| `Crc32.EntryIsShift8` | hardware-moto-sensors/motosh_bin/CRC32.c:24-89 | each of the 256 table entries is eight steps of the bit-serial register, starting from its index |
| `Crc32.TableStepIsShift8` | hardware-moto-sensors/motosh_bin/CRC32.c:107-110 | a table step is eight bit-serial steps |
| `Crc32.TableRunIsSerial` | hardware-moto-sensors/motosh_bin/CRC32.c:107-110 | a table-driven run over any bytes is the bit-serial run over their bits |
| `Crc32.TableIsCrc` | hardware-moto-sensors/motosh_bin/CRC32.c:103-113 | for every byte string the result is the CRC-32 of IEEE 802.3 section 3.2.9, defined by polynomial division with complement and bit reversal |
| `Crc32.CheckValue` | hardware-moto-sensors/motosh_bin/CRC32.c:103-113 | the published check value: the CRC of the nine digits "123456789" is 0xCBF43926, and that of nothing is 0 |
| `Crc32.TableStepBijective` | hardware-moto-sensors/motosh_bin/CRC32.c:107-110 | for each byte the step is a bijection on registers, with its inverse written out |
| `Crc32.BurstDetected` | hardware-moto-sensors/motosh_bin/CRC32.c:107-110 | two bit strings that differ only inside a burst of at most 32 bits never leave the same register |
| `Crc32.WindowDetected` | hardware-moto-sensors/motosh_bin/CRC32.c:103-113 | two images of equal length that differ only inside one four-byte window never share a CRC |
| `Firmware.CalculateCrc32` | hardware-moto-sensors/motosh_bin/CRC32.c:103-113 | the byte loop computes the CRC of the first `dataLen` bytes |
| `Firmware.CalculateFileCrc32` | hardware-moto-sensors/motosh_bin/CRC32.c:132-151 | the virtually padded file CRC is the CRC of the file followed by fill bytes; a file that cannot be opened is an error |
| `Firmware.PaddedBytes` | hardware-moto-sensors/motosh_bin/CRC32.c:132-151 | byte by byte, the padded file is the file and then the fill value up to the size |
| `Firmware.GetPacket` | hardware-moto-sensors/motosh_bin/motosh.cpp:538-563 | a packet is the next bytes of the file, padded with the fill value to a multiple of 8 and by fewer than 8 bytes, and the position advances by the bytes taken |
| `Firmware.RoundUp8Meaning` | hardware-moto-sensors/motosh_bin/motosh.cpp:555-560 | the padded length is the least multiple of 8 not below the length |
| `Firmware.AttemptExact` | hardware-moto-sensors/motosh_bin/motosh.cpp:565-611 | a successful attempt has programmed the file, filled to a multiple of 8, if and only if the device took every packet whole, since a short write counts as success; and with every packet taken whole the attempt succeeds exactly when the filled file fits |
| `Firmware.SentLength` | hardware-moto-sensors/motosh_bin/motosh.cpp:592-607 | short writes lose bytes: a successful attempt programs as many bytes as the filled file has if and only if there was none |
| `Firmware.WholeDownload` | hardware-moto-sensors/motosh_bin/motosh.cpp:565-611 | with every packet taken whole flash holds the file and fill bytes only |
| `Firmware.WholeBytes` | hardware-moto-sensors/motosh_bin/motosh.cpp:555-607 | with every packet taken whole a successful attempt programs a multiple of 8 bytes, fewer than 8 more than the file: the file and then the fill value, byte by byte |
| `Firmware.SuccessMeetsNoError` | hardware-moto-sensors/motosh_bin/motosh.cpp:592-607 | a successful attempt has met no error at any packet |
| `Firmware.DownloadFirmware` | hardware-moto-sensors/motosh_bin/motosh.cpp:565-611 | for all answers of the device, short writes included: success if and only if the attempt specified by them succeeds, and then flash holds what the device took and fill bytes behind it, whatever it held before; with whole writes that is the file |
| `Firmware.DownloadWithRetries` | hardware-moto-sensors/motosh_bin/motosh.cpp:780-805 | up to three attempts: the first one that succeeds decides what flash holds, and failed partial attempts before it leave no trace |
| `Firmware.DownloadMatches` | hardware-moto-sensors/motosh_bin/motosh.cpp:447-465 | with the file in flash the CRC over the flash region is the virtually padded file CRC, for every file no longer than the region |
| `Firmware.VersionCheck` | hardware-moto-sensors/motosh_bin/motosh.cpp:482-519 | what counts as a match: an unreadable file does, and a hub CRC of 0 never does |
| `Firmware.DownloadAndCheck` | hardware-moto-sensors/motosh_bin/motosh.cpp:780-805 | download and check end to end: if the device took every packet of the successful attempt whole the CRC of the flash region is the file CRC, so the check comes down to the version strings, except for a firmware whose CRC is 0, which is never recognized |
| `Firmware.DamageDetected` | hardware-moto-sensors/motosh_bin/motosh.cpp:447-465 | a region that differs from the padded file only inside four bytes fails the comparison |
| `EventReader.ReadAppends` | hardware-moto-sensors/InputEventReader.cpp:52-61 | a read at the head appends to the ring contents, across the wrap as well |
| `EventReader.ReadFolds` | hardware-moto-sensors/InputEventReader.cpp:62-66 | copying the overhang to the front yields the same ring as writing modulo the capacity |
| `EventReader.TornReadHarmless` | hardware-moto-sensors/InputEventReader.cpp:53-56 | a read that ends in a partial event leaves the queue as it was |
| `EventReader.RingTail` | hardware-moto-sensors/InputEventReader.cpp:80-87 | advancing the read position drops the oldest event and no other |
| `EventReader.InputEventCircularReader.Fill` | hardware-moto-sensors/InputEventReader.cpp:48-71 | appends exactly the events read, in order, within the doubled buffer; errors leave the queue as it was |
| `EventReader.InputEventCircularReader.ReadEvent` | hardware-moto-sensors/InputEventReader.cpp:73-78 | points at the oldest event, and reports whether there is one |
| `EventReader.InputEventCircularReader.Next` | hardware-moto-sensors/InputEventReader.cpp:80-87 | removes the oldest event |
| `SensorManager.MinDelayMeaning` | hardware-moto-sensors/rearProx/NativeSensorManager.cpp:649-667 | the programmed delay, exactly: the least of the first listener's delay and all non-zero ones |
| `SensorManager.MinDelayOfNonNegative` | hardware-moto-sensors/rearProx/NativeSensorManager.cpp:649-667 | without negative delays it is 0 when the first listener's delay is 0, and otherwise the least non-zero one |
| `SensorManager.MinDelayIsMinimum` | hardware-moto-sensors/rearProx/NativeSensorManager.cpp:653-667 | it is the minimum over all listeners if and only if no zero stands behind a positive first delay |
| `SensorManager.LowerLatencyMeaning` | hardware-moto-sensors/rearProx/NativeSensorManager.cpp:690-699 | the programmed latency is the least one |
| `SensorManager.DriverServes` | hardware-moto-sensors/rearProx/NativeSensorManager.cpp:631-707 | read off the listeners: the driver runs at the delay of one of them, no slower than the first and than any with a non-zero delay; and at the least of their latencies |
| `SensorManager.NoQueueNoLatency` | hardware-moto-sensors/rearProx/NativeSensorManager.cpp:701-704 | no run programs a latency into a sensor without a queue |
| `SensorManager.VisitSettles` | hardware-moto-sensors/rearProx/NativeSensorManager.cpp:580-620 | visiting one dependency during an activation settles that one and disturbs no other |
| `SensorManager.ActivatedConsistent` | hardware-moto-sensors/rearProx/NativeSensorManager.cpp:559-629 | activation keeps, for every dependency relation: no duplicate listeners, listening exactly when enabled and depending, drivers on exactly when they have listeners, and delays and latencies as the listeners call for |
| `SensorManager.DelaySetConsistent` | hardware-moto-sensors/rearProx/NativeSensorManager.cpp:709-743 | a new delay keeps the same invariant |
| `SensorManager.BatchedConsistent` | hardware-moto-sensors/rearProx/NativeSensorManager.cpp:779-810 | a new delay and latency keep the same invariant |
| `SensorManager.RunConsistent` | hardware-moto-sensors/rearProx/NativeSensorManager.cpp:559-810 | after any sequence of activations, delays and batches the invariant holds and every sensor is enabled as its last activation said |
| `SensorManager.RunRequests` | hardware-moto-sensors/rearProx/NativeSensorManager.cpp:709-810 | after any sequence of calls each sensor holds the delay and latency of its last accepted request, clamped where `setDelay` clamps |
| `SensorManager.RequestsHeld` | hardware-moto-sensors/rearProx/NativeSensorManager.cpp:709-810 | after any run the last accepted request for a sensor decides: after a `setDelay` it holds a delay no less than the request and no less than its minimum, and equal to one of the two; after a batch exactly the period and latency given |
| `SensorManager.RefusedMeaning` | hardware-moto-sensors/rearProx/NativeSensorManager.cpp:559-810 | which calls are refused: those with an unknown handle, a delay of 0, or a non-zero latency below the period |
| `SensorManager.PowerOnRun` | hardware-moto-sensors/rearProx/NativeSensorManager.cpp:559-810 | the same from power-on, spelt out for any pair of sensors |
| `SensorManager.DependencyKeeps` | hardware-moto-sensors/rearProx/NativeSensorManager.cpp:35-73 | adding a dependency keeps the invariant if and only if the sensor has it already, or the dependency is a hardware sensor and the sensor is not enabled at the time |
| `SensorManager.NativeSensorManager.AddDependency` | hardware-moto-sensors/rearProx/NativeSensorManager.cpp:35-73 | refused for a hardware sensor; otherwise the dependency, hardware or virtual, is there once |
| `SensorManager.NativeSensorManager.RegisterListener` | hardware-moto-sensors/rearProx/NativeSensorManager.cpp:264-286 | appends a listener unless it is there, and says which |
| `SensorManager.NativeSensorManager.UnregisterListener` | hardware-moto-sensors/rearProx/NativeSensorManager.cpp:287-305 | removes a listener, and says whether it was there |
| `SensorManager.WithoutAt` | hardware-moto-sensors/rearProx/NativeSensorManager.cpp:287-305 | removing cuts out the first match and keeps the order of the rest |
| `SensorManager.NativeSensorManager.SyncDelay` | hardware-moto-sensors/rearProx/NativeSensorManager.cpp:631-670 | programs the delay the listeners call for |
| `SensorManager.NativeSensorManager.SyncLatency` | hardware-moto-sensors/rearProx/NativeSensorManager.cpp:672-707 | programs the latency the listeners call for, if the sensor has a queue |
| `SensorManager.NativeSensorManager.DoActivate` | hardware-moto-sensors/rearProx/NativeSensorManager.cpp:559-629 | the loop over dependencies performs the specified activation; an unknown handle is refused |
| `SensorManager.NativeSensorManager.DoSetDelay` | hardware-moto-sensors/rearProx/NativeSensorManager.cpp:709-743 | clamps to the minimum delay and synchronizes; zero and unknown handles are refused |
| `SensorManager.NativeSensorManager.DoBatch` | hardware-moto-sensors/rearProx/NativeSensorManager.cpp:779-810 | stores both requests and synchronizes; a latency below the sampling period and unknown handles are refused |
| `Calibration.ScanPrinted` | hardware-moto-sensors/ak09912_akmd_6D_32b/FileIO.c:165 | every 32-bit number printed with `%d` is read back whole by `%11d`, the 11-character minimum included |
| `Calibration.DecimalMeaning` | hardware-moto-sensors/ak09912_akmd_6D_32b/FileIO.c:307-314 | what the printed number looks like: a sign and the digits to the base 10, the last one last |
| `Calibration.LongNumbersCut` | hardware-moto-sensors/ak09912_akmd_6D_32b/FileIO.c:165 | of a longer number no more than eleven characters are read, the sign among them |
| `Calibration.LongNamesRefused` | hardware-moto-sensors/ak09912_akmd_6D_32b/FileIO.c:165 | a name longer than 63 characters is never accepted |
| `Calibration.CastMeaning` | hardware-moto-sensors/ak09912_akmd_6D_32b/FileIO.c:58-71 | a narrowing cast keeps the value modulo the width, within the signed range |
| `Calibration.LineReads` | hardware-moto-sensors/ak09912_akmd_6D_32b/FileIO.c:160-176 | a saved line is loaded as its value, and only the line end is left |
| `Calibration.FormReads` | hardware-moto-sensors/ak09912_akmd_6D_32b/FileIO.c:58-71 | the ten values of a formation are restored |
| `Calibration.RoundTrip` | hardware-moto-sensors/ak09912_akmd_6D_32b/FileIO.c:41-85 | loading what was saved succeeds and restores every value, for any number of formations that the 16-bit counter can count and all values that fit their fields |
| `Calibration.FileDeterminesParams` | hardware-moto-sensors/ak09912_akmd_6D_32b/FileIO.c:253-298 | two different sets of parameters never give the same file, whatever their numbers of formations |
| `Calibration.FileInLetters` | hardware-moto-sensors/ak09912_akmd_6D_32b/FileIO.c:253-298 | the lines of a formation and of the last vector, letter by letter: key names, number of the formation, axes and values, in order |
| `Calibration.MismatchOverwrites` | hardware-moto-sensors/ak09912_akmd_6D_32b/FileIO.c:146-176 | a saved line is accepted under its own name only, but its number is scanned under any: the documentation says the value is not overwritten on failure |
| `Calibration.LoadInt` | hardware-moto-sensors/ak09912_akmd_6D_32b/FileIO.c:160-176 | succeeds exactly when the next line has the expected name and a number; what it stores in either case; and on failure the value is unchanged if and only if no line could be scanned or its number is the same |
| `Calibration.AkscPrms.SaveParameters` | hardware-moto-sensors/ak09912_akmd_6D_32b/FileIO.c:253-298 | succeeds exactly when no write, close or mode change failed, and then the file is the specified text |
| `Calibration.AkscPrms.LoadParameters` | hardware-moto-sensors/ak09912_akmd_6D_32b/FileIO.c:41-85 | succeeds exactly when the file holds every value in order, and then the parameters are those values |
| `Calibration.SaveAndLoad` | hardware-moto-sensors/ak09912_akmd_6D_32b/FileIO.c:41-298 | saving into a file and loading it into other parameters restores every value |
| `Perflock.RunBalanced` | power/utils.c:270-349 | over any run, whatever the library and the allocator answer: locks acquired = locks released + locks listed + locks lost, counted with multiplicity |
| `Perflock.AcquiredIsGranted` | power/utils.c:270-349 | over any run the acquired locks grow by exactly the answers other than -1 of the perform calls of a library that is loaded and can acquire, in order, and by nothing else |
| `Perflock.PerformMeaning` | power/utils.c:270-313 | one call in full: with data and node an answer other than -1 becomes the newest lock of its hint; without them it is released again if the library can; -1 leaves the books as they were |
| `Perflock.UndoMeaning` | power/utils.c:315-349 | an undo removes and releases the first lock listed for its hint, and touches nothing if the library is missing or cannot release, or the hint has no lock |
| `Perflock.NothingLost` | power/utils.c:270-313 | a lock is lost if and only if the release function is missing and an acquired lock could not be listed |
| `Perflock.HeldIsListed` | power/utils.c:270-349 | with the release function present the list is exactly the locks still held |
| `Perflock.StackPerHint` | power/utils.c:270-349 | the locks of each hint behave as a stack of their own, undisturbed by calls for other hints |
| `Perflock.UndoReleasesNewest` | power/utils.c:315-349 | an undo releases the newest lock of its hint, and nothing if there is none |
| `Perflock.AddListNode` | power/list.c:47-67 | puts a node in front of an acyclic chain, or leaves it alone without memory |
| `Perflock.FindNode` | power/list.c:126-145 | finds the first node with the id, or none |
| `Perflock.RemoveListNode` | power/list.c:77-108 | unlinks exactly the given node, keeping the order of the rest and the chain acyclic |
| `Perflock.ActiveHints.PerformHintAction` | power/utils.c:270-313 | the whole effect on list, acquired and released locks |
| `Perflock.ActiveHints.UndoHintAction` | power/utils.c:315-349 | the whole effect on list and released locks |
| `MotoshEvents.ReadLoopDecodes` | hardware-moto-sensors/motosh_hal/HubSensors.cpp:690-1176 | buffer and pending events together are the earlier events followed by the in-order decoding of the records read |
| `MotoshEvents.DecodeMeaning` | hardware-moto-sensors/motosh_hal/HubSensors.cpp:1081-1122 | what a record makes, spelt out: a glance goes to each enabled handle, the moto handle first |
| `MotoshEvents.ReadLoopStops` | hardware-moto-sensors/motosh_hal/HubSensors.cpp:690-1179 | a call fills the buffer or empties the hub, leaves at most one event pending and that only with a full buffer, and stops at the first read error |
| `MotoshEvents.ReadAccounts` | hardware-moto-sensors/motosh_hal/HubSensors.cpp:658-1179 | both statements for a whole call, with the pending event drained first and the error results |
| `MotoshEvents.RunSettled` | hardware-moto-sensors/motosh_hal/HubSensors.cpp:658-1179 | over any run the buffers of all calls so far and the pending event are the decoding of all records read; no record is skipped or decoded twice; and without read errors every buffer was returned, while a failed call loses its own |
| `MotoshEvents.OneEventPerEnable` | hardware-moto-sensors/motosh_hal/HubSensors.cpp:1081-1122 | each glance handle delivers at most one event for each time it is enabled |
| `MotoshEvents.GlancesDelivered` | hardware-moto-sensors/motosh_hal/HubSensors.cpp:1081-1122 | each glance handle is enabled exactly as its last setting and the glances since say, and gets exactly the glances that find it enabled |
| `MotoshEvents.PowerOnRun` | hardware-moto-sensors/motosh_hal/HubSensors.cpp:658-1179 | the same from power-on, and each glance handle got at most one event for each time it was enabled |
| `MotoshEvents.WakeBit` | hardware-moto-sensors/motosh_hal/HubSensors.cpp:430-478 | after the first enabling or disabling of a glance handle the shared wake bit is set exactly while one of the two is enabled |
| `MotoshEvents.EnableMeaning` | hardware-moto-sensors/motosh_hal/HubSensors.cpp:430-478 | setting a handle sets that one as asked and no other |
| `MotoshEvents.HubSensors.SetEnable` | hardware-moto-sensors/motosh_hal/HubSensors.cpp:430-478 | the glance part of enabling |
| `MotoshEvents.HubSensors.ReadEvents` | hardware-moto-sensors/motosh_hal/HubSensors.cpp:658-1179 | the code over buffer, pending vector and index computes the specified outcome |
| `MotoshEvents.HubSensors.DrainPending` | hardware-moto-sensors/motosh_hal/HubSensors.cpp:680-688 | moves pending events in order, as far as the buffer goes |
| `MotoshEvents.HubSensors.ReadGlance` | hardware-moto-sensors/motosh_hal/HubSensors.cpp:1081-1122 | at most two events, the second one into the pending vector when the buffer is full |
| `StepCounter.ReportedIsTotal` | hardware-moto-sensors/motosh_hal/HubSensors.cpp:831-856 | in 32-bit arithmetic the reported count never decreases if and only if the total fits 32 bits, and then it is the running total of the steps at every reading |
| `StepCounter.RawCountOrders` | hardware-moto-sensors/motosh_hal/HubSensors.cpp:840-843 | the four bytes count from the most significant on, within 32 bits, which leaves only one value for each record |
| `StepCounter.NextOverflows` | hardware-moto-sensors/motosh_hal/HubSensors.cpp:844-851 | the reading at which the total stops fitting makes the count fall |
| `StepCounter.StepCounter.Count` | hardware-moto-sensors/stml0xx_hal/HubSensors.cpp:916-941 | one record computes the specified successor of the two static counters |
| `StepCounter.CountAll` | hardware-moto-sensors/motosh_hal/HubSensors.cpp:831-856 | the same for the code over any sequence of four-byte records |
| `RateArbitration.ShortestMeaning` | hardware-moto-sensors/stml0xx_hal/HubSensors.cpp:1200-1208 | the search loop with its cap inside finds the least request, capped once |
| `RateArbitration.TableMeaning` | hardware-moto-sensors/stml0xx_hal/HubSensors.cpp:80-110 | the table of clients in numbers: parts, limits, what they start with, and which are listed |
| `RateArbitration.SpecialDelays` | hardware-moto-sensors/stml0xx_hal/HubSensors.cpp:460-467 | the clients whose longest delay is listed as 0 always get their shortest |
| `RateArbitration.RunningMeaning` | hardware-moto-sensors/stml0xx_hal/HubSensors.cpp:1230-1245 | a rotation vector runs when one of clients 3, 4, 5, 9 and 10 is enabled |
| `RateArbitration.TargetInNumbers` | hardware-moto-sensors/stml0xx_hal/HubSensors.cpp:1193-1218 | the rate of a part from the least enabled request, with the caps and minimums in numbers |
| `RateArbitration.TargetMeaning` | hardware-moto-sensors/stml0xx_hal/HubSensors.cpp:1193-1218 | the rate of a part in full: smallest request capped at 200 ms, further capped at 10 ms when a rotation vector runs and some user asked for under 200 ms, and no less than the part minimum |
| `RateArbitration.TargetServes` | hardware-moto-sensors/stml0xx_hal/HubSensors.cpp:1114-1218 | no user of a part is sampled slower than the larger of its request and the part minimum |
| `RateArbitration.RunServes` | hardware-moto-sensors/stml0xx_hal/HubSensors.cpp:172-577 | after any run every part that somebody needs is on and at its rate, and after the first recognized enabling or disabling no other part is on |
| `RateArbitration.PowerOnRun` | hardware-moto-sensors/stml0xx_hal/HubSensors.cpp:172-577 | from power-on, in terms of each client's last enabling and last request |
| `RateArbitration.StoredServes` | hardware-moto-sensors/stml0xx_hal/HubSensors.cpp:449-468 | a stored request is no longer than the request or the client's shortest delay, although it is cut to 16 bits first; under 65.536 s it is the request in milliseconds, or the limit next to it |
| `RateArbitration.HubSensors.UpdateRate` | hardware-moto-sensors/stml0xx_hal/HubSensors.cpp:1193-1218 | the loop sends the specified rate when it changed |
| `RateArbitration.HubSensors.IsNeeded` | hardware-moto-sensors/stml0xx_hal/HubSensors.cpp:1220-1228 | whether some enabled client uses the part |
| `RateArbitration.HubSensors.IsRotationVectorRunning` | hardware-moto-sensors/stml0xx_hal/HubSensors.cpp:1230-1245 | whether one of the five rotation clients is enabled |
| `RateArbitration.HubSensors.SetEnable` | hardware-moto-sensors/stml0xx_hal/HubSensors.cpp:172-315 | the code performs the specified enabling |
| `RateArbitration.HubSensors.SetDelay` | hardware-moto-sensors/stml0xx_hal/HubSensors.cpp:449-577 | the code performs the specified request; an unsupported handle is reported as success, because its error is overwritten |
| `RearProx.DecisionsAreDue` | hardware-moto-sensors/tof_hal/RearProxSensor.cpp:355-386 | from an enabling on, each reading decides exactly what is due: a side, when it and the previous reading outside the band lie on that side and the last decision was the other one |
| `RearProx.DecisionsAlternate` | hardware-moto-sensors/tof_hal/RearProxSensor.cpp:355-386 | decisions alternate, starting with FAR |
| `RearProx.StepSummary` | hardware-moto-sensors/tof_hal/RearProxSensor.cpp:355-386 | distance, weight and mode always summarize the last side seen and the last decision |
| `RearProx.DecisionIsReported` | hardware-moto-sensors/tof_hal/RearProxSensor.cpp:355-386 | what a reading leaves, in numbers: a decision marks the side seen to be sent and sets the mode to watch for the other side if it can be written; otherwise mark and mode stay |
| `RearProx.MarkedByDecisions` | hardware-moto-sensors/tof_hal/RearProxSensor.cpp:355-386 | over a run data is marked to be sent exactly when some reading decided |
| `RearProx.RepeatedWhenNotWritten` | hardware-moto-sensors/tof_hal/RearProxSensor.cpp:376-385 | a decision is made again at the next reading not on the other side if and only if the mode could not be written |
| `RearProx.RearProxSensor.SetSarConfig` | hardware-moto-sensors/tof_hal/RearProxSensor.cpp:137-174 | the mode is stored only when it is valid and could be written |
| `RearProx.RearProxSensor.SetEnable` | hardware-moto-sensors/tof_hal/RearProxSensor.cpp:200-230 | enabling starts afresh from any earlier state |
| `RearProx.RearProxSensor.HandleSarProcess` | hardware-moto-sensors/tof_hal/RearProxSensor.cpp:355-386 | the code performs the specified step |

## Left out

- Floating-point rounding, infinities and not-a-number: the arithmetic is exact, and a rotation of norm zero is excluded where the source would divide zero by zero.
- `GeoMagRotationVector` and `RotationVector` repeat the frame and integration argument of the game rotation vector.
- The value of `GRAVITY_EARTH` is that of the Android sensor header, which is not in the repository.
- Firmware.DownloadFirmware: how a short write, a write past the end of flash and an erase take effect is the device's affair: here a short write programs what it takes and leaves the address behind it, a write past the end fails, and erased flash holds the fill value; the bootloader, reading the version strings and the black list are not modelled.
- Files that grow or shrink while they are read, and file systems: a file is its bytes.
- EventReader.InputEventCircularReader.Next: called only when an event is queued, as every caller in the repository does.
- SensorManager.NativeSensorManager.AddDependency: the build that defines SENSORS_DEVICE_API_VERSION_1_3 is modelled, in which a null dependency is dereferenced before its null check, so for a virtual sensor the handle must be known; the maximum delay it also lowers is not modelled.
- Driver calls in the sensor manager are assumed to take effect; `minDelay * 1000` is not cut to 32 bits; readEvents, flush and the system-file search are not modelled.
- Linked lists of the sensor manager are sequences updated in place, not nodes; the performance-lock list is modelled node by node.
- Calibration.AkscPrms.LoadParameters: what a failed load leaves in the parameters is not specified, as the source's documentation says; LoadPDC is not modelled, since it repeats the argument for bytes.
- Calibration.AkscPrms.SaveParameters: a failed save leaves an unspecified file.
- Freeing of list nodes and hint data: the model has no `free`.
- The acquire call's resource list and the meaning of a handle other than -1.
- MotoshEvents.HubSensors.SetEnable: only the glance bit; the fall-through of the glance case into motion detection, and every other sensor's bit, are not modelled.
- Decoding of the fixed-layout records and the calibration and error-report records of the hubs: they make one event or none whatever the state.
- RateArbitration.HubSensors.SetEnable: parts and rates are those last sent to the hub, whose control writes are assumed to succeed; the builds without gyroscope or magnetometer, wake sensors, the light and step sensors' own settings and the algorithm resets are not modelled.
- RearProx.RearProxSensor.HandleSarProcess: the detector's on, off and resume writes, the polling interval and the input event loop are not modelled; in that loop a distance that arrives before its timestamp is processed twice.
- Sensor tables beyond the delays used here, HIDL services, properties, lights, vibrator, health, the power hint parser and reference counts, audio, cameras and the Java user interface: plumbing or easy members.
- The SmartCompass library is not part of the repository.
