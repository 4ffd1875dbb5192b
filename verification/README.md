# LSM6DS3 driver protocol model

A Dafny model of the protocol layer of the Arduino LSM6DS3 inertial-sensor
driver (`src/LSM6DS3.cpp`): the register map, the register access primitives
with their integer return codes, the `begin` start-up sequence and the `end`
teardown, the status-bit availability checks, the accelerometer and gyroscope
sample reads with their scaling, and the gyroscope drift calibration.

The bus is abstract. The sensor is a register file (`Transport.Bus.regs`; a
register never written reads as 0). The two-wire bus also holds a script of
per-transaction outcomes (`Response(acked, complete)`): `acked` is false when
the address phase, or a write transmission, is not acknowledged, and
`complete` is false when a read request delivers fewer bytes than asked.
Once the script is exhausted every transaction is healthy. The synchronous
serial bus never fails, exactly as the driver assumes. Every operation is a
pure function that returns its result, the bus afterwards and the trace of
bus events it caused. `Transport.Writes` extracts the register writes of a
trace, in order, the way a logging bus double would record them.

Modules, in dependency order:

- `Wrappers`: `Option`, standing in for NaN.
- `Bits`: bitwise AND/OR on naturals, defined bit by bit, with their per-bit meaning.
- `Registers`: the `Byte` type, `Or`/`And` on bytes, the C `int`-to-`uint8_t` conversion, and every register address the driver defines.
- `Transport`: bindings (two-wire with a slave address, or synchronous serial), the bus and the event trace.
- `Access`: `readRegisters`, `readRegister` and `writeRegister`.
- `Handle`: the driver state, i.e. the binding, the three gyroscope drifts and the FIFO flag.
- `Samples`: the availability checks, the sample reads and scaling, and the constant getters.
- `Calibration`: the calibration loop over a finite window of passes.
- `Lifecycle`: `begin` and `end`.

The calibration window replaces the wall-clock loop. It is the list of loop
passes actually made. Each pass carries the register values the sensor
changed since the previous pass (a `Tick`).

The sample reads decode the six output bytes as three little-endian signed
16-bit values (low byte first, as the sensor lays out its output registers).
This assumes a little-endian target; see "Left out".

`readGyroscope` does not subtract the stored drift (`src/LSM6DS3.cpp:240-242`).
`Samples.GyroscopeIgnoresDrift` states this. The comment at
`src/LSM6DS3.cpp:114` says the measured drift is used "for correcting data
later", but no read in the file applies it; the model follows the code.

## Model

| member | source | states |
|---|---|---|
| Bits.AndBit | src/LSM6DS3.cpp:216 | a bit of the AND of `a` and `b` is set exactly when it is set in both `a` and `b` |
| Bits.OrBit | src/LSM6DS3.cpp:123 | a bit of the OR of `a` and `b` is set exactly when it is set in `a` or in `b` |
| Bits.BitsEqual | src/LSM6DS3.cpp:123 | two byte-wide values that agree on every bit are equal, so the per-bit laws determine AND and OR completely |
| Registers.Truncate | src/LSM6DS3.cpp:122 | storing an `int` into a `byte` yields the byte congruent to it modulo 256: a byte value 0..255 is kept, and the failure sentinel -1 becomes 0xFF |
| Registers.OrCommutes | src/LSM6DS3.cpp:281 | OR gives the same byte in either operand order |
| Registers.MaskBit | src/LSM6DS3.cpp:216 | masking with a single-bit mask yields the mask when that bit is set and 0 otherwise |
| Registers.SetBitSets | src/LSM6DS3.cpp:123 | after OR-ing in a single bit, that bit is set |
| Registers.SetBitKeeps | src/LSM6DS3.cpp:123 | OR-ing in a single bit changes nothing that a mask without that bit can see |
| Registers.SetBitIdle | src/LSM6DS3.cpp:123 | OR-ing in a bit that is already set leaves the byte unchanged |
| Access.ReadRegisters | src/LSM6DS3.cpp:276-302 | returns -1, 0 or 1. Over synchronous serial it always returns 1. Over two-wire it returns -1 exactly when the address phase is not acknowledged and 0 exactly when the request comes back short. Only on 1 are `length` bytes delivered, byte `i` being register `address + i`; otherwise nothing is delivered. It gives the event sequence of each path, touches no register and writes nothing |
| Access.SpiReadCommand | src/LSM6DS3.cpp:281 | the synchronous-serial read command has the top (read) bit set and carries the register address in its low seven bits |
| Access.ReadRegister | src/LSM6DS3.cpp:261-270 | returns -1 exactly when the one-byte `readRegisters` does not return 1, and otherwise the register's byte in 0..255. It has the same bus actions as that read |
| Access.WriteRegister | src/LSM6DS3.cpp:304-322 | returns 0 or 1. Over synchronous serial it sends the address unmodified, then the value, and returns 1. Over two-wire it sends one STOP-terminated transmission and returns 0 exactly when that is not acknowledged. It records exactly one write `(address, value)`; the register holds the value on success and no other register changes |
| Access.WriteThenRead | src/LSM6DS3.cpp:304-322 | a register written and then read back over an acknowledging bus returns the value written |
| Samples.Int16RoundTrip | src/LSM6DS3.cpp:197-199 | encoding a signed 16-bit count as its low/high register pair and decoding it gives the count back |
| Samples.Int16BytesRoundTrip | src/LSM6DS3.cpp:230-232 | decoding any low/high byte pair and re-encoding it gives the same two bytes |
| Samples.Raw3RoundTrip | src/LSM6DS3.cpp:197-199 | the six output bytes of a three-axis sample decode back to that sample |
| Samples.Scale | src/LSM6DS3.cpp:207-209 | `raw · fullScale / 32768` lies in `[-fullScale, fullScale)` for every signed 16-bit `raw` |
| Samples.UnscaleScale | src/LSM6DS3.cpp:240-242 | the scaling is invertible: the raw count is recovered from the physical value |
| Samples.Scale3Counts | src/LSM6DS3.cpp:207-209 | a scaled three-axis sample is in range on every axis, and its counts are the raw sample |
| Samples.TestBitZero | src/LSM6DS3.cpp:216 | `status & 0x01` is non-zero exactly when the status read is -1 or odd |
| Samples.TestBitOne | src/LSM6DS3.cpp:249 | `status & 0x02` is non-zero exactly when the status read is -1 or has bit 1 set |
| Samples.AccelerationAvailable | src/LSM6DS3.cpp:214-221 | returns 1 exactly when the STATUS_REG read is -1 or has bit 0 set, and 0 otherwise. It has the same bus actions as that read and writes nothing |
| Samples.GyroscopeAvailable | src/LSM6DS3.cpp:247-254 | returns 1 exactly when the STATUS_REG read is -1 or has bit 1 set, and 0 otherwise. It has the same bus actions as that read and writes nothing |
| Samples.FailedStatusReadReportsData | src/LSM6DS3.cpp:214-254 | when the status read fails (-1), both availability checks report data |
| Samples.ReadSample | src/LSM6DS3.cpp:195-212 | corrected read (see Findings; the code as written is `Samples.ReadSampleAsWritten`): returns 1 exactly when the six-byte read returns 1, and then the value is in range and its counts are the raw sample in the six registers. Otherwise it returns 0 with NaN |
| Samples.ReadAcceleration | src/LSM6DS3.cpp:195-212 | corrected `readAcceleration` (see Findings; the code as written is `Samples.ReadAccelerationAsWritten`): returns 1 exactly when the read of OUTX_L_XL.. returns 1, and then each axis is within [-4, 4) g and is the register pair times 4/32768. Otherwise it returns 0 with NaN |
| Samples.ReadGyroscope | src/LSM6DS3.cpp:228-245 | corrected `readGyroscope` (see Findings; the code as written is `Samples.ReadGyroscopeAsWritten`): returns 1 exactly when the read of OUTX_L_G.. returns 1, and then each axis is within [-2000, 2000) dps and is the register pair times 2000/32768. Otherwise it returns 0 with NaN |
| Samples.GyroscopeIgnoresDrift | src/LSM6DS3.cpp:240-242 | the result of a gyroscope read does not depend on the stored drift |
| Samples.ReadSampleAsWritten | src/LSM6DS3.cpp:199-205 | the source's `!readRegisters(...)` test: it fails only on code 0, agrees with the corrected `Samples.ReadSample` whenever the code is not -1, and on code -1 reports success with the stale buffer's values |
| Samples.ReadAccelerationAsWritten | src/LSM6DS3.cpp:195-212 | as written: returns 0 or 1; 0 exactly when the read returns 0; on a read code of 0 or 1 it agrees with the corrected `Samples.ReadAcceleration` (so on 1 each axis is the register pair scaled), and on -1 it returns 1 with the stale buffer scaled |
| Samples.ReadGyroscopeAsWritten | src/LSM6DS3.cpp:228-245 | as written: returns 0 or 1; 0 exactly when the read returns 0; on a read code of 0 or 1 it agrees with the corrected `Samples.ReadGyroscope` (so on 1 each axis is the register pair scaled), and on -1 it returns 1 with the stale buffer scaled |
| Samples.NackedAccelerationReadReportsSuccess | src/LSM6DS3.cpp:199-205 | after an unacknowledged address phase no data moves. Yet `readAcceleration` as written returns 1 with stale values, while the corrected read returns 0 with NaN |
| Samples.NackedGyroscopeReadReportsSuccess | src/LSM6DS3.cpp:232-238 | after an unacknowledged address phase no data moves. Yet `readGyroscope` as written returns 1 with stale values, while the corrected read returns 0 with NaN |
| Samples.AccelerationSampleRate | src/LSM6DS3.cpp:223-226 | always 104 Hz, with no bus access |
| Samples.GyroscopeSampleRate | src/LSM6DS3.cpp:256-259 | always 104 Hz, with no bus access |
| Samples.UnreadFifoSampleCount | src/LSM6DS3.cpp:272-274 | always -1, a value no real sample count can take |
| Calibration.Poll | src/LSM6DS3.cpp:159-167 | one loop pass: reads the gyroscope exactly when `gyroscopeAvailable` reports 1 on the updated sensor, and writes nothing |
| Calibration.Window | src/LSM6DS3.cpp:158-168 | one pass per tick; the number of readings is the number of passes that saw data; it writes nothing |
| Calibration.CountPositive | src/LSM6DS3.cpp:166-170 | the sample counter is positive exactly when some pass saw data |
| Calibration.Accumulate | src/LSM6DS3.cpp:151-168 | the loop's counter ends at the number of readings |
| Calibration.AccumulateFrom | src/LSM6DS3.cpp:162-166 | resuming the front-to-back loop from the sum of a prefix ends with the reference sum of all readings |
| Calibration.AccumulateTotal | src/LSM6DS3.cpp:151-168 | the loop started from zero computes the count and the reference sum |
| Calibration.LoopOutcome | src/LSM6DS3.cpp:170-177 | some pass saw data exactly when readings exist, and then the divided sums are the reference mean |
| Calibration.Calibrate | src/LSM6DS3.cpp:148-180 | returns false exactly when no pass saw gyroscope data, and then the driver is unchanged. Otherwise it returns true and sets each drift to the mean of the readings. The bus actions are those of the polling loop, and nothing is written |
| Calibration.TotalOfConstant | src/LSM6DS3.cpp:162-164 | summing `n` equal readings gives `n` times the reading |
| Calibration.MeanOfConstant | src/LSM6DS3.cpp:175-177 | the mean of equal readings is that reading |
| Calibration.TotalWithNaN | src/LSM6DS3.cpp:162-164 | one NaN reading makes the sum NaN |
| Calibration.NaNReadingPoisonsMean | src/LSM6DS3.cpp:175-177 | one NaN reading makes the mean NaN on every axis, so a calibration that saw it stores NaN drifts |
| Calibration.StationaryPoll | src/LSM6DS3.cpp:159-160 | a pass on which the status announces gyroscope data and the output registers hold `raw` reads `raw` scaled |
| Calibration.StationaryWindow | src/LSM6DS3.cpp:158-168 | if every pass is such a pass, the loop reads `raw` scaled on every pass |
| Calibration.StationaryCalibration | src/LSM6DS3.cpp:148-180 | a sensor at rest that reports the same rate on every pass is calibrated to exactly that rate |
| Lifecycle.End | src/LSM6DS3.cpp:182-193 | over synchronous serial it only ends the bus session, with no writes. Over two-wire it writes 0x00 to CTRL2_G, then 0x00 to CTRL1_XL, and ends the session; with an acknowledging bus both registers end at 0 |
| Lifecycle.SetBlockDataUpdate | src/LSM6DS3.cpp:122-123 | the CTRL3_C value written has bit 6 set and every other bit as read back. A failed read (-1) writes 0xFF, and a value that already has bit 6 set is written unchanged |
| Lifecycle.Configure | src/LSM6DS3.cpp:100-115 | writes exactly CTRL2_G=0x4C, CTRL1_XL=0x4A, CTRL8_XL=0x05, in that order, then calibrates |
| Lifecycle.ArmFifo | src/LSM6DS3.cpp:119-143 | writes exactly CTRL3_C with the block-data-update value computed from its read, then FIFO_CTRL3=0x11 and FIFO_CTRL5=0x26 |
| Lifecycle.Begin | src/LSM6DS3.cpp:85-146 | returns 1 exactly when WHO_AM_I reads 0x69, and 0 otherwise, whatever any write or calibration does. It starts the bus and then reads WHO_AM_I. On 0 the driver is unchanged and the session ends. On 1 the FIFO flag is the one requested and the drift is the one the configuration-and-calibration step produced |
| Lifecycle.BeginIdentityMismatch | src/LSM6DS3.cpp:95-98 | a wrong or failed identity returns 0. The only writes are the power-down of `end` over two-wire, and none over synchronous serial |
| Lifecycle.BeginMatchWrites | src/LSM6DS3.cpp:100-143 | after a matching identity the writes are the configuration writes, followed in FIFO mode by those of the FIFO set-up |
| Lifecycle.BeginIdentityMatch | src/LSM6DS3.cpp:100-145 | a matching identity returns 1 after exactly the three configuration writes in order. In FIFO mode these are followed by CTRL3_C (bit 6 set), FIFO_CTRL3=0x11 and FIFO_CTRL5=0x26 |

## Left out

- Pin control, chip-select toggling and SPI settings (`pinMode`, `digitalWrite`, `beginTransaction`): hardware side effects with no protocol content. A synchronous-serial frame is one event.
- The real Wire/SPI libraries: replaced by the scripted transport. Transaction outcomes are inputs.
- Two-wire write failures are not distinguished by kind: any non-zero `endTransmission` result is one unacknowledged outcome.
- The wall-clock window of `calibrate` (`millis()`, the 250 ms argument): replaced by the finite list of passes made. How many passes fit into 250 ms is not modelled.
- IEEE single-precision rounding, the double-to-float conversion and NaN propagation: values are exact reals. NaN is `None`, and the three axes of a read go NaN together.
- The `Serial.println` warning on a calibration without samples: console output.
- The `#ifdef`-selected global `IMU` instance and the constructors: only the binding they record is modelled.
- Calibration.Calibrate: uses the corrected gyroscope read (see Findings), so a pass whose read is not acknowledged contributes NaN rather than stale buffer values.
- Platform byte order: the `(uint8_t*)int16_t[3]` reinterpretation at `src/LSM6DS3.cpp:197-199` and `230-232` depends on the target. The model assumes a little-endian target, so that the buffer's bytes decode low byte first.

## Findings

| source | as written | input that shows it | evidently intended | confidence | as-written member | corrected member |
|---|---|---|---|---|---|---|
| src/LSM6DS3.cpp:199 | `readAcceleration` treats only a 0 from `readRegisters` as failure | two-wire bus whose next transaction is not acknowledged: `readRegisters` returns -1, which is truthy, so the read returns 1 with the uninitialised buffer scaled | any result other than 1 is a failure: return 0 and NaN | not executed | Samples.NackedAccelerationReadReportsSuccess | Samples.ReadAcceleration |
| src/LSM6DS3.cpp:232 | `readGyroscope` treats only a 0 from `readRegisters` as failure | two-wire bus whose next transaction is not acknowledged: `readRegisters` returns -1, so the read returns 1 with the uninitialised buffer scaled, and `calibrate` would sum it | any result other than 1 is a failure: return 0 and NaN | not executed | Samples.NackedGyroscopeReadReportsSuccess | Samples.ReadGyroscope |
