# TsFile generation benchmark: emission schedule and in-memory writer

TsFileGenerator is the driver of a write benchmark for the TsFile time-series
format. One trial of it:

- registers one measurement per sensor (`initWriter`);
- writes a synthetic time series for `deviceNum` devices, `sensorNum` sensors
  and `ptNum` ticks. The aligned trial (`gen`) writes one record per
  (tick, device) that carries every sensor. The non-aligned trial
  (`genNonalign`) writes one record per (tick, device, sensor);
- closes the writer.

MemoryTsRandomAccessFileWriter is a TsFile output that keeps every byte in an
in-memory `ByteArrayOutputStream`.

This project models both in Dafny.

The generator is modelled as a pure function `Generator.Generate`. It returns:

- the trial's registrations;
- the exact sequence of records it hands to the writer, except for the
  non-aligned timestamp overflow (see Findings);
- whether it reaches `writer.close()`.

The writer is a port that only receives this trace. The data generator's
values are a stream `gen: nat -> V`: tick `i` uses `gen(i)`. Java's integer
semantics are spelled out where they matter, in module `JavaSemantics`:

- truncating `/` and `%`, which throw ArithmeticException on a zero divisor;
- 32-bit wrap-around.

The most consequential branch is the progress check after each tick,
`(i + 1) % (ptNum / 100)`. For `0 < ptNum < 100` the divisor truncates to zero.
The trial then throws ArithmeticException after the records of tick 0 and
never closes the writer. The model keeps this behaviour, because it is what
the code does.

The memory writer is an append-only state machine over a byte sequence:

- `getPos` is the number of bytes written;
- both `write`s append;
- `close` has no effect, because closing a `ByteArrayOutputStream` has none;
- `truncate` always throws IOException;
- `getOutputStream` hands out the writer's own stream, so writes made through
  it, including `write(byte[], int, int)` (which throws
  IndexOutOfBoundsException on a range outside the array), land in the same
  buffer and move `getPos`.

Modules:

- `JavaSemantics` holds Java `int`/`long` ranges, `/` and `%`, the 32-bit wrap, and the exceptions.
- `Decimal` models `Integer.toString` on non-negative ints and reads the digits back.
- `Blocks` covers the output of a counted loop whose iterations emit equal-sized blocks, and its index arithmetic.
- `Schema` holds data types, descriptors, data points, records, the configuration, and sensor and device names.
- `Timestamps` holds the non-aligned timestamp, both as written and as intended.
- `Generator` models `initWriter`, `gen` and `genNonalign` as one trial function.
- `GeneratorProperties` proves the schedule, the counts, the per-device time order, schema conformance and the call order.
- `MemoryWriter` models MemoryTsRandomAccessFileWriter.

Two consequences of the code:

- Non-aligned timestamps are `(i + 1) * sensorNum + k`, with ticks numbered from 0. They start at `sensorNum`, not at 0.
- A trial with `ptNum = 3` does not complete: it aborts at the first progress check. `GeneratorProperties.ThreePointAligned` and `GeneratorProperties.ThreePointNonAligned` pin down what such a trial writes. For the same reason, the commented-out parameter sweep in `main` would abort at its first configuration, `ptNum = 1`.

## Model

| member | source | states |
|---|---|---|
| JavaSemantics.Div | src/main/java/expr/TsFileGenerator.java:87 | `ptNum / 100` fails exactly when the divisor is zero, and then with ArithmeticException |
| JavaSemantics.Rem | src/main/java/expr/TsFileGenerator.java:87 | `(i + 1) % d` fails exactly when d is zero, and then with ArithmeticException |
| JavaSemantics.DivRemIdentity | src/main/java/expr/TsFileGenerator.java:87 | Java's `/` and `%` satisfy q*b + r == a, the remainder is smaller than the divisor in magnitude and takes the dividend's sign, and the quotient rounds toward zero |
| JavaSemantics.Wrap32 | src/main/java/expr/TsFileGenerator.java:108 | an `int` result is congruent to the mathematical value modulo 2^32 and equals it when that value fits |
| Decimal.Digits | src/main/java/expr/TsFileGenerator.java:53 | the decimal rendering of an index is a non-empty digit string, with a leading '0' only for 0 |
| Decimal.ValueOfDigits | src/main/java/expr/TsFileGenerator.java:53 | reading the rendered digits back gives the index: rendering is invertible |
| Decimal.PrefixedInjective | src/main/java/expr/TsFileGenerator.java:53 | a prefix followed by the rendering of a determines a |
| Schema.SensorName | src/main/java/expr/TsFileGenerator.java:53 | `SENSOR_PREFIX + k` is the prefix followed by a digit string that reads back as k |
| Schema.DeviceName | src/main/java/expr/TsFileGenerator.java:67 | `DEVICE_PREFIX + j` is the prefix followed by a digit string that reads back as j |
| Schema.SensorNamesDistinct | src/main/java/expr/TsFileGenerator.java:53 | `SENSOR_PREFIX + k1` and `SENSOR_PREFIX + k2` are equal if and only if k1 == k2 |
| Schema.DeviceNamesDistinct | src/main/java/expr/TsFileGenerator.java:67 | `DEVICE_PREFIX + j1` and `DEVICE_PREFIX + j2` are equal if and only if j1 == j2 |
| Schema.MakePoint | src/main/java/expr/TsFileGenerator.java:69-82 | the switch builds a point of the class that matches the configured data type, with the given name and value |
| Generator.Registration | src/main/java/expr/TsFileGenerator.java:52-55 | one descriptor per sensor index in order, each with the configured type and encoding, and all names pairwise distinct |
| Generator.AlignedPoints | src/main/java/expr/TsFileGenerator.java:68-84 | an aligned record carries every sensor in index order, each with the tick's value and the configured type, under distinct names |
| Generator.DeviceRecords | src/main/java/expr/TsFileGenerator.java:66-86 | device j's records at tick i all carry `DEVICE_PREFIX + j`: one record at time i + 1 with every sensor (aligned), or sensorNum records, the k-th at time (i + 1) * sensorNum + k with sensor k's point only (non-aligned, lines 106-126) |
| Generator.TickRecordsShape | src/main/java/expr/TsFileGenerator.java:66-86 | a tick writes deviceNum records with device j's at position j (aligned), or deviceNum * sensorNum records with sensor k of device j at position j * sensorNum + k (non-aligned, lines 106-126) |
| Generator.ProgressCheck | src/main/java/expr/TsFileGenerator.java:87 | the progress check throws ArithmeticException if and only if -100 < ptNum < 100 |
| Generator.WriteTicks | src/main/java/expr/TsFileGenerator.java:64-90 | from tick i the loop closes exactly when i >= ptNum or ptNum >= 100, and then writes the concatenation of ticks i..ptNum-1; otherwise it aborts with ArithmeticException after tick i's records |
| Generator.Generate | src/main/java/expr/TsFileGenerator.java:58-96 | a trial registers exactly Registration's descriptors; it reaches close() exactly when ptNum is not in 1..99; an aborted trial has written exactly tick 0's records; a closed one has written every tick in order |
| GeneratorProperties.WrittenTicks | src/main/java/expr/TsFileGenerator.java:104-130 | whatever the outcome, the written records are those of the first TicksRun ticks, ptNum or 1 |
| GeneratorProperties.WrittenCount | src/main/java/expr/TsFileGenerator.java:64-90 | a closed trial writes ptNum * deviceNum records (aligned) or ptNum * deviceNum * sensorNum records (non-aligned); an aborted one writes one tick's worth; ptNum <= 0 writes nothing and closes |
| GeneratorProperties.TrialAt | src/main/java/expr/TsFileGenerator.java:104-126 | every written position belongs to exactly one (tick, record-in-tick) pair, at position tick * recordsPerTick + r |
| GeneratorProperties.AlignedRecordAt | src/main/java/expr/TsFileGenerator.java:64-86 | the record of device j at tick i sits at position i * deviceNum + j, with time i + 1, device `DEVICE_PREFIX + j` and every sensor carrying gen(i) |
| GeneratorProperties.AlignedSchedule | src/main/java/expr/TsFileGenerator.java:64-86 | every (tick, device) pair the trial reaches is written at its position with that content: tick-major, device-minor order |
| GeneratorProperties.NonAlignedRecordAt | src/main/java/expr/TsFileGenerator.java:104-126 | the record of sensor k of device j at tick i sits at position (i * deviceNum + j) * sensorNum + k, with time NonAlignedTime = (i + 1) * sensorNum + k and the single point `SENSOR_PREFIX + k` carrying gen(i) |
| GeneratorProperties.NonAlignedSchedule | src/main/java/expr/TsFileGenerator.java:104-126 | every (tick, device, sensor) triple the trial reaches is written at its position with that content |
| GeneratorProperties.TimesIncreasePerDevice | src/main/java/expr/TsFileGenerator.java:64-130 | in both layouts, the records of any one device reach the writer with strictly increasing timestamps; for the non-aligned layout this is about the `long`-arithmetic timestamps, and Timestamps.AsWrittenAgreesWithoutOverflow carries it over to the source's `int` expression while ptNum * sensorNum + sensorNum - 1 fits in an `int` |
| GeneratorProperties.WritesConformToRegistration | src/main/java/expr/TsFileGenerator.java:52-84 | every point of every written record names a registered measurement with the type it was registered with, and no record names a sensor twice |
| GeneratorProperties.CloseOnceAfterLastWrite | src/main/java/expr/TsFileGenerator.java:58-96 | close is the last call exactly when ptNum is not in 1..99, i.e. when no exception escaped; the order (registrations, writes, at most one close at the end) holds by the way the call list is built |
| GeneratorProperties.ThreePointAligned | src/main/java/expr/TsFileGenerator.java:64-91 | deviceNum = 2, sensorNum = 2, ptNum = 3, aligned: the trial aborts with ArithmeticException after two records, both at time 1 |
| GeneratorProperties.ThreePointNonAligned | src/main/java/expr/TsFileGenerator.java:104-131 | the same configuration, non-aligned: the trial aborts after four records, at times 2, 3, 2, 3 |
| Timestamps.NonAlignedTime | src/main/java/expr/TsFileGenerator.java:108 | the intended timestamp of sensor k at tick i lies in the window [(i + 1) * sensorNum, (i + 2) * sensorNum), so ticks never share a timestamp |
| Timestamps.NonAlignedTimeOrder | src/main/java/expr/TsFileGenerator.java:108 | for sensor indices below sensorNum, timestamps are ordered exactly as their (tick, sensor) pairs, lexicographically |
| Timestamps.NonAlignedTimeFitsLong | src/main/java/expr/TsFileGenerator.java:108 | for every `int` configuration, the intended timestamp is non-negative and fits in a `long` |
| Timestamps.NonAlignedTimeAsWritten | src/main/java/expr/TsFileGenerator.java:108 | the expression as written is an `int`, and it equals the intended timestamp whenever that timestamp fits in an `int` |
| Timestamps.AsWrittenAgreesWithoutOverflow | src/main/java/expr/TsFileGenerator.java:108 | while ptNum * sensorNum + sensorNum - 1 fits in an `int`, every timestamp of the trial is the intended one |
| Timestamps.AsWrittenTimeWrapsBackwards | src/main/java/expr/TsFileGenerator.java:108 | with sensorNum = 100000, two consecutive records of one device at tick 21473 get times 2147483647 and -2147483648 |
| MemoryWriter.Create | src/main/java/hadoop/MemoryTsRandomAccessFileWriter.java:10 | a new writer has position 0 and an empty stream |
| MemoryWriter.GetPos | src/main/java/hadoop/MemoryTsRandomAccessFileWriter.java:13-15 | the position is the number of bytes the stream holds |
| MemoryWriter.GetOutputStream | src/main/java/hadoop/MemoryTsRandomAccessFileWriter.java:40-42 | the returned stream is the writer's own: its size is the writer's position, and writing bytes or an int through it changes the writer exactly as the writer's own write does |
| MemoryWriter.StreamWriteSlice | src/main/java/hadoop/MemoryTsRandomAccessFileWriter.java:40-42 | write(byte[], off, len) on the returned stream throws IndexOutOfBoundsException exactly when off < 0, len < 0 or off + len exceeds the array, and otherwise appends b[off..off + len] |
| MemoryWriter.Truncate | src/main/java/hadoop/MemoryTsRandomAccessFileWriter.java:18-21 | truncate throws IOException for every length and leaves the buffer unchanged |
| MemoryWriter.WriteBytes | src/main/java/hadoop/MemoryTsRandomAccessFileWriter.java:24-27 | write(byte[]) appends the array in order and advances the position by its length |
| MemoryWriter.LowByte | src/main/java/hadoop/MemoryTsRandomAccessFileWriter.java:30-32 | the byte kept from write(int) is congruent to the argument modulo 256, and is the argument itself when it is 0..255 |
| MemoryWriter.WriteInt | src/main/java/hadoop/MemoryTsRandomAccessFileWriter.java:30-32 | write(int) keeps the earlier bytes, appends the low byte, and advances the position by one |
| MemoryWriter.Close | src/main/java/hadoop/MemoryTsRandomAccessFileWriter.java:35-37 | close leaves the stream as it was, and later writes still append |
| MemoryWriter.ReplayAppends | src/main/java/hadoop/MemoryTsRandomAccessFileWriter.java:10-42 | after any sequence of calls, including slice writes through the returned stream, the stream holds the earlier bytes followed by every byte written, the position is its length, and exactly the truncates and the out-of-range slice writes threw |
| MemoryWriter.FreshWriterHoldsWrites | src/main/java/hadoop/MemoryTsRandomAccessFileWriter.java:40-42 | the stream getOutputStream returns from a fresh writer, after any calls, holds exactly the bytes those calls wrote |

## Left out

- MonitorThread, `System.currentTimeMillis`, `timeConsumption` and the averaging in `run()` are left out: they are timing and memory measurement, and MonitorThread is not part of this model. That includes the `int` overflow of `sensorNum * deviceNum * ptNum` in `run()`.
- Choosing a local file or HDFS in `initWriter` is left out. So are the file deletion and `HDFSOutputStream`. The writer is a port that receives registrations, records and close.
- TsFileWriter is not part of this model. The model assumes that `addMeasurement`, `write` and `close` (lines 91 and 131) accept every call and never throw; the `Closed` outcome rests on that. The IOException and WriteProcessException they may raise are not modelled.
- DataGenerator and GeneratorFactory are not part of this model. Their values are the abstract stream `gen`. The casts `(double)`, `(float)`, `(int)` and `(long)` of the `Object` value are not modelled: the value is stored as given, and a ClassCastException is not modelled.
- Schema.DataType lists only DOUBLE, FLOAT, INT32 and INT64. With any other TSDataType, the switch leaves the point null and `addTuple(null)` is reached; that path is not modelled.
- `cons.Constants` is not part of this model. `SENSOR_PREFIX`, `DEVICE_PREFIX`, `dataType` and `encoding` are fields of the configuration.
- `main`, `load` and the logback configuration are left out: they are process set-up.
- JavaSemantics.Div: does not model the wrap of `Integer.MIN_VALUE / -1`, because the only division in the core has divisor 100.
- Generator.Generate: the non-aligned timestamps use the intended `long` arithmetic. The wrapping expression is modelled separately; see Findings.
- Generator.DeviceRecords: computes the non-aligned timestamp as Timestamps.NonAlignedTime, in `long` arithmetic, where the source wraps in `int` (line 108). So do the facts built on it: GeneratorProperties.NonAlignedRecordAt, GeneratorProperties.NonAlignedSchedule and GeneratorProperties.TimesIncreasePerDevice. They agree with the source while ptNum * sensorNum + sensorNum - 1 fits in an `int` (Timestamps.AsWrittenAgreesWithoutOverflow); beyond that the source's timestamps differ (see Findings).
- MemoryWriter: the capacity limit of `ByteArrayOutputStream` (OutOfMemoryError past about 2^31 bytes) is not modelled. Neither is the NullPointerException of `write(null)`.
- MemoryWriter.GetOutputStream: the stream is modelled as the writer's buffer, so writes through it are modelled as calls on the writer (`StreamSlice` for `write(byte[], int, int)`). Operations a caller reaches only by casting the returned `OutputStream` back to `ByteArrayOutputStream` (`reset`, `writeTo`, `toString`) are not modelled; `flush` has no effect and is not modelled either.
- Java's signed bytes are modelled by their unsigned value 0..255.

## Findings

| source | as written | input that shows it | evidently intended | confidence | as-written member | corrected member |
|---|---|---|---|---|---|---|
| src/main/java/expr/TsFileGenerator.java:108 | `(long) ((i + 1) * sensorNum + k)`: the product and the sum are computed in 32-bit `int` and then widened | sensorNum = 100000 (a value of the commented-out sweep in `main`), tick i = 21473, sensors k = 83647 then 83648 of one device: timestamps 2147483647 then -2147483648, so time goes backwards | the same expression in `long` arithmetic, giving 2147483648 | not executed; high, the arithmetic is exact | Timestamps.NonAlignedTimeAsWritten, shown by Timestamps.AsWrittenTimeWrapsBackwards | Timestamps.NonAlignedTime, with Timestamps.NonAlignedTimeOrder and Timestamps.NonAlignedTimeFitsLong; Generator.Generate uses it |
