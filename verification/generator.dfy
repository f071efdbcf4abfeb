/**
 The record-emission schedule of TsFileGenerator: the measurements initWriter
 registers, the records gen (aligned) and genNonalign (non-aligned) hand to
 the TsFileWriter, and whether the trial reaches writer.close(). The writer
 itself is a port that only receives this trace; the values are the i-th
 outputs of the data generator, given as the stream `gen`.
 */
module Generator {
  import opened JavaSemantics
  import opened Blocks
  import opened Schema
  import opened Timestamps

  /** gen writes one record per (tick, device); genNonalign writes one record
      per (tick, device, sensor). */
  datatype Layout = Aligned | NonAligned

  /** How a trial ends: writer.close() is reached, or an exception escapes. */
  datatype Outcome = Closed | Aborted(error: JavaException)

  /** What the writer port receives during one trial. */
  datatype Trial<V> = Trial(registered: seq<MeasurementDescriptor>, written: seq<TSRecord<V>>, outcome: Outcome)

  /** The number of iterations of `for (int i = 0; i < n; i++)`. */
  function Iterations(n: int): nat {
    if n < 0 then 0 else n
  }

  function Devices(c: Config): nat {
    Iterations(c.deviceNum)
  }

  function Sensors(c: Config): nat {
    Iterations(c.sensorNum)
  }

  lemma SensorNamesDistinctBelow(c: Config, n: nat)
    ensures forall k1, k2 :: 0 <= k1 < k2 < n ==> SensorName(c, k1) != SensorName(c, k2)
  {
    forall k1, k2 | 0 <= k1 < k2 < n
      ensures SensorName(c, k1) != SensorName(c, k2)
    {
      SensorNamesDistinct(c, k1, k2);
    }
  }

  /** initWriter's registration loop: one descriptor per sensor index, in
      order, all with the configured type and encoding, under distinct names. */
  function Registration(c: Config): (ms: seq<MeasurementDescriptor>)
    ensures |ms| == Sensors(c)
    ensures forall k :: 0 <= k < |ms| ==>
      ms[k].measurementId == SensorName(c, k) && ms[k].dataType == c.dataType && ms[k].encoding == c.encoding
    ensures forall k1, k2 :: 0 <= k1 < k2 < |ms| ==> ms[k1].measurementId != ms[k2].measurementId
  {
    SensorNamesDistinctBelow(c, Sensors(c));
    seq(Sensors(c), (k: nat) => MeasurementDescriptor(SensorName(c, k), c.dataType, c.encoding))
  }

  /** The points of an aligned record: every sensor, in index order, each
      carrying the tick's value under the configured type. */
  function AlignedPoints<V>(c: Config, v: V): (pts: seq<DataPoint<V>>)
    ensures |pts| == Sensors(c)
    ensures forall k :: 0 <= k < |pts| ==>
      pts[k].measurementId == SensorName(c, k) && pts[k].Type() == c.dataType && pts[k].value == v
    ensures forall k1, k2 :: 0 <= k1 < k2 < |pts| ==> pts[k1].measurementId != pts[k2].measurementId
  {
    SensorNamesDistinctBelow(c, Sensors(c));
    seq(Sensors(c), (k: nat) => MakePoint(c.dataType, SensorName(c, k), v))
  }

  /** The records written for device j at tick i, all under DEVICE_PREFIX + j:
      one at time i + 1 carrying every sensor (aligned), or one per sensor k,
      at time (i + 1) * sensorNum + k, carrying that sensor only (non-aligned). */
  function DeviceRecords<V>(c: Config, layout: Layout, i: nat, j: nat, v: V): (rs: seq<TSRecord<V>>)
    ensures |rs| == RecordsPerDevice(c, layout)
    ensures forall r :: 0 <= r < |rs| ==> rs[r].deviceId == DeviceName(c, j)
    ensures layout == Aligned ==> rs[0].time == i + 1 && rs[0].points == AlignedPoints(c, v)
    ensures layout == NonAligned ==> forall k :: 0 <= k < |rs| ==>
      rs[k].time == NonAlignedTime(c.sensorNum, i, k) && rs[k].points == [MakePoint(c.dataType, SensorName(c, k), v)]
  {
    match layout
    case Aligned => [TSRecord(i + 1, DeviceName(c, j), AlignedPoints(c, v))]
    case NonAligned =>
      seq(Sensors(c), (k: nat) => TSRecord(NonAlignedTime(c.sensorNum, i, k), DeviceName(c, j), [MakePoint(c.dataType, SensorName(c, k), v)]))
  }

  function DeviceLoop<V>(c: Config, layout: Layout, i: nat, v: V): nat -> seq<TSRecord<V>> {
    (j: nat) => DeviceRecords(c, layout, i, j, v)
  }

  function RecordsPerDevice(c: Config, layout: Layout): nat {
    match layout
    case Aligned => 1
    case NonAligned => Sensors(c)
  }

  function RecordsPerTick(c: Config, layout: Layout): nat {
    Devices(c) * RecordsPerDevice(c, layout)
  }

  lemma DeviceLoopUniform<V>(c: Config, layout: Layout, i: nat, v: V)
    ensures Uniform(0, Devices(c), DeviceLoop(c, layout, i, v), RecordsPerDevice(c, layout))
  {
    forall j | 0 <= j < Devices(c)
      ensures |DeviceLoop(c, layout, i, v)(j)| == RecordsPerDevice(c, layout)
    {
      assert DeviceLoop(c, layout, i, v)(j) == DeviceRecords(c, layout, i, j, v);
    }
  }

  lemma DeviceLoopLength<V>(c: Config, layout: Layout, i: nat, v: V)
    ensures |Concat(0, Devices(c), DeviceLoop(c, layout, i, v))| == RecordsPerTick(c, layout)
  {
    DeviceLoopUniform(c, layout, i, v);
    ConcatLength(0, Devices(c), DeviceLoop(c, layout, i, v), RecordsPerDevice(c, layout));
  }

  /** In an aligned tick the record of device j is at position j. */
  lemma AlignedDeviceAt<V>(c: Config, i: nat, v: V, j: nat)
    requires j < Devices(c)
    ensures j < |TickRecords(c, Aligned, i, v)|
    ensures TickRecords(c, Aligned, i, v)[j] == TSRecord(i + 1, DeviceName(c, j), AlignedPoints(c, v))
  {
    var body := DeviceLoop(c, Aligned, i, v);
    DeviceLoopUniform(c, Aligned, i, v);
    ConcatIndex(0, Devices(c), body, 1, j, 0);
    assert body(j) == DeviceRecords(c, Aligned, i, j, v);
  }

  /** In a non-aligned tick the record of sensor k of device j is at
      position j * sensorNum + k. */
  lemma NonAlignedDeviceAt<V>(c: Config, i: nat, v: V, j: nat, k: nat)
    requires j < Devices(c) && k < Sensors(c)
    ensures Slot(j, k, Sensors(c)) < |Concat(0, Devices(c), DeviceLoop(c, NonAligned, i, v))|
    ensures Concat(0, Devices(c), DeviceLoop(c, NonAligned, i, v))[Slot(j, k, Sensors(c))]
         == TSRecord(NonAlignedTime(c.sensorNum, i, k), DeviceName(c, j), [MakePoint(c.dataType, SensorName(c, k), v)])
  {
    var body := DeviceLoop(c, NonAligned, i, v);
    DeviceLoopUniform(c, NonAligned, i, v);
    ConcatIndex(0, Devices(c), body, Sensors(c), j, k);
    assert body(j) == DeviceRecords(c, NonAligned, i, j, v);
  }

  /** A tick writes RecordsPerTick records: deviceNum of them (aligned), the
      one of device j at position j; or deviceNum * sensorNum of them
      (non-aligned), the one of sensor k of device j at position
      j * sensorNum + k. */
  lemma TickRecordsShape<V>(c: Config, layout: Layout, i: nat, v: V)
    ensures |TickRecords(c, layout, i, v)| == RecordsPerTick(c, layout)
    ensures layout == Aligned ==> forall j :: 0 <= j < Devices(c) ==>
      TickRecords(c, layout, i, v)[j] == TSRecord(i + 1, DeviceName(c, j), AlignedPoints(c, v))
    ensures layout == NonAligned ==> forall j, k :: 0 <= j < Devices(c) && 0 <= k < Sensors(c) ==>
      Slot(j, k, Sensors(c)) < |TickRecords(c, layout, i, v)| &&
      TickRecords(c, layout, i, v)[Slot(j, k, Sensors(c))]
        == TSRecord(NonAlignedTime(c.sensorNum, i, k), DeviceName(c, j), [MakePoint(c.dataType, SensorName(c, k), v)])
  {
    DeviceLoopLength(c, layout, i, v);
    if layout == Aligned {
      forall j | 0 <= j < Devices(c)
        ensures TickRecords(c, layout, i, v)[j] == TSRecord(i + 1, DeviceName(c, j), AlignedPoints(c, v))
      {
        AlignedDeviceAt(c, i, v, j);
      }
    } else {
      forall j, k | 0 <= j < Devices(c) && 0 <= k < Sensors(c)
        ensures Slot(j, k, Sensors(c)) < |TickRecords(c, layout, i, v)|
        ensures TickRecords(c, layout, i, v)[Slot(j, k, Sensors(c))]
             == TSRecord(NonAlignedTime(c.sensorNum, i, k), DeviceName(c, j), [MakePoint(c.dataType, SensorName(c, k), v)])
      {
        NonAlignedDeviceAt(c, i, v, j, k);
      }
    }
  }

  /** The records written during tick i, whose generated value is v: the
      device loop's output. TickRecordsShape states where each record sits. */
  function TickRecords<V>(c: Config, layout: Layout, i: nat, v: V): seq<TSRecord<V>> {
    Concat(0, Devices(c), DeviceLoop(c, layout, i, v))
  }

  function TickLoop<V>(c: Config, layout: Layout, gen: nat -> V): nat -> seq<TSRecord<V>> {
    (i: nat) => TickRecords(c, layout, i, gen(i))
  }

  /** `(i + 1) % (ptNum / 100)`, evaluated after every tick and then discarded:
      it throws exactly when ptNum / 100 truncates to zero. */
  function ProgressCheck(ptNum: int, i: nat): (r: Result<int>)
    ensures r.Err? <==> -100 < ptNum < 100
    ensures r.Err? ==> r.error == ArithmeticException
  {
    match Div(ptNum, 100)
    case Err(e) => Err(e)
    case Ok(d) => Rem(i + 1, d)
  }

  /** The tick loop from tick i on: the records it writes and how it ends. */
  function WriteTicks<V>(c: Config, layout: Layout, gen: nat -> V, i: nat): (r: (seq<TSRecord<V>>, Outcome))
    ensures r.1 == Closed || r.1 == Aborted(ArithmeticException)
    ensures r.1 == Closed <==> i >= c.ptNum || c.ptNum >= 100
    ensures r.1 == Closed ==> r.0 == Concat(i, Iterations(c.ptNum), TickLoop(c, layout, gen))
    ensures r.1 != Closed ==> r.0 == TickRecords(c, layout, i, gen(i))
    decreases Iterations(c.ptNum) - i
  {
    if i >= c.ptNum then ([], Closed)
    else
      var tick := TickRecords(c, layout, i, gen(i));
      match ProgressCheck(c.ptNum, i)
      case Err(e) => (tick, Aborted(e))
      case Ok(_) =>
        var rest := WriteTicks(c, layout, gen, i + 1);
        (tick + rest.0, rest.1)
  }

  /** One trial of gen (Aligned) or genNonalign (NonAligned). The run reaches
      writer.close() unless 0 < ptNum < 100, in which case the progress check
      divides by zero right after the records of tick 0. */
  function Generate<V>(c: Config, layout: Layout, gen: nat -> V): (t: Trial<V>)
    ensures t.registered == Registration(c)
    ensures t.outcome == Closed <==> !(0 < c.ptNum < 100)
    ensures t.outcome != Closed ==> t.outcome == Aborted(ArithmeticException) && t.written == TickRecords(c, layout, 0, gen(0))
    ensures t.outcome == Closed ==> t.written == Concat(0, Iterations(c.ptNum), TickLoop(c, layout, gen))
  {
    var r := WriteTicks(c, layout, gen, 0);
    Trial(Registration(c), r.0, r.1)
  }

  /** The number of ticks whose records reach the writer. */
  function TicksRun(c: Config, outcome: Outcome): nat {
    if outcome == Closed then Iterations(c.ptNum) else 1
  }

  /** A call the driver makes on the TsFileWriter. */
  datatype PortCall<V> = AddMeasurement(descriptor: MeasurementDescriptor) | Write(record: TSRecord<V>) | Close

  /** The calls in the order the driver makes them. */
  function PortCalls<V>(t: Trial<V>): seq<PortCall<V>> {
    seq(|t.registered|, k requires 0 <= k < |t.registered| => AddMeasurement(t.registered[k]))
    + seq(|t.written|, p requires 0 <= p < |t.written| => Write(t.written[p]))
    + (if t.outcome == Closed then [Close] else [])
  }
}
