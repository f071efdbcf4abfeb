/**
 What the writer port receives, stated position by position: how many records
 a trial writes, which record sits where, that every device's timestamps rise
 in submission order, that every point names a registered measurement of the
 registered type, and that close is the last call exactly when no exception
 escaped.
 */
module GeneratorProperties {
  import opened JavaSemantics
  import opened Blocks
  import opened Schema
  import opened Timestamps
  import opened Generator

  lemma TickUniform<V>(c: Config, layout: Layout, gen: nat -> V, n: nat)
    ensures Uniform(0, n, TickLoop(c, layout, gen), RecordsPerTick(c, layout))
  {
    forall i | 0 <= i < n
      ensures |TickLoop(c, layout, gen)(i)| == RecordsPerTick(c, layout)
    {
      var body := DeviceLoop(c, layout, i, gen(i));
      assert Uniform(0, Devices(c), body, RecordsPerDevice(c, layout));
      ConcatLength(0, Devices(c), body, RecordsPerDevice(c, layout));
    }
  }

  /** Whatever the outcome, the trial's records are those of its first
      TicksRun ticks, in tick order. */
  lemma WrittenTicks<V>(c: Config, layout: Layout, gen: nat -> V, t: Trial<V>)
    requires t == Generate(c, layout, gen)
    ensures TicksRun(c, t.outcome) <= Iterations(c.ptNum)
    ensures t.written == Concat(0, TicksRun(c, t.outcome), TickLoop(c, layout, gen))
  {
    if t.outcome != Closed {
      assert Concat(1, 1, TickLoop(c, layout, gen)) == [];
      assert Concat(0, 1, TickLoop(c, layout, gen)) == TickRecords(c, layout, 0, gen(0)) + [];
    }
  }

  /** The number of records written: RecordsPerTick (deviceNum aligned,
      deviceNum * sensorNum non-aligned) for each of the ptNum ticks on the
      success path, for tick 0 only when the progress check throws, and none at
      all (with close still reached) when ptNum <= 0. */
  lemma WrittenCount<V>(c: Config, layout: Layout, gen: nat -> V, t: Trial<V>)
    requires t == Generate(c, layout, gen)
    ensures t.outcome == Closed ==> |t.written| == Iterations(c.ptNum) * RecordsPerTick(c, layout)
    ensures t.outcome != Closed ==> |t.written| == RecordsPerTick(c, layout)
    ensures c.ptNum <= 0 ==> t.outcome == Closed && t.written == []
  {
    WrittenTicks(c, layout, gen, t);
    TickUniform(c, layout, gen, TicksRun(c, t.outcome));
    ConcatLength(0, TicksRun(c, t.outcome), TickLoop(c, layout, gen), RecordsPerTick(c, layout));
  }

  /** Record r of a non-aligned tick is sensor k of device j, r == Slot(j, k, S). */
  lemma NonAlignedTickAt<V>(c: Config, i: nat, v: V, r: nat) returns (j: nat, k: nat)
    requires r < |TickRecords(c, NonAligned, i, v)|
    ensures j < Devices(c) && k < Sensors(c) && r == Slot(j, k, Sensors(c))
    ensures TickRecords(c, NonAligned, i, v)[r]
         == TSRecord(NonAlignedTime(c.sensorNum, i, k), DeviceName(c, j), [MakePoint(c.dataType, SensorName(c, k), v)])
  {
    var body := DeviceLoop(c, NonAligned, i, v);
    assert Uniform(0, Devices(c), body, Sensors(c));
    j, k := ConcatSplit(0, Devices(c), body, Sensors(c), r);
    assert body(j) == DeviceRecords(c, NonAligned, i, j, v);
  }

  /** Position p of the trial is record r of tick i, p == Slot(i, r, B) where
      B = RecordsPerTick. */
  lemma TrialAt<V>(c: Config, layout: Layout, gen: nat -> V, t: Trial<V>, p: nat) returns (i: nat, r: nat)
    requires t == Generate(c, layout, gen) && p < |t.written|
    ensures i < TicksRun(c, t.outcome) && r < RecordsPerTick(c, layout)
    ensures p == Slot(i, r, RecordsPerTick(c, layout))
    ensures r < |TickRecords(c, layout, i, gen(i))| && t.written[p] == TickRecords(c, layout, i, gen(i))[r]
  {
    var n, B := TicksRun(c, t.outcome), RecordsPerTick(c, layout);
    var body := TickLoop(c, layout, gen);
    WrittenTicks(c, layout, gen, t);
    TickUniform(c, layout, gen, n);
    i, r := ConcatSplit(0, n, body, B, p);
    assert body(i) == TickRecords(c, layout, i, gen(i));
  }

  /** Where gen writes the record of device j at tick i. */
  function AlignedPosition(c: Config, i: nat, j: nat): nat {
    Slot(i, j, Devices(c))
  }

  /** gen: tick-major, device-minor order; the record of device j at tick i
      has timestamp i + 1, whatever the device, and carries every sensor with
      the value generated for tick i. */
  lemma AlignedRecordAt<V>(c: Config, gen: nat -> V, t: Trial<V>, i: nat, j: nat)
    requires t == Generate(c, Aligned, gen)
    requires i < TicksRun(c, t.outcome) && j < Devices(c)
    ensures AlignedPosition(c, i, j) < |t.written|
    ensures t.written[AlignedPosition(c, i, j)] == TSRecord(i + 1, DeviceName(c, j), AlignedPoints(c, gen(i)))
  {
    var n := TicksRun(c, t.outcome);
    WrittenTicks(c, Aligned, gen, t);
    TickUniform(c, Aligned, gen, n);
    ConcatIndex(0, n, TickLoop(c, Aligned, gen), Devices(c), i, j);
    AlignedDeviceAt(c, i, gen(i), j);
  }

  lemma AlignedSchedule<V>(c: Config, gen: nat -> V, t: Trial<V>)
    requires t == Generate(c, Aligned, gen)
    ensures forall i, j :: 0 <= i < TicksRun(c, t.outcome) && 0 <= j < Devices(c) ==>
      AlignedPosition(c, i, j) < |t.written| &&
      t.written[AlignedPosition(c, i, j)] == TSRecord(i + 1, DeviceName(c, j), AlignedPoints(c, gen(i)))
  {
    forall i, j | 0 <= i < TicksRun(c, t.outcome) && 0 <= j < Devices(c) {
      AlignedRecordAt(c, gen, t, i, j);
    }
  }

  /** Where genNonalign writes the record of sensor k of device j at tick i. */
  function NonAlignedPosition(c: Config, i: nat, j: nat, k: nat): nat {
    Slot(i, Slot(j, k, Sensors(c)), Devices(c) * Sensors(c))
  }

  lemma NonAlignedRecordAt<V>(c: Config, gen: nat -> V, t: Trial<V>, i: nat, j: nat, k: nat)
    requires t == Generate(c, NonAligned, gen)
    requires i < TicksRun(c, t.outcome) && j < Devices(c) && k < Sensors(c)
    ensures NonAlignedPosition(c, i, j, k) < |t.written|
    ensures t.written[NonAlignedPosition(c, i, j, k)]
        == TSRecord(NonAlignedTime(c.sensorNum, i, k), DeviceName(c, j), [MakePoint(c.dataType, SensorName(c, k), gen(i))])
  {
    var n, D, S := TicksRun(c, t.outcome), Devices(c), Sensors(c);
    var body := TickLoop(c, NonAligned, gen);
    WrittenTicks(c, NonAligned, gen, t);
    TickUniform(c, NonAligned, gen, n);
    var r := Slot(j, k, S);
    LexOrder(j, k, D, 0, S);
    assert r < D * S;
    ConcatIndex(0, n, body, D * S, i, r);
    assert t.written[Slot(i, r, D * S)] == TickRecords(c, NonAligned, i, gen(i))[r];
    var j', k' := NonAlignedTickAt(c, i, gen(i), r);
    LexOrder(j, k, j', k', S);
    LexOrder(j', k', j, k, S);
    assert j == j' && k == k';
  }

  /** genNonalign: order (tick, device, sensor); the record of sensor k of
      device j at tick i has timestamp (i + 1) * sensorNum + k, whatever the
      device, and carries that one sensor with the value generated for tick i. */
  lemma NonAlignedSchedule<V>(c: Config, gen: nat -> V, t: Trial<V>)
    requires t == Generate(c, NonAligned, gen)
    ensures forall i, j, k :: 0 <= i < TicksRun(c, t.outcome) && 0 <= j < Devices(c) && 0 <= k < Sensors(c) ==>
      NonAlignedPosition(c, i, j, k) < |t.written| &&
      t.written[NonAlignedPosition(c, i, j, k)]
        == TSRecord(NonAlignedTime(c.sensorNum, i, k), DeviceName(c, j), [MakePoint(c.dataType, SensorName(c, k), gen(i))])
  {
    forall i, j, k | 0 <= i < TicksRun(c, t.outcome) && 0 <= j < Devices(c) && 0 <= k < Sensors(c) {
      NonAlignedRecordAt(c, gen, t, i, j, k);
    }
  }

  /** For each device, timestamps strictly increase in submission order. */
  ghost predicate IncreasingPerDevice<V>(rs: seq<TSRecord<V>>) {
    forall p, q :: 0 <= p < q < |rs| && rs[p].deviceId == rs[q].deviceId ==> rs[p].time < rs[q].time
  }

  lemma AlignedIncreasing<V>(c: Config, gen: nat -> V, t: Trial<V>, p: nat, q: nat)
    requires t == Generate(c, Aligned, gen) && p < q < |t.written|
    requires t.written[p].deviceId == t.written[q].deviceId
    ensures t.written[p].time < t.written[q].time
  {
    var D := Devices(c);
    assert RecordsPerTick(c, Aligned) == D;
    var i1, j1 := TrialAt(c, Aligned, gen, t, p);
    var i2, j2 := TrialAt(c, Aligned, gen, t, q);
    AlignedDeviceAt(c, i1, gen(i1), j1);
    AlignedDeviceAt(c, i2, gen(i2), j2);
    assert t.written[p].time == i1 + 1 && t.written[q].time == i2 + 1;
    DeviceNamesDistinct(c, j1, j2);
    assert j1 == j2;
    LexOrder(i1, j1, i2, j2, D);
  }

  lemma NonAlignedIncreasing<V>(c: Config, gen: nat -> V, t: Trial<V>, p: nat, q: nat)
    requires t == Generate(c, NonAligned, gen) && p < q < |t.written|
    requires t.written[p].deviceId == t.written[q].deviceId
    ensures t.written[p].time < t.written[q].time
  {
    var B, S := RecordsPerTick(c, NonAligned), Sensors(c);
    var i1, r1 := TrialAt(c, NonAligned, gen, t, p);
    var i2, r2 := TrialAt(c, NonAligned, gen, t, q);
    var j1, k1 := NonAlignedTickAt(c, i1, gen(i1), r1);
    var j2, k2 := NonAlignedTickAt(c, i2, gen(i2), r2);
    DeviceNamesDistinct(c, j1, j2);
    LexOrder(i1, r1, i2, r2, B);
    LexOrder(j1, k1, j2, k2, S);
    NonAlignedTimeOrder(c.sensorNum, i1, k1, i2, k2);
  }

  /** Both layouts: the records of any one device reach the writer with
      strictly increasing timestamps. */
  lemma TimesIncreasePerDevice<V>(c: Config, layout: Layout, gen: nat -> V)
    ensures IncreasingPerDevice(Generate(c, layout, gen).written)
  {
    var t := Generate(c, layout, gen);
    forall p, q | 0 <= p < q < |t.written| && t.written[p].deviceId == t.written[q].deviceId
      ensures t.written[p].time < t.written[q].time
    {
      match layout
      case Aligned => AlignedIncreasing(c, gen, t, p, q);
      case NonAligned => NonAlignedIncreasing(c, gen, t, p, q);
    }
  }

  /** The point names a registered measurement, registered with the point's type. */
  ghost predicate Conforms<V>(ms: seq<MeasurementDescriptor>, pt: DataPoint<V>) {
    exists k :: 0 <= k < |ms| && ms[k].measurementId == pt.measurementId && ms[k].dataType == pt.Type()
  }

  /** Every point of every written record is a measurement initWriter
      registered, with the registered type, and no record names a sensor twice. */
  lemma WritesConformToRegistration<V>(c: Config, layout: Layout, gen: nat -> V, t: Trial<V>)
    requires t == Generate(c, layout, gen)
    ensures forall p, q :: 0 <= p < |t.written| && 0 <= q < |t.written[p].points| ==>
      Conforms(t.registered, t.written[p].points[q])
    ensures forall p, q1, q2 :: 0 <= p < |t.written| && 0 <= q1 < q2 < |t.written[p].points| ==>
      t.written[p].points[q1].measurementId != t.written[p].points[q2].measurementId
  {
    var B, S := RecordsPerTick(c, layout), Sensors(c);
    forall p | 0 <= p < |t.written|
      ensures forall q :: 0 <= q < |t.written[p].points| ==> Conforms(t.registered, t.written[p].points[q])
      ensures forall q1, q2 :: 0 <= q1 < q2 < |t.written[p].points| ==>
        t.written[p].points[q1].measurementId != t.written[p].points[q2].measurementId
    {
      var i, r := TrialAt(c, layout, gen, t, p);
      match layout {
        case Aligned =>
          AlignedDeviceAt(c, i, gen(i), r);
          forall q | 0 <= q < |t.written[p].points|
            ensures Conforms(t.registered, t.written[p].points[q])
          {
            assert t.registered[q].measurementId == t.written[p].points[q].measurementId;
          }
        case NonAligned =>
          var j, k := NonAlignedTickAt(c, i, gen(i), r);
          assert t.registered[k].measurementId == t.written[p].points[0].measurementId;
      }
    }
  }

  /** The driver's calls on the writer. The order (every registration, then
      every write, then close at most once and last) follows from the way
      PortCalls lists them; what the lemma adds is that close is reached
      exactly when ptNum is not in 1..99, i.e. when no exception escaped. */
  lemma CloseOnceAfterLastWrite<V>(c: Config, layout: Layout, gen: nat -> V, t: Trial<V>)
    requires t == Generate(c, layout, gen)
    ensures var calls := PortCalls(t);
      && (forall p :: 0 <= p < |calls| && calls[p] == Close ==> p == |calls| - 1)
      && (|calls| > 0 && calls[|calls| - 1] == Close <==> !(0 < c.ptNum < 100))
      && (forall p, q :: 0 <= p < |calls| && 0 <= q < |calls| && calls[p].AddMeasurement? && !calls[q].AddMeasurement? ==> p < q)
  {
  }

  /** The configuration {deviceNum = 2, sensorNum = 2, ptNum = 3} in aligned
      mode: since 3 / 100 == 0 the progress check throws after tick 0, so only
      2 records are written, both at time 1. */
  lemma ThreePointAligned<V>(c: Config, gen: nat -> V, t: Trial<V>)
    requires c.ptNum == 3 && c.deviceNum == 2 && c.sensorNum == 2
    requires t == Generate(c, Aligned, gen)
    ensures t.outcome == Aborted(ArithmeticException)
    ensures |t.written| == 2 && t.written[0].time == 1 && t.written[1].time == 1
  {
    assert TicksRun(c, t.outcome) == 1;
    WrittenCount(c, Aligned, gen, t);
    AlignedRecordAt(c, gen, t, 0, 0);
    AlignedRecordAt(c, gen, t, 0, 1);
    assert AlignedPosition(c, 0, 0) == 0 && AlignedPosition(c, 0, 1) == 1;
  }

  /** The same configuration in non-aligned mode: 4 records, at times 2, 3, 2, 3. */
  lemma ThreePointNonAligned<V>(c: Config, gen: nat -> V, t: Trial<V>)
    requires c.ptNum == 3 && c.deviceNum == 2 && c.sensorNum == 2
    requires t == Generate(c, NonAligned, gen)
    ensures t.outcome == Aborted(ArithmeticException)
    ensures |t.written| == 4
    ensures forall p :: 0 <= p < 4 ==> t.written[p].time == 2 + p % 2
  {
    assert TicksRun(c, t.outcome) == 1;
    WrittenCount(c, NonAligned, gen, t);
    forall p | 0 <= p < 4
      ensures t.written[p].time == 2 + p % 2
    {
      var j, k := p / 2, p % 2;
      NonAlignedRecordAt(c, gen, t, 0, j, k);
      assert NonAlignedPosition(c, 0, j, k) == p;
    }
  }
}
