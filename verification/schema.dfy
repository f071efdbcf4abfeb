/**
 The entities the benchmark driver hands to the TsFile writer: the run
 configuration, measurement descriptors, data points and records.
 */
module Schema {
  import Decimal

  /** The TSDataType constants the driver's switch builds a data point for. */
  datatype DataType = Double | Float | Int32 | Int64

  /** A TSEncoding constant; the driver passes it to the writer unchanged. */
  datatype Encoding = Encoding(name: string)

  /** A MeasurementDescriptor: one registered sensor column. */
  datatype MeasurementDescriptor = MeasurementDescriptor(measurementId: string, dataType: DataType, encoding: Encoding)

  /** One sensor reading of a record: a DoubleDataPoint, FloatDataPoint,
      IntDataPoint or LongDataPoint. `value` is the generator's output before
      the numeric cast each subclass applies. */
  datatype DataPoint<V> =
    | DoublePoint(measurementId: string, value: V)
    | FloatPoint(measurementId: string, value: V)
    | IntPoint(measurementId: string, value: V)
    | LongPoint(measurementId: string, value: V)
  {
    /** The data type the point's class stands for. */
    function Type(): DataType {
      match this
      case DoublePoint(_, _) => Double
      case FloatPoint(_, _) => Float
      case IntPoint(_, _) => Int32
      case LongPoint(_, _) => Int64
    }
  }

  /** A TSRecord: a timestamp, a device id and the points written with them. */
  datatype TSRecord<V> = TSRecord(time: int, deviceId: string, points: seq<DataPoint<V>>)

  /** The benchmark configuration: the counts are Java `int`s; the two prefixes
      are SENSOR_PREFIX and DEVICE_PREFIX of cons.Constants. */
  datatype Config = Config(
    ptNum: int,
    deviceNum: int,
    sensorNum: int,
    dataType: DataType,
    encoding: Encoding,
    sensorPrefix: string,
    devicePrefix: string)

  /** `SENSOR_PREFIX + k`: the prefix followed by the decimal digits of k,
      which read back as k. */
  function SensorName(c: Config, k: nat): (name: string)
    ensures |c.sensorPrefix| < |name| && name[..|c.sensorPrefix|] == c.sensorPrefix
    ensures Decimal.AllDigits(name[|c.sensorPrefix|..]) && Decimal.Value(name[|c.sensorPrefix|..]) == k
  {
    Decimal.ValueOfDigits(k);
    var name := c.sensorPrefix + Decimal.Digits(k);
    assert name[|c.sensorPrefix|..] == Decimal.Digits(k);
    name
  }

  /** `DEVICE_PREFIX + j`: the prefix followed by the decimal digits of j,
      which read back as j. */
  function DeviceName(c: Config, j: nat): (name: string)
    ensures |c.devicePrefix| < |name| && name[..|c.devicePrefix|] == c.devicePrefix
    ensures Decimal.AllDigits(name[|c.devicePrefix|..]) && Decimal.Value(name[|c.devicePrefix|..]) == j
  {
    Decimal.ValueOfDigits(j);
    var name := c.devicePrefix + Decimal.Digits(j);
    assert name[|c.devicePrefix|..] == Decimal.Digits(j);
    name
  }

  lemma SensorNamesDistinct(c: Config, k1: nat, k2: nat)
    ensures SensorName(c, k1) == SensorName(c, k2) <==> k1 == k2
  {
    Decimal.PrefixedInjective(c.sensorPrefix, k1, k2);
  }

  lemma DeviceNamesDistinct(c: Config, j1: nat, j2: nat)
    ensures DeviceName(c, j1) == DeviceName(c, j2) <==> j1 == j2
  {
    Decimal.PrefixedInjective(c.devicePrefix, j1, j2);
  }

  /** The switch on the configured data type: the point built is of the class
      that stands for that type, and carries the given sensor name and value. */
  function MakePoint<V>(t: DataType, measurementId: string, v: V): (p: DataPoint<V>)
    ensures p.Type() == t
    ensures p.measurementId == measurementId && p.value == v
  {
    match t
    case Double => DoublePoint(measurementId, v)
    case Float => FloatPoint(measurementId, v)
    case Int32 => IntPoint(measurementId, v)
    case Int64 => LongPoint(measurementId, v)
  }
}
