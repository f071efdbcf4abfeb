/**
 The timestamp genNonalign gives the record of sensor k at tick i:
 `(long) ((i + 1) * sensorNum + k)`. The product and sum are evaluated in Java
 `int` arithmetic and only then widened, so they wrap once they pass
 Integer.MAX_VALUE. NonAlignedTimeAsWritten is that expression as written;
 NonAlignedTime is the evident intent, the same expression in `long`
 arithmetic, and it is the one the generator model uses.
 */
module Timestamps {
  import opened JavaSemantics
  import opened Blocks

  /** The intended timestamp: (i + 1) * sensorNum + k without wrap-around.
      The timestamps of tick i fill the window [(i + 1) * sensorNum,
      (i + 2) * sensorNum), so different ticks never share a timestamp. */
  function NonAlignedTime(sensorNum: int, i: nat, k: nat): (t: int)
    ensures k < sensorNum ==> (i + 1) * sensorNum <= t < (i + 2) * sensorNum
  {
    (i + 1) * sensorNum + k
  }

  /** Within one device, timestamps follow (tick, sensor) order
      lexicographically, so submission order and time order coincide. */
  lemma NonAlignedTimeOrder(sensorNum: int, i1: nat, k1: nat, i2: nat, k2: nat)
    requires k1 < sensorNum && k2 < sensorNum
    ensures NonAlignedTime(sensorNum, i1, k1) < NonAlignedTime(sensorNum, i2, k2)
        <==> i1 < i2 || (i1 == i2 && k1 < k2)
  {
    LexOrder(i1 + 1, k1, i2 + 1, k2, sensorNum);
  }

  /** The intended timestamps all fit in a Java `long` for every `int`
      configuration: no widening is needed beyond the cast the source makes. */
  lemma NonAlignedTimeFitsLong(sensorNum: int, i: nat, k: nat)
    requires IsInt(sensorNum) && i < INT_MAX && k < sensorNum
    ensures 0 <= NonAlignedTime(sensorNum, i, k) && IsLong(NonAlignedTime(sensorNum, i, k))
  {
    MulMonotone(i + 1, INT_MAX, sensorNum);
    MulMonotone(sensorNum, INT_MAX, INT_MAX);
  }

  /** The source's expression: computed in `int`, then cast to `long`. */
  function NonAlignedTimeAsWritten(sensorNum: int, i: nat, k: nat): (t: int)
    requires IsInt(sensorNum) && IsInt(i) && IsInt(k)
    ensures IsInt(t)
    ensures IsInt(NonAlignedTime(sensorNum, i, k)) ==> t == NonAlignedTime(sensorNum, i, k)
  {
    Wrap32(Wrap32(Wrap32(i + 1) * sensorNum) + k)
  }

  /** While the last timestamp of a run, ptNum * sensorNum + sensorNum - 1,
      fits in an `int`, the source's expression gives the intended value. */
  lemma AsWrittenAgreesWithoutOverflow(sensorNum: int, ptNum: int, i: nat, k: nat)
    requires IsInt(ptNum) && i < ptNum && 0 <= k < sensorNum
    requires ptNum * sensorNum + sensorNum - 1 <= INT_MAX
    ensures NonAlignedTimeAsWritten(sensorNum, i, k) == NonAlignedTime(sensorNum, i, k)
  {
    MulMonotone(i + 1, ptNum, sensorNum);
    var prod := (i + 1) * sensorNum;
    assert 0 <= prod <= INT_MAX;
    assert Wrap32(i + 1) == i + 1;
    assert Wrap32(prod) == prod;
    assert 0 <= prod + k <= INT_MAX;
  }

  /** With sensorNum = 100000 (a value of the commented-out sweep in the
      driver's main), two consecutive records of one device at tick 21473 get
      timestamps 2147483647 and then -2147483648: the time goes backwards. */
  lemma AsWrittenTimeWrapsBackwards()
    ensures NonAlignedTimeAsWritten(100000, 21473, 83647) == INT_MAX
    ensures NonAlignedTimeAsWritten(100000, 21473, 83648) == INT_MIN
    ensures NonAlignedTime(100000, 21473, 83648) == INT_MAX + 1
  {
  }
}
