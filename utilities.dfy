/**
 * The numeric helpers of singa_easy/modules/mod_modelslicing/utils/utilities.py:
 * the seconds to hours, minutes and seconds conversion of `timeSince`, and the
 * running average kept by `AverageMeter`.
 */
module Utilities {

  /** The three numbers `timeSince` formats as `'%dh %dm %ds'`. */
  datatype Hms = Hms(hours: int, minutes: int, seconds: int)

  /**
   * `timeSince(s=s)`: whole minutes and the remaining seconds, then whole hours
   * and the remaining minutes. Python's floor division and `%` agree with
   * Dafny's for the positive divisor 60, negative `s` included.
   */
  function TimeSince(s: int): (r: Hms)
    ensures r.hours * 3600 + r.minutes * 60 + r.seconds == s
    ensures 0 <= r.minutes < 60 && 0 <= r.seconds < 60
  {
    var m := s / 60;
    var sec := s % 60;
    var h := m / 60;
    Hms(h, m % 60, sec)
  }

  /** The hours are the whole hours in `s`. */
  lemma HoursAreWholeHours(s: int)
    ensures TimeSince(s).hours == s / 3600
  {
  }

  /** One call `update(val, n)`. */
  datatype Sample = Sample(val: real, n: real)

  /** The sum of `val * n` over the samples. */
  function WeightedSum(h: seq<Sample>): real
  {
    if h == [] then 0.0 else h[0].val * h[0].n + WeightedSum(h[1..])
  }

  /** The sum of `n` over the samples. */
  function TotalCount(h: seq<Sample>): real
  {
    if h == [] then 0.0 else h[0].n + TotalCount(h[1..])
  }

  lemma {:induction false} WeightedSumAppend(h: seq<Sample>, x: Sample)
    ensures WeightedSum(h + [x]) == WeightedSum(h) + x.val * x.n
  {
    if h != [] {
      assert (h + [x])[1..] == h[1..] + [x];
      WeightedSumAppend(h[1..], x);
    }
  }

  lemma {:induction false} TotalCountAppend(h: seq<Sample>, x: Sample)
    ensures TotalCount(h + [x]) == TotalCount(h) + x.n
  {
    if h != [] {
      assert (h + [x])[1..] == h[1..] + [x];
      TotalCountAppend(h[1..], x);
    }
  }

  /** The latest value and the running weighted mean of the updates since the last reset. */
  class AverageMeter {
    var val: real
    var avg: real
    var sum: real
    var count: real
    /** The updates since the last reset. */
    ghost var history: seq<Sample>

    /**
     * `sum` and `count` total the updates since the last reset, `val` is the
     * latest value (0 after a reset) and `avg` is `sum / count` whenever the
     * count is not zero.
     */
    ghost predicate Valid()
      reads this
    {
      && sum == WeightedSum(history)
      && count == TotalCount(history)
      && val == (if history == [] then 0.0 else history[|history| - 1].val)
      && (count != 0.0 ==> avg == sum / count)
    }

    constructor ()
      ensures Valid() && history == []
      ensures val == 0.0 && avg == 0.0 && sum == 0.0 && count == 0.0
    {
      new;
      Reset();
    }

    method Reset()
      modifies this
      ensures Valid() && history == []
      ensures val == 0.0 && avg == 0.0 && sum == 0.0 && count == 0.0
    {
      val := 0.0;
      avg := 0.0;
      sum := 0.0;
      count := 0.0;
      history := [];
    }

    /**
     * `update(val, n=1)`. When the new count is zero the division raises
     * `ZeroDivisionError`: `ok` is false, and `val`, `sum` and `count` have
     * already been updated while `avg` keeps its old value.
     */
    method Update(v: real, n: real := 1.0) returns (ok: bool)
      requires Valid()
      modifies this
      ensures Valid()
      ensures history == old(history) + [Sample(v, n)]
      ensures val == v && sum == old(sum) + v * n && count == old(count) + n
      ensures ok <==> count != 0.0
      ensures ok ==> avg == WeightedSum(history) / TotalCount(history)
      ensures !ok ==> avg == old(avg)
    {
      val := v;
      sum := sum + v * n;
      count := count + n;
      WeightedSumAppend(history, Sample(v, n));
      TotalCountAppend(history, Sample(v, n));
      history := history + [Sample(v, n)];
      if count == 0.0 {
        return false;
      }
      avg := sum / count;
      return true;
    }
  }
}
