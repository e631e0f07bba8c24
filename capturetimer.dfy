/** CaptureProcessInfo.cs and the timer handler `OnCaptureTimer` of
    Recorder.cs: every `interval` seconds the capture is checked, and killed
    when its time is up, its output file is missing, or the file grew too
    slowly since the last check. */
module CaptureTimer {
  import opened Common

  /** The rate of one check in KB/s: the growth in bytes divided by the
      interval in seconds and then by 1000, each truncating toward zero. */
  function SampleRate(fileLength: int, lastSize: int, interval: int): int
    requires interval > 0
  {
    TruncDiv(TruncDiv(fileLength - lastSize, interval), 1000)
  }

  /** Kill when the time is up; otherwise when the file is missing;
      otherwise when the sampled rate is at most the acceptable rate. */
  predicate KillDecision(now: int, timerDone: int, fileExists: bool, rate: int, acceptableRate: int) {
    now >= timerDone || !fileExists || rate <= acceptableRate
  }

  /** For a truncating quotient of non-negative numbers: `a / b < m` exactly
      when `a < m * b`. */
  lemma QuotientBelow(a: int, b: int, m: int)
    requires a >= 0 && b > 0 && m >= 0
    ensures TruncDiv(a, b) < m <==> a < m * b
  {
    var q := TruncDiv(a, b);
    if q < m {
      assert q + 1 <= m;
      assert (q + 1) * b <= m * b;
    } else {
      assert q * b >= m * b;
    }
  }

  /** The rate test as a byte count: for a file that did not shrink and a
      non-negative acceptable rate, the rate is too low exactly when the
      file grew by less than `(acceptableRate + 1) * 1000 * interval` bytes. */
  lemma SlowGrowthIff(fileLength: int, lastSize: int, interval: int, acceptableRate: int)
    requires interval > 0 && acceptableRate >= 0 && fileLength >= lastSize
    ensures SampleRate(fileLength, lastSize, interval) <= acceptableRate
            <==> fileLength - lastSize < (acceptableRate + 1) * 1000 * interval
  {
    var delta := fileLength - lastSize;
    var perSecond := TruncDiv(delta, interval);
    QuotientBelow(perSecond, 1000, acceptableRate + 1);
    QuotientBelow(delta, interval, (acceptableRate + 1) * 1000);
    assert (acceptableRate + 1) * 1000 * interval == ((acceptableRate + 1) * 1000) * interval;
  }

  /** A file that stopped growing, or shrank, always fails the rate test
      when the acceptable rate is not negative. */
  lemma StalledFileKilled(now: int, timerDone: int, fileLength: int, lastSize: int, interval: int, acceptableRate: int)
    requires interval > 0 && acceptableRate >= 0 && fileLength <= lastSize
    ensures KillDecision(now, timerDone, true, SampleRate(fileLength, lastSize, interval), acceptableRate)
  {
  }

  class CaptureProcessInfo {
    const acceptableRate: int
    const interval: int
    const timerDone: int
    var fileSize: int
    var avgKBytesSec: int

    /** The constructor: the size seen so far and the average start at 0.
        `interval` is the timer period in seconds (10 in `ExecProcess`). */
    constructor (acceptableRate: int, interval: int, timerDone: int)
      requires interval > 0
      ensures this.acceptableRate == acceptableRate && this.interval == interval && this.timerDone == timerDone
      ensures fileSize == 0 && avgKBytesSec == 0
    {
      this.acceptableRate := acceptableRate;
      this.interval := interval;
      this.timerDone := timerDone;
      fileSize := 0;
      avgKBytesSec := 0;
    }

    /** `OnCaptureTimer` at `now`, with the output file's existence and
      length and whether the process still runs (it exists and has not
      exited). A size sample is taken only when the time is not up and the
      file exists: the size is remembered and the rate folded into the
      average. Returns whether the process is killed. */
    method OnCaptureTimer(now: int, fileExists: bool, fileLength: int, processRunning: bool) returns (killed: bool)
      requires interval > 0
      modifies this
      ensures var sampled := now < timerDone && fileExists;
              var rate := SampleRate(fileLength, old(fileSize), interval);
              killed == (KillDecision(now, timerDone, fileExists, rate, acceptableRate) && processRunning) &&
              (sampled ==> fileSize == fileLength && avgKBytesSec == Avg(old(avgKBytesSec), rate)) &&
              (!sampled ==> fileSize == old(fileSize) && avgKBytesSec == old(avgKBytesSec))
    {
      var killProcess := false;
      if now >= timerDone {
        killProcess := true;
      }
      if !killProcess {
        if !fileExists {
          killProcess := true;
        } else {
          var kBytesSec := TruncDiv(TruncDiv(fileLength - fileSize, interval), 1000);
          if kBytesSec <= acceptableRate {
            killProcess := true;
          }
          fileSize := fileLength;
          avgKBytesSec := TruncDiv(avgKBytesSec + kBytesSec, 2);
        }
      }
      killed := killProcess && processRunning;
    }
  }
}
