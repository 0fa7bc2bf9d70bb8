// The bounded busy-wait loops of fftNau.c: calibrateAFE's wait for the
// calibration bit to clear, and the two waits in readNau for a status bit
// to read 1 (power-up ready, and conversion data ready).  The device sets
// and clears these bits on its own, so the model takes the value the bit
// shows at each successive poll as an input stream; `delay` is not modelled.

module Polling {

  /** The reading of a status bit at poll 0, 1, 2, ... */
  type Status = nat -> bool

  /** The first poll in [from, bound) whose reading is `want`, or `bound` if there is none. */
  function FirstMatch(status: Status, want: bool, from: nat, bound: nat): (k: nat)
    requires from <= bound
    ensures from <= k <= bound
    ensures forall j :: from <= j < k ==> status(j) != want
    ensures k < bound ==> status(k) == want
    decreases bound - from
  {
    if from == bound then bound
    else if status(from) == want then from
    else FirstMatch(status, want, from + 1, bound)
  }

  // ---------------------------------------------------------------------
  // calibrateAFE: at most 10000 delays for the calibration bit to clear.

  const CalibrationLimit: nat := 10000

  /** The poll at which the calibration bit is first seen clear, or CalibrationLimit + 1. */
  function CalibrationDone(status: Status): nat
  {
    FirstMatch(status, false, 0, CalibrationLimit + 1)
  }

  /** What calibrateAFE returns: the number of delays before the bit cleared, or 1 on timeout. */
  function CalibrationCount(status: Status): (count: int)
    ensures 0 <= count <= CalibrationLimit
    ensures CalibrationDone(status) <= CalibrationLimit ==> !status(count)
    ensures CalibrationDone(status) <= CalibrationLimit ==> forall j :: 0 <= j < count ==> status(j)
    ensures CalibrationDone(status) > CalibrationLimit ==> count == 1
  {
    var k := CalibrationDone(status);
    if k <= CalibrationLimit then k else 1
  }

  /** How many times calibrateAFE reads the calibration bit. */
  function CalibrationPolls(status: Status): (polls: nat)
    ensures 1 <= polls <= CalibrationLimit + 1
    ensures CalibrationDone(status) <= CalibrationLimit ==> polls == CalibrationDone(status) + 1
    ensures CalibrationDone(status) > CalibrationLimit ==> polls == CalibrationLimit + 1
  {
    var k := CalibrationDone(status);
    if k <= CalibrationLimit then k + 1 else CalibrationLimit + 1
  }

  /** The polling loop of calibrateAFE, after it has set the calibration start bit. */
  method CalibrationWait(status: Status) returns (count: int, ghost polls: nat)
    ensures count == CalibrationCount(status)
    ensures polls == CalibrationPolls(status)
  {
    count := 0;
    polls := 0;
    while true
      invariant 0 <= count <= CalibrationLimit
      invariant polls == count
      invariant forall j :: 0 <= j < count ==> status(j)
      decreases CalibrationLimit - count
    {
      polls := polls + 1;
      if !status(count) {
        break;
      }
      count := count + 1;
      if count > CalibrationLimit {
        count := 1;
        return;
      }
    }
  }

  /**
   * The result 1 does not tell a timeout from a calibration that finished
   * after one delay: both streams below make calibrateAFE return 1.
   */
  lemma CalibrationOneIsAmbiguous()
    ensures var finishedAfterOneDelay: Status := j => j == 0;
      CalibrationCount(finishedAfterOneDelay) == 1 && CalibrationPolls(finishedAfterOneDelay) == 2
    ensures var neverFinished: Status := j => true;
      CalibrationCount(neverFinished) == 1 && CalibrationPolls(neverFinished) == CalibrationLimit + 1
  {
    var s1: Status := j => j == 0;
    var k1 := CalibrationDone(s1);
    assert k1 != 0;
    assert !s1(1);
    assert k1 <= 1;
    var s2: Status := j => true;
    assert CalibrationDone(s2) == CalibrationLimit + 1;
  }

  // ---------------------------------------------------------------------
  // readNau's waits: `if (bit == 1) break; if (counter++ > limit) break;`

  /** The result of one wait: polls made, the final counter, and whether the timeout fired. */
  datatype Wait = Wait(polls: nat, counter: int, timedOut: bool)

  /** The poll after which `counter++ > limit` fires, counting polls from 0. */
  function TimeoutPoll(counter0: int, limit: int): nat
  {
    if counter0 > limit then 0 else limit + 1 - counter0
  }

  /** The outcome of a wait for a status bit to read 1 that starts with `counter0`. */
  function BitWait(status: Status, counter0: int, limit: int): (w: Wait)
    ensures 1 <= w.polls <= TimeoutPoll(counter0, limit) + 1
    ensures forall j :: 0 <= j < w.polls - 1 ==> !status(j)
    ensures !w.timedOut ==> status(w.polls - 1) && w.counter == counter0 + w.polls - 1
    ensures w.timedOut ==> !status(w.polls - 1) && w.polls == TimeoutPoll(counter0, limit) + 1
    ensures w.timedOut ==> w.counter == counter0 + w.polls && w.counter == limit + 2 + (if counter0 > limit then counter0 - limit - 1 else 0)
  {
    var t := TimeoutPoll(counter0, limit);
    var k := FirstMatch(status, true, 0, t + 1);
    if k <= t then Wait(k + 1, counter0 + k, false) else Wait(t + 1, counter0 + t + 1, true)
  }

  /**
   * The loop shape shared by readNau's power-up wait and data-ready wait:
   * poll the bit, stop on 1, otherwise test-and-increment the counter and
   * stop once the test fires.  `timedOut` is the branch that prints an error.
   */
  method WaitForBit(status: Status, counter0: int, limit: int)
      returns (counter: int, timedOut: bool, ghost polls: nat)
    ensures counter == BitWait(status, counter0, limit).counter
    ensures timedOut == BitWait(status, counter0, limit).timedOut
    ensures polls == BitWait(status, counter0, limit).polls
  {
    counter := counter0;
    polls := 0;
    timedOut := false;
    while true
      invariant counter == counter0 + polls
      invariant polls <= TimeoutPoll(counter0, limit)
      invariant forall j :: 0 <= j < polls ==> !status(j)
      decreases TimeoutPoll(counter0, limit) - polls
    {
      var ready := status(counter - counter0);
      polls := polls + 1;
      if ready {
        break;
      }
      var fired := counter > limit;
      counter := counter + 1;
      if fired {
        timedOut := true;
        break;
      }
    }
  }

  const PowerUpLimit: int := 100
  const DataReadyLimit: int := 10000

  /** The power-up wait gives up after at most 102 polls, leaving the counter at 102. */
  lemma PowerUpWaitBound(status: Status)
    ensures BitWait(status, 0, PowerUpLimit).polls <= 102
    ensures BitWait(status, 0, PowerUpLimit).counter <= 102
    ensures BitWait(status, 0, PowerUpLimit).timedOut ==>
      BitWait(status, 0, PowerUpLimit).polls == 102 && BitWait(status, 0, PowerUpLimit).counter == 102
    ensures !BitWait(status, 0, PowerUpLimit).timedOut <==> exists j :: 0 <= j < 102 && status(j)
  {
    var w := BitWait(status, 0, PowerUpLimit);
    if !w.timedOut {
      assert status(w.polls - 1);
    } else {
      assert forall j :: 0 <= j < 102 ==> !status(j);
    }
  }

  /**
   * A data-ready wait that starts from a counter value c in [0, 10001] polls
   * at most 10002 - c times; starting from 0, as every sample after
   * the first does, that is 10002.
   */
  lemma DataReadyWaitBound(status: Status, counter0: int)
    requires 0 <= counter0 <= DataReadyLimit + 1
    ensures BitWait(status, counter0, DataReadyLimit).polls <= DataReadyLimit + 2 - counter0
    ensures !BitWait(status, counter0, DataReadyLimit).timedOut <==>
      exists j :: 0 <= j < DataReadyLimit + 2 - counter0 && status(j)
  {
    var w := BitWait(status, counter0, DataReadyLimit);
    if !w.timedOut {
      assert status(w.polls - 1);
    } else {
      assert forall j :: 0 <= j < DataReadyLimit + 2 - counter0 ==> !status(j);
    }
  }
}
