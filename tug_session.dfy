/**
 * The TUG session kept in the app's session state: the stopwatch
 * (running flag and start time), the three trial slots and the average and
 * status derived from them, with the Start, Stop, Reset and manual-edit
 * handlers that change them.
 *
 * The wall clock is the parameter `now` (seconds); a slot holding 0.0 is
 * "not yet measured".
 */
module TugSessionModel {
  import opened TugMath

  /** One of the three trial input boxes. */
  datatype Slot = First | Second | Third

  /** The position of a slot in the trial list. */
  function SlotIndex(slot: Slot): (i: nat)
    ensures i < 3
  {
    match slot
    case First => 0
    case Second => 1
    case Third => 2
  }

  class TugSession {
    var tugRunning: bool
    var startTime: real
    var t1: real
    var t2: real
    var t3: real
    var tugAvg: real
    var tugStatus: TugStatus

    /** The three trial slots in order. */
    function Trials(): seq<real>
      reads this
    {
      [t1, t2, t3]
    }

    /** The stored average and status are the ones the trials give. */
    ghost predicate Consistent()
      reads this
    {
      tugAvg == Average(Trials()) && tugStatus == Classify(Trials())
    }

    /** The session defaults: stopped, every slot empty, no result. */
    constructor ()
      ensures !tugRunning && startTime == 0.0
      ensures Trials() == [0.0, 0.0, 0.0]
      ensures tugAvg == 0.0 && tugStatus == Unset
      ensures Consistent()
    {
      tugRunning := false;
      startTime := 0.0;
      t1, t2, t3 := 0.0, 0.0, 0.0;
      tugAvg := 0.0;
      tugStatus := Unset;
    }

    /** Recompute the average of the positive trials and the status it gives. */
    method CalculateTug()
      modifies this`tugAvg, this`tugStatus
      ensures Consistent()
    {
      var times := Positives([t1, t2, t3]);
      if times != [] {
        var avg := Sum(times) / (|times| as real);
        tugAvg := avg;
        if avg >= FallRiskThreshold {
          tugStatus := HighFallRisk;
        } else {
          tugStatus := Normal;
        }
      } else {
        tugAvg := 0.0;
        tugStatus := Unset;
      }
    }

    /** The START button, offered only while the stopwatch is stopped. */
    method Start(now: real)
      requires !tugRunning
      modifies this`startTime, this`tugRunning
      ensures tugRunning && startTime == now
      ensures old(Consistent()) ==> Consistent()
    {
      startTime := now;
      tugRunning := true;
    }

    /**
     * The STOP button, offered only while the stopwatch runs: the elapsed
     * time goes into the first empty slot (or nowhere when all three are
     * taken), and the result is recomputed.
     */
    method Stop(now: real)
      requires tugRunning && now >= startTime
      modifies this`tugRunning, this`t1, this`t2, this`t3, this`tugAvg, this`tugStatus
      ensures !tugRunning
      ensures Trials() == FillFirstEmpty(old(Trials()), now - startTime)
      ensures Consistent()
    {
      tugRunning := false;
      var finalTime := now - startTime;
      if t1 == 0.0 {
        t1 := finalTime;
      } else if t2 == 0.0 {
        t2 := finalTime;
      } else if t3 == 0.0 {
        t3 := finalTime;
      }
      assert [old(t1), old(t2), old(t3)][1..] == [old(t2), old(t3)];
      assert [old(t2), old(t3)][1..] == [old(t3)];
      CalculateTug();
    }

    /** Typing a value into one of the trial boxes, which recomputes the result. */
    method EditTrial(slot: Slot, value: real)
      modifies this`t1, this`t2, this`t3, this`tugAvg, this`tugStatus
      ensures Trials() == old(Trials())[SlotIndex(slot) := value]
      ensures Consistent()
    {
      match slot {
        case First => t1 := value;
        case Second => t2 := value;
        case Third => t3 := value;
      }
      CalculateTug();
    }

    /** The clear-all button: every slot, the average and the status go back to empty. */
    method Reset()
      modifies this`t1, this`t2, this`t3, this`tugAvg, this`tugStatus
      ensures Trials() == [0.0, 0.0, 0.0]
      ensures tugAvg == 0.0 && tugStatus == Unset
      ensures Consistent()
    {
      t1 := 0.0;
      t2 := 0.0;
      t3 := 0.0;
      tugAvg := 0.0;
      tugStatus := Unset;
    }
  }

  /**
   * The session-state keys the TUG handlers assign to. The three trial keys
   * are also the keys of the three trial boxes.
   */
  datatype Key = TugRunningKey | StartTimeKey | T1Key | T2Key | T3Key | TugAvgKey | TugStatusKey

  /** The keys owned by the trial boxes once the boxes are drawn in a run. */
  const TrialBoxKeys: set<Key> := {T1Key, T2Key, T3Key}

  /**
   * Streamlit's rule for assignments to session state during a run: an
   * assignment to the key of a widget already drawn in that run raises an
   * error, which ends the run before any later assignment. The result is
   * the position of the first refused assignment, or |writes| when every
   * assignment goes through.
   */
  function FirstRefused(writes: seq<Key>, drawn: set<Key>): (k: nat)
    ensures k <= |writes|
    ensures forall j :: 0 <= j < k ==> writes[j] !in drawn
    ensures k < |writes| ==> writes[k] in drawn
  {
    if writes == [] then 0 else if writes[0] in drawn then 0 else 1 + FirstRefused(writes[1..], drawn)
  }

  /**
   * The assignments that take effect: those before the first refused one.
   * Neither a refused assignment nor anything after it changes the state.
   */
  function Accepted(writes: seq<Key>, drawn: set<Key>): (a: seq<Key>)
    ensures a == writes[..FirstRefused(writes, drawn)]
    ensures forall j :: 0 <= j < |a| ==> a[j] !in drawn
  {
    if writes == [] || writes[0] in drawn then []
    else
      var rest := Accepted(writes[1..], drawn);
      assert writes[1..][..FirstRefused(writes[1..], drawn)] == writes[1..1 + FirstRefused(writes[1..], drawn)];
      [writes[0]] + rest
  }

  /** The key of the trial slot at a given position. */
  function TrialKey(i: nat): (k: Key)
    requires i < 3
    ensures k in TrialBoxKeys
  {
    if i == 0 then T1Key else if i == 1 then T2Key else T3Key
  }

  /** The assignments of the clear-all handler, in order: the trials, then the result. */
  const ResetWrites: seq<Key> := [T1Key, T2Key, T3Key, TugAvgKey, TugStatusKey]

  /**
   * The assignments of the STOP handler for the trials ts it finds: the
   * running flag, then the first empty slot if there is one, then the result.
   */
  function StopWrites(ts: seq<real>): (w: seq<Key>)
    requires |ts| == 3
    ensures |w| == if FirstEmpty(ts) < 3 then 4 else 3
    ensures w[0] == TugRunningKey && w[|w| - 2..] == [TugAvgKey, TugStatusKey]
    ensures FirstEmpty(ts) < 3 ==> w[1] == TrialKey(FirstEmpty(ts))
    ensures forall j :: 0 <= j < |w| && w[j] in TrialBoxKeys ==> j == 1 && FirstEmpty(ts) < 3
  {
    [TugRunningKey] + (if FirstEmpty(ts) < 3 then [TrialKey(FirstEmpty(ts))] else []) + [TugAvgKey, TugStatusKey]
  }

  /**
   * The clear-all button as written: it is handled below the trial boxes,
   * so the boxes are already drawn when it assigns, and its very first
   * assignment (slot 1) is refused. No assignment takes effect.
   */
  lemma ResetAsWrittenIsRefused()
    ensures FirstRefused(ResetWrites, TrialBoxKeys) == 0
    ensures Accepted(ResetWrites, TrialBoxKeys) == []
  {
  }

  /**
   * The clear-all handler with its assignments made before the trial boxes
   * are drawn in the run (as a button callback is): every assignment takes
   * effect, which is the whole-state update TugSession.Reset states.
   */
  lemma ResetBeforeBoxesGoesThrough()
    ensures FirstRefused(ResetWrites, {}) == |ResetWrites|
    ensures Accepted(ResetWrites, {}) == ResetWrites
  {
  }

  /**
   * The STOP handler is drawn above the trial boxes, so in the run that
   * handles it no box is drawn yet and all its assignments take effect,
   * whether or not a slot was free. Made after the boxes, the same
   * assignments would stop at the slot, and only the running flag would
   * change; with every slot taken they would all go through.
   */
  lemma StopGoesThrough(ts: seq<real>)
    requires |ts| == 3
    ensures Accepted(StopWrites(ts), {}) == StopWrites(ts)
    ensures FirstEmpty(ts) < 3 ==> Accepted(StopWrites(ts), TrialBoxKeys) == [TugRunningKey]
    ensures FirstEmpty(ts) == 3 ==> Accepted(StopWrites(ts), TrialBoxKeys) == StopWrites(ts)
  {
    var w := StopWrites(ts);
    assert w[..|w|] == w;
    if FirstEmpty(ts) < 3 {
      assert w[..1] == [TugRunningKey];
    }
  }

  /**
   * Three timed runs of 12.1 s, 14.0 s and 13.0 s fill the slots in order
   * and average 13.033... s, below the cut-off; a fourth run changes nothing.
   */
  method ThreeTimedRuns()
  {
    SlotFillOrder(12.1, 14.0, 13.0, 20.0);
    var s := new TugSession();
    s.Start(100.0);
    s.Stop(112.1);
    assert s.Trials() == [12.1, 0.0, 0.0];
    s.Start(200.0);
    s.Stop(214.0);
    assert s.Trials() == [12.1, 14.0, 0.0];
    s.Start(300.0);
    s.Stop(313.0);
    assert s.Trials() == [12.1, 14.0, 13.0];
    ExampleRunsAreNormal();
    assert s.tugStatus == Normal;
    s.Start(400.0);
    s.Stop(420.0);
    assert s.Trials() == [12.1, 14.0, 13.0];
  }
}
