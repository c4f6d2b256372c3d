/**
 * The adaptive target engine: starting targets from goal and level, the
 * history lookup of the last logged performance of an exercise, and the
 * progressive-overload / deload adjustment keyed on the reported effort.
 */
module Trainer {
  import opened Wrappers
  import opened Exercises
  import opened Model

  /** Starting set count and primary value (reps or seconds). */
  datatype Start = Start(sets: int, val1: real)

  /** Targets for one slot. */
  datatype Targets = Targets(sets: int, val1: real, val2: real, tip: Option<string>)

  const TipInc: string := "tip.inc"
  const TipDec: string := "tip.dec"

  /** `getStartParams`. */
  function StartParams(goal: Goal, level: Level, mode: Mode): (r: Start)
    ensures r.sets in {2, 3, 4} && r.val1 > 0.0
    ensures r.sets == 2 <==> level == Beginner
    ensures r.sets == 4 <==> level == Advanced
    ensures mode == Time ==> (r.val1 == 60.0 <==> goal == Endurance) && (r.val1 == 45.0 <==> goal != Endurance)
    ensures mode != Time ==> r.val1 in {5.0, 10.0, 15.0}
    ensures mode != Time ==> (r.val1 == 5.0 <==> goal == Strength) && (r.val1 == 15.0 <==> goal == Endurance)
  {
    var sets := if level == Beginner then 2 else if level == Advanced then 4 else 3;
    var val1 :=
      if mode == Time then (if goal == Endurance then 60.0 else 45.0)
      else if goal == Strength then 5.0
      else if goal == Endurance then 15.0
      else 10.0;
    Start(sets, val1)
  }

  /** `routine.find(e => e.id === id)`: the first slot of a session with that id. */
  function FindRow(routine: seq<Slot>, id: string): (r: Option<Slot>)
    ensures r.None? <==> forall i :: 0 <= i < |routine| ==> routine[i].id != id
    ensures r.Some? ==> r.value.id == id && r.value in routine
  {
    if routine == [] then None
    else if routine[0].id == id then Some(routine[0])
    else FindRow(routine[1..], id)
  }

  /** The row found is the one at the first index holding the id. */
  lemma {:induction false} FindRowFirst(routine: seq<Slot>, id: string, k: nat)
    requires k < |routine| && routine[k].id == id
    requires forall j :: 0 <= j < k ==> routine[j].id != id
    ensures FindRow(routine, id) == Some(routine[k])
  {
    if k > 0 {
      FindRowFirst(routine[1..], id, k - 1);
    }
  }

  /**
   * `Store.lastLog`: scanning sessions newest first, the first row with that id
   * in the newest session that has one; `None` when no session has one.
   */
  function LastLog(history: seq<Session>, id: string): (r: Option<Slot>)
    ensures r.None? <==> forall i :: 0 <= i < |history| ==> FindRow(history[i].routine, id).None?
    ensures r.Some? ==> r.value.id == id
    decreases |history|
  {
    if history == [] then None
    else
      var found := FindRow(history[|history| - 1].routine, id);
      if found.Some? then found
      else
        var older := history[..|history| - 1];
        assert forall i :: 0 <= i < |older| ==> older[i] == history[i];
        LastLog(older, id)
  }

  /**
   * The row `LastLog` returns comes from the newest session that holds the id:
   * it is that session's first row with the id, and no later session has one.
   */
  lemma {:induction false} LastLogNewest(history: seq<Session>, id: string)
    requires LastLog(history, id).Some?
    ensures exists i :: 0 <= i < |history| && FindRow(history[i].routine, id) == LastLog(history, id)
                        && forall j :: i < j < |history| ==> FindRow(history[j].routine, id).None?
    decreases |history|
  {
    var n := |history| - 1;
    var found := FindRow(history[n].routine, id);
    if found.Some? {
      assert found == LastLog(history, id);
    } else {
      var older := history[..n];
      LastLogSkip(history, id);
      LastLogNewest(older, id);
      var i :| 0 <= i < |older| && FindRow(older[i].routine, id) == LastLog(older, id)
               && forall j :: i < j < |older| ==> FindRow(older[j].routine, id).None?;
      NoneAfter(history, older, id, i);
      assert older[i] == history[i];
    }
  }

  /** Without the id in the newest session, the lookup is that of the older sessions. */
  lemma LastLogSkip(history: seq<Session>, id: string)
    requires history != [] && FindRow(history[|history| - 1].routine, id).None?
    ensures LastLog(history, id) == LastLog(history[..|history| - 1], id)
  {
  }

  /** Extending the "no later session has the id" fact past a newest session without it. */
  lemma NoneAfter(history: seq<Session>, older: seq<Session>, id: string, i: int)
    requires history != [] && older == history[..|history| - 1]
    requires 0 <= i < |older| && FindRow(history[|history| - 1].routine, id).None?
    requires forall j :: i < j < |older| ==> FindRow(older[j].routine, id).None?
    ensures forall j :: i < j < |history| ==> FindRow(history[j].routine, id).None?
  {
    forall j | i < j < |older|
      ensures FindRow(history[j].routine, id).None?
    {
      assert older[j] == history[j];
    }
  }

  /** `Store.lastLog` as the source writes it: a backwards index loop. */
  method LastLogScan(history: seq<Session>, id: string) returns (r: Option<Slot>)
    ensures r == LastLog(history, id)
  {
    var i := |history|;
    assert history[..i] == history;
    while i > 0
      invariant 0 <= i <= |history|
      invariant LastLog(history, id) == LastLog(history[..i], id)
    {
      var row := FindRow(history[i - 1].routine, id);
      assert history[..i][..i - 1] == history[..i - 1];
      if row.Some? {
        return row;
      }
      i := i - 1;
    }
    return None;
  }

  /** Appending a session makes it the source of the next lookup for every id it contains. */
  lemma LastLogAppend(history: seq<Session>, s: Session, id: string)
    ensures FindRow(s.routine, id).Some? ==> LastLog(history + [s], id) == FindRow(s.routine, id)
    ensures FindRow(s.routine, id).None? ==> LastLog(history + [s], id) == LastLog(history, id)
  {
    assert (history + [s])[..|history|] == history;
  }

  /** `history.rpe || '2'`: a missing or empty effort code counts as "2" (good). */
  function EffectiveRpe(rpe: Option<string>): (r: string)
    ensures rpe.Some? && rpe.value != "" ==> r == rpe.value
    ensures rpe.None? || rpe.value == "" ==> r == "2"
  {
    if rpe.Some? && rpe.value != "" then rpe.value else "2"
  }

  /** Targets for an exercise never logged before. */
  function FreshTargets(base: Start, mode: Mode): (r: Targets)
    ensures r.sets == base.sets && r.val1 == base.val1 && r.tip.None?
    ensures r.val2 == (if mode == Load then 20.0 else 0.0)
  {
    Targets(base.sets, base.val1, if mode == Load then 20.0 else 0.0, None)
  }

  /**
   * Targets derived from the last logged row: the logged values are kept,
   * the set count comes from the starting targets, and only the extreme
   * effort codes move the load (load/bodyweight) or the duration (time).
   */
  function Adjusted(base: Start, row: Slot, level: Level, mode: Mode): (r: Targets)
    ensures r.sets == base.sets
    ensures mode != Time ==> r.val1 == row.val1
    ensures mode != Time && EffectiveRpe(row.rpe) == "1" ==>
      r.val2 == row.val2 + (if level == Advanced then 1.25 else 2.5) && r.tip == Some(TipInc)
    ensures mode != Time && EffectiveRpe(row.rpe) == "4" ==>
      r.val2 == (if row.val2 >= 5.0 then row.val2 - 5.0 else 0.0) && r.tip == Some(TipDec)
    ensures mode != Time && EffectiveRpe(row.rpe) !in {"1", "4"} ==> r.val2 == row.val2 && r.tip.None?
    ensures mode == Time ==> r.val2 == row.val2 && r.tip.None?
    ensures mode == Time ==> r.val1 == (if EffectiveRpe(row.rpe) == "1" then row.val1 + 5.0 else row.val1)
  {
    var rpe := EffectiveRpe(row.rpe);
    if mode == Time then
      Targets(base.sets, if rpe == "1" then row.val1 + 5.0 else row.val1, row.val2, None)
    else if rpe == "1" then
      Targets(base.sets, row.val1, row.val2 + (if level == Advanced then 1.25 else 2.5), Some(TipInc))
    else if rpe == "4" then
      Targets(base.sets, row.val1, if row.val2 - 5.0 > 0.0 then row.val2 - 5.0 else 0.0, Some(TipDec))
    else
      Targets(base.sets, row.val1, row.val2, None)
  }

  /** `Trainer.getSmartTargets`. */
  function SmartTargets(goal: Goal, level: Level, history: seq<Session>, id: string, mode: Mode): (r: Targets)
    ensures r.sets == StartParams(goal, level, mode).sets
    ensures LastLog(history, id).None? ==> r == FreshTargets(StartParams(goal, level, mode), mode)
    ensures LastLog(history, id).Some? ==> r == Adjusted(StartParams(goal, level, mode), LastLog(history, id).value, level, mode)
  {
    var base := StartParams(goal, level, mode);
    match LastLog(history, id)
    case None => FreshTargets(base, mode)
    case Some(row) => Adjusted(base, row, level, mode)
  }

  /**
   * The load never goes negative: starting from a non-negative logged load
   * (or none at all), every adjustment yields a non-negative load.
   */
  lemma SmartTargetsLoadNonNegative(goal: Goal, level: Level, history: seq<Session>, id: string, mode: Mode)
    requires LastLog(history, id).Some? ==> LastLog(history, id).value.val2 >= 0.0
    ensures SmartTargets(goal, level, history, id, mode).val2 >= 0.0
  {
  }

  /**
   * Round trip: once a session holding a row for `id` is appended to the
   * history, the next targets for `id` are computed from exactly that row's
   * logged values and effort code.
   */
  lemma SmartTargetsAfterSession(goal: Goal, level: Level, history: seq<Session>, s: Session, id: string, mode: Mode)
    requires FindRow(s.routine, id).Some?
    ensures SmartTargets(goal, level, history + [s], id, mode)
            == Adjusted(StartParams(goal, level, mode), FindRow(s.routine, id).value, level, mode)
  {
    LastLogAppend(history, s, id);
  }

  /** Advanced lifters reporting "too easy" on a load exercise get +1.25 and the increase tip. */
  lemma AdvancedTooEasy(goal: Goal, history: seq<Session>, id: string, row: Slot)
    requires LastLog(history, id) == Some(row) && row.rpe == Some("1")
    ensures SmartTargets(goal, Advanced, history, id, Load).val2 == row.val2 + 1.25
    ensures SmartTargets(goal, Advanced, history, id, Load).tip == Some(TipInc)
  {
  }

  /** A failed set deloads by 5 with a floor at 0: 10 becomes 5, 3 becomes 0. */
  lemma FailureDeload(goal: Goal, level: Level, history: seq<Session>, id: string, row: Slot)
    requires LastLog(history, id) == Some(row) && row.rpe == Some("4")
    ensures row.val2 == 10.0 ==> SmartTargets(goal, level, history, id, Load).val2 == 5.0
    ensures row.val2 == 3.0 ==> SmartTargets(goal, level, history, id, Load).val2 == 0.0
  {
  }
}
