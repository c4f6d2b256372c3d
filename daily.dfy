/**
 * The daily-task variant of the app (`EvoRoutineApp` in app.js): weekly
 * routines materialise as dated tasks, ticking a task off logs it in the
 * history, and the dashboard counts a score, a streak and an improvement.
 * Dates are ISO strings; the calendar day is the part before the first 'T'.
 */
module Daily {
  import opened Wrappers
  import opened Seqs

  /** One exercise of a routine, also the payload of a task. */
  datatype Exercise = Exercise(name: string, sets: int, reps: int, weight: real, rest: int, muscle: Option<string>)

  datatype Routine = Routine(id: string, name: string, days: seq<int>, exercises: seq<Exercise>, isActive: bool)

  /** A dated task: the exercise fields spread in, plus its own id, date, state and source routine. */
  datatype Task = Task(id: string, date: string, ex: Exercise, completed: bool, routineId: Option<string>)

  datatype HistoryEntry = HistoryEntry(taskId: string, name: string, completedAt: string, weight: real, sets: int, reps: int)

  /** A parsed numeric input of the exercise rows of the routine form: `None` is NaN. */
  datatype ExerciseInput = ExerciseInput(name: string, sets: Option<int>, reps: Option<int>, weight: Option<int>)

  /** `s.split('T')[0]`: everything before the first 'T'. */
  function DatePrefix(s: string): (r: string)
    ensures r <= s && 'T' !in r
    ensures |r| < |s| ==> s[|r|] == 'T'
  {
    if s == [] || s[0] == 'T' then [] else [s[0]] + DatePrefix(s[1..])
  }

  /** An ISO date without a time part is its own calendar day. */
  lemma {:induction false} DatePrefixOfDay(d: string)
    requires 'T' !in d
    ensures DatePrefix(d) == d
  {
    if d != [] {
      DatePrefixOfDay(d[1..]);
    }
  }

  /** `parseInt(v) || d`: NaN and 0 fall back to the default. */
  function OrDefault(v: Option<int>, d: int): (r: int)
    ensures v.Some? && v.value != 0 ==> r == v.value
    ensures v.None? || v.value == 0 ==> r == d
  {
    if v.Some? && v.value != 0 then v.value else d
  }

  function RealOrDefault(v: Option<real>, d: real): (r: real)
    ensures v.Some? && v.value != 0.0 ==> r == v.value
    ensures v.None? || v.value == 0.0 ==> r == d
  {
    if v.Some? && v.value != 0.0 then v.value else d
  }

  /** A routine that runs on this weekday. */
  predicate RunsOn(r: Routine, weekday: int) {
    r.isActive && weekday in r.days
  }

  /** The (routine id, exercise) pairs of one routine, in exercise order. */
  function Pairs(r: Routine): (ps: seq<(string, Exercise)>)
    ensures |ps| == |r.exercises|
    ensures forall k :: 0 <= k < |ps| ==> ps[k] == (r.id, r.exercises[k])
  {
    seq(|r.exercises|, k requires 0 <= k < |r.exercises| => (r.id, r.exercises[k]))
  }

  /** The exercises due from these routines, in routine then exercise order. */
  function Due(rs: seq<Routine>): (ps: seq<(string, Exercise)>)
    ensures rs == [] ==> ps == []
  {
    if rs == [] then [] else Due(rs[..|rs| - 1]) + Pairs(rs[|rs| - 1])
  }

  /** A pair is due exactly when it names a routine of the list and one of that routine's exercises. */
  lemma {:induction false} DueMembers(rs: seq<Routine>, p: (string, Exercise))
    ensures p in Due(rs) <==> exists r :: r in rs && p.0 == r.id && p.1 in r.exercises
  {
    if rs != [] {
      var init, last := rs[..|rs| - 1], rs[|rs| - 1];
      DueMembers(init, p);
      assert rs == init + [last];
      assert p in Pairs(last) <==> p.0 == last.id && p.1 in last.exercises by {
        if p.0 == last.id && p.1 in last.exercises {
          var k :| 0 <= k < |last.exercises| && last.exercises[k] == p.1;
          assert Pairs(last)[k] == p;
        }
      }
      if p in Pairs(last) {
        assert last in rs;
      }
    }
  }

  /**
   * The exercises generated for a weekday are exactly those of the routines
   * that are active and scheduled on that weekday.
   */
  lemma DueRunning(routines: seq<Routine>, weekday: int, p: (string, Exercise))
    ensures p in Due(Filter(routines, r => RunsOn(r, weekday))) <==>
            exists r :: r in routines && r.isActive && weekday in r.days && p.0 == r.id && p.1 in r.exercises
  {
    var running := Filter(routines, r => RunsOn(r, weekday));
    DueMembers(running, p);
  }

  /** `added` holds one fresh, open task per due pair, in order, dated `today`. */
  ghost predicate Materialized(added: seq<Task>, due: seq<(string, Exercise)>, today: string): (b: bool)
    ensures b <==> |added| == |due| && forall k :: 0 <= k < |added| ==>
                     && added[k].date == today && !added[k].completed
                     && added[k].ex == due[k].1 && added[k].routineId == Some(due[k].0)
  {
    && |added| == |due|
    && forall k :: 0 <= k < |added| ==>
         added[k] == Task(added[k].id, today, due[k].1, false, Some(due[k].0))
  }

  /** Materialised lists concatenate. */
  lemma MaterializedAppend(a: seq<Task>, b: seq<Task>, da: seq<(string, Exercise)>, db: seq<(string, Exercise)>, today: string)
    requires Materialized(a, da, today) && Materialized(b, db, today)
    ensures Materialized(a + b, da + db, today)
  {
    assert forall k :: |a| <= k < |a| + |b| ==> (a + b)[k] == b[k - |a|] && (da + db)[k] == db[k - |a|];
  }

  predicate HasTaskOn(tasks: seq<Task>, day: string) {
    exists i :: 0 <= i < |tasks| && tasks[i].date == day
  }

  /**
   * What `checkAndGenerateDailyTasks` does to the task list: nothing when a
   * task is already dated today, otherwise append the materialised due
   * exercises of the routines running today.
   */
  ghost predicate DailyGenerated(before: seq<Task>, after: seq<Task>, routines: seq<Routine>, today: string, weekday: int) {
    if HasTaskOn(before, today) then after == before
    else
      && |before| <= |after|
      && after[..|before|] == before
      && Materialized(after[|before|..], Due(Filter(routines, r => RunsOn(r, weekday))), today)
  }

  /** Running the daily generation twice on the same day adds nothing the second time. */
  lemma DailyGeneratedIdempotent(t0: seq<Task>, t1: seq<Task>, t2: seq<Task>, routines: seq<Routine>, today: string, weekday: int)
    requires DailyGenerated(t0, t1, routines, today, weekday)
    requires DailyGenerated(t1, t2, routines, today, weekday)
    ensures t2 == t1
  {
    if !HasTaskOn(t0, today) {
      var due := Due(Filter(routines, r => RunsOn(r, weekday)));
      if |due| > 0 {
        assert t1[|t0|] == t1[|t0|..][0];
        assert HasTaskOn(t1, today);
      } else {
        assert t1 == t1[..|t0|] + t1[|t0|..];
        if !HasTaskOn(t1, today) {
          assert t2 == t2[..|t1|] + t2[|t1|..];
        }
      }
    }
  }

  /** The position of the first task with this id, or -1 (`tasks.find`). */
  function TaskIndex(tasks: seq<Task>, id: string): (r: int)
    ensures -1 <= r < |tasks|
    ensures r == -1 <==> forall i :: 0 <= i < |tasks| ==> tasks[i].id != id
    ensures r >= 0 ==> tasks[r].id == id && forall j :: 0 <= j < r ==> tasks[j].id != id
  {
    if tasks == [] then -1
    else if tasks[0].id == id then 0
    else
      var r := TaskIndex(tasks[1..], id);
      if r == -1 then -1 else r + 1
  }

  /** The instant `s` falls on `day`: it starts with the day, followed by the time part or nothing. */
  predicate OnDay(s: string, day: string) {
    |day| <= |s| && s[..|day|] == day && (|day| == |s| || s[|day|] == 'T')
  }

  /** A day without 'T' is the date prefix of exactly the instants that fall on it. */
  lemma {:induction false} OnDayPrefix(s: string, day: string)
    ensures 'T' !in day ==> (DatePrefix(s) == day <==> OnDay(s, day))
  {
    if 'T' !in day && OnDay(s, day) && day != [] {
      assert s[0] == day[0];
      assert s[1..][..|day| - 1] == day[1..];
      assert 'T' !in day[1..];
      OnDayPrefix(s[1..], day[1..]);
    }
  }

  /** Un-ticking keeps every history entry except this task's entries of this day. */
  predicate Kept(h: HistoryEntry, taskId: string, day: string): (b: bool)
    ensures 'T' !in day ==> (b <==> h.taskId != taskId || !OnDay(h.completedAt, day))
  {
    OnDayPrefix(h.completedAt, day);
    h.taskId != taskId || DatePrefix(h.completedAt) != day
  }

  /**
   * Ticking a task on and back off on the same day restores the history,
   * provided it held no entry of that task for that day before.
   */
  lemma ToggleRoundTrip(history: seq<HistoryEntry>, e: HistoryEntry, now: string)
    requires forall h :: h in history ==> Kept(h, e.taskId, DatePrefix(now))
    requires e.completedAt == now
    ensures Filter(history + [e], h => Kept(h, e.taskId, DatePrefix(now))) == history
  {
    var p := (h: HistoryEntry) => Kept(h, e.taskId, DatePrefix(now));
    FilterAppend(history, [e], p);
    FilterAll(history, p);
    assert Filter([e], p) == [];
  }

  /** `Math.round(100 * completed / total)`, 0 for no tasks, as exact rounding half up. */
  function Percentage(completed: nat, total: nat): (r: int)
    ensures total == 0 ==> r == 0
    ensures total > 0 ==> 2 * total * r <= 200 * completed + total < 2 * total * (r + 1)
  {
    if total == 0 then 0 else (200 * completed + total) / (2 * total)
  }

  lemma MulMono(m: int, x: int, y: int)
    requires m >= 0 && x <= y
    ensures m * x <= m * y
  {
    assert m * y == m * x + m * (y - x);
  }

  /** The percentage lies in 0..100 when at most all tasks are completed; 0 and 100 at the ends. */
  lemma PercentageBounds(completed: nat, total: nat)
    requires completed <= total
    ensures 0 <= Percentage(completed, total) <= 100
    ensures total > 0 && completed == total ==> Percentage(completed, total) == 100
    ensures completed == 0 ==> Percentage(completed, total) == 0
  {
    if total > 0 {
      var r := Percentage(completed, total);
      var m := 2 * total;
      assert m * r <= 200 * completed + total < m * (r + 1);
      if r < 0 {
        MulMono(m, r + 1, 0);
        assert false;
      }
      if r > 100 {
        MulMono(m, 101, r);
        assert false;
      }
      if completed == total && r < 100 {
        MulMono(m, r + 1, 100);
        assert false;
      }
      if completed == 0 && r > 0 {
        MulMono(m, 1, r);
        assert false;
      }
    }
  }

  /** The dashboard score for a day: the share of that day's tasks that are completed. */
  function DailyScore(tasks: seq<Task>, today: string): (r: int)
    ensures 0 <= r <= 100
  {
    var todays := Filter(tasks, (t: Task) => t.date == today);
    var done := Filter(todays, (t: Task) => t.completed);
    PercentageBounds(|done|, |todays|);
    Percentage(|done|, |todays|)
  }

  /** The calendar days on which something was completed. */
  function Days(history: seq<HistoryEntry>): set<string> {
    set h | h in history :: DatePrefix(h.completedAt)
  }

  /** One more entry adds its day, and nothing else, to the set of days. */
  lemma DaysAppend(history: seq<HistoryEntry>, e: HistoryEntry)
    ensures Days(history + [e]) == Days(history) + {DatePrefix(e.completedAt)}
  {
    assert forall h :: h in history + [e] <==> h in history || h == e;
  }

  /** The streak: the number of distinct calendar days in the history. */
  function Streak(history: seq<HistoryEntry>): (n: nat)
    ensures n == 0 <==> history == []
  {
    if history == [] then
      assert Days(history) == {};
      0
    else
      assert DatePrefix(history[0].completedAt) in Days(history);
      |Days(history)|
  }

  /** The streak never exceeds the number of entries, and a non-empty history has one. */
  lemma {:induction false} StreakBounds(history: seq<HistoryEntry>)
    ensures Streak(history) <= |history|
    ensures |history| > 0 ==> Streak(history) >= 1
  {
    if history != [] {
      var init := history[..|history| - 1];
      var last := history[|history| - 1];
      StreakBounds(init);
      assert history == init + [last];
      DaysAppend(init, last);
    }
  }

  /** Another entry on a day already in the history leaves the streak unchanged. */
  lemma StreakSameDay(history: seq<HistoryEntry>, e: HistoryEntry, h0: HistoryEntry)
    requires h0 in history && DatePrefix(h0.completedAt) == DatePrefix(e.completedAt)
    ensures Streak(history + [e]) == Streak(history)
  {
    DaysAppend(history, e);
    assert DatePrefix(h0.completedAt) in Days(history);
    assert Days(history + [e]) == Days(history);
  }

  /** `Math.min(100, completed * 5)`: five points per completed task, capped at 100. */
  function Improvement(completed: nat): (r: nat)
    ensures r <= 100
    ensures completed <= 20 ==> r == 5 * completed
    ensures completed >= 20 ==> r == 100
  {
    if completed * 5 < 100 then completed * 5 else 100
  }

  /** The improvement figure never decreases as more tasks are completed. */
  lemma ImprovementMonotone(a: nat, b: nat)
    requires a <= b
    ensures Improvement(a) <= Improvement(b)
  {
  }

  /** A routine exercise row after the defaults of `saveRoutine`. */
  function RoutineExercise(input: ExerciseInput, restTime: int): (e: Exercise)
    ensures e.name == input.name && e.rest == restTime && e.muscle.None?
    ensures e.sets == OrDefault(input.sets, 3) && e.reps == OrDefault(input.reps, 12)
    ensures e.weight == OrDefault(input.weight, 0) as real
    ensures e.sets != 0 && e.reps != 0
  {
    Exercise(input.name, OrDefault(input.sets, 3), OrDefault(input.reps, 12), OrDefault(input.weight, 0) as real, restTime, None)
  }

  class EvoRoutineApp {
    var routines: seq<Routine>
    var tasks: seq<Task>
    var history: seq<HistoryEntry>
    /** `state.settings.restTime`. */
    var restTime: int

    constructor ()
      ensures routines == [] && tasks == [] && history == [] && restTime == 60
    {
      routines := [];
      tasks := [];
      history := [];
      restTime := 60;
    }

    /** `checkAndGenerateDailyTasks` for the given ISO day and weekday (0 = Sunday). */
    method CheckAndGenerateDailyTasks(today: string, weekday: int)
      modifies this
      ensures DailyGenerated(old(tasks), tasks, routines, today, weekday)
      ensures routines == old(routines) && history == old(history) && restTime == old(restTime)
    {
      var exists_ := false;
      var n := 0;
      while n < |tasks|
        invariant 0 <= n <= |tasks|
        invariant exists_ <==> exists i :: 0 <= i < n && tasks[i].date == today
      {
        if tasks[n].date == today {
          exists_ := true;
        }
        n := n + 1;
      }
      if exists_ {
        return;
      }
      var active := Filter(routines, r => RunsOn(r, weekday));
      var start := tasks;
      var i := 0;
      while i < |active|
        invariant 0 <= i <= |active|
        invariant |start| <= |tasks| && tasks[..|start|] == start
        invariant Materialized(tasks[|start|..], Due(active[..i]), today)
        invariant routines == old(routines) && history == old(history) && restTime == old(restTime)
      {
        ghost var prev := tasks;
        AddRoutineTasks(active[i], today);
        assert tasks[..|start|] == start by {
          assert tasks[..|start|] == prev[..|prev|][..|start|];
        }
        assert tasks[|start|..] == prev[|start|..] + tasks[|prev|..];
        MaterializedAppend(prev[|start|..], tasks[|prev|..], Due(active[..i]), Pairs(active[i]), today);
        assert active[..i + 1][..i] == active[..i];
        i := i + 1;
      }
      assert active[..i] == active;
    }

    /** One routine's share of the daily generation: a fresh open task per exercise, in order. */
    method AddRoutineTasks(routine: Routine, today: string)
      modifies this
      ensures |old(tasks)| <= |tasks| && tasks[..|old(tasks)|] == old(tasks)
      ensures Materialized(tasks[|old(tasks)|..], Pairs(routine), today)
      ensures routines == old(routines) && history == old(history) && restTime == old(restTime)
    {
      var j := 0;
      while j < |routine.exercises|
        invariant 0 <= j <= |routine.exercises|
        invariant |old(tasks)| <= |tasks| && tasks[..|old(tasks)|] == old(tasks)
        invariant Materialized(tasks[|old(tasks)|..], Pairs(routine)[..j], today)
        invariant routines == old(routines) && history == old(history) && restTime == old(restTime)
      {
        var id: string :| true;
        var task := Task(id, today, routine.exercises[j], false, Some(routine.id));
        ghost var prev := tasks;
        tasks := tasks + [task];
        assert tasks[..|old(tasks)|] == old(tasks);
        assert tasks[|old(tasks)|..] == prev[|old(tasks)|..] + [task];
        assert Pairs(routine)[..j + 1] == Pairs(routine)[..j] + [(routine.id, routine.exercises[j])];
        j := j + 1;
      }
      assert Pairs(routine)[..j] == Pairs(routine);
    }

    /**
     * `toggleTaskCompletion(taskId)` at the ISO instant `now`: flip the first
     * task with that id; ticking it appends one history entry, un-ticking it
     * removes that task's entries of today; an unknown id changes nothing.
     */
    method ToggleTaskCompletion(taskId: string, now: string)
      modifies this
      ensures var k := TaskIndex(old(tasks), taskId);
              k == -1 ==> tasks == old(tasks) && history == old(history)
      ensures var k := TaskIndex(old(tasks), taskId);
              k >= 0 ==> tasks == old(tasks)[k := old(tasks)[k].(completed := !old(tasks)[k].completed)]
      ensures var k := TaskIndex(old(tasks), taskId);
              k >= 0 && !old(tasks)[k].completed ==>
                var t := old(tasks)[k];
                history == old(history) + [HistoryEntry(taskId, t.ex.name, now, t.ex.weight, t.ex.sets, t.ex.reps)]
      ensures var k := TaskIndex(old(tasks), taskId);
              k >= 0 && old(tasks)[k].completed ==>
                history == Filter(old(history), h => Kept(h, taskId, DatePrefix(now)))
      ensures routines == old(routines) && restTime == old(restTime)
    {
      var k := TaskIndex(tasks, taskId);
      if k == -1 {
        return;
      }
      var t := tasks[k].(completed := !tasks[k].completed);
      tasks := tasks[k := t];
      if t.completed {
        history := history + [HistoryEntry(t.id, t.ex.name, now, t.ex.weight, t.ex.sets, t.ex.reps)];
      } else {
        history := Filter(history, h => Kept(h, taskId, DatePrefix(now)));
      }
    }

    /** `deleteTask(taskId)` once confirmed: keep every task with another id. */
    method DeleteTask(taskId: string, confirmed: bool)
      modifies this
      ensures confirmed ==> tasks == Filter(old(tasks), (t: Task) => t.id != taskId)
      ensures !confirmed ==> tasks == old(tasks)
      ensures forall t :: t in tasks <==> t in old(tasks) && (confirmed ==> t.id != taskId)
      ensures routines == old(routines) && history == old(history) && restTime == old(restTime)
    {
      if confirmed {
        tasks := Filter(tasks, (t: Task) => t.id != taskId);
      }
    }

    /** The routine card's delete button once confirmed: drop the routine, then re-run the daily generation. */
    method DeleteRoutine(routineId: string, confirmed: bool, today: string, weekday: int)
      modifies this
      ensures confirmed ==> routines == Filter(old(routines), (r: Routine) => r.id != routineId)
      ensures confirmed ==> DailyGenerated(old(tasks), tasks, routines, today, weekday)
      ensures !confirmed ==> routines == old(routines) && tasks == old(tasks)
      ensures forall r :: r in routines <==> r in old(routines) && (confirmed ==> r.id != routineId)
      ensures history == old(history) && restTime == old(restTime)
    {
      if confirmed {
        routines := Filter(routines, (r: Routine) => r.id != routineId);
        CheckAndGenerateDailyTasks(today, weekday);
      }
    }

    /** `saveTask`: an unnamed task is dropped; otherwise one open task for today, with defaults 3/10/0/60. */
    method SaveTask(name: string, sets: Option<int>, reps: Option<int>, weight: Option<real>, rest: Option<int>, today: string)
      modifies this
      ensures name == "" ==> tasks == old(tasks)
      ensures name != "" ==> |tasks| == |old(tasks)| + 1 && tasks[..|old(tasks)|] == old(tasks)
      ensures name != "" ==> var t := tasks[|old(tasks)|];
                && t.date == today && !t.completed && t.routineId.None?
                && t.ex == Exercise(name, OrDefault(sets, 3), OrDefault(reps, 10), RealOrDefault(weight, 0.0), OrDefault(rest, 60), None)
      ensures routines == old(routines) && history == old(history) && restTime == old(restTime)
    {
      var id: string :| true;
      var ex := Exercise(name, OrDefault(sets, 3), OrDefault(reps, 10), RealOrDefault(weight, 0.0), OrDefault(rest, 60), None);
      if name == "" {
        return;
      }
      tasks := tasks + [Task(id, today, ex, false, None)];
    }

    /**
     * `saveRoutine`: an unnamed routine is dropped; otherwise one active
     * routine whose exercises take the defaults 3/12/0 and the configured
     * rest time, followed by the daily generation.
     */
    method SaveRoutine(name: string, days: seq<int>, inputs: seq<ExerciseInput>, today: string, weekday: int)
      modifies this
      ensures name == "" ==> routines == old(routines) && tasks == old(tasks)
      ensures name != "" ==> |routines| == |old(routines)| + 1 && routines[..|old(routines)|] == old(routines)
      ensures name != "" ==> var r := routines[|old(routines)|];
                && r.name == name && r.days == days && r.isActive
                && |r.exercises| == |inputs|
                && forall k :: 0 <= k < |inputs| ==> r.exercises[k] == RoutineExercise(inputs[k], restTime)
      ensures name != "" ==> DailyGenerated(old(tasks), tasks, routines, today, weekday)
      ensures history == old(history) && restTime == old(restTime)
    {
      var exercises: seq<Exercise> := [];
      var k := 0;
      while k < |inputs|
        invariant 0 <= k <= |inputs| && |exercises| == k
        invariant forall m :: 0 <= m < k ==> exercises[m] == RoutineExercise(inputs[m], restTime)
      {
        exercises := exercises + [RoutineExercise(inputs[k], restTime)];
        k := k + 1;
      }
      if name == "" {
        return;
      }
      var id: string :| true;
      routines := routines + [Routine(id, name, days, exercises, true)];
      CheckAndGenerateDailyTasks(today, weekday);
    }
  }
}
