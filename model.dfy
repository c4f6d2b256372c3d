/** The profile records the training engine reads and writes. */
module Model {
  import opened Wrappers
  import opened Exercises

  datatype Goal = Strength | Hypertrophy | Endurance
  datatype Level = Beginner | Intermediate | Advanced

  /**
   * One plan slot: the exercise id, its target set count, the target pair
   * (`val1` = reps or seconds, `val2` = load or extra load), the advisory tip
   * key, and, once performed, the reported effort code ("1".."4").
   */
  datatype Slot = Slot(id: string, sets: int, val1: real, val2: real, tip: Option<string>, rpe: Option<string>)

  /** A completed workout as appended to the history. */
  datatype Session = Session(date: int, routine: seq<Slot>)

  /**
   * Profile settings. `equip` is `None` while the home equipment has never
   * been configured, which is different from configured-but-empty.
   */
  datatype Settings = Settings(lang: string, theme: string, goal: Goal, level: Level, rTime: int,
                               equip: Option<seq<string>>)

  datatype User = User(name: string, email: string, history: seq<Session>, custom: seq<CustomExercise>,
                       settings: Settings)
}
