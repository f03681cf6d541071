/**
 * The tasks page (src/pages/Tasks.tsx): tasks tracked day by day, with experience points,
 * levels, streaks of completed days and badges. Dates are whole day numbers; today and new
 * ids are parameters.
 */
module Tasks {
  import opened Wrappers
  import opened Text
  import DailyCheckin

  /** One day of a task: `dailyProgress[date]`, with the check-in made on it, if any. */
  datatype DayProgress = DayProgress(completed: bool, notes: string, xpEarned: int, checkin: Option<TaskCheckin>)

  /** `Task`; `isExpanded` is false while undefined. */
  datatype Task = Task(
    id: string, title: string, description: string, category: string, startDate: int,
    level: int, xp: int, streak: int, badges: seq<string>,
    dailyProgress: map<int, DayProgress>, isExpanded: bool)

  const XpPerCompletion := 50
  const XpStreakBonus := 10
  const XpDetailedNotes := 20

  /** The `length`, in UTF-16 code units, notes must exceed to count as detailed. */
  const DetailLength := 50

  // ---------------------------------------------------------------------------------------
  // calculateLevel

  /** The largest `r <= k` whose square is at most `m`. */
  function FloorSqrtUpTo(m: nat, k: nat): (r: nat)
    ensures r <= k && r * r <= m && (r == k || (r + 1) * (r + 1) > m)
    decreases k
  {
    if k * k <= m then k else FloorSqrtUpTo(m, k - 1)
  }

  /** `Math.floor(Math.sqrt(m))` for a whole number `m`. */
  function FloorSqrt(m: nat): (r: nat)
    ensures r * r <= m < (r + 1) * (r + 1)
  {
    var r := FloorSqrtUpTo(m, m);
    assert r == m ==> (r + 1) * (r + 1) > m by {
      if r == m {
        assert (m + 1) * (m + 1) == m * m + 2 * m + 1;
      }
    }
    r
  }

  /**
   * `calculateLevel`: one more than the largest `n` with `100 n^2 <= xp` (the square root of
   * `xp / 100`, rounded down, is the same for the real and the whole quotient).
   */
  function Level(xp: nat): (r: nat)
    ensures r >= 1
  {
    FloorSqrt(xp / 100) + 1
  }

  /** The level is `n + 1` exactly when `100 n^2 <= xp < 100 (n + 1)^2`. */
  lemma LevelBounds(xp: nat)
    ensures 100 * ((Level(xp) - 1) * (Level(xp) - 1)) <= xp < 100 * (Level(xp) * Level(xp))
  {
    var q, n := xp / 100, Level(xp) - 1;
    assert n * n <= q < (n + 1) * (n + 1);
    assert 100 * (n * n) <= 100 * q <= xp;
    assert xp < 100 * (q + 1) <= 100 * ((n + 1) * (n + 1));
  }

  lemma SquareMonotone(x: nat, y: nat)
    requires x <= y
    ensures x * x <= y * y
  {
    assert x * x <= x * y <= y * y;
  }

  /** More experience never means a lower level. */
  lemma LevelMonotone(a: nat, b: nat)
    requires a <= b
    ensures Level(a) <= Level(b)
  {
    LevelBounds(a);
    LevelBounds(b);
    if Level(a) > Level(b) {
      SquareMonotone(Level(b), Level(a) - 1);
      assert false;
    }
  }

  // ---------------------------------------------------------------------------------------
  // calculateStreak

  /** A set without members is empty. */
  lemma EmptyWithoutMembers(s: set<int>)
    ensures (forall x :: x !in s) ==> s == {}
  {
    if forall x :: x !in s {
      assert s == {};
    }
  }

  /** `m` is the largest day of `s`. */
  predicate IsMax(m: int, s: set<int>) {
    m in s && forall x :: x in s ==> x <= m
  }

  /** A finite, non-empty set of days has a largest one. */
  lemma {:induction false} MaxExists(s: set<int>)
    requires s != {}
    ensures exists m :: IsMax(m, s)
    decreases |s|
  {
    EmptyWithoutMembers(s);
    var y :| y in s;
    var rest := s - {y};
    if rest == {} {
      forall x | x in s
        ensures x <= y
      {
        assert x !in rest;
      }
      assert IsMax(y, s);
    } else {
      MaxExists(rest);
      var m :| IsMax(m, rest);
      var top := if y > m then y else m;
      forall x | x in s
        ensures x <= top
      {
        if x != y {
          assert x in rest;
        }
      }
      assert IsMax(top, s);
    }
  }

  function Max(s: set<int>): (r: int)
    requires s != {}
    ensures r in s && forall x :: x in s ==> x <= r
  {
    MaxExists(s);
    var m :| IsMax(m, s);
    m
  }

  /** The days of a set, latest first: what sorting the entries by date, descending, gives. */
  function SortedDesc(s: set<int>): (r: seq<int>)
    ensures |r| == |s| && forall x :: x in r <==> x in s
    ensures forall i, j :: 0 <= i < j < |r| ==> r[i] > r[j]
    decreases |s|
  {
    if s == {} then []
    else
      var m := Max(s);
      [m] + SortedDesc(s - {m})
  }

  /** A completed day keeps the streak going when it is the day counted last, or at most one day before it. */
  predicate Continues(previous: int, date: int) {
    date == previous || previous - date <= 1
  }

  /**
   * The streak over dates taken latest first: it counts completed days while each is at most
   * one day before the previous one (the first before `current`).
   */
  function StreakOf(progress: map<int, DayProgress>, dates: seq<int>, current: int): (r: nat)
    requires forall d :: d in dates ==> d in progress
    ensures r <= |dates|
  {
    if dates == [] then 0
    else
      var date := dates[0];
      if date != current && current - date > 1 then 0
      else if progress[date].completed then 1 + StreakOf(progress, dates[1..], date)
      else 0
  }

  /** `calculateStreak` on the day `today`. */
  function Streak(progress: map<int, DayProgress>, today: int): (r: nat)
    ensures r <= |progress|
  {
    assert |progress.Keys| == |progress|;
    StreakOf(progress, SortedDesc(progress.Keys), today)
  }

  /**
   * The streak is the length of the longest run, latest first, of completed days each at most
   * one day before the one counted before it: every day in it qualifies, and the next does not.
   */
  lemma {:induction false} StreakOfIsLongestRun(progress: map<int, DayProgress>, dates: seq<int>, current: int)
    requires forall d :: d in dates ==> d in progress
    ensures var n := StreakOf(progress, dates, current);
      && (forall i :: 0 <= i < n ==> progress[dates[i]].completed && Continues(if i == 0 then current else dates[i - 1], dates[i]))
      && (n < |dates| ==> !(progress[dates[n]].completed && Continues(if n == 0 then current else dates[n - 1], dates[n])))
  {
    if dates != [] && Continues(current, dates[0]) && progress[dates[0]].completed {
      var rest := dates[1..];
      StreakOfIsLongestRun(progress, rest, dates[0]);
      var n := StreakOf(progress, dates, current);
      assert n == 1 + StreakOf(progress, rest, dates[0]);
      forall i | 1 <= i < n
        ensures progress[dates[i]].completed && Continues(dates[i - 1], dates[i])
      {
        assert dates[i] == rest[i - 1];
        assert i - 1 == 0 ==> dates[0] == dates[i - 1];
        assert i - 1 > 0 ==> rest[i - 2] == dates[i - 1];
      }
      if n < |dates| {
        assert dates[n] == rest[n - 1];
        assert n - 1 > 0 ==> rest[n - 2] == dates[n - 1];
      }
    }
  }

  /** The streak from the `i`-th date on: one step of `StreakOf`. */
  lemma StreakOfAt(progress: map<int, DayProgress>, dates: seq<int>, i: int, current: int)
    requires forall d :: d in dates ==> d in progress
    requires 0 <= i < |dates|
    ensures StreakOf(progress, dates[i..], current) ==
      if dates[i] != current && current - dates[i] > 1 then 0
      else if progress[dates[i]].completed then 1 + StreakOf(progress, dates[i + 1..], dates[i])
      else 0
  {
    assert dates[i..][0] == dates[i] && dates[i..][1..] == dates[i + 1..];
  }

  /** `calculateStreak`, walking the entries latest first as the page does. */
  method CalculateStreak(progress: map<int, DayProgress>, today: int) returns (streak: nat)
    ensures streak == Streak(progress, today)
  {
    var sortedDates := SortedDesc(progress.Keys);
    streak := 0;
    var currentDate := today;
    var i := 0;
    while i < |sortedDates|
      invariant 0 <= i <= |sortedDates|
      invariant Streak(progress, today) == streak + StreakOf(progress, sortedDates[i..], currentDate)
    {
      var date := sortedDates[i];
      StreakOfAt(progress, sortedDates, i, currentDate);
      if date != currentDate && currentDate - date > 1 {
        break;
      }
      if progress[date].completed {
        streak := streak + 1;
        currentDate := date;
      } else {
        break;
      }
      i := i + 1;
    }
  }

  // ---------------------------------------------------------------------------------------
  // BADGES, checkAndAwardBadges

  const FirstCompletion := "first-completion"
  const ThreeDayStreak := "three-day-streak"
  const SevenDayStreak := "seven-day-streak"
  const DetailedNotes := "detailed-notes"

  /** The ids of `BADGES`, in order. */
  const BadgeIds := [FirstCompletion, ThreeDayStreak, SevenDayStreak, DetailedNotes]

  /** The days whose notes are longer than `DetailLength` UTF-16 code units. */
  function DetailedSet(progress: map<int, DayProgress>): set<int> {
    set d | d in progress && JsLength(progress[d].notes) > DetailLength
  }

  /** How many days of a task have detailed notes. */
  function DetailedDays(task: Task): nat {
    |DetailedSet(task.dailyProgress)|
  }

  /** Each badge's `condition`. */
  predicate Earned(badge: string, task: Task)
    ensures Earned(badge, task) ==> badge in BadgeIds
  {
    if badge == FirstCompletion then exists d :: d in task.dailyProgress && task.dailyProgress[d].completed
    else if badge == ThreeDayStreak then task.streak >= 3
    else if badge == SevenDayStreak then task.streak >= 7
    else if badge == DetailedNotes then DetailedDays(task) >= 5
    else false
  }

  /** The badges of a list that the task earns and does not hold yet, in the list's order. */
  function NewBadges(candidates: seq<string>, task: Task): (r: seq<string>)
    ensures forall b :: b in r <==> b in candidates && b !in task.badges && Earned(b, task)
  {
    if candidates == [] then []
    else
      var b := candidates[|candidates| - 1];
      NewBadges(candidates[..|candidates| - 1], task) + (if b !in task.badges && Earned(b, task) then [b] else [])
  }

  /** `checkAndAwardBadges`: the task with the badges it newly earns appended after those it holds. */
  function CheckAndAwardBadges(task: Task): (r: Task)
    ensures task.badges <= r.badges
    ensures forall i :: |task.badges| <= i < |r.badges| ==> r.badges[i] in BadgeIds && r.badges[i] !in task.badges && Earned(r.badges[i], task)
    ensures forall b :: b in BadgeIds && Earned(b, task) ==> b in r.badges
    ensures r.(badges := task.badges) == task
  {
    task.(badges := task.badges + NewBadges(BadgeIds, task))
  }

  /** Every badge is awarded once: awarding again changes nothing. */
  lemma AwardIdempotent(task: Task)
    ensures CheckAndAwardBadges(CheckAndAwardBadges(task)) == CheckAndAwardBadges(task)
  {
    var r := CheckAndAwardBadges(task);
    assert forall b :: Earned(b, r) == Earned(b, task) by {
      assert r.dailyProgress == task.dailyProgress && r.streak == task.streak;
    }
    NoNewBadges(BadgeIds, r);
    assert r.badges + [] == r.badges;
  }

  /** Awarding keeps the badges free of repeats. */
  lemma AwardKeepsBadgesDistinct(task: Task)
    requires Distinct(task.badges)
    ensures Distinct(CheckAndAwardBadges(task).badges)
  {
    var added := NewBadges(BadgeIds, task);
    NewBadgesDistinct(BadgeIds, task);
    var bs := task.badges + added;
    assert CheckAndAwardBadges(task).badges == bs;
    var n := |task.badges|;
    forall i, j | 0 <= i < j < |bs|
      ensures bs[i] != bs[j]
    {
      if j < n {
        assert bs[i] == task.badges[i] && bs[j] == task.badges[j];
        assert task.badges[i] != task.badges[j];
      } else {
        assert bs[j] == added[j - n];
        assert added[j - n] in added;
        if i < n {
          assert bs[i] == task.badges[i];
          assert bs[j] !in task.badges;
        } else {
          assert bs[i] == added[i - n];
          assert added[i - n] != added[j - n];
        }
      }
    }
  }

  /** Nothing is added when every candidate is held already or not earned. */
  lemma {:induction false} NoNewBadges(candidates: seq<string>, task: Task)
    requires forall b :: b in candidates ==> b in task.badges || !Earned(b, task)
    ensures NewBadges(candidates, task) == []
  {
    if candidates != [] {
      NoNewBadges(candidates[..|candidates| - 1], task);
    }
  }

  lemma {:induction false} NewBadgesDistinct(candidates: seq<string>, task: Task)
    requires Distinct(candidates)
    ensures Distinct(NewBadges(candidates, task))
  {
    if candidates != [] {
      var front, b := candidates[..|candidates| - 1], candidates[|candidates| - 1];
      NewBadgesDistinct(front, task);
      assert b !in front;
      assert b !in NewBadges(front, task);
    }
  }

  // ---------------------------------------------------------------------------------------
  // addTask

  /** The add-task form. */
  datatype NewTaskForm = NewTaskForm(title: string, description: string, category: string)

  const EmptyForm := NewTaskForm("", "", "Learning")

  /** A task as `addTask` creates it, on the day `today`. */
  function FreshTask(form: NewTaskForm, id: string, today: int): Task {
    Task(id, form.title, form.description, form.category, today, 1, 0, 0, [],
         map[today := DayProgress(false, "", 0, None)], false)
  }

  /**
   * `addTask`: with a title, the new task is appended and the form reset and hidden; without
   * one, nothing changes. Returns the tasks, the form and whether the form is shown.
   */
  function AddTask(tasks: seq<Task>, form: NewTaskForm, shown: bool, id: string, today: int): (r: (seq<Task>, NewTaskForm, bool))
    ensures form.title == "" ==> r == (tasks, form, shown)
    ensures form.title != "" ==> r.0 == tasks + [FreshTask(form, id, today)] && r.1 == EmptyForm && !r.2
  {
    if form.title == "" then (tasks, form, shown)
    else (tasks + [FreshTask(form, id, today)], EmptyForm, false)
  }

  /** A new task starts at level 1 with no experience, no streak, no badge and one open day. */
  lemma FreshTaskStartsEmpty(form: NewTaskForm, id: string, today: int)
    ensures var t := FreshTask(form, id, today);
      && t.level == Level(t.xp) && t.streak == Streak(t.dailyProgress, today)
      && CheckAndAwardBadges(t) == t
  {
    var t := FreshTask(form, id, today);
    assert SortedDesc({today}) == [today] by {
      assert Max({today}) == today;
      assert {today} - {today} == {};
    }
    assert forall b :: !Earned(b, t) by {
      assert t.dailyProgress.Keys == {today};
      assert DetailedSet(t.dailyProgress) == {};
    }
    NoNewBadges(BadgeIds, t);
  }

  // ---------------------------------------------------------------------------------------
  // toggleTaskCompletion

  /** The day with its completion flipped and the experience it records. */
  function Flip(day: DayProgress, stored: int): DayProgress {
    day.(completed := !day.completed, xpEarned := if !day.completed then stored else 0)
  }

  /** The streak once the day is flipped; the experience recorded does not enter it. */
  function NewStreak(task: Task, date: int, today: int): nat
    requires date in task.dailyProgress
  {
    Streak(task.dailyProgress[date := Flip(task.dailyProgress[date], XpPerCompletion)], today)
  }

  /** `totalXpGain`: completing earns the base, the streak's growth and the notes' bonus; uncompleting loses what the day recorded. */
  function Gain(task: Task, date: int, today: int): int
    requires date in task.dailyProgress
  {
    var day := task.dailyProgress[date];
    var newStreak := NewStreak(task, date, today);
    var streakBonus := if newStreak > task.streak then XpStreakBonus * (newStreak - task.streak) else 0;
    var notesBonus := if JsLength(day.notes) > DetailLength then XpDetailedNotes else 0;
    if !day.completed then XpPerCompletion + streakBonus + notesBonus else -day.xpEarned
  }

  /** `Math.max(0, ...)`. */
  function ClampXp(xp: int): nat {
    if xp < 0 then 0 else xp
  }

  /**
   * The toggled task before the badges are checked, the day recording `stored` when it is
   * completed: new streak, experience (never below zero) and the level it gives.
   */
  function Toggled(task: Task, date: int, today: int, stored: int): Task
    requires date in task.dailyProgress
  {
    var newXp := ClampXp(task.xp + Gain(task, date, today));
    task.(dailyProgress := task.dailyProgress[date := Flip(task.dailyProgress[date], stored)],
          streak := NewStreak(task, date, today), xp := newXp, level := Level(newXp))
  }

  /** `toggleTaskCompletion` on one task as written: a completed day records only the base experience. */
  function ToggleAsWritten(task: Task, date: int, today: int): (r: Task)
    requires date in task.dailyProgress
    ensures var day := task.dailyProgress[date];
      r.dailyProgress == task.dailyProgress[date := day.(completed := !day.completed, xpEarned := if day.completed then 0 else XpPerCompletion)]
    ensures r.xp >= 0 && r.level == Level(r.xp)
    ensures r == CheckAndAwardBadges(r.(badges := task.badges))
  {
    CheckAndAwardBadges(Toggled(task, date, today, XpPerCompletion))
  }

  /** Recording any amount on the day leaves the streak as it is. */
  lemma {:induction false} StreakIgnoresXp(progress: map<int, DayProgress>, date: int, a: int, b: int, today: int)
    requires date in progress
    ensures var day := progress[date];
      Streak(progress[date := Flip(day, a)], today) == Streak(progress[date := Flip(day, b)], today)
  {
    var p, q := progress[date := Flip(progress[date], a)], progress[date := Flip(progress[date], b)];
    assert p.Keys == q.Keys;
    StreakOfSameCompletion(p, q, SortedDesc(p.Keys), today);
  }

  lemma {:induction false} StreakOfSameCompletion(p: map<int, DayProgress>, q: map<int, DayProgress>, dates: seq<int>, current: int)
    requires forall d :: d in dates ==> d in p && d in q && p[d].completed == q[d].completed
    ensures StreakOf(p, dates, current) == StreakOf(q, dates, current)
  {
    if dates != [] {
      StreakOfSameCompletion(p, q, dates[1..], dates[0]);
    }
  }

  /**
   * Completing a day records the base 50 and adds 50, 10 per day the streak grows and 20 for
   * detailed notes; uncompleting records 0 and takes off what the day recorded, never going
   * below zero; the streak and the level are recomputed; nothing but the day, the streak, the
   * experience, the level and new badges changes.
   */
  lemma ToggleAsWrittenEffect(task: Task, date: int, today: int)
    requires date in task.dailyProgress && task.xp >= 0
    ensures var day, r := task.dailyProgress[date], ToggleAsWritten(task, date, today);
      && r.dailyProgress == task.dailyProgress[date := day.(completed := !day.completed, xpEarned := if day.completed then 0 else XpPerCompletion)]
      && r.streak == Streak(r.dailyProgress, today)
      && (!day.completed ==>
            r.xp == task.xp + XpPerCompletion
              + (if r.streak > task.streak then XpStreakBonus * (r.streak - task.streak) else 0)
              + (if JsLength(day.notes) > DetailLength then XpDetailedNotes else 0))
      && (day.completed ==> r.xp == if task.xp >= day.xpEarned then task.xp - day.xpEarned else 0)
      && r.xp >= 0 && r.level == Level(r.xp)
      && r.(badges := task.badges, dailyProgress := task.dailyProgress, streak := task.streak, xp := task.xp, level := task.level) == task
  {
  }

  /**
   * Completing a day with detailed notes and uncompleting it again leaves the task with more
   * experience than before: the bonuses earned on completion are not recorded, so they are
   * never taken back.
   */
  lemma CompletionCycleGainsXp(notes: string)
    requires JsLength(notes) > DetailLength
    ensures var day := DayProgress(false, notes, 0, None);
      var task := Task("1", "Learn", "", "Learning", 0, 1, 0, 0, [], map[0 := day], false);
      var once := ToggleAsWritten(task, 0, 0);
      var twice := ToggleAsWritten(once, 0, 0);
      once.xp == 80 && twice.xp == 30 && twice.dailyProgress == task.dailyProgress
  {
    var day := DayProgress(false, notes, 0, None);
    var task := Task("1", "Learn", "", "Learning", 0, 1, 0, 0, [], map[0 := day], false);
    var done := day.(completed := true, xpEarned := XpPerCompletion);
    GainOnFirstCompletion(task, notes);
    var once := ToggleAsWritten(task, 0, 0);
    assert once.dailyProgress == map[0 := done] && once.xp == 80;
    GainOnUncompletion(once, notes);
    assert ToggleAsWritten(once, 0, 0).dailyProgress == map[0 := day];
  }

  /** Completing the only day, with detailed notes, of a task without XP or streak gains 80 XP. */
  lemma GainOnFirstCompletion(task: Task, notes: string)
    requires JsLength(notes) > DetailLength
    requires task.dailyProgress == map[0 := DayProgress(false, notes, 0, None)] && task.streak == 0
    ensures NewStreak(task, 0, 0) == 1 && Gain(task, 0, 0) == 80
  {
    var done := DayProgress(true, notes, XpPerCompletion, None);
    assert task.dailyProgress[0 := Flip(task.dailyProgress[0], XpPerCompletion)] == map[0 := done];
    StreakSingle(0, done, 0);
  }

  /** Uncompleting the only day, which recorded the base XP, takes back only that. */
  lemma GainOnUncompletion(task: Task, notes: string)
    requires task.dailyProgress == map[0 := DayProgress(true, notes, XpPerCompletion, None)]
    ensures NewStreak(task, 0, 0) == 0 && Gain(task, 0, 0) == -50
  {
    var undone := DayProgress(false, notes, 0, None);
    assert task.dailyProgress[0 := Flip(task.dailyProgress[0], XpPerCompletion)] == map[0 := undone];
    StreakSingle(0, undone, 0);
  }

  /** A task with a single day: the streak is 1 when that day is completed and not before yesterday. */
  lemma StreakSingle(date: int, day: DayProgress, today: int)
    ensures Streak(map[date := day], today) == if day.completed && Continues(today, date) then 1 else 0
  {
    SortedSingle(date);
    assert map[date := day].Keys == {date};
  }

  lemma SortedSingle(d: int)
    ensures SortedDesc({d}) == [d]
  {
    assert Max({d}) == d;
    assert {d} - {d} == {};
  }

  /** `toggleTaskCompletion` on one task as intended: a completed day records all the experience it earned. */
  function ToggleDay(task: Task, date: int, today: int): (r: Task)
    requires date in task.dailyProgress
    ensures var day := task.dailyProgress[date];
      r.dailyProgress == task.dailyProgress[date := day.(completed := !day.completed, xpEarned := if day.completed then 0 else Gain(task, date, today))]
    ensures var day := task.dailyProgress[date];
      !day.completed && task.xp >= 0 ==> r.xp == task.xp + Gain(task, date, today)
    ensures var day := task.dailyProgress[date];
      day.completed && task.xp >= day.xpEarned ==> r.xp == task.xp - day.xpEarned
    ensures r.xp >= 0 && r.level == Level(r.xp)
    ensures r == CheckAndAwardBadges(r.(badges := task.badges))
  {
    var day := task.dailyProgress[date];
    CheckAndAwardBadges(Toggled(task, date, today, if !day.completed then Gain(task, date, today) else 0))
  }

  /** With the earned experience recorded, uncompleting a day takes back exactly what completing it gave. */
  lemma CompletionCycleRestoresXp(task: Task, date: int, today: int)
    requires date in task.dailyProgress && task.xp >= 0 && !task.dailyProgress[date].completed
    ensures var once := ToggleDay(task, date, today);
      var twice := ToggleDay(once, date, today);
      && once.xp > task.xp
      && twice.xp == task.xp && twice.level == Level(task.xp)
      && twice.dailyProgress[date] == task.dailyProgress[date].(xpEarned := 0)
  {
    var once := ToggleDay(task, date, today);
    assert once.dailyProgress[date].xpEarned == Gain(task, date, today);
    assert Gain(task, date, today) >= XpPerCompletion;
  }

  /**
   * `toggleTaskCompletion` as written: the tasks with the matching id toggled on `date`, a
   * completed day recording only the base experience; the others untouched.
   */
  function ToggleTaskCompletion(tasks: seq<Task>, taskId: string, date: int, today: int): (r: seq<Task>)
    requires forall i :: 0 <= i < |tasks| && tasks[i].id == taskId ==> date in tasks[i].dailyProgress
    ensures |r| == |tasks|
    ensures forall i :: 0 <= i < |tasks| ==> r[i] == if tasks[i].id == taskId then ToggleAsWritten(tasks[i], date, today) else tasks[i]
  {
    seq(|tasks|, i requires 0 <= i < |tasks| => if tasks[i].id == taskId then ToggleAsWritten(tasks[i], date, today) else tasks[i])
  }

  /** `toggleTaskCompletion` as intended: the same, with a completed day recording all it earned. */
  function ToggleTaskCompletionCorrected(tasks: seq<Task>, taskId: string, date: int, today: int): (r: seq<Task>)
    requires forall i :: 0 <= i < |tasks| && tasks[i].id == taskId ==> date in tasks[i].dailyProgress
    ensures |r| == |tasks|
    ensures forall i :: 0 <= i < |tasks| ==> r[i] == if tasks[i].id == taskId then ToggleDay(tasks[i], date, today) else tasks[i]
  {
    seq(|tasks|, i requires 0 <= i < |tasks| => if tasks[i].id == taskId then ToggleDay(tasks[i], date, today) else tasks[i])
  }

  /** On the page as written, completing and uncompleting a detailed day leaves 30 experience behind. */
  lemma PageCompletionCycleGainsXp(notes: string)
    requires JsLength(notes) > DetailLength
    ensures var day := DayProgress(false, notes, 0, None);
      var tasks := [Task("1", "Learn", "", "Learning", 0, 1, 0, 0, [], map[0 := day], false)];
      var once := ToggleTaskCompletion(tasks, "1", 0, 0);
      var twice := ToggleTaskCompletion(once, "1", 0, 0);
      once[0].xp == 80 && twice[0].xp == 30
  {
    var day := DayProgress(false, notes, 0, None);
    var task := Task("1", "Learn", "", "Learning", 0, 1, 0, 0, [], map[0 := day], false);
    CompletionCycleGainsXp(notes);
    var once := ToggleTaskCompletion([task], "1", 0, 0);
    assert once[0] == ToggleAsWritten(task, 0, 0);
    assert ToggleTaskCompletion(once, "1", 0, 0)[0] == ToggleAsWritten(once[0], 0, 0);
  }

  /** With the corrected toggle, completing and uncompleting a day gives every task its experience back. */
  lemma PageCompletionCycleRestoresXp(tasks: seq<Task>, taskId: string, date: int, today: int)
    requires forall i :: 0 <= i < |tasks| && tasks[i].id == taskId ==>
      date in tasks[i].dailyProgress && tasks[i].xp >= 0 && !tasks[i].dailyProgress[date].completed
    ensures var once := ToggleTaskCompletionCorrected(tasks, taskId, date, today);
      && (forall i :: 0 <= i < |once| && once[i].id == taskId ==> date in once[i].dailyProgress)
      && var twice := ToggleTaskCompletionCorrected(once, taskId, date, today);
      && (forall i :: 0 <= i < |tasks| && tasks[i].id == taskId ==> twice[i].xp == tasks[i].xp && twice[i].level == Level(tasks[i].xp))
      && (forall i :: 0 <= i < |tasks| && tasks[i].id != taskId ==> twice[i] == tasks[i])
  {
    var once := ToggleTaskCompletionCorrected(tasks, taskId, date, today);
    forall i | 0 <= i < |tasks| && tasks[i].id == taskId
      ensures once[i].id == taskId && date in once[i].dailyProgress
      ensures ToggleDay(once[i], date, today).xp == tasks[i].xp
      ensures ToggleDay(once[i], date, today).level == Level(tasks[i].xp)
    {
      ToggleDayTwice(tasks[i], date, today);
    }
  }

  /** One task through the corrected toggle twice: the same id and day, and its experience back. */
  lemma ToggleDayTwice(task: Task, date: int, today: int)
    requires date in task.dailyProgress && task.xp >= 0 && !task.dailyProgress[date].completed
    ensures var once := ToggleDay(task, date, today);
      && once.id == task.id && date in once.dailyProgress
      && ToggleDay(once, date, today).xp == task.xp
      && ToggleDay(once, date, today).level == Level(task.xp)
  {
    CompletionCycleRestoresXp(task, date, today);
  }

  // ---------------------------------------------------------------------------------------
  // updateTaskNote, toggleTaskExpansion

  /** The note being edited: which task and day, and its text. */
  datatype EditingNote = EditingNote(taskId: string, date: int, note: string)

  /**
   * A task's notes for a day replaced; 20 experience when they newly become detailed; then the
   * badges the updated task has earned are awarded.
   */
  function WithNote(task: Task, date: int, note: string): (r: Task)
    requires date in task.dailyProgress
    ensures var day := task.dailyProgress[date];
      var change := if JsLength(day.notes) <= DetailLength && JsLength(note) > DetailLength then XpDetailedNotes else 0;
      && r.xp == task.xp + change
      && r.dailyProgress == task.dailyProgress[date := day.(notes := note, xpEarned := day.xpEarned + change)]
      && r.(badges := task.badges, xp := task.xp, dailyProgress := task.dailyProgress) == task
    ensures r == CheckAndAwardBadges(r.(badges := task.badges))
    ensures task.badges <= r.badges
    ensures forall b :: b in BadgeIds && Earned(b, r) ==> b in r.badges
  {
    var day := task.dailyProgress[date];
    var wasDetailed := JsLength(day.notes) > DetailLength;
    var isNowDetailed := JsLength(note) > DetailLength;
    var xpChange := if !wasDetailed && isNowDetailed then XpDetailedNotes else 0;
    CheckAndAwardBadges(task.(xp := task.xp + xpChange, dailyProgress := task.dailyProgress[date := day.(notes := note, xpEarned := day.xpEarned + xpChange)]))
  }

  /**
   * `updateTaskNote`: when that note is the one being edited, it is saved into the matching
   * tasks and the editing ends; otherwise the editing starts with it and the tasks stay.
   */
  function UpdateTaskNote(tasks: seq<Task>, editing: Option<EditingNote>, taskId: string, date: int, note: string): (r: (seq<Task>, Option<EditingNote>))
    requires editing.Some? && editing.value.taskId == taskId && editing.value.date == date ==>
      forall i :: 0 <= i < |tasks| && tasks[i].id == taskId ==> date in tasks[i].dailyProgress
    ensures !(editing.Some? && editing.value.taskId == taskId && editing.value.date == date) ==>
      r == (tasks, Some(EditingNote(taskId, date, note)))
    ensures editing.Some? && editing.value.taskId == taskId && editing.value.date == date ==>
      && r.1 == None && |r.0| == |tasks|
      && forall i :: 0 <= i < |tasks| ==> r.0[i] == if tasks[i].id == taskId then WithNote(tasks[i], date, note) else tasks[i]
  {
    if editing.Some? && editing.value.taskId == taskId && editing.value.date == date then
      (seq(|tasks|, i requires 0 <= i < |tasks| => if tasks[i].id == taskId then WithNote(tasks[i], date, note) else tasks[i]), None)
    else (tasks, Some(EditingNote(taskId, date, note)))
  }

  /** Saving notes never lowers experience, and raises it by 20 exactly when they newly become detailed. */
  lemma NoteXpOnlyGrows(task: Task, date: int, note: string)
    requires date in task.dailyProgress
    ensures WithNote(task, date, note).xp >= task.xp
    ensures WithNote(task, date, note).xp > task.xp <==>
      JsLength(task.dailyProgress[date].notes) <= DetailLength < JsLength(note)
  {
  }

  /** `toggleTaskExpansion`: the matching tasks' `isExpanded` flipped. */
  function ToggleTaskExpansion(tasks: seq<Task>, taskId: string): (r: seq<Task>)
    ensures |r| == |tasks|
    ensures forall i :: 0 <= i < |tasks| ==> r[i] == if tasks[i].id == taskId then tasks[i].(isExpanded := !tasks[i].isExpanded) else tasks[i]
  {
    seq(|tasks|, i requires 0 <= i < |tasks| => if tasks[i].id == taskId then tasks[i].(isExpanded := !tasks[i].isExpanded) else tasks[i])
  }

  /** Expanding twice restores the tasks. */
  lemma ToggleExpansionTwice(tasks: seq<Task>, taskId: string)
    ensures ToggleTaskExpansion(ToggleTaskExpansion(tasks, taskId), taskId) == tasks
  {
  }

  // ---------------------------------------------------------------------------------------
  // The check-in form of a task's day

  datatype Mood = Great | Good | Okay | Bad

  /** The page's `DailyCheckin` record. */
  datatype TaskCheckin = TaskCheckin(date: string, mood: Mood, achievements: seq<string>, challenges: seq<string>, notes: string)

  /**
   * `list[index] = value` on a copy: the entry replaced, or appended when `index` is the
   * length; a negative index adds no entry. An index past the length, which leaves holes, is
   * not modelled.
   */
  function Assign(items: seq<string>, index: int, value: string): (r: seq<string>)
    requires index <= |items|
    ensures 0 <= index < |items| ==> r == items[index := value]
    ensures index == |items| ==> r == items + [value]
    ensures index < 0 ==> r == items
  {
    if index < 0 then items
    else if index < |items| then items[index := value]
    else items + [value]
  }

  function AddAchievement(c: TaskCheckin): (r: TaskCheckin)
    ensures r == c.(achievements := c.achievements + [""])
  {
    c.(achievements := c.achievements + [""])
  }

  function AddChallenge(c: TaskCheckin): (r: TaskCheckin)
    ensures r == c.(challenges := c.challenges + [""])
  {
    c.(challenges := c.challenges + [""])
  }

  function UpdateAchievement(c: TaskCheckin, index: int, value: string): TaskCheckin
    requires index <= |c.achievements|
  {
    c.(achievements := Assign(c.achievements, index, value))
  }

  function UpdateChallenge(c: TaskCheckin, index: int, value: string): TaskCheckin
    requires index <= |c.challenges|
  {
    c.(challenges := Assign(c.challenges, index, value))
  }

  function RemoveAchievement(c: TaskCheckin, index: int): TaskCheckin {
    c.(achievements := DailyCheckin.RemoveAt(c.achievements, index))
  }

  function RemoveChallenge(c: TaskCheckin, index: int): TaskCheckin {
    c.(challenges := DailyCheckin.RemoveAt(c.challenges, index))
  }

  /**
   * Each edit of the check-in form touches one list only; an update keeps the list's length
   * within it and removing the entry just added restores the form.
   */
  lemma CheckinEditsAreLocal(c: TaskCheckin, index: int, value: string)
    ensures RemoveAchievement(AddAchievement(c), |c.achievements|) == c
    ensures RemoveChallenge(AddChallenge(c), |c.challenges|) == c
    ensures 0 <= index < |c.achievements| ==>
      var r := UpdateAchievement(c, index, value);
      r.challenges == c.challenges && |r.achievements| == |c.achievements| && r.achievements[index] == value
    ensures 0 <= index < |c.challenges| ==>
      var r := UpdateChallenge(c, index, value);
      r.achievements == c.achievements && |r.challenges| == |c.challenges| && r.challenges[index] == value
  {
    assert (c.achievements + [""])[..|c.achievements|] == c.achievements;
    assert (c.challenges + [""])[..|c.challenges|] == c.challenges;
  }

  // ---------------------------------------------------------------------------------------
  // handleDailyCheckin

  /** The check-in form as the page resets it, dated `todayText`. */
  function NewTaskCheckin(todayText: string): TaskCheckin {
    TaskCheckin(todayText, Good, [""], [""], "")
  }

  /**
   * Today's record of the task with the check-in attached; a day not yet recorded gets an
   * uncompleted record without notes or experience.
   */
  function WithCheckin(task: Task, today: int, c: TaskCheckin): (r: Task)
    ensures today in r.dailyProgress && r.dailyProgress[today].checkin == Some(c)
    ensures today in task.dailyProgress ==> r.dailyProgress[today] == task.dailyProgress[today].(checkin := Some(c))
    ensures today !in task.dailyProgress ==> r.dailyProgress[today] == DayProgress(false, "", 0, Some(c))
    ensures forall d :: d != today ==> (d in r.dailyProgress <==> d in task.dailyProgress)
    ensures forall d :: d != today && d in task.dailyProgress ==> r.dailyProgress[d] == task.dailyProgress[d]
    ensures r.(dailyProgress := task.dailyProgress) == task
  {
    var day := if today in task.dailyProgress then task.dailyProgress[today] else DayProgress(false, "", 0, None);
    task.(dailyProgress := task.dailyProgress[today := day.(checkin := Some(c))])
  }

  /**
   * `handleDailyCheckin`: with a task id, the matching tasks get the check-in on today's
   * record, the form is hidden and reset to today; with none, nothing changes. Returns the
   * tasks, the form and whether it is shown.
   */
  function HandleDailyCheckin(tasks: seq<Task>, taskId: string, c: TaskCheckin, shown: bool, today: int, todayText: string): (r: (seq<Task>, TaskCheckin, bool))
    ensures taskId == "" ==> r == (tasks, c, shown)
    ensures taskId != "" ==> r.1 == NewTaskCheckin(todayText) && !r.2
    ensures taskId != "" ==> |r.0| == |tasks|
    ensures taskId != "" ==>
      forall i :: 0 <= i < |r.0| ==> r.0[i] == if tasks[i].id == taskId then WithCheckin(tasks[i], today, c) else tasks[i]
  {
    if taskId == "" then (tasks, c, shown)
    else
      (seq(|tasks|, i requires 0 <= i < |tasks| => if tasks[i].id == taskId then WithCheckin(tasks[i], today, c) else tasks[i]),
       NewTaskCheckin(todayText), false)
  }

  /**
   * A check-in on a day already recorded changes neither the streak, on any day, nor the
   * days that count as completed or detailed, so the badges earned stay as they were.
   */
  lemma CheckinKeepsProgress(task: Task, today: int, c: TaskCheckin, day: int)
    requires today in task.dailyProgress
    ensures var r := WithCheckin(task, today, c);
      && r.dailyProgress.Keys == task.dailyProgress.Keys
      && Streak(r.dailyProgress, day) == Streak(task.dailyProgress, day)
      && (forall b :: Earned(b, r) <==> Earned(b, task))
  {
    var r := WithCheckin(task, today, c);
    var p, q := r.dailyProgress, task.dailyProgress;
    assert p == q[today := q[today].(checkin := Some(c))];
    SameRecordsButCheckin(q, today, c);
    assert Streak(p, day) == Streak(q, day) by {
      StreakOfSameCompletion(p, q, SortedDesc(q.Keys), day);
    }
    assert DetailedDays(r) == DetailedDays(task) by {
      SameDetailedSet(p, q);
    }
    SameBadges(r, task);
  }

  /** Two versions of a task with the same completed days, streak and detailed days earn the same badges. */
  lemma SameBadges(r: Task, task: Task)
    requires r.dailyProgress.Keys == task.dailyProgress.Keys
    requires forall d :: d in task.dailyProgress ==> r.dailyProgress[d].completed == task.dailyProgress[d].completed
    requires r.streak == task.streak && DetailedDays(r) == DetailedDays(task)
    ensures forall b :: Earned(b, r) <==> Earned(b, task)
  {
    var p, q := r.dailyProgress, task.dailyProgress;
    assert (exists d :: d in p && p[d].completed) <==> (exists d :: d in q && q[d].completed) by {
      if exists d :: d in q && q[d].completed {
        var d :| d in q && q[d].completed;
        assert d in p && p[d].completed;
      }
      if exists d :: d in p && p[d].completed {
        var d :| d in p && p[d].completed;
        assert d in q && q[d].completed;
      }
    }
  }

  lemma SameDetailedSet(p: map<int, DayProgress>, q: map<int, DayProgress>)
    requires p.Keys == q.Keys && forall d :: d in q ==> p[d].notes == q[d].notes
    ensures DetailedSet(p) == DetailedSet(q)
  {
    forall d | d in DetailedSet(p)
      ensures d in DetailedSet(q)
    {
      assert d in q && p[d].notes == q[d].notes;
    }
    forall d | d in DetailedSet(q)
      ensures d in DetailedSet(p)
    {
      assert d in p && p[d].notes == q[d].notes;
    }
  }

  /** Setting a day's check-in keeps every day's completion and notes. */
  lemma SameRecordsButCheckin(q: map<int, DayProgress>, today: int, c: TaskCheckin)
    requires today in q
    ensures var p := q[today := q[today].(checkin := Some(c))];
      && p.Keys == q.Keys
      && forall d :: d in q ==> p[d].completed == q[d].completed && p[d].notes == q[d].notes
  {
  }
}
