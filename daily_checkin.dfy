/**
 * The daily check-in form (src/components/DailyCheckin.tsx): a mood and three lists of entries
 * (learnings, challenges, goals), the score the check-in earns, and the edits of the lists.
 */
module DailyCheckin {
  import opened Text

  datatype Mood = Great | Good | Okay | Bad

  /** Which of the three lists an edit applies to. */
  datatype ListKind = Learnings | Challenges | Goals

  /** `CheckinData`; the date is the `YYYY-MM-DD` text the form keeps. */
  datatype CheckinData = CheckinData(date: string, mood: Mood, learnings: seq<string>, challenges: seq<string>, goals: seq<string>, score: int)

  /** The base score for completing a check-in. */
  const BaseScore: nat := 10

  /** The `length`, in UTF-16 code units, a learning must exceed to earn the bonus for detail. */
  const DetailLength: nat := 50

  function MoodBonus(mood: Mood): nat {
    match mood
    case Great => 5
    case Good => 3
    case Okay => 1
    case Bad => 0
  }

  /** `items.filter(x => x.trim().length > 0)`: the entries that are not blank, in order. */
  function Valid(items: seq<string>): (r: seq<string>)
    ensures |r| <= |items|
  {
    if items == [] then []
    else
      var last := items[|items| - 1];
      Valid(items[..|items| - 1]) + (if IsBlank(last) then [] else [last])
  }

  /** The kept entries are exactly the entries that are not blank. */
  lemma {:induction false} ValidKeepsFilled(items: seq<string>)
    ensures forall x :: x in Valid(items) <==> x in items && !IsBlank(x)
  {
    if items != [] {
      var front, last := items[..|items| - 1], items[|items| - 1];
      ValidKeepsFilled(front);
      assert items == front + [last];
    }
  }

  /** How many of the entries are longer than `DetailLength`. */
  function CountDetailed(items: seq<string>): (r: nat)
    ensures r <= |items|
  {
    if items == [] then 0
    else CountDetailed(items[..|items| - 1]) + (if JsLength(items[|items| - 1]) > DetailLength then 1 else 0)
  }

  lemma CountDetailedSnoc(items: seq<string>, x: string)
    ensures CountDetailed(items + [x]) == CountDetailed(items) + if JsLength(x) > DetailLength then 1 else 0
  {
    assert (items + [x])[..|items|] == items;
  }

  /** Counting one more entry of a prefix. */
  lemma CountDetailedPrefix(items: seq<string>, i: nat)
    requires i < |items|
    ensures CountDetailed(items[..i + 1]) == CountDetailed(items[..i]) + if JsLength(items[i]) > DetailLength then 1 else 0
  {
    assert items[..i + 1][..i] == items[..i];
  }

  /**
   * `calculateScore`: the base, the mood's bonus, 5 per non-blank learning and 3 more for each
   * of them longer than 50 UTF-16 code units, 3 per non-blank challenge and 4 per non-blank goal.
   */
  function Score(data: CheckinData): (r: int)
    ensures r >= BaseScore
  {
    var learnings := Valid(data.learnings);
    BaseScore + MoodBonus(data.mood) + 5 * |learnings| + 3 * CountDetailed(learnings)
      + 3 * |Valid(data.challenges)| + 4 * |Valid(data.goals)|
  }

  /** `calculateScore`, step by step as the form computes it. */
  method CalculateScore(data: CheckinData) returns (score: int)
    ensures score == Score(data)
  {
    score := 0;
    score := score + BaseScore;
    if data.mood == Great {
      score := score + 5;
    } else if data.mood == Good {
      score := score + 3;
    } else if data.mood == Okay {
      score := score + 1;
    }
    var validLearnings := Valid(data.learnings);
    score := score + |validLearnings| * 5;
    ghost var base := score;
    var i := 0;
    while i < |validLearnings|
      invariant 0 <= i <= |validLearnings|
      invariant score == base + 3 * CountDetailed(validLearnings[..i])
    {
      if JsLength(validLearnings[i]) > DetailLength {
        score := score + 3;
      }
      CountDetailedPrefix(validLearnings, i);
      i := i + 1;
    }
    assert validLearnings[..i] == validLearnings;
    var validChallenges := Valid(data.challenges);
    score := score + |validChallenges| * 3;
    var validGoals := Valid(data.goals);
    score := score + |validGoals| * 4;
  }

  // ---------------------------------------------------------------------------------------
  // The score entry by entry

  /** What one learning earns: nothing when blank, 5, and 3 more when longer than 50 UTF-16 code units. */
  function LearningPoints(l: string): nat {
    if IsBlank(l) then 0 else if JsLength(l) > DetailLength then 8 else 5
  }

  function ChallengePoints(c: string): nat {
    if IsBlank(c) then 0 else 3
  }

  function GoalPoints(g: string): nat {
    if IsBlank(g) then 0 else 4
  }

  /** The sum of what each entry earns. */
  function Sum(items: seq<string>, points: string -> nat): nat {
    if items == [] then 0 else Sum(items[..|items| - 1], points) + points(items[|items| - 1])
  }

  lemma {:induction false} LearningsSum(items: seq<string>)
    ensures Sum(items, LearningPoints) == 5 * |Valid(items)| + 3 * CountDetailed(Valid(items))
  {
    if items != [] {
      var front, last := items[..|items| - 1], items[|items| - 1];
      LearningsSum(front);
      var v := Valid(front);
      assert Sum(items, LearningPoints) == Sum(front, LearningPoints) + LearningPoints(last);
      if IsBlank(last) {
        assert Valid(items) == v;
      } else {
        assert Valid(items) == v + [last];
        CountDetailedSnoc(v, last);
      }
    }
  }

  lemma {:induction false} ChallengesSum(items: seq<string>)
    ensures Sum(items, ChallengePoints) == 3 * |Valid(items)|
  {
    if items != [] {
      var front, last := items[..|items| - 1], items[|items| - 1];
      ChallengesSum(front);
      assert Sum(items, ChallengePoints) == Sum(front, ChallengePoints) + ChallengePoints(last);
    }
  }

  lemma {:induction false} GoalsSum(items: seq<string>)
    ensures Sum(items, GoalPoints) == 4 * |Valid(items)|
  {
    if items != [] {
      var front, last := items[..|items| - 1], items[|items| - 1];
      GoalsSum(front);
      assert Sum(items, GoalPoints) == Sum(front, GoalPoints) + GoalPoints(last);
    }
  }

  /**
   * The score is the base and the mood's bonus plus what each entry earns on its own: blank
   * entries earn nothing, wherever they stand.
   */
  lemma ScoreByEntry(data: CheckinData)
    ensures Score(data) == BaseScore + MoodBonus(data.mood) + Sum(data.learnings, LearningPoints)
      + Sum(data.challenges, ChallengePoints) + Sum(data.goals, GoalPoints)
  {
    LearningsSum(data.learnings);
    ChallengesSum(data.challenges);
    GoalsSum(data.goals);
  }

  /** A blank entry added to any list leaves the score as it was. */
  lemma BlankEntryScoresNothing(data: CheckinData, kind: ListKind, blank: string)
    requires IsBlank(blank)
    ensures Score(AddTo(data, kind, blank)) == Score(data)
  {
    var items := Items(data, kind);
    assert (items + [blank])[..|items|] == items;
    assert Valid(items + [blank]) == Valid(items);
    match kind
    case Learnings =>
    case Challenges =>
    case Goals =>
  }

  /** The list an edit applies to. */
  function Items(data: CheckinData, kind: ListKind): seq<string> {
    match kind
    case Learnings => data.learnings
    case Challenges => data.challenges
    case Goals => data.goals
  }

  /** The check-in with one list replaced. */
  function WithItems(data: CheckinData, kind: ListKind, items: seq<string>): (r: CheckinData)
    ensures Items(r, kind) == items
    ensures forall k :: k != kind ==> Items(r, k) == Items(data, k)
    ensures r.date == data.date && r.mood == data.mood && r.score == data.score
  {
    match kind
    case Learnings => data.(learnings := items)
    case Challenges => data.(challenges := items)
    case Goals => data.(goals := items)
  }

  /** The chosen list with one more entry at its end. */
  function AddTo(data: CheckinData, kind: ListKind, entry: string): CheckinData {
    WithItems(data, kind, Items(data, kind) + [entry])
  }

  // ---------------------------------------------------------------------------------------
  // handleSave, addItem, updateItem, removeItem

  /** `handleSave`: the check-in passed on with its score set and every other field as it was. */
  method HandleSave(data: CheckinData) returns (saved: CheckinData)
    ensures saved.score == Score(data) && saved.(score := data.score) == data
  {
    var score := CalculateScore(data);
    saved := data.(score := score);
  }

  /** `addItem`: an empty entry at the end of the chosen list; nothing else changes. */
  function AddItem(data: CheckinData, kind: ListKind): (r: CheckinData)
    ensures Items(r, kind) == Items(data, kind) + [""]
    ensures forall k :: k != kind ==> Items(r, k) == Items(data, k)
    ensures r.date == data.date && r.mood == data.mood && r.score == data.score
  {
    AddTo(data, kind, "")
  }

  /** `updateItem`: the entry at `index` of the chosen list replaced; an index outside the list changes nothing. */
  function UpdateItem(data: CheckinData, kind: ListKind, index: int, value: string): (r: CheckinData)
    ensures |Items(r, kind)| == |Items(data, kind)|
    ensures forall i :: 0 <= i < |Items(r, kind)| ==> Items(r, kind)[i] == if i == index then value else Items(data, kind)[i]
    ensures forall k :: k != kind ==> Items(r, k) == Items(data, k)
    ensures r.date == data.date && r.mood == data.mood && r.score == data.score
  {
    var items := Items(data, kind);
    WithItems(data, kind, seq(|items|, i requires 0 <= i < |items| => if i == index then value else items[i]))
  }

  /** `items.filter((_, i) => i !== index)`: the entry at `index` removed; an index outside the list removes nothing. */
  function RemoveAt(items: seq<string>, index: int): (r: seq<string>)
    ensures 0 <= index < |items| ==> |r| == |items| - 1 && r[..index] == items[..index] && r[index..] == items[index + 1..]
    ensures !(0 <= index < |items|) ==> r == items
  {
    if 0 <= index < |items| then items[..index] + items[index + 1..] else items
  }

  /** `removeItem`: the entry at `index` of the chosen list removed; an index outside the list changes nothing. */
  function RemoveItem(data: CheckinData, kind: ListKind, index: int): (r: CheckinData)
    ensures Items(r, kind) == RemoveAt(Items(data, kind), index)
    ensures forall k :: k != kind ==> Items(r, k) == Items(data, k)
    ensures r.date == data.date && r.mood == data.mood && r.score == data.score
  {
    WithItems(data, kind, RemoveAt(Items(data, kind), index))
  }

  /** Removing the entry just added restores the check-in. */
  lemma RemoveUndoesAdd(data: CheckinData, kind: ListKind)
    ensures RemoveItem(AddItem(data, kind), kind, |Items(data, kind)|) == data
  {
    var items := Items(data, kind);
    assert (items + [""])[..|items|] == items;
    match kind
    case Learnings =>
    case Challenges =>
    case Goals =>
  }

  /** Writing back the old entry undoes an update. */
  lemma UpdateUndone(data: CheckinData, kind: ListKind, index: nat, value: string)
    requires index < |Items(data, kind)|
    ensures UpdateItem(UpdateItem(data, kind, index, value), kind, index, Items(data, kind)[index]) == data
  {
    var r := UpdateItem(UpdateItem(data, kind, index, value), kind, index, Items(data, kind)[index]);
    assert Items(r, kind) == Items(data, kind);
    match kind
    case Learnings =>
    case Challenges =>
    case Goals =>
  }

  /** A new form: today's date, a good mood, one empty entry in each list. */
  function NewCheckin(today: string): (r: CheckinData)
    ensures Score(r) == BaseScore + MoodBonus(Good)
  {
    CheckinData(today, Good, [""], [""], [""], 0)
  }
}
