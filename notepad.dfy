/**
 * The notepad page (src/pages/Notepad.tsx): notes with tags, a search and tag filter, an
 * ordering by the time of the last update, and the add / edit / delete form. Times are whole
 * numbers (milliseconds); ids and the current time are parameters.
 */
module Notepad {
  import opened Wrappers
  import opened Text

  /** `Note`. */
  datatype Note = Note(id: string, title: string, content: string, tags: seq<string>, createdAt: int, updatedAt: int)

  datatype SortOrder = Asc | Desc

  // ---------------------------------------------------------------------------------------
  // allTags

  /** `notes.flatMap(note => note.tags)`. */
  function FlatTags(notes: seq<Note>): (r: seq<string>)
    ensures forall t :: t in r <==> exists i :: 0 <= i < |notes| && t in notes[i].tags
  {
    if notes == [] then []
    else
      var front := notes[..|notes| - 1];
      var r := FlatTags(front) + notes[|notes| - 1].tags;
      assert forall i :: 0 <= i < |front| ==> front[i] == notes[i];
      r
  }

  /** `Array.from(new Set(items))`: the first occurrence of each item, in order. */
  function Unique(items: seq<string>): (r: seq<string>)
    ensures Distinct(r)
    ensures forall x :: x in r <==> x in items
  {
    if items == [] then []
    else
      var front, last := items[..|items| - 1], items[|items| - 1];
      var r := Unique(front);
      if last in front then r else r + [last]
  }

  /** `allTags`: every tag of any note, each exactly once. */
  function AllTags(notes: seq<Note>): (r: seq<string>)
    ensures Distinct(r)
    ensures forall t :: t in r <==> exists i :: 0 <= i < |notes| && t in notes[i].tags
  {
    Unique(FlatTags(notes))
  }

  /** The tags listed follow the notes' own order: a note's tags appear after those of the notes before it. */
  lemma {:induction false} UniqueKeepsFirstOccurrences(a: seq<string>, b: seq<string>)
    ensures Unique(a) <= Unique(a + b)
    decreases |b|
  {
    if b != [] {
      var front := a + b[..|b| - 1];
      assert (a + b)[..|a + b| - 1] == front;
      assert front == a + b[..|b| - 1];
      UniqueKeepsFirstOccurrences(a, b[..|b| - 1]);
    } else {
      assert a + b == a;
    }
  }

  // ---------------------------------------------------------------------------------------
  // filteredNotes

  /** `matchesSearch && matchesTags` for one note. */
  predicate Matches(note: Note, search: string, selected: seq<string>)
    ensures search == "" && selected == [] ==> Matches(note, search, selected)
    ensures Matches(note, search, selected) ==> forall t :: t in selected ==> t in note.tags
  {
    var matchesSearch := search == ""
      || Includes(ToLower(note.title), ToLower(search))
      || Includes(ToLower(note.content), ToLower(search));
    var matchesTags := |selected| == 0 || forall t :: t in selected ==> t in note.tags;
    matchesSearch && matchesTags
  }

  /** The filter step of `filteredNotes`: the matching notes, in their order. */
  function FilterNotes(notes: seq<Note>, search: string, selected: seq<string>): (r: seq<Note>)
    ensures |r| <= |notes|
    ensures forall i :: 0 <= i < |r| ==> Matches(r[i], search, selected)
  {
    if notes == [] then []
    else
      var last := notes[|notes| - 1];
      FilterNotes(notes[..|notes| - 1], search, selected) + if Matches(last, search, selected) then [last] else []
  }

  /** The filter keeps exactly the matching notes, none more often than it is stored. */
  lemma {:induction false} FilterKeepsMatches(notes: seq<Note>, search: string, selected: seq<string>)
    ensures var r := FilterNotes(notes, search, selected);
      && multiset(r) <= multiset(notes)
      && forall n :: n in r <==> n in notes && Matches(n, search, selected)
  {
    if notes != [] {
      var front, last := notes[..|notes| - 1], notes[|notes| - 1];
      FilterKeepsMatches(front, search, selected);
      assert notes == front + [last];
      assert multiset(notes) == multiset(front) + multiset{last};
    }
  }

  /** With no search and no tag selected, every note is shown. */
  lemma {:induction false} NoFilterKeepsAll(notes: seq<Note>)
    ensures FilterNotes(notes, "", []) == notes
  {
    if notes != [] {
      var front, last := notes[..|notes| - 1], notes[|notes| - 1];
      NoFilterKeepsAll(front);
      assert Matches(last, "", []);
      assert notes == front + [last];
    }
  }

  /** A search matches a note when it occurs, ignoring case, in its title. */
  lemma SearchInTitleMatches(note: Note, search: string, i: nat)
    requires OccursAt(ToLower(note.title), ToLower(search), i)
    ensures Matches(note, search, [])
  {
  }

  /** The ordering key: the update time, negated for the latest first. */
  function Key(note: Note, order: SortOrder): int {
    if order == Asc then note.updatedAt else -note.updatedAt
  }

  /** Ordered by update time, earliest first for `Asc` and latest first for `Desc`. */
  predicate Ordered(notes: seq<Note>, order: SortOrder) {
    forall i, j :: 0 <= i < j < |notes| ==> Key(notes[i], order) <= Key(notes[j], order)
  }

  /** Every note of the list has a key of at least `k`. */
  predicate KeysFrom(notes: seq<Note>, order: SortOrder, k: int) {
    forall i :: 0 <= i < |notes| ==> k <= Key(notes[i], order)
  }

  /** A note placed into a list, after the leading notes whose key is not greater than its own. */
  function Insert(note: Note, notes: seq<Note>, order: SortOrder): (r: seq<Note>)
    ensures multiset(r) == multiset(notes) + multiset{note}
  {
    if notes == [] then [note]
    else if Key(notes[0], order) <= Key(note, order) then
      assert notes == [notes[0]] + notes[1..];
      [notes[0]] + Insert(note, notes[1..], order)
    else
      [note] + notes
  }

  lemma {:induction false} InsertKeepsBound(note: Note, notes: seq<Note>, order: SortOrder, k: int)
    requires KeysFrom(notes, order, k) && k <= Key(note, order)
    ensures KeysFrom(Insert(note, notes, order), order, k)
  {
    if notes != [] && Key(notes[0], order) <= Key(note, order) {
      InsertKeepsBound(note, notes[1..], order, k);
    }
  }

  /** Inserting into an ordered list keeps it ordered. */
  lemma {:induction false} InsertOrdered(note: Note, notes: seq<Note>, order: SortOrder)
    requires Ordered(notes, order)
    ensures Ordered(Insert(note, notes, order), order)
  {
    if notes != [] {
      var k := Key(notes[0], order);
      if k <= Key(note, order) {
        InsertOrdered(note, notes[1..], order);
        InsertKeepsBound(note, notes[1..], order, k);
      } else {
        assert KeysFrom(notes, order, Key(note, order));
      }
    }
  }

  /** The sort step of `filteredNotes`: insertion in the list order, so notes with equal times keep their order. */
  function SortNotes(notes: seq<Note>, order: SortOrder): (r: seq<Note>)
    ensures multiset(r) == multiset(notes)
  {
    if notes == [] then []
    else
      var front, last := notes[..|notes| - 1], notes[|notes| - 1];
      assert notes == front + [last];
      Insert(last, SortNotes(front, order), order)
  }

  /** The sorted notes are ordered by update time as asked. */
  lemma {:induction false} SortNotesOrdered(notes: seq<Note>, order: SortOrder)
    ensures Ordered(SortNotes(notes, order), order)
  {
    if notes != [] {
      var front := notes[..|notes| - 1];
      SortNotesOrdered(front, order);
      InsertOrdered(notes[|notes| - 1], SortNotes(front, order), order);
    }
  }

  /** `filteredNotes`. */
  function FilteredNotes(notes: seq<Note>, search: string, selected: seq<string>, order: SortOrder): (r: seq<Note>)
    ensures |r| <= |notes|
  {
    var f := FilterNotes(notes, search, selected);
    assert |SortNotes(f, order)| == |multiset(SortNotes(f, order))| == |multiset(f)| == |f|;
    SortNotes(f, order)
  }

  /**
   * The notes shown are the matching notes, no note more often than it is stored, ordered by
   * update time as asked.
   */
  lemma FilteredNotesShowMatches(notes: seq<Note>, search: string, selected: seq<string>, order: SortOrder)
    ensures var r := FilteredNotes(notes, search, selected, order);
      && Ordered(r, order)
      && multiset(r) <= multiset(notes)
      && forall n :: n in r <==> n in notes && Matches(n, search, selected)
  {
    var f := FilterNotes(notes, search, selected);
    var r := FilteredNotes(notes, search, selected, order);
    FilterKeepsMatches(notes, search, selected);
    SortNotesOrdered(f, order);
    assert multiset(r) == multiset(f);
    forall n ensures n in r <==> n in f {
      assert n in r <==> n in multiset(r);
      assert n in f <==> n in multiset(f);
    }
  }

  // ---------------------------------------------------------------------------------------
  // Tags typed into the form

  /** `.map(tag => tag.trim())`. */
  function TrimAll(parts: seq<string>): (r: seq<string>)
    ensures |r| == |parts| && forall i :: 0 <= i < |r| ==> r[i] == Trim(parts[i])
  {
    seq(|parts|, i requires 0 <= i < |parts| => Trim(parts[i]))
  }

  /** `.filter(tag => tag !== '')`. */
  function NonEmpty(parts: seq<string>): (r: seq<string>)
    ensures forall i :: 0 <= i < |r| ==> r[i] != "" && r[i] in parts
  {
    if parts == [] then []
    else
      var front, last := parts[..|parts| - 1], parts[|parts| - 1];
      assert parts == front + [last];
      NonEmpty(front) + if last == "" then [] else [last]
  }

  /** The tags of `newNoteTags`: split at commas, trimmed, the empty ones dropped. */
  function ParseTags(text: string): (r: seq<string>)
    ensures forall i :: 0 <= i < |r| ==> r[i] != "" && IsTrimmed(r[i])
  {
    NonEmpty(TrimAll(Split(text, ',')))
  }

  /** The separator of the tags shown in the form. */
  const TagSeparator := ", "

  /** Tags the form gives back unchanged: non-empty, trimmed and without a comma. */
  predicate WellFormedTags(tags: seq<string>) {
    forall t :: t in tags ==> t != "" && IsTrimmed(t) && ',' !in t
  }

  /** Editing a note and saving it unchanged keeps its tags: parsing the joined tags gives them back. */
  lemma ParseJoinedTags(tags: seq<string>)
    requires WellFormedTags(tags)
    ensures ParseTags(Join(tags, TagSeparator)) == tags
  {
    if tags == [] {
      assert Split("", ',') == [""];
      assert TrimAll([""]) == [""];
      assert NonEmpty([""]) == NonEmpty([]) + [];
    } else {
      assert "" + Join(tags, TagSeparator) == Join(tags, TagSeparator);
      TrimSplitJoined("", tags);
      NonEmptyOfFilled(tags);
    }
  }

  lemma {:induction false} NonEmptyOfFilled(parts: seq<string>)
    requires forall t :: t in parts ==> t != ""
    ensures NonEmpty(parts) == parts
  {
    if parts != [] {
      var front := parts[..|parts| - 1];
      assert forall t :: t in front ==> t in parts;
      NonEmptyOfFilled(front);
      assert parts[|parts| - 1] in parts;
      assert parts == front + [parts[|parts| - 1]];
    }
  }

  /** The pieces of the joined tags, after any leading white space, trim back to the tags. */
  lemma {:induction false} TrimSplitJoined(pre: string, tags: seq<string>)
    requires AllSpace(pre) && tags != [] && WellFormedTags(tags)
    ensures TrimAll(Split(pre + Join(tags, TagSeparator), ',')) == tags
    decreases |tags|
  {
    var first := tags[0];
    assert first in tags;
    NoCommaInSpace(pre);
    TrimOfPadded(pre, first, "");
    assert pre + first + "" == pre + first;
    if |tags| == 1 {
      assert pre + Join(tags, TagSeparator) == pre + first;
      SplitWithoutSep(pre + first, ',');
      assert TrimAll([pre + first]) == [first];
    } else {
      var rest := Join(tags[1..], TagSeparator);
      var pieces := Split(" " + rest, ',');
      JoinedStep(pre, tags);
      SplitAtFirstSep(pre + first, " " + rest, ',');
      assert Split(pre + Join(tags, TagSeparator), ',') == [pre + first] + pieces;
      assert forall t :: t in tags[1..] ==> t in tags;
      assert AllSpace(" ");
      TrimSplitJoined(" ", tags[1..]);
      TrimAllCons(pre + first, pieces);
      ConsOfRest(tags);
    }
  }

  lemma ConsOfRest(tags: seq<string>)
    requires tags != []
    ensures [tags[0]] + tags[1..] == tags
  {
  }

  lemma NoCommaInSpace(pre: string)
    requires AllSpace(pre)
    ensures ',' !in pre
  {
    assert !IsSpace(',');
  }

  lemma JoinedStep(pre: string, tags: seq<string>)
    requires |tags| >= 2
    ensures pre + Join(tags, TagSeparator) == (pre + tags[0]) + [','] + (" " + Join(tags[1..], TagSeparator))
  {
    var rest := Join(tags[1..], TagSeparator);
    assert Join(tags, TagSeparator) == tags[0] + ", " + rest;
  }

  lemma TrimAllCons(a: string, parts: seq<string>)
    ensures TrimAll([a] + parts) == [Trim(a)] + TrimAll(parts)
  {
    var xs := [a] + parts;
    var l, tail := TrimAll(xs), TrimAll(parts);
    var r := [Trim(a)] + tail;
    assert |l| == |r|;
    forall i | 0 <= i < |l|
      ensures l[i] == r[i]
    {
      if i == 0 {
        assert xs[0] == a;
      } else {
        ConsIndex(a, parts, i);
        ConsIndex(Trim(a), tail, i);
      }
    }
    assert l == r;
  }

  lemma ConsIndex<T>(a: T, parts: seq<T>, i: int)
    requires 0 < i <= |parts|
    ensures ([a] + parts)[i] == parts[i - 1]
  {
  }

  // ---------------------------------------------------------------------------------------
  // The page's handlers

  /** The state of the page. */
  datatype Page = Page(
    notes: seq<Note>, searchTerm: string, sortOrder: SortOrder, selectedTags: seq<string>,
    showForm: bool, editing: Option<Note>, title: string, content: string, tagsText: string)

  /** `resetForm`. */
  function ResetForm(p: Page): (r: Page)
    ensures r.notes == p.notes && r.searchTerm == p.searchTerm && r.sortOrder == p.sortOrder && r.selectedTags == p.selectedTags
    ensures r.title == "" && r.content == "" && r.tagsText == "" && r.editing == None && !r.showForm
  {
    p.(title := "", content := "", tagsText := "", editing := None, showForm := false)
  }

  /** `handleAddNote`: a title that is not blank adds the note from the form and resets it; otherwise nothing changes. */
  function AddNote(p: Page, id: string, now: int): (r: Page)
    ensures IsBlank(p.title) ==> r == p
    ensures !IsBlank(p.title) ==>
      && r == ResetForm(p).(notes := p.notes + [Note(id, p.title, p.content, ParseTags(p.tagsText), now, now)])
  {
    if IsBlank(p.title) then p
    else ResetForm(p).(notes := p.notes + [Note(id, p.title, p.content, ParseTags(p.tagsText), now, now)])
  }

  /** The note with the form's title, content and tags, updated at `now`. */
  function Edited(note: Note, p: Page, now: int): Note {
    note.(title := p.title, content := p.content, tags := ParseTags(p.tagsText), updatedAt := now)
  }

  /**
   * `handleUpdateNote`: while a note is being edited and the title is not blank, every note
   * with its id takes the form's fields and the form is reset; otherwise nothing changes.
   */
  function UpdateNote(p: Page, now: int): (r: Page)
    ensures p.editing == None || IsBlank(p.title) ==> r == p
    ensures p.editing != None && !IsBlank(p.title) ==>
      && r == ResetForm(p).(notes := r.notes)
      && |r.notes| == |p.notes|
      && forall i :: 0 <= i < |p.notes| ==>
           r.notes[i] == if p.notes[i].id == p.editing.value.id then Edited(p.notes[i], p, now) else p.notes[i]
  {
    if p.editing == None || IsBlank(p.title) then p
    else ResetForm(p).(notes := EditNotes(p.notes, p.editing.value.id, p, now))
  }

  /** The notes with every one carrying `id` edited from the form. */
  function EditNotes(notes: seq<Note>, id: string, p: Page, now: int): (r: seq<Note>)
    ensures |r| == |notes|
    ensures forall i :: 0 <= i < |notes| ==> r[i] == if notes[i].id == id then Edited(notes[i], p, now) else notes[i]
  {
    seq(|notes|, i requires 0 <= i < |notes| => if notes[i].id == id then Edited(notes[i], p, now) else notes[i])
  }

  /** `handleDeleteNote`: the notes without that id, in their order. */
  function DeleteNote(notes: seq<Note>, id: string): (r: seq<Note>)
    ensures |r| <= |notes|
    ensures forall i :: 0 <= i < |r| ==> r[i].id != id
  {
    if notes == [] then []
    else
      var last := notes[|notes| - 1];
      DeleteNote(notes[..|notes| - 1], id) + if last.id == id then [] else [last]
  }

  /** Deleting removes exactly the notes with that id. */
  lemma {:induction false} DeleteRemovesId(notes: seq<Note>, id: string)
    ensures forall n :: n in DeleteNote(notes, id) <==> n in notes && n.id != id
  {
    if notes != [] {
      var front, last := notes[..|notes| - 1], notes[|notes| - 1];
      DeleteRemovesId(front, id);
      assert notes == front + [last];
    }
  }

  /** Deleting works note by note, so the notes kept stay in their order. */
  lemma {:induction false} DeleteKeepsOrder(a: seq<Note>, b: seq<Note>, id: string)
    ensures DeleteNote(a + b, id) == DeleteNote(a, id) + DeleteNote(b, id)
    decreases |b|
  {
    if b == [] {
      assert a + b == a;
    } else {
      var front, last := b[..|b| - 1], b[|b| - 1];
      var kept := if last.id == id then [] else [last];
      DeleteKeepsOrder(a, front, id);
      assert (a + b)[..|a + b| - 1] == a + front && (a + b)[|a + b| - 1] == last;
      assert DeleteNote(a + b, id) == DeleteNote(a + front, id) + kept;
      assert DeleteNote(b, id) == DeleteNote(front, id) + kept;
    }
  }

  /** Deleting an id no note has changes nothing. */
  lemma {:induction false} DeleteMissing(notes: seq<Note>, id: string)
    requires forall n :: n in notes ==> n.id != id
    ensures DeleteNote(notes, id) == notes
  {
    if notes != [] {
      DeleteMissing(notes[..|notes| - 1], id);
      assert notes == notes[..|notes| - 1] + [notes[|notes| - 1]];
    }
  }

  /** `startEditNote`: the form shows the note, its tags joined by `", "`. */
  function StartEditNote(p: Page, note: Note): (r: Page)
    ensures r.notes == p.notes && r.searchTerm == p.searchTerm && r.sortOrder == p.sortOrder && r.selectedTags == p.selectedTags
    ensures r.editing == Some(note) && r.showForm
    ensures r.title == note.title && r.content == note.content && r.tagsText == Join(note.tags, TagSeparator)
  {
    p.(editing := Some(note), title := note.title, content := note.content,
       tagsText := Join(note.tags, TagSeparator), showForm := true)
  }

  /**
   * Opening a note for editing and saving it untouched only moves its update time: its title,
   * content and tags come back as they were.
   */
  lemma EditUnchangedKeepsNote(p: Page, note: Note, now: int)
    requires !IsBlank(note.title) && WellFormedTags(note.tags)
    ensures var r := UpdateNote(StartEditNote(p, note), now);
      && |r.notes| == |p.notes|
      && forall i :: 0 <= i < |p.notes| ==>
           r.notes[i] == if p.notes[i].id == note.id then p.notes[i].(title := note.title, content := note.content, tags := note.tags, updatedAt := now) else p.notes[i]
  {
    var q := StartEditNote(p, note);
    assert q.editing == Some(note) && !IsBlank(q.title);
    var r := UpdateNote(q, now);
    forall i | 0 <= i < |p.notes| && p.notes[i].id == note.id
      ensures r.notes[i] == p.notes[i].(title := note.title, content := note.content, tags := note.tags, updatedAt := now)
    {
      EditedFromNote(p.notes[i], p, note, now);
    }
  }

  /** A note edited from a form filled by `startEditNote` takes that note's fields. */
  lemma EditedFromNote(n: Note, p: Page, note: Note, now: int)
    requires WellFormedTags(note.tags)
    ensures Edited(n, StartEditNote(p, note), now) == n.(title := note.title, content := note.content, tags := note.tags, updatedAt := now)
  {
    ParseJoinedTags(note.tags);
  }

  /** `toggleTagSelection`: a selected tag is dropped, another one added at the end. */
  function ToggleTagSelection(selected: seq<string>, tag: string): (r: seq<string>)
    ensures tag in r <==> tag !in selected
    ensures forall t :: t != tag ==> (t in r <==> t in selected)
  {
    if tag in selected then Without(selected, tag) else selected + [tag]
  }

  /** `selected.filter(t => t !== tag)`. */
  function Without(selected: seq<string>, tag: string): (r: seq<string>)
    ensures forall t :: t in r <==> t in selected && t != tag
  {
    if selected == [] then []
    else
      var front, last := selected[..|selected| - 1], selected[|selected| - 1];
      assert selected == front + [last];
      Without(front, tag) + if last == tag then [] else [last]
  }

  /** Toggling a tag twice restores the selection, as a set; a tag not selected comes back exactly. */
  lemma ToggleTagTwice(selected: seq<string>, tag: string)
    ensures var r := ToggleTagSelection(ToggleTagSelection(selected, tag), tag);
      forall t :: t in r <==> t in selected
    ensures tag !in selected ==> ToggleTagSelection(ToggleTagSelection(selected, tag), tag) == selected
  {
    if tag !in selected {
      WithoutLast(selected, tag);
    }
  }

  lemma WithoutLast(selected: seq<string>, tag: string)
    requires tag !in selected
    ensures Without(selected + [tag], tag) == selected
  {
    assert (selected + [tag])[..|selected|] == selected;
    WithoutMissing(selected, tag);
  }

  lemma {:induction false} WithoutMissing(selected: seq<string>, tag: string)
    requires tag !in selected
    ensures Without(selected, tag) == selected
  {
    if selected != [] {
      WithoutMissing(selected[..|selected| - 1], tag);
      assert selected == selected[..|selected| - 1] + [selected[|selected| - 1]];
    }
  }

  /** `toggleSortOrder`. */
  function ToggleSortOrder(order: SortOrder): (r: SortOrder)
    ensures r != order
  {
    if order == Asc then Desc else Asc
  }

  /** Toggling the order twice restores it. */
  lemma ToggleSortTwice(order: SortOrder)
    ensures ToggleSortOrder(ToggleSortOrder(order)) == order
  {
  }
}
