/** The diary page (src/pages/DiaryPage.tsx): entries held newest first, a
    form (the draft) shared by "new entry" and "edit entry", a tag editor on
    the draft, a search box and a single expanded entry. */
module Diary {
  import opened Collections
  import opened Text

  datatype Entry = Entry(id: int, title: string, content: string, date: string, mood: string, tags: seq<string>)

  /** The form's contents: an entry without an id. */
  datatype Draft = Draft(title: string, content: string, date: string, mood: string, tags: seq<string>)

  /** The form after a reset: empty title and content, today's date, a neutral mood, no tags. */
  function BlankDraft(today: string): Draft {
    Draft("", "", today, "neutral", [])
  }

  /** `{ id, ...draft }`. */
  function FromDraft(id: int, d: Draft): Entry {
    Entry(id, d.title, d.content, d.date, d.mood, d.tags)
  }

  predicate HasEntry(es: seq<Entry>, id: int) {
    exists i :: 0 <= i < |es| && es[i].id == id
  }

  /** No stored entry lists a tag twice. */
  ghost predicate StoredTagsDistinct(es: seq<Entry>) {
    forall i :: 0 <= i < |es| ==> NoDuplicates(es[i].tags)
  }

  /** Every stored tag list, and the draft's, is free of duplicates. */
  ghost predicate TagsDistinct(es: seq<Entry>, d: Draft) {
    NoDuplicates(d.tags) && StoredTagsDistinct(es)
  }

  /** Putting an entry in front keeps the stored tag lists duplicate-free when its own list is. */
  lemma StoredTagsDistinctPrepend(e: Entry, es: seq<Entry>)
    requires NoDuplicates(e.tags) && StoredTagsDistinct(es)
    ensures StoredTagsDistinct([e] + es)
  {
    var all := [e] + es;
    forall i | 0 <= i < |all| ensures NoDuplicates(all[i].tags) {
      if i > 0 {
        assert all[i] == es[i - 1];
      }
    }
  }

  /** `toggleExpand(id)`: expands `id` unless it is the expanded entry, which collapses. */
  function ToggledExpansion(expanded: Option<int>, id: int): (r: Option<int>)
    ensures r == Some(id) <==> expanded != Some(id)
    ensures r == None <==> expanded == Some(id)
  {
    if expanded == Some(id) then None else Some(id)
  }

  /** Clicking the same entry twice restores what was expanded when that was nothing
      or this entry; when another entry was expanded, it ends with none expanded. */
  lemma ToggledExpansionTwice(expanded: Option<int>, id: int)
    ensures ToggledExpansion(ToggledExpansion(expanded, id), id) == expanded <==> expanded == None || expanded == Some(id)
    ensures ToggledExpansion(ToggledExpansion(expanded, id), id) != expanded ==> ToggledExpansion(ToggledExpansion(expanded, id), id) == None
  {
  }

  /** The entries after `saveEditedEntry(id)` with draft `d`: same length and order;
      each entry carrying `id` keeps it and takes every other field from the draft;
      the rest are untouched. */
  function Edited(es: seq<Entry>, id: int, d: Draft): (r: seq<Entry>)
    ensures |r| == |es|
    ensures forall i :: 0 <= i < |es| && es[i].id == id ==> r[i] == FromDraft(id, d)
    ensures forall i :: 0 <= i < |es| && es[i].id != id ==> r[i] == es[i]
  {
    seq(|es|, i requires 0 <= i < |es| =>
      if es[i].id == id then es[i].(title := d.title, content := d.content, date := d.date, mood := d.mood, tags := d.tags)
      else es[i])
  }

  /** Saving the same draft twice is saving it once; saving under an absent id changes
      nothing; the ids of the list never change. */
  lemma EditedProperties(es: seq<Entry>, id: int, d: Draft)
    ensures Edited(Edited(es, id, d), id, d) == Edited(es, id, d)
    ensures !HasEntry(es, id) ==> Edited(es, id, d) == es
    ensures forall i :: 0 <= i < |es| ==> Edited(es, id, d)[i].id == es[i].id
  {
    var once := Edited(es, id, d);
    assert forall i :: 0 <= i < |es| ==> once[i].id == es[i].id;
    if !HasEntry(es, id) {
      forall i | 0 <= i < |es| ensures once[i] == es[i] {
        assert es[i].id != id;
      }
    }
  }

  function EntryIdIsNot(id: int): Entry -> bool {
    (e: Entry) => e.id != id
  }

  /** The entries after `deleteEntry(id)`: those not carrying `id`, in their original order. */
  function WithoutEntry(es: seq<Entry>, id: int): (r: seq<Entry>)
    ensures Subsequence(r, es)
    ensures forall e :: e in r <==> e in es && e.id != id
    ensures forall e :: multiset(r)[e] == if e.id != id then multiset(es)[e] else 0
    ensures !HasEntry(r, id)
  {
    var r := Filter(es, EntryIdIsNot(id));
    FilterMultiplicity(es, EntryIdIsNot(id));
    assert forall i :: 0 <= i < |r| ==> r[i] in r;
    r
  }

  /** Deleting an absent id changes nothing, and only then. */
  lemma WithoutEntryAbsent(es: seq<Entry>, id: int)
    ensures WithoutEntry(es, id) == es <==> !HasEntry(es, id)
  {
    FilterKeepsAll(es, EntryIdIsNot(id));
  }

  /** The draft's tags after `addTag` with `newTag` typed: a blank input is ignored;
      otherwise its lower-cased (untrimmed) form is appended unless already present.
      Earlier tags stay in place and a duplicate-free list stays duplicate-free. */
  function WithTag(tags: seq<string>, newTag: string): (r: seq<string>)
    ensures IsBlank(newTag) || Lower(newTag) in tags ==> r == tags
    ensures !IsBlank(newTag) ==> Lower(newTag) in r
    ensures |tags| <= |r| <= |tags| + 1 && r[..|tags|] == tags
    ensures forall t :: t in r ==> t in tags || t == Lower(newTag)
    ensures NoDuplicates(tags) ==> NoDuplicates(r)
  {
    if IsBlank(newTag) then tags
    else if Lower(newTag) in tags then tags
    else
      var r := tags + [Lower(newTag)];
      assert r[..|tags|] == tags && r[|tags|] == Lower(newTag);
      if NoDuplicates(tags) then AppendFresh(tags, Lower(newTag)); r else r
  }

  function TagIsNot(tag: string): string -> bool {
    (t: string) => t != tag
  }

  /** The draft's tags after `removeTag(tag)`: every copy of `tag` gone, the others in order. */
  function WithoutTag(tags: seq<string>, tag: string): (r: seq<string>)
    ensures Subsequence(r, tags)
    ensures forall t :: t in r <==> t in tags && t != tag
    ensures forall t :: multiset(r)[t] == if t != tag then multiset(tags)[t] else 0
    ensures NoDuplicates(tags) ==> NoDuplicates(r)
  {
    var r := Filter(tags, TagIsNot(tag));
    FilterMultiplicity(tags, TagIsNot(tag));
    if NoDuplicates(tags) then
      SubsequenceNoDuplicates(r, tags);
      r
    else r
  }

  /** Removing a tag that is absent changes nothing, and only then. */
  lemma WithoutTagAbsent(tags: seq<string>, tag: string)
    ensures WithoutTag(tags, tag) == tags <==> tag !in tags
  {
    FilterKeepsAll(tags, TagIsNot(tag));
  }

  /** Removing a tag just added (one that was not there before) restores the tag list. */
  lemma WithTagThenWithoutTag(tags: seq<string>, newTag: string)
    requires !IsBlank(newTag) && Lower(newTag) !in tags
    ensures WithoutTag(WithTag(tags, newTag), Lower(newTag)) == tags
  {
    var tag := Lower(newTag);
    FilterAppend(tags, [tag], TagIsNot(tag));
    FilterKeepsAll(tags, TagIsNot(tag));
    assert Filter([tag], TagIsNot(tag)) == [];
  }

  /** The search box's test: the lower-cased term occurs in the lower-cased title, in
      the lower-cased content, or in one of the tags as stored. */
  predicate Matches(e: Entry, term: string) {
    var q := Lower(term);
    || Contains(Lower(e.title), q)
    || Contains(Lower(e.content), q)
    || exists j :: 0 <= j < |e.tags| && Contains(e.tags[j], q)
  }

  function MatchTest(term: string): Entry -> bool {
    (e: Entry) => Matches(e, term)
  }

  /** `filteredEntries`: the entries that match the term, in their original order. */
  function SearchEntries(es: seq<Entry>, term: string): (r: seq<Entry>)
    ensures Subsequence(r, es)
    ensures forall e :: e in r <==> e in es && Matches(e, term)
    ensures forall e :: multiset(r)[e] == if Matches(e, term) then multiset(es)[e] else 0
  {
    FilterMultiplicity(es, MatchTest(term));
    Filter(es, MatchTest(term))
  }

  /** An empty term shows every entry, an empty diary shows nothing whatever the
      term, and the case of the term makes no difference. */
  lemma SearchProperties(es: seq<Entry>, term: string)
    ensures SearchEntries(es, "") == es
    ensures SearchEntries([], term) == []
    ensures SearchEntries(es, term) == SearchEntries(es, Lower(term))
  {
    forall i | 0 <= i < |es| ensures MatchTest("")(es[i]) {
      ContainsEmpty(Lower(es[i].title));
    }
    FilterKeepsAll(es, MatchTest(""));
    LowerIdempotent(term);
    FilterCongruent(es, MatchTest(term), MatchTest(Lower(term)));
  }

  /** The state of the diary page: one field per piece of React state. */
  class DiaryPage {
    var entries: seq<Entry>
    var isWriting: bool
    var newEntry: Draft
    var newTag: string
    var searchTerm: string
    var expandedEntryId: Option<int>
    var editingEntryId: Option<int>

    /** The page as first rendered; `initialEntries` is the sample list and `today` the formatted current date. */
    constructor (initialEntries: seq<Entry>, today: string)
      ensures entries == initialEntries && !isWriting && newEntry == BlankDraft(today)
      ensures newTag == "" && searchTerm == "" && expandedEntryId == None && editingEntryId == None
    {
      entries := initialEntries;
      isWriting := false;
      newEntry := BlankDraft(today);
      newTag := "";
      searchTerm := "";
      expandedEntryId := None;
      editingEntryId := None;
    }

    method ToggleExpand(id: int)
      modifies this`expandedEntryId
      ensures expandedEntryId == ToggledExpansion(old(expandedEntryId), id)
    {
      expandedEntryId := if expandedEntryId == Some(id) then None else Some(id);
    }

    /** Loads `entry` into the form and marks it as being edited. */
    method StartEditing(entry: Entry)
      modifies this`editingEntryId, this`newEntry
      ensures editingEntryId == Some(entry.id)
      ensures newEntry == Draft(entry.title, entry.content, entry.date, entry.mood, entry.tags)
      ensures old(TagsDistinct(entries, newEntry)) && entry in entries ==> TagsDistinct(entries, newEntry)
    {
      editingEntryId := Some(entry.id);
      newEntry := Draft(entry.title, entry.content, entry.date, entry.mood, entry.tags);
    }

    method CancelEditing(today: string)
      modifies this`editingEntryId, this`newEntry
      ensures editingEntryId == None && newEntry == BlankDraft(today)
      ensures old(TagsDistinct(entries, newEntry)) ==> TagsDistinct(entries, newEntry)
    {
      editingEntryId := None;
      newEntry := BlankDraft(today);
    }

    /** Writes the form over the entries carrying `id` (no blank check here), then
        closes the editor and resets the form. */
    method SaveEditedEntry(id: int, today: string)
      modifies this`entries, this`editingEntryId, this`newEntry
      ensures entries == Edited(old(entries), id, old(newEntry))
      ensures editingEntryId == None && newEntry == BlankDraft(today)
      ensures old(TagsDistinct(entries, newEntry)) ==> TagsDistinct(entries, newEntry)
    {
      entries := Edited(entries, id, newEntry);
      editingEntryId := None;
      newEntry := BlankDraft(today);
    }

    method DeleteEntry(id: int)
      modifies this`entries
      ensures entries == WithoutEntry(old(entries), id)
      ensures old(TagsDistinct(entries, newEntry)) ==> TagsDistinct(entries, newEntry)
    {
      var kept := WithoutEntry(entries, id);
      assert forall i :: 0 <= i < |kept| ==> kept[i] in entries;
      entries := kept;
    }

    /** A blank tag input changes nothing; otherwise the tag is added to the draft
        (see `WithTag`) and the input is cleared. */
    method AddTag()
      modifies this`newEntry, this`newTag
      ensures newEntry == old(newEntry).(tags := WithTag(old(newEntry.tags), old(newTag)))
      ensures newTag == if IsBlank(old(newTag)) then old(newTag) else ""
      ensures NoDuplicates(old(newEntry.tags)) ==> NoDuplicates(newEntry.tags)
    {
      ghost var expected := WithTag(newEntry.tags, newTag);
      if IsBlank(newTag) {
        return;
      }
      var tag := Lower(newTag);
      if tag !in newEntry.tags {
        newEntry := newEntry.(tags := newEntry.tags + [tag]);
      }
      assert newEntry.tags == expected;
      newTag := "";
    }

    method RemoveTag(tag: string)
      modifies this`newEntry
      ensures newEntry == old(newEntry).(tags := WithoutTag(old(newEntry.tags), tag))
      ensures NoDuplicates(old(newEntry.tags)) ==> NoDuplicates(newEntry.tags)
    {
      newEntry := newEntry.(tags := WithoutTag(newEntry.tags, tag));
    }

    /** Form submit: ignored when the title or the content is blank; otherwise the
        draft becomes a new first entry, the form is reset and closed. `id` stands
        for `Date.now()`. */
    method SaveNewEntry(id: int, today: string)
      modifies this`entries, this`newEntry, this`isWriting
      ensures if IsBlank(old(newEntry.title)) || IsBlank(old(newEntry.content))
        then entries == old(entries) && newEntry == old(newEntry) && isWriting == old(isWriting)
        else entries == [FromDraft(id, old(newEntry))] + old(entries) && newEntry == BlankDraft(today) && !isWriting
      ensures old(TagsDistinct(entries, newEntry)) ==> TagsDistinct(entries, newEntry)
    {
      if IsBlank(newEntry.title) || IsBlank(newEntry.content) {
        return;
      }
      if TagsDistinct(entries, newEntry) {
        StoredTagsDistinctPrepend(FromDraft(id, newEntry), entries);
      }
      entries := [FromDraft(id, newEntry)] + entries;
      newEntry := BlankDraft(today);
      isWriting := false;
    }

    /** The entries the list shows for the current search term. */
    function FilteredEntries(): (r: seq<Entry>)
      reads this
      ensures Subsequence(r, entries)
      ensures forall e :: e in r <==> e in entries && Matches(e, searchTerm)
      ensures forall e :: multiset(r)[e] == if Matches(e, searchTerm) then multiset(entries)[e] else 0
    {
      SearchEntries(entries, searchTerm)
    }
  }
}
