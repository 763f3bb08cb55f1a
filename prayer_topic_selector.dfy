/**
 * The prayer-topic picker on the prayer form. It is a controlled field: the
 * selected ids come in as a prop and every click hands a new id list to
 * `onChange`. The picked topics show as removable chips, in the order of the
 * topic list; the dropdown button names how many ids are picked.
 */
module PrayerTopicSelector {
  import opened JsValues
  import Text

  /** A topic the picker offers: id and title. */
  datatype TopicOption = TopicOption(id: string, title: string)

  /** `handleRemove(id)`: the list `onChange` receives, every copy of `id` gone and the rest kept in order. */
  function Remove(selectedIds: seq<string>, id: string): (ids: seq<string>)
    ensures id !in ids
    ensures multiset(ids) == multiset(selectedIds)[id := 0]
    ensures forall x :: x in ids <==> x in selectedIds && x != id
  {
    Text.RemoveAllCounts(selectedIds, id);
    var ids := Text.RemoveAll(selectedIds, id);
    assert forall x :: (x in ids <==> x in multiset(ids)) && (x in selectedIds <==> x in multiset(selectedIds));
    ids
  }

  /** `handleToggle(id)`: a picked id is removed, any other is appended. */
  function Toggle(selectedIds: seq<string>, id: string): (ids: seq<string>)
    ensures id in ids <==> id !in selectedIds
    ensures forall x :: x != id ==> (x in ids <==> x in selectedIds)
    ensures id !in selectedIds ==> ids == selectedIds + [id]
    ensures id in selectedIds ==> ids == Remove(selectedIds, id) && |ids| < |selectedIds|
  {
    if id in selectedIds then
      Text.RemoveAllShorter(selectedIds, id);
      Remove(selectedIds, id)
    else selectedIds + [id]
  }

  /** `selectedTopics`: the offered topics whose id is picked, in offer order. */
  function SelectedTopics(topics: seq<TopicOption>, selectedIds: seq<string>): (chips: seq<TopicOption>)
    ensures |chips| <= |topics|
    ensures forall t :: t in chips <==> t in topics && t.id in selectedIds
  {
    if topics == [] then []
    else
      var rest := SelectedTopics(topics[1..], selectedIds);
      assert forall t :: t in topics <==> t == topics[0] || t in topics[1..];
      if topics[0].id in selectedIds then [topics[0]] + rest else rest
  }

  const LoadingCaption := "\U{BD88}\U{B7EC}\U{C624}\U{B294} \U{C911}..."
  const CountSuffix := "\U{AC1C} \U{C120}\U{D0DD}\U{B428}"
  const EmptyCaption := "\U{AE30}\U{B3C4}\U{C81C}\U{BAA9} \U{C120}\U{D0DD} (\U{C120}\U{D0DD}\U{C0AC}\U{D56D})"

  /** The dropdown button's text: loading, the number of picked ids, or the invitation to pick. */
  function ButtonCaption(isLoading: bool, selectedIds: seq<string>): (caption: string)
    ensures isLoading ==> caption == LoadingCaption
    ensures !isLoading && selectedIds == [] ==> caption == EmptyCaption
    ensures !isLoading && selectedIds != [] ==>
              |caption| > |CountSuffix| && caption[|caption| - |CountSuffix|..] == CountSuffix
  {
    if isLoading then LoadingCaption
    else if |selectedIds| > 0 then NatToString(|selectedIds|) + CountSuffix
    else EmptyCaption
  }

  // ---------------------------------------------------------------------
  // Properties

  /** The count in the button reads back as the number of picked ids. */
  lemma CaptionCountsSelection(selectedIds: seq<string>)
    requires selectedIds != []
    ensures var caption := ButtonCaption(false, selectedIds);
      var digits := caption[..|caption| - |CountSuffix|];
      (forall i :: 0 <= i < |digits| ==> IsAsciiDigit(digits[i])) && DecimalValue(digits) == |selectedIds|
  {
    var caption := ButtonCaption(false, selectedIds);
    assert caption[..|caption| - |CountSuffix|] == NatToString(|selectedIds|);
    NatToStringValue(|selectedIds|);
  }

  /** Removal works id by id: a kept id stays where it was, so order and repeats survive. */
  lemma RemoveAppend(a: seq<string>, b: seq<string>, id: string)
    ensures Remove(a + b, id) == Remove(a, id) + Remove(b, id)
    ensures Remove([], id) == []
    ensures forall x :: Remove([x], id) == if x == id then [] else [x]
  {
    Text.RemoveAllAppend(a, b, id);
    forall x ensures Remove([x], id) == if x == id then [] else [x] {
      assert [x][1..] == [];
    }
  }

  /** Chips are picked topic by topic: the chips of two topic lists are the chips of each, in that order. */
  lemma {:induction false} SelectedTopicsAppend(a: seq<TopicOption>, b: seq<TopicOption>, selectedIds: seq<string>)
    ensures SelectedTopics(a + b, selectedIds) == SelectedTopics(a, selectedIds) + SelectedTopics(b, selectedIds)
    ensures forall t :: SelectedTopics([t], selectedIds) == if t.id in selectedIds then [t] else []
    decreases |a|
  {
    if a == [] {
      assert a + b == b;
    } else {
      assert (a + b)[0] == a[0];
      assert (a + b)[1..] == a[1..] + b;
      SelectedTopicsAppend(a[1..], b, selectedIds);
    }
    forall t ensures SelectedTopics([t], selectedIds) == if t.id in selectedIds then [t] else [] {
      assert [t][1..] == [];
    }
  }

  /** Picking an id that was not picked and picking it again restores the list. */
  lemma ToggleOnOff(selectedIds: seq<string>, id: string)
    requires id !in selectedIds
    ensures Toggle(Toggle(selectedIds, id), id) == selectedIds
  {
    Text.RemoveAllAppend(selectedIds, [id], id);
    Text.RemoveAllAbsent(selectedIds, id);
  }

  /** Two toggles of the same id leave the set of picked ids as it was. */
  lemma ToggleTwiceSameSet(selectedIds: seq<string>, id: string)
    ensures forall x :: x in Toggle(Toggle(selectedIds, id), id) <==> x in selectedIds
  {
  }

  /** Removing an id takes its chip away and keeps every other chip. */
  lemma RemoveDropsChip(topics: seq<TopicOption>, selectedIds: seq<string>, id: string)
    ensures forall t :: t in SelectedTopics(topics, Remove(selectedIds, id)) <==>
                        t in SelectedTopics(topics, selectedIds) && t.id != id
  {
  }

  /** Toggling an offered, unpicked topic adds its chip. */
  lemma ToggleAddsChip(topics: seq<TopicOption>, selectedIds: seq<string>, topic: TopicOption)
    requires topic in topics && topic.id !in selectedIds
    ensures topic in SelectedTopics(topics, Toggle(selectedIds, topic.id))
    ensures topic !in SelectedTopics(topics, selectedIds)
  {
  }
}
