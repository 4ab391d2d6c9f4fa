/** The synchronised-lyrics entry list editor: add an entry, change one entry,
    delete one entry. Each operation builds a new list from the current one. */
module EntryList {
  import opened Types

  /** `handleAddEntry`: append the blank entry `['', 0]`. */
  function AddEntry(entries: seq<Entry>): (r: seq<Entry>)
    ensures |r| == |entries| + 1
    ensures r[..|entries|] == entries
    ensures r[|entries|] == Entry("", 0)
  {
    entries + [Entry("", 0)]
  }

  /** `handleUpdateEntry`: the entry at `index` becomes `(text, time)`; an index
      outside the list matches no entry. */
  function UpdateEntry(entries: seq<Entry>, index: int, text: string, time: int): (r: seq<Entry>)
    ensures |r| == |entries|
    ensures forall i :: 0 <= i < |r| && i != index ==> r[i] == entries[i]
    ensures 0 <= index < |entries| ==> r[index] == Entry(text, time)
    ensures !(0 <= index < |entries|) ==> r == entries
  {
    seq(|entries|, i requires 0 <= i < |entries| => if i == index then Entry(text, time) else entries[i])
  }

  /** `handleDeleteEntry`: keep the entries whose position is not `index`. */
  function DeleteEntry(entries: seq<Entry>, index: int): (r: seq<Entry>)
    ensures 0 <= index < |entries| ==> r == entries[..index] + entries[index + 1..]
    ensures !(0 <= index < |entries|) ==> r == entries
  {
    if entries == [] then []
    else
      var rest := DeleteEntry(entries[1..], index - 1);
      assert 0 < index < |entries| ==> entries[1..][..index - 1] == entries[1..index];
      assert 0 < index < |entries| ==> entries[1..][index - 1 + 1..] == entries[index + 1..];
      (if index == 0 then [] else [entries[0]]) + rest
  }

  /** What a non-numeric entry in the timestamp box yields: `parseInt(value) || 0`,
      with `None` standing for NaN. */
  function ParsedOrZero(input: Option<int>): (r: int)
    ensures input.Some? ==> r == input.value
    ensures input.None? ==> r == 0
  {
    match input
    case Some(n) => n
    case None => 0
  }

  /** Typing in an entry's text box: the entry keeps its timestamp. */
  function EditText(entries: seq<Entry>, index: nat, value: string): (r: seq<Entry>)
    requires index < |entries|
    ensures |r| == |entries|
    ensures r[index].text == value && r[index].time == entries[index].time
    ensures forall i :: 0 <= i < |r| && i != index ==> r[i] == entries[i]
  {
    UpdateEntry(entries, index, value, entries[index].time)
  }

  /** Typing in an entry's timestamp box: the entry keeps its text, and input
      that is not a number (or is 0) gives 0. */
  function EditTime(entries: seq<Entry>, index: nat, input: Option<int>): (r: seq<Entry>)
    requires index < |entries|
    ensures |r| == |entries|
    ensures r[index].text == entries[index].text
    ensures input.None? ==> r[index].time == 0
    ensures input.Some? ==> r[index].time == input.value
    ensures forall i :: 0 <= i < |r| && i != index ==> r[i] == entries[i]
  {
    UpdateEntry(entries, index, entries[index].text, ParsedOrZero(input))
  }

  /** Deleting the entry just added gives back the list before the addition. */
  lemma DeleteUndoesAdd(entries: seq<Entry>)
    ensures DeleteEntry(AddEntry(entries), |entries|) == entries
  {
    var added := AddEntry(entries);
    assert added[..|entries|] == entries;
    assert added[|entries| + 1..] == [];
  }

  /** Writing an entry's old values back undoes an update. */
  lemma UpdateUndone(entries: seq<Entry>, index: int, text: string, time: int)
    requires 0 <= index < |entries|
    ensures UpdateEntry(UpdateEntry(entries, index, text, time), index, entries[index].text, entries[index].time) == entries
  {
    var r := UpdateEntry(UpdateEntry(entries, index, text, time), index, entries[index].text, entries[index].time);
    assert forall i :: 0 <= i < |entries| ==> r[i] == entries[i];
  }

  /** Deleting keeps every other entry, in order, shifted over the gap. */
  lemma DeleteKeepsOthers(entries: seq<Entry>, index: int)
    requires 0 <= index < |entries|
    ensures |DeleteEntry(entries, index)| == |entries| - 1
    ensures forall i :: 0 <= i < index ==> DeleteEntry(entries, index)[i] == entries[i]
    ensures forall i :: index <= i < |entries| - 1 ==> DeleteEntry(entries, index)[i] == entries[i + 1]
  {
  }

  lemma MultisetAround(s: seq<Entry>, i: nat)
    requires i < |s|
    ensures multiset(s) == multiset(s[..i]) + multiset{s[i]} + multiset(s[i + 1..])
  {
    assert s == s[..i] + [s[i]] + s[i + 1..];
  }

  /** What deleting takes away is exactly the entry at `index`. */
  lemma DeleteRemovesOne(entries: seq<Entry>, index: int)
    requires 0 <= index < |entries|
    ensures multiset(DeleteEntry(entries, index)) + multiset{entries[index]} == multiset(entries)
  {
    MultisetAround(entries, index);
  }
}
