/**
 * The caption list editor: a text box for a new caption, a list where one entry
 * at a time can be edited in place, a remove button per entry, and quick-add
 * buttons for common captions.
 */
module TableCaptions {
  import opened Wrappers
  import opened Text
  import opened Sequences

  /** The captions offered by the quick-add buttons, in display order. */
  const QuickSuggestions: seq<string> := ["Name", "Email", "Phone", "Address", "Date", "Amount"]

  /** The keys the editor reacts to. */
  datatype Key = Enter | Escape | OtherKey

  /** A caption as the add and save paths produce it: not blank and without surrounding whitespace. */
  predicate CleanCaption(caption: string) {
    caption != [] && Trimmed(caption)
  }

  /** The list after `addCaption`: the trimmed text is appended when it is not blank and not yet listed. */
  function AfterAdd(captions: seq<string>, newCaption: string): (r: seq<string>)
    ensures !IsBlank(newCaption) && Trim(newCaption) !in captions ==> r == captions + [Trim(newCaption)]
    ensures IsBlank(newCaption) || Trim(newCaption) in captions ==> r == captions
    ensures Distinct(captions) ==> Distinct(r)
    ensures (forall c :: c in captions ==> CleanCaption(c)) ==> forall c :: c in r ==> CleanCaption(c)
  {
    var trimmed := Trim(newCaption);
    TrimSpec(newCaption);
    if trimmed != "" && trimmed !in captions then captions + [trimmed] else captions
  }

  /** Adding the same text a second time changes nothing. */
  lemma AddTwiceIsAddOnce(captions: seq<string>, newCaption: string)
    ensures AfterAdd(AfterAdd(captions, newCaption), newCaption) == AfterAdd(captions, newCaption)
  {
  }

  /** `captions.filter((_, i) => i !== index)` */
  function RemoveAt(captions: seq<string>, index: int): (r: seq<string>)
    ensures 0 <= index < |captions| ==> r == captions[..index] + captions[index + 1..]
    ensures !(0 <= index < |captions|) ==> r == captions
  {
    if captions == [] then []
    else
      var rest := RemoveAt(captions[1..], index - 1);
      if index == 0 then rest
      else
        assert 0 < index <= |captions| ==> captions[1..][..index - 1] == captions[1..index];
        [captions[0]] + rest
  }

  /** Removing one entry removes exactly that caption, once, and keeps a list without repeats free of them. */
  lemma RemoveAtSpec(captions: seq<string>, index: int)
    requires 0 <= index < |captions|
    ensures |RemoveAt(captions, index)| == |captions| - 1
    ensures multiset(RemoveAt(captions, index)) + multiset{captions[index]} == multiset(captions)
    ensures Distinct(captions) ==> Distinct(RemoveAt(captions, index)) && captions[index] !in RemoveAt(captions, index)
  {
    MultisetWithout(captions, index);
    if Distinct(captions) {
      DistinctWithout(captions, index);
    }
  }

  /**
   * `newCaptions[editingIndex] = editValue.trim()` on a copy. An index past the
   * end grows the array; the positions skipped over read as empty strings.
   */
  function StoreAt(captions: seq<string>, index: nat, value: string): (r: seq<string>)
    ensures |r| == if index < |captions| then |captions| else index + 1
    ensures r[index] == value
    ensures forall j :: 0 <= j < |captions| && j != index ==> r[j] == captions[j]
    ensures forall j :: |captions| <= j < index ==> r[j] == ""
  {
    if index < |captions| then captions[index := value]
    else captions + seq(index - |captions|, _ => "") + [value]
  }

  /** Saving the unchanged text of a clean caption leaves the list as it was. */
  lemma SaveUnchangedIsNoOp(captions: seq<string>, index: nat)
    requires index < |captions| && CleanCaption(captions[index])
    ensures StoreAt(captions, index, Trim(captions[index])) == captions
  {
    TrimFixesTrimmed(captions[index]);
  }

  /** Saving does not look at the other entries, so an edit can repeat a caption. */
  lemma SaveCanDuplicate()
    ensures Distinct(["Name", "Email"])
    ensures !Distinct(StoreAt(["Name", "Email"], 1, Trim("Name")))
  {
    var r := StoreAt(["Name", "Email"], 1, Trim("Name"));
    assert Trim("Name") == "Name" by {
      TrimFixesTrimmed("Name");
    }
    assert r[0] == r[1];
  }

  /** The caption editor's state; `captions` is the list the page owns. */
  class CaptionEditor {
    var captions: seq<string>
    var newCaption: string
    var editingIndex: Option<nat>
    var editValue: string

    /** A fresh editor over the page's caption list, with nothing typed and nothing being edited. */
    constructor (initial: seq<string>)
      ensures captions == initial && newCaption == "" && editingIndex == None && editValue == ""
    {
      captions := initial;
      newCaption := "";
      editingIndex := None;
      editValue := "";
    }

    /** The new-caption box's `onChange`. */
    method SetNewCaption(value: string)
      modifies this
      ensures newCaption == value
      ensures captions == old(captions) && editingIndex == old(editingIndex) && editValue == old(editValue)
    {
      newCaption := value;
    }

    /** The edit box's `onChange`. */
    method SetEditValue(value: string)
      modifies this
      ensures editValue == value
      ensures captions == old(captions) && newCaption == old(newCaption) && editingIndex == old(editingIndex)
    {
      editValue := value;
    }

    /**
     * `addCaption`: appends the trimmed text when it is not blank and not yet
     * listed, and then clears the box; otherwise nothing changes.
     */
    method AddCaption() returns (added: bool)
      modifies this
      ensures added <==> !IsBlank(old(newCaption)) && Trim(old(newCaption)) !in old(captions)
      ensures captions == AfterAdd(old(captions), old(newCaption))
      ensures added ==> captions == old(captions) + [Trim(old(newCaption))] && newCaption == ""
      ensures !added ==> captions == old(captions) && newCaption == old(newCaption)
      ensures editingIndex == old(editingIndex) && editValue == old(editValue)
    {
      var trimmed := Trim(newCaption);
      TrimSpec(newCaption);
      if trimmed != "" && trimmed !in captions {
        captions := captions + [trimmed];
        newCaption := "";
        added := true;
      } else {
        added := false;
      }
    }

    /** `removeCaption`: drops the entry at `index`, if there is one; the edit state is left as it is. */
    method RemoveCaption(index: int)
      modifies this
      ensures captions == RemoveAt(old(captions), index)
      ensures newCaption == old(newCaption) && editingIndex == old(editingIndex) && editValue == old(editValue)
    {
      captions := RemoveAt(captions, index);
    }

    /** `startEditing`: opens the entry at `index` for editing with its current text. */
    method StartEditing(index: nat)
      requires index < |captions|
      modifies this
      ensures captions == old(captions) && newCaption == old(newCaption)
      ensures editingIndex == Some(index) && editValue == captions[index]
    {
      editingIndex := Some(index);
      editValue := captions[index];
    }

    /**
     * `saveEdit`: with an entry open and a non-blank text, stores the trimmed text
     * at that position and closes the edit; otherwise nothing changes.
     */
    method SaveEdit() returns (saved: bool)
      modifies this
      ensures saved <==> old(editingIndex).Some? && !IsBlank(old(editValue))
      ensures saved ==> captions == StoreAt(old(captions), old(editingIndex).value, Trim(old(editValue)))
      ensures saved ==> editingIndex == None && editValue == ""
      ensures saved && old(editingIndex).value < |old(captions)| ==> |captions| == |old(captions)|
      ensures !saved ==> captions == old(captions) && editingIndex == old(editingIndex) && editValue == old(editValue)
      ensures newCaption == old(newCaption)
    {
      TrimSpec(editValue);
      if editingIndex.Some? && Trim(editValue) != "" {
        captions := StoreAt(captions, editingIndex.value, Trim(editValue));
        editingIndex := None;
        editValue := "";
        saved := true;
      } else {
        saved := false;
      }
    }

    /** `cancelEdit`: closes the edit without touching the list. */
    method CancelEdit()
      modifies this
      ensures editingIndex == None && editValue == ""
      ensures captions == old(captions) && newCaption == old(newCaption)
    {
      editingIndex := None;
      editValue := "";
    }

    /** The edit box's key handler: Enter saves, Escape cancels, any other key does nothing. */
    method HandleEditKey(key: Key)
      modifies this
      ensures key == Enter ==> ((captions, editingIndex, editValue) ==
        if old(editingIndex).Some? && !IsBlank(old(editValue))
        then (StoreAt(old(captions), old(editingIndex).value, Trim(old(editValue))), None, "")
        else (old(captions), old(editingIndex), old(editValue)))
      ensures key == Escape ==> editingIndex == None && editValue == "" && captions == old(captions)
      ensures key == OtherKey ==> captions == old(captions) && editingIndex == old(editingIndex) && editValue == old(editValue)
      ensures newCaption == old(newCaption)
    {
      match key {
        case Enter =>
          var _ := SaveEdit();
        case Escape =>
          CancelEdit();
        case OtherKey =>
      }
    }

    /** The new-caption box's key handler: Enter adds, any other key does nothing. */
    method HandleNewCaptionKey(key: Key)
      modifies this
      ensures key == Enter ==> captions == AfterAdd(old(captions), old(newCaption))
      ensures key == Enter ==> newCaption == if captions == old(captions) then old(newCaption) else ""
      ensures key != Enter ==> captions == old(captions) && newCaption == old(newCaption)
      ensures editingIndex == old(editingIndex) && editValue == old(editValue)
    {
      if key == Enter {
        var _ := AddCaption();
      }
    }

    /** A quick-add button: appends its caption unless it is already listed. */
    method QuickAdd(suggestion: string)
      requires suggestion in QuickSuggestions
      modifies this
      ensures captions == if suggestion in old(captions) then old(captions) else old(captions) + [suggestion]
      ensures Distinct(old(captions)) ==> Distinct(captions)
      ensures newCaption == old(newCaption) && editingIndex == old(editingIndex) && editValue == old(editValue)
    {
      if suggestion !in captions {
        captions := captions + [suggestion];
      }
    }
  }

  /** Every quick-add caption is one the add path would accept as it is. */
  lemma QuickSuggestionsAreClean()
    ensures Distinct(QuickSuggestions)
    ensures forall s :: s in QuickSuggestions ==> CleanCaption(s) && Trim(s) == s
  {
    forall s | s in QuickSuggestions ensures CleanCaption(s) && Trim(s) == s {
      TrimFixesTrimmed(s);
    }
  }
}
