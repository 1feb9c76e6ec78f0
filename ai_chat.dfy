/**
 * The scripted mapping assistant. A reply is chosen by an ordered cascade of
 * keyword tests on the lower-cased message; some replies carry a suggested
 * mapping with a fixed confidence, which the user can apply. The chat keeps
 * the list of messages shown so far.
 */
module AiChat {
  import opened Wrappers
  import opened Text
  import opened Mappings
  import opened MappingDisplay
  import opened PrototypePage

  /** A proposed mapping; the confidence is a percentage. */
  datatype Suggestion = Suggestion(csvColumn: string, targetCaption: string, confidence: nat)

  /** What a reply says; the fields are the values its text interpolates. */
  datatype ReplyKind =
    | SuggestMapping
    | AllMapped
    | AllCaptionsUsed
    | Help
    | OfferRemoval(mappedColumns: seq<string>)
    | NothingToRemove
    | ProgressReport(mapped: nat, total: nat, remaining: int)
    | ConfirmMentioned
    | SuggestForMentioned
    | NoCaptionForMentioned(column: string)
    | Fallback

  datatype Reply = Reply(kind: ReplyKind, suggestion: Option<Suggestion>)

  /** The three confidences the assistant uses. */
  const MappingConfidence: nat := 85
  const MentionedPairConfidence: nat := 95
  const MentionedColumnConfidence: nat := 75

  predicate AsksToMap(lowerMessage: string) {
    Contains(lowerMessage, "map") || Contains(lowerMessage, "connect") || Contains(lowerMessage, "match")
  }

  predicate AsksForHelp(lowerMessage: string) {
    Contains(lowerMessage, "help") || Contains(lowerMessage, "how")
  }

  predicate AsksToRemove(lowerMessage: string) {
    Contains(lowerMessage, "remove") || Contains(lowerMessage, "delete") || Contains(lowerMessage, "unmap")
  }

  predicate AsksForStatus(lowerMessage: string) {
    Contains(lowerMessage, "status") || Contains(lowerMessage, "progress")
  }

  /** A caption and a column are related when either contains the other, ignoring case. */
  predicate Related(caption: string, column: string) {
    Contains(Lower(caption), Lower(column)) || Contains(Lower(column), Lower(caption))
  }

  /** `names.find(name => pred(name))` for the two predicates used here. */
  function FindRelated(captions: seq<string>, column: string): (r: Option<string>)
    ensures r.None? <==> forall c :: c in captions ==> !Related(c, column)
    ensures r.Some? ==> exists i :: (0 <= i < |captions| && captions[i] == r.value && Related(r.value, column) &&
      forall j :: 0 <= j < i ==> !Related(captions[j], column))
  {
    if captions == [] then None
    else if Related(captions[0], column) then Some(captions[0])
    else
      var r := FindRelated(captions[1..], column);
      assert r.Some? ==> exists i :: (0 <= i < |captions| && captions[i] == r.value && Related(r.value, column) &&
        forall j :: 0 <= j < i ==> !Related(captions[j], column)) by {
        if r.Some? {
          var i :| 0 <= i < |captions[1..]| && captions[1..][i] == r.value && Related(r.value, column) &&
            forall j :: 0 <= j < i ==> !Related(captions[1..][j], column);
          assert captions[i + 1] == r.value;
          forall j | 0 <= j < i + 1 ensures !Related(captions[j], column) {
            if j > 0 { assert captions[j] == captions[1..][j - 1]; }
          }
        }
      }
      r
  }

  /** `names.find(name => lowerMessage.includes(name.toLowerCase()))` */
  function FindMentioned(lowerMessage: string, names: seq<string>): (r: Option<string>)
    ensures r.None? <==> forall n :: n in names ==> !Contains(lowerMessage, Lower(n))
    ensures r.Some? ==> exists i :: (0 <= i < |names| && names[i] == r.value && Contains(lowerMessage, Lower(r.value)) &&
      forall j :: 0 <= j < i ==> !Contains(lowerMessage, Lower(names[j])))
  {
    if names == [] then None
    else if Contains(lowerMessage, Lower(names[0])) then Some(names[0])
    else
      var r := FindMentioned(lowerMessage, names[1..]);
      assert r.Some? ==> exists i :: (0 <= i < |names| && names[i] == r.value && Contains(lowerMessage, Lower(r.value)) &&
        forall j :: 0 <= j < i ==> !Contains(lowerMessage, Lower(names[j]))) by {
        if r.Some? {
          var i :| 0 <= i < |names[1..]| && names[1..][i] == r.value && Contains(lowerMessage, Lower(r.value)) &&
            forall j :: 0 <= j < i ==> !Contains(lowerMessage, Lower(names[1..][j]));
          assert names[i + 1] == r.value;
          forall j | 0 <= j < i + 1 ensures !Contains(lowerMessage, Lower(names[j])) {
            if j > 0 { assert names[j] == names[1..][j - 1]; }
          }
        }
      }
      r
  }

  /** A `find` result used as a condition: `undefined` and the empty string are both falsy. */
  predicate Truthy(found: Option<string>) {
    found.Some? && found.value != ""
  }

  /**
   * `availableCaptions.find(related) || availableCaptions[0]`: the first related
   * caption, unless there is none or it is the empty string.
   */
  function BestCaption(available: seq<string>, column: string): (r: string)
    requires available != []
    ensures r in available
    ensures Truthy(FindRelated(available, column)) ==> r == FindRelated(available, column).value && Related(r, column)
    ensures !Truthy(FindRelated(available, column)) ==> r == available[0]
  {
    var found := FindRelated(available, column);
    if Truthy(found) then found.value else available[0]
  }

  /** `generateAIResponse` without its delay, id and timestamp. */
  function GenerateResponse(userMessage: string, csvColumns: seq<string>, captions: seq<string>, m: Mapping): (r: Reply)
    ensures r.suggestion.Some? <==> r.kind in {SuggestMapping, ConfirmMentioned, SuggestForMentioned}
    ensures r.suggestion.Some? ==> r.suggestion.value.csvColumn in csvColumns && r.suggestion.value.targetCaption in captions
    ensures r.suggestion.Some? ==> r.suggestion.value.confidence in {MappingConfidence, MentionedPairConfidence, MentionedColumnConfidence}
  {
    var lowerMessage := Lower(userMessage);
    if AsksToMap(lowerMessage) then
      var unmapped := UnmappedColumns(csvColumns, m);
      var available := AvailableCaptions(captions, m);
      if |unmapped| > 0 && |available| > 0 then
        assert unmapped[0] in unmapped;
        Reply(SuggestMapping, Some(Suggestion(unmapped[0], BestCaption(available, unmapped[0]), MappingConfidence)))
      else if |unmapped| == 0 then Reply(AllMapped, None)
      else Reply(AllCaptionsUsed, None)
    else if AsksForHelp(lowerMessage) then Reply(Help, None)
    else if AsksToRemove(lowerMessage) then
      if |Keys(m)| > 0 then Reply(OfferRemoval(Keys(m)), None) else Reply(NothingToRemove, None)
    else if AsksForStatus(lowerMessage) then
      Reply(ProgressReport(|Keys(m)|, |csvColumns|, |csvColumns| - |Keys(m)|), None)
    else
      var mentionedColumn := FindMentioned(lowerMessage, csvColumns);
      var mentionedCaption := FindMentioned(lowerMessage, captions);
      if Truthy(mentionedColumn) && Truthy(mentionedCaption) then
        Reply(ConfirmMentioned, Some(Suggestion(mentionedColumn.value, mentionedCaption.value, MentionedPairConfidence)))
      else if Truthy(mentionedColumn) then
        var available := AvailableCaptions(captions, m);
        if |available| > 0 then
          Reply(SuggestForMentioned, Some(Suggestion(mentionedColumn.value, BestCaption(available, mentionedColumn.value), MentionedColumnConfidence)))
        else Reply(NoCaptionForMentioned(mentionedColumn.value), None)
      else Reply(Fallback, None)
  }

  /** "unmap" contains "map", so a message asking to unmap is read as a request to map. */
  lemma UnmapAsksToMap(lowerMessage: string)
    ensures Contains(lowerMessage, "unmap") ==> AsksToMap(lowerMessage)
  {
    if Contains(lowerMessage, "unmap") {
      ContainsIff(lowerMessage, "unmap");
      var i :| OccursAt(lowerMessage, "unmap", i);
      assert lowerMessage[i + 2..i + 5] == lowerMessage[i..i + 5][2..];
      ContainsAt(lowerMessage, "map", i + 2);
    }
  }

  /** Any message containing "unmap" gets one of the mapping-branch replies, never the removal reply. */
  lemma UnmapTakesMappingBranch(userMessage: string, csvColumns: seq<string>, captions: seq<string>, m: Mapping)
    requires Contains(Lower(userMessage), "unmap")
    ensures GenerateResponse(userMessage, csvColumns, captions, m).kind in {SuggestMapping, AllMapped, AllCaptionsUsed}
  {
    UnmapAsksToMap(Lower(userMessage));
  }

  /**
   * In the mapping branch with an unmapped column and a free caption, the reply
   * suggests the first unmapped column with the first free caption related to
   * it (or else the first free caption), at 85%.
   */
  lemma MappingBranchSuggestion(userMessage: string, csvColumns: seq<string>, captions: seq<string>, m: Mapping)
    requires AsksToMap(Lower(userMessage))
    requires exists c :: c in csvColumns && !IsMapped(m, c)
    requires exists k :: k in captions && k !in Values(m)
    ensures var r := GenerateResponse(userMessage, csvColumns, captions, m);
            && r.kind == SuggestMapping && r.suggestion.Some?
            && IsFirstUnmapped(csvColumns, m, r.suggestion.value.csvColumn)
            && r.suggestion.value.targetCaption == BestCaption(AvailableCaptions(captions, m), r.suggestion.value.csvColumn)
            && r.suggestion.value.targetCaption in captions
            && r.suggestion.value.targetCaption !in Values(m)
            && r.suggestion.value.confidence == 85
  {
    var unmapped := UnmappedColumns(csvColumns, m);
    var c :| c in csvColumns && !IsMapped(m, c);
    assert c in unmapped;
    var k :| k in captions && k !in Values(m);
    assert k in AvailableCaptions(captions, m);
    UnmappedColumnsHead(csvColumns, m);
  }

  /** With every column mapped the mapping branch says so, even when no caption is free. */
  lemma AllMappedComesFirst(userMessage: string, csvColumns: seq<string>, captions: seq<string>, m: Mapping)
    requires AsksToMap(Lower(userMessage))
    requires forall c :: c in csvColumns ==> IsMapped(m, c)
    ensures GenerateResponse(userMessage, csvColumns, captions, m) == Reply(AllMapped, None)
  {
  }

  /** An unmapped column with no free caption gives the "captions used up" reply. */
  lemma CaptionsUsedUp(userMessage: string, csvColumns: seq<string>, captions: seq<string>, m: Mapping)
    requires AsksToMap(Lower(userMessage))
    requires exists c :: c in csvColumns && !IsMapped(m, c)
    requires forall k :: k in captions ==> k in Values(m)
    ensures GenerateResponse(userMessage, csvColumns, captions, m) == Reply(AllCaptionsUsed, None)
  {
    var c :| c in csvColumns && !IsMapped(m, c);
    assert c in UnmappedColumns(csvColumns, m);
  }

  /** The status reply reports the number of keys, the number of columns and their difference, without a suggestion. */
  lemma StatusReport(userMessage: string, csvColumns: seq<string>, captions: seq<string>, m: Mapping)
    requires var l := Lower(userMessage); !AsksToMap(l) && !AsksForHelp(l) && !AsksToRemove(l) && AsksForStatus(l)
    ensures GenerateResponse(userMessage, csvColumns, captions, m) ==
      Reply(ProgressReport(|m|, |csvColumns|, |csvColumns| - |m|), None)
  {
  }

  /** The help, removal and status replies never carry a suggestion. */
  lemma NoSuggestionOutsideMapping(userMessage: string, csvColumns: seq<string>, captions: seq<string>, m: Mapping)
    requires var l := Lower(userMessage); !AsksToMap(l) && (AsksForHelp(l) || AsksToRemove(l) || AsksForStatus(l))
    ensures GenerateResponse(userMessage, csvColumns, captions, m).suggestion == None
  {
  }

  /** No keyword of the cascade occurs in the lower-cased message. */
  predicate NoKeyword(userMessage: string) {
    var l := Lower(userMessage);
    !AsksToMap(l) && !AsksForHelp(l) && !AsksToRemove(l) && !AsksForStatus(l)
  }

  /**
   * A message naming a column and a caption gets a suggestion of the first named
   * column and the first named caption at 95%, whether or not that caption is in use.
   */
  lemma MentionedPair(userMessage: string, csvColumns: seq<string>, captions: seq<string>, m: Mapping)
    requires NoKeyword(userMessage)
    requires Truthy(FindMentioned(Lower(userMessage), csvColumns)) && Truthy(FindMentioned(Lower(userMessage), captions))
    ensures GenerateResponse(userMessage, csvColumns, captions, m) ==
      Reply(ConfirmMentioned, Some(Suggestion(
        FindMentioned(Lower(userMessage), csvColumns).value, FindMentioned(Lower(userMessage), captions).value, 95)))
  {
  }

  /**
   * A message naming only a column gets the first free caption related to it (or
   * else the first free caption) at 75%, or, when every caption is in use, a
   * reply without a suggestion.
   */
  lemma MentionedColumnOnly(userMessage: string, csvColumns: seq<string>, captions: seq<string>, m: Mapping)
    requires NoKeyword(userMessage)
    requires Truthy(FindMentioned(Lower(userMessage), csvColumns)) && !Truthy(FindMentioned(Lower(userMessage), captions))
    ensures var column := FindMentioned(Lower(userMessage), csvColumns).value;
            var r := GenerateResponse(userMessage, csvColumns, captions, m);
            && ((exists k :: k in captions && k !in Values(m)) ==>
                  && r.kind == SuggestForMentioned && r.suggestion.Some?
                  && r.suggestion.value.csvColumn == column
                  && r.suggestion.value.targetCaption == BestCaption(AvailableCaptions(captions, m), column)
                  && r.suggestion.value.targetCaption in captions
                  && r.suggestion.value.targetCaption !in Values(m)
                  && r.suggestion.value.confidence == 75)
            && ((forall k :: k in captions ==> k in Values(m)) ==> r == Reply(NoCaptionForMentioned(column), None))
  {
    var available := AvailableCaptions(captions, m);
    if exists k :: k in captions && k !in Values(m) {
      var k :| k in captions && k !in Values(m);
      assert k in available;
    }
  }

  /**
   * Applying a suggestion for an unmapped column with a non-empty caption maps
   * one more column and takes the caption off the free list, so asking for a
   * mapping and applying it, over and over, ends with every column mapped or
   * every caption used.
   */
  lemma ApplyingSuggestionMakesProgress(csvColumns: seq<string>, captions: seq<string>, m: Mapping, s: Suggestion)
    requires WellFormed(m)
    requires s.csvColumn in csvColumns && !IsMapped(m, s.csvColumn) && s.targetCaption != ""
    ensures var m' := Put(m, s.csvColumn, s.targetCaption);
            && |UnmappedColumns(csvColumns, m')| < |UnmappedColumns(csvColumns, m)|
            && s.targetCaption !in AvailableCaptions(captions, m')
  {
    var m' := Put(m, s.csvColumn, s.targetCaption);
    PutSpec(m, s.csvColumn, s.targetCaption);
    GetSpec(m', s.csvColumn);
    UnmappedColumnsShrink(csvColumns, m, m', s.csvColumn);
  }

  /** One entry of the message list. */
  datatype Message =
    | UserMessage(content: string)
    | AssistantMessage(reply: Reply)
    | Confirmation(csvColumn: string, caption: string)
    | Welcome(columns: seq<string>, captionCount: nat)

  /** The chat panel's state: the messages shown and the text in the input box. */
  class Chat {
    var messages: seq<Message>
    var inputValue: string

    constructor ()
      ensures messages == [] && inputValue == ""
    {
      messages := [];
      inputValue := "";
    }

    /** The input box's `onChange`. */
    method SetInputValue(value: string)
      modifies this
      ensures inputValue == value && messages == old(messages)
    {
      inputValue := value;
    }

    /**
     * `sendMessage`: a blank input sends nothing; otherwise the input (untrimmed)
     * is appended as the user's message followed by the generated reply, and the
     * input box is cleared.
     */
    method SendMessage(csvColumns: seq<string>, captions: seq<string>, m: Mapping) returns (sent: bool)
      modifies this
      ensures sent <==> !IsBlank(old(inputValue))
      ensures !sent ==> messages == old(messages) && inputValue == old(inputValue)
      ensures sent ==> inputValue == "" && messages == old(messages) + [
        UserMessage(old(inputValue)), AssistantMessage(GenerateResponse(old(inputValue), csvColumns, captions, m))]
    {
      TrimSpec(inputValue);
      if Trim(inputValue) == "" {
        return false;
      }
      var userMessage := inputValue;
      messages := messages + [UserMessage(userMessage)];
      inputValue := "";
      var reply := GenerateResponse(userMessage, csvColumns, captions, m);
      messages := messages + [AssistantMessage(reply)];
      sent := true;
    }

    /** `applyMapping`: updates the page's mapping and appends a confirmation. */
    method ApplyMapping(page: Session, csvColumn: string, caption: string)
      requires page.Valid()
      modifies this, page
      ensures page.Valid()
      ensures page.mappings == Put(old(page.mappings), csvColumn, caption)
      ensures Get(page.mappings, csvColumn) == Some(caption)
      ensures page.csvData == old(page.csvData) && page.captions == old(page.captions)
      ensures page.fileName == old(page.fileName) && page.activeTab == old(page.activeTab)
      ensures messages == old(messages) + [Confirmation(csvColumn, caption)]
      ensures inputValue == old(inputValue)
    {
      page.HandleMappingUpdate(csvColumn, caption);
      messages := messages + [Confirmation(csvColumn, caption)];
    }

    /** The welcome effect: greets once, and only when there are columns to talk about. */
    method ShowWelcome(csvColumns: seq<string>, captions: seq<string>)
      modifies this
      ensures old(messages) == [] && csvColumns != [] ==> messages == [Welcome(csvColumns, |captions|)]
      ensures !(old(messages) == [] && csvColumns != []) ==> messages == old(messages)
      ensures inputValue == old(inputValue)
    {
      if |messages| == 0 && |csvColumns| > 0 {
        messages := [Welcome(csvColumns, |captions|)];
      }
    }
  }
}
