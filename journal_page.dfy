/**
 * The journal page: the entry form's state (content, selected mood, error
 * message) with its textarea and submit handlers, and the search filter and
 * "show more" truncation over the entries GET /journals returned.
 */
module JournalPage {
  import opened Wrappers
  import opened Lists
  import opened Text
  import opened JournalRoutes

  /** The mood the form starts with and returns to after a save. */
  const InitialMood := "😊"

  const LimitReachedMessage := "You have reached the 500 character limit."
  const TooLongMessage := "Your entry must be 500 characters or less."
  const SaveFailedMessage := "Failed to save entry. Please try again."

  /** What `handleSubmit` does with the current content. */
  datatype SubmitAction = Ignore | RejectLength | Send

  /** `if (!content.trim()) return;` then `if (content.length > 500) { setError(...); return; }`. */
  function SubmitGuard(content: string): SubmitAction
  {
    if |Trim(content)| == 0 then Ignore
    else if |content| > MaxLength then RejectLength
    else Send
  }

  /**
   * The page's guards agree with the route's: the page sends exactly what the
   * route accepts, ignores what the route calls empty and reports the length
   * error where the route would.
   */
  lemma PageGuardMatchesRoute(content: string)
    ensures SubmitGuard(content) == Send <==> ValidateContent(Some(content)).Success?
    ensures SubmitGuard(content) == Ignore <==> ValidateContent(Some(content)) == Failure(EmptyContent)
    ensures SubmitGuard(content) == RejectLength <==> ValidateContent(Some(content)) == Failure(TooLong)
  {
    TrimEmptyIffBlank(content);
  }

  /** The body `API.post("/journals", { content, mood })` sends. */
  datatype PostBody = PostBody(content: string, mood: string)

  class JournalForm {
    var content: string
    var mood: string
    var error: string

    /** What the textarea handler keeps true: the content fits the limit. */
    ghost predicate Valid()
      reads this
    {
      |content| <= MaxLength
    }

    /** The initial component state. */
    constructor ()
      ensures content == "" && mood == InitialMood && error == ""
      ensures Valid()
    {
      content, mood, error := "", InitialMood, "";
    }

    /** A mood button's `onClick`. */
    method SelectMood(icon: string)
      modifies this
      ensures mood == icon && content == old(content) && error == old(error)
    {
      mood := icon;
    }

    /** The textarea's `onChange` with the new text `value`. */
    method OnChange(value: string)
      modifies this
      ensures |value| <= MaxLength ==> content == value && error == ""
      ensures |value| > MaxLength ==> content == old(content) && error == LimitReachedMessage
      ensures mood == old(mood)
      ensures old(Valid()) ==> Valid()
    {
      if |value| <= MaxLength {
        content := value;
        error := "";
      } else {
        error := LimitReachedMessage;
      }
    }

    /**
     * `handleSubmit`. `request` is the body posted, if any; `postSucceeds` is
     * the outcome of that request, which the page cannot know in advance.
     */
    method Submit(postSucceeds: bool) returns (request: Option<PostBody>)
      modifies this
      ensures request.Some? <==> SubmitGuard(old(content)) == Send
      ensures request.Some? ==> request.value == PostBody(old(content), old(mood))
      ensures SubmitGuard(old(content)) == Ignore ==>
        content == old(content) && mood == old(mood) && error == old(error)
      ensures SubmitGuard(old(content)) == RejectLength ==>
        content == old(content) && mood == old(mood) && error == TooLongMessage
      ensures request.Some? && postSucceeds ==> content == "" && mood == InitialMood && error == ""
      ensures request.Some? && !postSucceeds ==>
        content == old(content) && mood == old(mood) && error == SaveFailedMessage
      ensures old(Valid()) ==> Valid() && SubmitGuard(old(content)) != RejectLength
    {
      var action := SubmitGuard(content);
      if action == Ignore {
        return None;
      }
      if action == RejectLength {
        error := TooLongMessage;
        return None;
      }
      request := Some(PostBody(content, mood));
      if postSucceeds {
        content := "";
        mood := InitialMood;
        error := "";
      } else {
        error := SaveFailedMessage;
      }
    }
  }

  /**
   * The search predicate: the lower-cased content includes the lower-cased
   * search text, or the mood includes the search text as typed.
   */
  function MatchesSearch(search: string): JournalEntry -> bool
  {
    (j: JournalEntry) => Contains(Lower(j.content), Lower(search)) || Contains(j.mood, search)
  }

  /** `filteredEntries`. */
  function FilteredEntries(entries: seq<JournalEntry>, search: string): (r: seq<JournalEntry>)
    ensures forall i :: 0 <= i < |r| ==> r[i] in entries && MatchesSearch(search)(r[i])
    ensures forall i :: 0 <= i < |entries| && MatchesSearch(search)(entries[i]) ==> entries[i] in r
    ensures IsSubsequence(r, entries)
    ensures forall e :: multiset(r)[e] == if MatchesSearch(search)(e) then multiset(entries)[e] else 0
  {
    var r := Filter(entries, MatchesSearch(search));
    assert forall e :: multiset(r)[e] == if MatchesSearch(search)(e) then multiset(entries)[e] else 0 by {
      forall e ensures multiset(r)[e] == if MatchesSearch(search)(e) then multiset(entries)[e] else 0 {
        FilterCount(entries, MatchesSearch(search), e);
      }
    }
    r
  }

  /** An empty search keeps every entry, in order. */
  lemma EmptySearchKeepsAll(entries: seq<JournalEntry>)
    ensures FilteredEntries(entries, "") == entries
  {
    forall i | 0 <= i < |entries| ensures MatchesSearch("")(entries[i]) {
      ContainsEmpty(Lower(entries[i].content));
    }
    FilterKeepsAll(entries, MatchesSearch(""));
  }

  /** `showAll ? filteredEntries : filteredEntries.slice(0, 3)`. */
  function EntriesToShow(filtered: seq<JournalEntry>, showAll: bool): (r: seq<JournalEntry>)
    ensures |r| == if showAll then |filtered| else Min(3, |filtered|)
    ensures r == filtered[..|r|]
  {
    Visible(filtered, showAll, 3)
  }
}
