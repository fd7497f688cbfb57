/**
 * The journal routes: POST validates the entry's content (present and not
 * blank, then at most 500 characters) and stores it with its mood, GET lists
 * the user's entries newest first.
 */
module JournalRoutes {
  import opened Wrappers
  import opened Lists
  import opened Text
  import opened Records

  datatype JournalEntry = JournalEntry(user: UserId, date: int, content: string, mood: string)

  const MaxLength := 500

  /** The schema's default for an entry posted without a mood. */
  const DefaultMood := "📝"

  datatype ContentError = EmptyContent | TooLong

  function Message(e: ContentError): string
  {
    match e
    case EmptyContent => "Content cannot be empty"
    case TooLong => "Content must be 500 characters or less"
  }

  /**
   * The two guards of POST /journals, in the order the route runs them:
   * `!content || content.trim().length === 0`, then `content.length > 500`.
   */
  function ValidateContent(content: Option<string>): (r: Result<string, ContentError>)
    ensures r == Failure(EmptyContent) <==> content.None? || IsBlank(content.value)
    ensures r == Failure(TooLong) <==> content.Some? && !IsBlank(content.value) && |content.value| > MaxLength
    ensures r.Success? <==> content.Some? && !IsBlank(content.value) && |content.value| <= MaxLength
    ensures r.Success? ==> r.value == content.value
  {
    if content.None? || |Trim(content.value)| == 0 then
      TrimEmptyIffBlank(if content.Some? then content.value else "");
      Failure(EmptyContent)
    else if |content.value| > MaxLength then
      TrimEmptyIffBlank(content.value);
      Failure(TooLong)
    else
      TrimEmptyIffBlank(content.value);
      Success(content.value)
  }

  /** Whitespace-only content is reported as empty whatever its length: the blank check runs first. */
  lemma BlankBeatsLength(content: string)
    requires IsBlank(content) && |content| > MaxLength
    ensures ValidateContent(Some(content)) == Failure(EmptyContent)
  {
  }

  /** The length limit is inclusive: non-blank content of exactly 500 characters is accepted. */
  lemma LimitIsInclusive(content: string)
    requires !IsBlank(content) && |content| == MaxLength
    ensures ValidateContent(Some(content)) == Success(content)
  {
  }

  datatype PostOutcome = PostOutcome(store: seq<JournalEntry>, response: Result<JournalEntry, string>)

  /** POST /journals for `user` at time `now`. */
  function PostEntry(store: seq<JournalEntry>, user: UserId, content: Option<string>, mood: Option<string>, now: int): (r: PostOutcome)
    ensures r.response.Success? <==> ValidateContent(content).Success?
    ensures r.response.Failure? ==>
      && r.store == store
      && r.response.error == Message(ValidateContent(content).error)
    ensures r.response.Success? ==>
      && r.response.value == JournalEntry(user, now, content.value, mood.GetOr(DefaultMood))
      && r.store == store + [r.response.value]
  {
    match ValidateContent(content)
    case Failure(e) => PostOutcome(store, Failure(Message(e)))
    case Success(text) =>
      var entry := JournalEntry(user, now, text, mood.GetOr(DefaultMood));
      PostOutcome(store + [entry], Success(entry))
  }

  /** Every entry the route stored satisfies the schema's `maxlength: 500`. */
  lemma StoredEntriesFit(store: seq<JournalEntry>, user: UserId, content: Option<string>, mood: Option<string>, now: int)
    requires forall i :: 0 <= i < |store| ==> |store[i].content| <= MaxLength
    ensures var s' := PostEntry(store, user, content, mood, now).store;
      forall i :: 0 <= i < |s'| ==> |s'[i].content| <= MaxLength
  {
  }

  function Date(e: JournalEntry): int { e.date }

  function Owner(e: JournalEntry): UserId { e.user }

  /** GET /journals: `Journal.find({ userId }).sort({ date: -1 })`. */
  function ListEntries(store: seq<JournalEntry>, user: UserId): (r: seq<JournalEntry>)
    ensures forall i :: 0 <= i < |r| ==> r[i].user == user
    ensures NewestFirst(r, Date)
    ensures multiset(r) == multiset(Filter(store, OwnedBy(Owner, user)))
  {
    ListOwned(store, Owner, Date, user)
  }
}
