/**
 * The mood check-in routes: POST records one check-in after checking its
 * value against the five allowed moods, GET lists the user's check-ins
 * newest first. The document store is a sequence of records; a record's
 * `date` is its creation time in milliseconds since the epoch.
 */
module MoodRoutes {
  import opened Wrappers
  import opened Lists
  import opened Records

  datatype MoodCheckin = MoodCheckin(user: UserId, date: int, moodValue: string)

  /** The moods the route allows, in the order it lists them. */
  const AllowedMoods: seq<string> := ["happy", "sad", "neutral", "excited", "stressed"]

  const InvalidMoodMessage := "Invalid mood value"

  /** `allowedMoods.includes(moodValue)`; a missing value is never included. */
  predicate IsAllowed(moodValue: Option<string>)
  {
    moodValue.Some? && moodValue.value in AllowedMoods
  }

  datatype PostOutcome = PostOutcome(store: seq<MoodCheckin>, response: Result<MoodCheckin, string>)

  /** POST /moods for `user` at time `now`. */
  function PostMood(store: seq<MoodCheckin>, user: UserId, moodValue: Option<string>, now: int): (r: PostOutcome)
    ensures r.response.Success? <==> moodValue.Some? && moodValue.value in {"happy", "sad", "neutral", "excited", "stressed"}
    ensures r.response.Failure? ==> r.response.error == InvalidMoodMessage && r.store == store
    ensures r.response.Success? ==>
      && r.response.value == MoodCheckin(user, now, moodValue.value)
      && r.store == store + [r.response.value]
  {
    if !IsAllowed(moodValue) then
      PostOutcome(store, Failure(InvalidMoodMessage))
    else
      var checkin := MoodCheckin(user, now, moodValue.value);
      PostOutcome(store + [checkin], Success(checkin))
  }

  function Date(m: MoodCheckin): int { m.date }

  function Owner(m: MoodCheckin): UserId { m.user }

  /** GET /moods: `Mood.find({ userId }).sort({ date: -1 })`. */
  function ListMoods(store: seq<MoodCheckin>, user: UserId): (r: seq<MoodCheckin>)
    ensures forall i :: 0 <= i < |r| ==> r[i].user == user
    ensures NewestFirst(r, Date)
    ensures multiset(r) == multiset(Filter(store, OwnedBy(Owner, user)))
  {
    ListOwned(store, Owner, Date, user)
  }

  /** A check-in the route stored is listed for its owner. */
  lemma PostedIsListed(store: seq<MoodCheckin>, user: UserId, moodValue: Option<string>, now: int)
    requires IsAllowed(moodValue)
    ensures MoodCheckin(user, now, moodValue.value) in ListMoods(PostMood(store, user, moodValue, now).store, user)
  {
    var c := MoodCheckin(user, now, moodValue.value);
    var s' := PostMood(store, user, moodValue, now).store;
    assert s'[|s'| - 1] == c;
    assert c in Filter(s', OwnedBy(Owner, user));
    assert c in multiset(ListMoods(s', user));
  }
}
