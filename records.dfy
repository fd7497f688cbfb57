/**
 * What the mood and journal collections share: every record belongs to a
 * user, and GET lists a user's records with `find({ userId }).sort({ date: -1 })`.
 */
module Records {
  import opened Lists

  type UserId = string

  /** The `find({ userId })` filter, for records whose owner is `owner(x)`. */
  function OwnedBy<T>(owner: T -> UserId, user: UserId): T -> bool
  {
    (x: T) => owner(x) == user
  }

  /** `find({ userId: user }).sort({ date: -1 })`. */
  function ListOwned<T>(store: seq<T>, owner: T -> UserId, date: T -> int, user: UserId): (r: seq<T>)
    ensures forall i :: 0 <= i < |r| ==> owner(r[i]) == user
    ensures NewestFirst(r, date)
    ensures multiset(r) == multiset(Filter(store, OwnedBy(owner, user)))
  {
    var owned := Filter(store, OwnedBy(owner, user));
    var r := SortNewestFirst(owned, date);
    assert forall i :: 0 <= i < |r| ==> owner(r[i]) == user by {
      forall i | 0 <= i < |r| ensures owner(r[i]) == user {
        assert r[i] in multiset(owned);
        var k :| 0 <= k < |owned| && owned[k] == r[i];
        assert OwnedBy(owner, user)(owned[k]);
      }
    }
    r
  }
}
