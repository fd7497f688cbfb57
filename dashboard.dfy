/**
 * The dashboard's derived values, computed from the user's check-ins as GET
 * /moods returns them: the current check-in streak and its milestone signal,
 * the earned badges, the per-mood counts of the weekly summary and of the pie
 * chart, the quote of the day, the truncated history and the latest mood.
 *
 * Times are milliseconds since the epoch. The local calendar day of a time is
 * `DayOf(time, zone)`, where `zone` is the local offset from UTC in
 * milliseconds; "today" is the day of `now`, and the calendar day before day
 * `d` is `d - 1`.
 */
module Dashboard {
  import opened Wrappers
  import opened Lists
  import opened MoodRoutes
  import opened Records

  const MsPerDay := 24 * 60 * 60 * 1000

  /** The local calendar day of `time` (what `toDateString()` distinguishes). */
  function DayOf(time: int, zone: int): int
  {
    (time + zone) / MsPerDay
  }

  /** A later time never falls on an earlier calendar day. */
  lemma DayOfMonotone(t1: int, t2: int, zone: int)
    requires t1 <= t2
    ensures DayOf(t1, zone) <= DayOf(t2, zone)
  {
  }

  /** The calendar days of a list of check-ins, position by position. */
  function Days(s: seq<MoodCheckin>, zone: int): (r: seq<int>)
    ensures |r| == |s|
  {
    seq(|s|, i requires 0 <= i < |s| => DayOf(s[i].date, zone))
  }

  // ---- The streak ----

  /**
   * The length of the leading run of `ds` in which every day is exactly the
   * day before its predecessor (a list of one day is a run of length 1).
   */
  function Run(ds: seq<int>): (n: nat)
    ensures n <= |ds|
    ensures ds != [] ==> n >= 1
  {
    if |ds| <= 1 then |ds|
    else if ds[1] == ds[0] - 1 then 1 + Run(ds[1..])
    else 1
  }

  /** The streak of a newest-first list of days: 0 unless it starts today, else its leading run. */
  function StreakOfDays(ds: seq<int>, today: int): nat
  {
    if ds == [] || ds[0] != today then 0 else Run(ds)
  }

  /** The check-ins sorted newest first, as `calculateStreak` sorts its copy. */
  function SortedCopy(data: seq<MoodCheckin>): seq<MoodCheckin>
  {
    SortNewestFirst(data, Date)
  }

  /** The streak the dashboard shows for `data` at time `now`. */
  function Streak(data: seq<MoodCheckin>, now: int, zone: int): nat
  {
    StreakOfDays(Days(SortedCopy(data), zone), DayOf(now, zone))
  }

  /** `calculateStreak`'s celebration condition. */
  predicate IsMilestone(streak: int)
  {
    streak > 0 && (streak == 3 || streak == 7 || streak % 10 == 0)
  }

  /**
   * `calculateStreak(data)`: the loop over the sorted copy. It stops at once
   * when the newest check-in is not from today; otherwise it counts each
   * check-in and stops after the first one whose successor is missing or not
   * from exactly the day before. `celebrate` is the milestone signal, which
   * is read off the streak and does not change it. `data` is a value, so the
   * caller's list is untouched, as the copy `[...data]` ensures in the page.
   */
  method CalculateStreak(data: seq<MoodCheckin>, now: int, zone: int) returns (streak: nat, celebrate: bool)
    ensures streak == Streak(data, now, zone)
    ensures streak <= |data|
    ensures celebrate == IsMilestone(streak)
  {
    var sorted := SortedCopy(data);
    var today := DayOf(now, zone);
    ghost var ds := Days(sorted, zone);
    var count: nat := 0;
    var i := 0;
    assert ds[0..] == ds;
    while i < |sorted|
      invariant 0 <= i <= |sorted|
      invariant count == i
      invariant i > 0 ==> i < |sorted| && ds[0] == today
      invariant i < |ds| ==> Run(ds) == i + Run(ds[i..])
    {
      var current := DayOf(sorted[i].date, zone);
      if i == 0 && current != today {
        break;
      }
      count := count + 1;
      if i + 1 == |sorted| || DayOf(sorted[i + 1].date, zone) != current - 1 {
        break;
      }
      assert ds[i..][1..] == ds[i + 1..];
      i := i + 1;
    }
    streak := count;
    celebrate := IsMilestone(streak);
  }

  /** Days `0 < i < k` of `ds` each follow the day before them. */
  ghost predicate DailyPrefix(ds: seq<int>, k: int)
  {
    0 <= k <= |ds| && forall i :: 0 < i < k ==> ds[i] == ds[i - 1] - 1
  }

  /** `Run(ds)` is the length of the longest daily prefix of `ds`. */
  lemma {:induction false} RunIsLongestDailyPrefix(ds: seq<int>)
    ensures DailyPrefix(ds, Run(ds))
    ensures Run(ds) < |ds| ==> ds[Run(ds)] != ds[Run(ds) - 1] - 1
    ensures forall k :: DailyPrefix(ds, k) ==> k <= Run(ds)
  {
    if |ds| > 1 && ds[1] == ds[0] - 1 {
      var tail := ds[1..];
      RunIsLongestDailyPrefix(tail);
      forall k | DailyPrefix(ds, k) ensures k <= Run(ds) {
        if k > 1 {
          assert DailyPrefix(tail, k - 1) by {
            forall i | 0 < i < k - 1 ensures tail[i] == tail[i - 1] - 1 {
              assert tail[i] == ds[i + 1] && tail[i - 1] == ds[i];
            }
          }
        }
      }
      forall i | 0 < i < Run(ds) ensures ds[i] == ds[i - 1] - 1 {
        if i > 1 {
          assert ds[i] == tail[i - 1] && ds[i - 1] == tail[i - 2];
        }
      }
    }
  }

  /**
   * The streak is 0 for a history that is empty or whose newest day is not
   * today; otherwise it is the length of the longest newest-first prefix in
   * which each day is the day before its predecessor, and at least 1.
   */
  lemma StreakIsLongestDailyRunFromToday(ds: seq<int>, today: int)
    ensures ds == [] || ds[0] != today ==> StreakOfDays(ds, today) == 0
    ensures ds != [] && ds[0] == today ==>
      && 1 <= StreakOfDays(ds, today) <= |ds|
      && DailyPrefix(ds, StreakOfDays(ds, today))
      && forall k :: DailyPrefix(ds, k) ==> k <= StreakOfDays(ds, today)
  {
    RunIsLongestDailyPrefix(ds);
  }

  /** Several check-ins on one day are not merged: today, today and yesterday give streak 1. */
  lemma SameDayCheckinEndsRun(today: int)
    ensures StreakOfDays([today, today, today - 1], today) == 1
  {
  }

  /** A gap ends the run: today, yesterday and three days ago give streak 2. */
  lemma GapEndsRun(today: int)
    ensures StreakOfDays([today, today - 1, today - 3], today) == 2
  {
    assert [today, today - 1, today - 3][1..] == [today - 1, today - 3];
    assert Run([today - 1, today - 3]) == 1;
  }

  predicate StrictlyDecreasing(ds: seq<int>)
  {
    forall i, j :: 0 <= i < j < |ds| ==> ds[i] > ds[j]
  }

  /**
   * For strictly decreasing days starting at `ds[0]`, the run is the number
   * of consecutive calendar days, counting back from `ds[0]`, that appear.
   */
  lemma {:induction false} RunCountsConsecutiveDays(ds: seq<int>, k: nat)
    requires ds != [] && StrictlyDecreasing(ds) && k >= 1
    requires forall d :: ds[0] - k < d <= ds[0] ==> d in ds
    requires ds[0] - k !in ds
    ensures Run(ds) == k
  {
    if k > 1 {
      assert ds[0] - 1 in ds;
      var j :| 0 <= j < |ds| && ds[j] == ds[0] - 1;
      assert j >= 1 && ds[1] >= ds[j];
      var tail := ds[1..];
      forall d | tail[0] - (k - 1) < d <= tail[0] ensures d in tail {
        assert d in ds;
        var p :| 0 <= p < |ds| && ds[p] == d;
        assert p >= 1 && tail[p - 1] == ds[p];
      }
      RunCountsConsecutiveDays(tail, k - 1);
    } else if |ds| > 1 {
      assert ds[1] != ds[0] - 1;
    }
  }

  /** The calendar day of a check-in. */
  function DayKey(zone: int): MoodCheckin -> int
  {
    (m: MoodCheckin) => DayOf(m.date, zone)
  }

  /** No two check-ins fall on the same calendar day. */
  ghost predicate DistinctDays(s: seq<MoodCheckin>, zone: int)
  {
    DistinctBy(s, DayKey(zone))
  }

  /** The set of calendar days on which there is a check-in. */
  ghost function CheckinDays(data: seq<MoodCheckin>, zone: int): set<int>
  {
    set m | m in data :: DayOf(m.date, zone)
  }

  /** The sorted copy has a check-in on exactly the days the history has one. */
  lemma SortedCopyDays(data: seq<MoodCheckin>, zone: int)
    ensures forall d :: d in Days(SortedCopy(data), zone) <==> d in CheckinDays(data, zone)
  {
    var sorted := SortedCopy(data);
    var ds := Days(sorted, zone);
    forall d ensures d in ds <==> d in CheckinDays(data, zone) {
      if d in ds {
        var i :| 0 <= i < |ds| && ds[i] == d;
        assert sorted[i] in multiset(data);
      }
      if d in CheckinDays(data, zone) {
        var m :| m in data && DayOf(m.date, zone) == d;
        assert m in multiset(sorted);
        var i :| 0 <= i < |sorted| && sorted[i] == m;
        assert ds[i] == d;
      }
    }
  }

  /** Sorted newest first, a history with distinct days has strictly decreasing days. */
  lemma SortedCopyDecreasing(data: seq<MoodCheckin>, zone: int)
    requires DistinctDays(data, zone)
    ensures StrictlyDecreasing(Days(SortedCopy(data), zone))
  {
    var sorted := SortedCopy(data);
    var ds := Days(sorted, zone);
    DistinctByPermute(data, sorted, DayKey(zone));
    forall i, j | 0 <= i < j < |ds| ensures ds[i] > ds[j] {
      DayOfMonotone(sorted[j].date, sorted[i].date, zone);
    }
  }

  /** With no check-in after `now`, the newest day of the sorted copy is not after today. */
  lemma SortedCopyNotAfterToday(data: seq<MoodCheckin>, now: int, zone: int)
    requires data != []
    requires forall i :: 0 <= i < |data| ==> data[i].date <= now
    ensures Days(SortedCopy(data), zone)[0] <= DayOf(now, zone)
  {
    var sorted := SortedCopy(data);
    assert sorted[0] in multiset(data);
    var i :| 0 <= i < |data| && data[i] == sorted[0];
    DayOfMonotone(sorted[0].date, now, zone);
  }

  /**
   * With at most one check-in per calendar day and none after `now`, the
   * streak is the number of consecutive calendar days, counting back from
   * today, that have a check-in.
   */
  lemma StreakOfDistinctDays(data: seq<MoodCheckin>, now: int, zone: int, k: nat)
    requires DistinctDays(data, zone)
    requires forall i :: 0 <= i < |data| ==> data[i].date <= now
    requires forall d :: DayOf(now, zone) - k < d <= DayOf(now, zone) ==> d in CheckinDays(data, zone)
    requires DayOf(now, zone) - k !in CheckinDays(data, zone)
    ensures Streak(data, now, zone) == k
  {
    var ds := Days(SortedCopy(data), zone);
    var today := DayOf(now, zone);
    SortedCopyDays(data, zone);
    if k >= 1 {
      assert today in ds;
      var j :| 0 <= j < |ds| && ds[j] == today;
      SortedCopyDecreasing(data, zone);
      SortedCopyNotAfterToday(data, now, zone);
      assert ds[0] >= ds[j];
      RunCountsConsecutiveDays(ds, k);
    } else if ds != [] {
      assert ds[0] != today;
    }
  }

  // ---- The milestone signal ----

  /** Among the streaks up to 30, the milestones are exactly 3, 7, 10, 20 and 30; 0 is never one. */
  lemma MilestonesUpToThirty()
    ensures !IsMilestone(0)
    ensures forall s :: 0 <= s <= 30 ==> (IsMilestone(s) <==> s in {3, 7, 10, 20, 30})
  {
  }

  // ---- Badges ----

  datatype Badge = Badge(streak: nat, title: string)

  /** The badge list, by ascending streak threshold. */
  const Badges: seq<Badge> := [
    Badge(3, "🌱 Getting Started"),
    Badge(7, "🔥 One Week Warrior"),
    Badge(14, "🌟 Two Weeks Strong"),
    Badge(30, "🏆 One Month Milestone")
  ]

  function Reached(streak: int): Badge -> bool
  {
    (b: Badge) => streak >= b.streak
  }

  /** `badges.filter((b) => streak >= b.streak)`. */
  function EarnedBadges(streak: int): seq<Badge>
  {
    Filter(Badges, Reached(streak))
  }

  /** Each badge's threshold is at most the next one's. */
  predicate AscendingThresholds(bs: seq<Badge>)
  {
    |bs| <= 1 || (bs[0].streak <= bs[1].streak && AscendingThresholds(bs[1..]))
  }

  /** How many badges at the front of `bs` have a threshold of at most `streak`. */
  function LeadingReached(bs: seq<Badge>, streak: int): (n: nat)
    ensures n <= |bs|
  {
    if bs == [] || bs[0].streak > streak then 0 else 1 + LeadingReached(bs[1..], streak)
  }

  /** On an ascending list, the earned badges are a prefix of the list. */
  lemma {:induction false} EarnedIsPrefix(bs: seq<Badge>, streak: int)
    requires AscendingThresholds(bs)
    ensures Filter(bs, Reached(streak)) == bs[..LeadingReached(bs, streak)]
  {
    if bs != [] {
      var p := Reached(streak);
      EarnedIsPrefix(bs[1..], streak);
      if bs[0].streak <= streak {
        var n := LeadingReached(bs[1..], streak);
        assert p(bs[0]);
        assert Filter(bs, p) == [bs[0]] + Filter(bs[1..], p);
        assert bs[..n + 1] == [bs[0]] + bs[1..][..n];
      } else {
        assert !p(bs[0]);
        assert Filter(bs, p) == Filter(bs[1..], p);
        assert LeadingReached(bs[1..], streak) == 0;
      }
    }
  }

  lemma {:induction false} LeadingReachedMonotone(bs: seq<Badge>, s1: int, s2: int)
    requires s1 <= s2
    ensures LeadingReached(bs, s1) <= LeadingReached(bs, s2)
  {
    if bs != [] {
      LeadingReachedMonotone(bs[1..], s1, s2);
    }
  }

  /**
   * A badge is earned exactly when its threshold is at most the streak; the
   * earned badges are a prefix of the badge list, and the badges of a smaller
   * streak are a prefix of those of a larger one.
   */
  lemma EarnedBadgesGrowWithStreak(s1: int, s2: int)
    requires s1 <= s2
    ensures forall i :: 0 <= i < |Badges| ==> (Badges[i] in EarnedBadges(s1) <==> Badges[i].streak <= s1)
    ensures forall b :: b in EarnedBadges(s1) ==> b in Badges && b.streak <= s1
    ensures EarnedBadges(s1) == Badges[..|EarnedBadges(s1)|]
    ensures |EarnedBadges(s1)| <= |EarnedBadges(s2)|
    ensures EarnedBadges(s1) == EarnedBadges(s2)[..|EarnedBadges(s1)|]
  {
    BadgesAscending();
    EarnedPrefixOfEarned(Badges, s1, s2);
  }

  lemma BadgesAscending()
    ensures AscendingThresholds(Badges)
  {
  }

  /** On an ascending list, the badges of a smaller streak are a prefix of those of a larger one. */
  lemma EarnedPrefixOfEarned(bs: seq<Badge>, s1: int, s2: int)
    requires AscendingThresholds(bs) && s1 <= s2
    ensures Filter(bs, Reached(s1)) == bs[..|Filter(bs, Reached(s1))|]
    ensures |Filter(bs, Reached(s1))| <= |Filter(bs, Reached(s2))|
    ensures Filter(bs, Reached(s1)) == Filter(bs, Reached(s2))[..|Filter(bs, Reached(s1))|]
  {
    EarnedIsPrefix(bs, s1);
    EarnedIsPrefix(bs, s2);
    LeadingReachedMonotone(bs, s1, s2);
  }

  // ---- Per-mood counts ----

  /** `Object.keys(moodEmojis)`: the moods the summaries list, in order. */
  const MoodKeys: seq<string> := ["sad", "stressed", "neutral", "happy", "excited"]

  datatype MoodCount = MoodCount(mood: string, count: nat)

  function HasMood(mood: string): MoodCheckin -> bool
  {
    (m: MoodCheckin) => m.moodValue == mood
  }

  /** `moods.filter((m) => m.moodValue === mood).length`. */
  function CountMood(moods: seq<MoodCheckin>, mood: string): nat
  {
    |Filter(moods, HasMood(mood))|
  }

  /** One count per key, in key order. */
  function TallyOver(moods: seq<MoodCheckin>, keys: seq<string>): (r: seq<MoodCount>)
    ensures |r| == |keys|
    ensures forall i :: 0 <= i < |keys| ==> r[i] == MoodCount(keys[i], CountMood(moods, keys[i]))
  {
    if keys == [] then [] else [MoodCount(keys[0], CountMood(moods, keys[0]))] + TallyOver(moods, keys[1..])
  }

  /** `pieData`: how often each mood occurs among all check-ins. */
  function PieData(moods: seq<MoodCheckin>): seq<MoodCount>
  {
    TallyOver(moods, MoodKeys)
  }

  /** `new Date(m.date) >= new Date(Date.now() - 7 * 24 * 60 * 60 * 1000)`. */
  function InLastWeek(now: int): MoodCheckin -> bool
  {
    (m: MoodCheckin) => m.date >= now - 7 * MsPerDay
  }

  /** `weeklySummary`: how often each mood occurs among the check-ins of the last seven days. */
  function WeeklySummary(moods: seq<MoodCheckin>, now: int): seq<MoodCount>
  {
    TallyOver(Filter(moods, InLastWeek(now)), MoodKeys)
  }

  function Total(counts: seq<MoodCount>): nat
  {
    if counts == [] then 0 else counts[0].count + Total(counts[1..])
  }

  predicate NoRepeats(keys: seq<string>)
  {
    forall i, j :: 0 <= i < j < |keys| ==> keys[i] != keys[j]
  }

  lemma {:induction false} TallyOfNone(keys: seq<string>)
    ensures Total(TallyOver([], keys)) == 0
  {
    if keys != [] {
      TallyOfNone(keys[1..]);
    }
  }

  /** One more check-in adds one to the total when its mood is a key, and nothing otherwise. */
  lemma {:induction false} TallyOfOneMore(m: MoodCheckin, rest: seq<MoodCheckin>, keys: seq<string>)
    requires NoRepeats(keys)
    ensures Total(TallyOver([m] + rest, keys)) == Total(TallyOver(rest, keys)) + (if m.moodValue in keys then 1 else 0)
  {
    if keys != [] {
      assert ([m] + rest)[1..] == rest;
      TallyOfOneMore(m, rest, keys[1..]);
      assert m.moodValue in keys <==> m.moodValue == keys[0] || m.moodValue in keys[1..];
    }
  }

  /** With distinct keys, the counts add up to the number of check-ins whose mood is a key. */
  lemma {:induction false} TallyTotalCountsKnownMoods(moods: seq<MoodCheckin>, keys: seq<string>)
    requires NoRepeats(keys)
    ensures Total(TallyOver(moods, keys)) == |Filter(moods, (m: MoodCheckin) => m.moodValue in keys)|
  {
    if moods == [] {
      TallyOfNone(keys);
    } else {
      assert moods == [moods[0]] + moods[1..];
      TallyOfOneMore(moods[0], moods[1..], keys);
      TallyTotalCountsKnownMoods(moods[1..], keys);
    }
  }

  /**
   * The pie chart has one count per mood, and the counts add up to at most
   * the number of check-ins, exactly that number when every check-in has one
   * of the five moods (as the mood route guarantees).
   */
  lemma PieDataTotal(moods: seq<MoodCheckin>)
    ensures |PieData(moods)| == 5
    ensures Total(PieData(moods)) <= |moods|
    ensures (forall i :: 0 <= i < |moods| ==> moods[i].moodValue in AllowedMoods) ==> Total(PieData(moods)) == |moods|
  {
    TallyTotalCountsKnownMoods(moods, MoodKeys);
    if forall i :: 0 <= i < |moods| ==> moods[i].moodValue in AllowedMoods {
      FilterKeepsAll(moods, (m: MoodCheckin) => m.moodValue in MoodKeys);
    }
  }

  /** Each weekly count is at most the all-time count of the same mood. */
  lemma WeeklyWithinAllTime(moods: seq<MoodCheckin>, now: int)
    ensures |WeeklySummary(moods, now)| == |PieData(moods)| == 5
    ensures forall i :: 0 <= i < 5 ==>
      WeeklySummary(moods, now)[i].mood == PieData(moods)[i].mood &&
      WeeklySummary(moods, now)[i].count <= PieData(moods)[i].count
  {
    forall i | 0 <= i < 5 ensures WeeklySummary(moods, now)[i].count <= PieData(moods)[i].count {
      FilterNarrowedCount(moods, InLastWeek(now), HasMood(MoodKeys[i]));
    }
  }

  // ---- Quote of the day ----

  const Quotes: seq<string> := [
    "🌟 Every check-in is a step towards self-awareness.",
    "💪 Small progress each day adds up to big results.",
    "🌈 Your feelings matter — honor them today.",
    "🔥 Consistency builds strength. Keep going!",
    "💖 Be kind to yourself, you’re doing amazing.",
    "🌻 You are growing beautifully, keep shining!"
  ]

  /** `quotes[new Date().getDate() % quotes.length]`, for the day of the month `dayOfMonth`. */
  function QuoteOfTheDay(dayOfMonth: nat): (q: string)
    ensures q in Quotes
  {
    Quotes[dayOfMonth % |Quotes|]
  }

  /** The quote repeats every six days of the month. */
  lemma QuoteCycles(dayOfMonth: nat)
    ensures QuoteOfTheDay(dayOfMonth + |Quotes|) == QuoteOfTheDay(dayOfMonth)
  {
    assert (dayOfMonth + 6) % 6 == dayOfMonth % 6;
  }

  // ---- History ----

  /** `showAllHistory ? moods : moods.slice(0, 5)`. */
  function MoodsToShow(moods: seq<MoodCheckin>, showAllHistory: bool): (r: seq<MoodCheckin>)
    ensures |r| == if showAllHistory then |moods| else Min(5, |moods|)
    ensures r == moods[..|r|]
  {
    Visible(moods, showAllHistory, 5)
  }

  /** `moods.length > 0 ? moods[moods.length - 1] : null`, as the page computes its "latest mood". */
  function LatestMoodAsWritten(moods: seq<MoodCheckin>): Option<MoodCheckin>
  {
    if |moods| > 0 then Some(moods[|moods| - 1]) else None
  }

  /**
   * On the newest-first list that GET /moods returns, the last element is
   * the oldest check-in: the page shows the user's first check-in as the
   * latest one.
   */
  lemma LatestMoodAsWrittenIsOldest(store: seq<MoodCheckin>, user: UserId)
    ensures var moods := ListMoods(store, user);
      LatestMoodAsWritten(moods).Some? ==>
        forall i :: 0 <= i < |moods| ==> LatestMoodAsWritten(moods).value.date <= moods[i].date
  {
  }

  /** Two check-ins a day apart, newest first as listed: the page labels the older one as the latest. */
  lemma LatestMoodAsWrittenCounterexample()
    ensures var older := MoodCheckin("u", 0, "sad");
      var newer := MoodCheckin("u", MsPerDay, "happy");
      && NewestFirst([newer, older], Date)
      && LatestMoodAsWritten([newer, older]) == Some(older)
      && LatestMood([newer, older]) == Some(newer)
  {
  }

  /** The latest check-in: the first one of a newest-first list. */
  function LatestMood(moods: seq<MoodCheckin>): (r: Option<MoodCheckin>)
    ensures r.Some? <==> moods != []
    ensures r.Some? ==> r.value in moods
    ensures r.Some? && NewestFirst(moods, Date) ==> forall i :: 0 <= i < |moods| ==> moods[i].date <= r.value.date
  {
    if |moods| > 0 then Some(moods[0]) else None
  }
}
