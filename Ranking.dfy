/** The ranking page (app/ranking/page.tsx): the stored records, filtered by mode, sorted by
    reaction time with a stable sort, cut to the first fifty; the player's rank and best
    record; the medal and emoji shown per row; and the summary line under the table. */
module Ranking {
  import opened Types
  import opened SeqUtil
  import opened Evaluation
  import opened Storage

  const RankingSize: nat := 50

  /** The mode buttons: every mode, or one of them. The page opens on 'simple'. */
  datatype ModeFilter = AllModes | OnlyMode(mode: ModeType)

  const DefaultFilter: ModeFilter := OnlyMode(Simple)

  predicate Matches(filter: ModeFilter, r: Record)
  {
    filter.AllModes? || r.mode == filter.mode
  }

  function SelectByMode(records: seq<Record>, filter: ModeFilter): (rs: seq<Record>)
    ensures |rs| <= |records|
    ensures forall r :: r in rs <==> r in records && Matches(filter, r)
  {
    Filter(records, (r: Record) => Matches(filter, r))
  }

  /** With every mode selected nothing is filtered out. */
  lemma SelectAllKeepsEverything(records: seq<Record>)
    ensures SelectByMode(records, AllModes) == records
  {
    FilterAll(records, (r: Record) => Matches(AllModes, r));
  }

  predicate Sorted(s: seq<Record>)
  {
    forall i, j :: 0 <= i < j < |s| ==> s[i].reactionTime <= s[j].reactionTime
  }

  /** Insert x before the first element that is not faster, so x goes ahead of later equal times. */
  function InsertByTime(x: Record, l: seq<Record>): (r: seq<Record>)
    ensures |r| == |l| + 1
    ensures multiset(r) == multiset(l) + multiset{x}
  {
    if |l| == 0 then [x]
    else if x.reactionTime <= l[0].reactionTime then [x] + l
    else
      assert l == [l[0]] + l[1..];
      [l[0]] + InsertByTime(x, l[1..])
  }

  /** Every record of s takes at least t. */
  predicate AtLeast(s: seq<Record>, t: int)
  {
    forall i :: 0 <= i < |s| ==> s[i].reactionTime >= t
  }

  /** A sorted list stays sorted under a head no slower than all of it. */
  lemma SortedCons(h: Record, s: seq<Record>)
    requires Sorted(s) && AtLeast(s, h.reactionTime)
    ensures Sorted([h] + s)
  {
    var r := [h] + s;
    forall i, j | 0 <= i < j < |r|
      ensures r[i].reactionTime <= r[j].reactionTime
    {
      assert r[j] == s[j - 1];
      if i > 0 {
        assert r[i] == s[i - 1];
      }
    }
  }

  lemma ConsAtLeast(h: Record, s: seq<Record>, t: int)
    requires AtLeast(s, t) && h.reactionTime >= t
    ensures AtLeast([h] + s, t)
  {
    var r := [h] + s;
    forall i | 0 < i < |r|
      ensures r[i].reactionTime >= t
    {
      assert r[i] == s[i - 1];
    }
  }

  lemma TailAtLeast(s: seq<Record>, t: int)
    requires AtLeast(s, t) && |s| > 0
    ensures AtLeast(s[1..], t)
  {
    var tail := s[1..];
    forall i | 0 <= i < |tail|
      ensures tail[i].reactionTime >= t
    {
      assert tail[i] == s[i + 1];
    }
  }

  /** Inserting a record that takes at least t keeps every record at t or above. */
  lemma {:induction false} InsertAtLeast(x: Record, l: seq<Record>, t: int)
    requires AtLeast(l, t) && x.reactionTime >= t
    ensures AtLeast(InsertByTime(x, l), t)
  {
    if |l| == 0 {
      ConsAtLeast(x, [], t);
    } else if x.reactionTime <= l[0].reactionTime {
      ConsAtLeast(x, l, t);
    } else {
      TailAtLeast(l, t);
      InsertAtLeast(x, l[1..], t);
      ConsAtLeast(l[0], InsertByTime(x, l[1..]), t);
    }
  }

  /** The tail of a sorted list is sorted, and no faster than its head. */
  lemma SortedTail(l: seq<Record>)
    requires Sorted(l) && |l| > 0
    ensures Sorted(l[1..]) && AtLeast(l[1..], l[0].reactionTime)
  {
    var tail := l[1..];
    forall i | 0 <= i < |tail|
      ensures tail[i].reactionTime >= l[0].reactionTime
    {
      assert tail[i] == l[i + 1];
    }
  }

  lemma {:induction false} InsertSorted(x: Record, l: seq<Record>)
    requires Sorted(l)
    ensures Sorted(InsertByTime(x, l))
  {
    if |l| > 0 {
      SortedTail(l);
      if x.reactionTime <= l[0].reactionTime {
        forall i | 0 <= i < |l|
          ensures l[i].reactionTime >= x.reactionTime
        {
          if i > 0 {
            assert l[0].reactionTime <= l[i].reactionTime;
          }
        }
        SortedCons(x, l);
      } else {
        var tail := l[1..];
        InsertSorted(x, tail);
        InsertAtLeast(x, tail, l[0].reactionTime);
        SortedCons(l[0], InsertByTime(x, tail));
      }
    }
  }

  /** The records whose time is exactly k, in their order. */
  function WithTime(s: seq<Record>, k: int): seq<Record>
  {
    if |s| == 0 then []
    else (if s[0].reactionTime == k then [s[0]] else []) + WithTime(s[1..], k)
  }

  /** The time class of a list with a head in front. */
  lemma WithTimeCons(h: Record, s: seq<Record>, k: int)
    ensures WithTime([h] + s, k) == (if h.reactionTime == k then [h] else []) + WithTime(s, k)
  {
    assert ([h] + s)[1..] == s;
  }

  /** Inserting x adds it at the front of its own time class and leaves the others alone. */
  lemma {:induction false} InsertWithTime(x: Record, l: seq<Record>, k: int)
    ensures WithTime(InsertByTime(x, l), k) == (if x.reactionTime == k then [x] else []) + WithTime(l, k)
  {
    if |l| == 0 {
      WithTimeCons(x, [], k);
      assert [x] + [] == [x];
    } else if x.reactionTime <= l[0].reactionTime {
      WithTimeCons(x, l, k);
    } else {
      var tail := l[1..];
      var rest := InsertByTime(x, tail);
      InsertWithTime(x, tail, k);
      WithTimeCons(l[0], rest, k);
      assert l == [l[0]] + tail;
      WithTimeCons(l[0], tail, k);
      if x.reactionTime == k {
        assert l[0].reactionTime != k;
        assert WithTime(l, k) == WithTime(tail, k);
        assert WithTime(InsertByTime(x, l), k) == WithTime(rest, k);
      } else {
        assert WithTime(rest, k) == WithTime(tail, k);
      }
    }
  }

  /** Array.prototype.sort with the comparator a.reactionTime - b.reactionTime, which is stable. */
  function SortByTime(s: seq<Record>): (r: seq<Record>)
    ensures |r| == |s|
    ensures multiset(r) == multiset(s)
    ensures Sorted(r)
  {
    if |s| == 0 then []
    else
      var rest := SortByTime(s[1..]);
      InsertSorted(s[0], rest);
      assert s == [s[0]] + s[1..];
      InsertByTime(s[0], rest)
  }

  /** Stability: records with equal times keep their stored order. */
  lemma {:induction false} SortIsStable(s: seq<Record>, k: int)
    ensures WithTime(SortByTime(s), k) == WithTime(s, k)
  {
    if |s| > 0 {
      SortIsStable(s[1..], k);
      InsertWithTime(s[0], SortByTime(s[1..]), k);
    }
  }

  function Smaller(a: nat, b: nat): nat
  {
    if a < b then a else b
  }

  /** The list on the page: filter, stable sort, top fifty. */
  function FilteredRecords(records: seq<Record>, filter: ModeFilter): (list: seq<Record>)
    ensures |list| == Smaller(|SelectByMode(records, filter)|, RankingSize)
    ensures forall r :: r in list ==> r in records && Matches(filter, r)
    ensures Sorted(list)
    ensures multiset(list) <= multiset(SelectByMode(records, filter))
    ensures list == SortByTime(SelectByMode(records, filter))[..|list|]
  {
    var all := SortByTime(SelectByMode(records, filter));
    var list := all[..Smaller(|all|, RankingSize)];
    assert all == list + all[|list|..];
    forall r | r in list
      ensures r in records && Matches(filter, r)
    {
      assert r in all;
      assert r in multiset(all);
      assert r in SelectByMode(records, filter);
    }
    list
  }

  /** A matching record missing from the list is no faster than the last listed record, and the
      list is full; together with `SortIsStable` this is "the fifty fastest, ties in stored order". */
  lemma LeftOutAreSlower(records: seq<Record>, filter: ModeFilter, m: Record)
    requires m in records && Matches(filter, m)
    requires m !in FilteredRecords(records, filter)
    ensures |FilteredRecords(records, filter)| == RankingSize
    ensures m.reactionTime >= FilteredRecords(records, filter)[RankingSize - 1].reactionTime
  {
    var all := SortByTime(SelectByMode(records, filter));
    var list := FilteredRecords(records, filter);
    assert m in SelectByMode(records, filter);
    assert m in multiset(all);
    assert m in all;
    var i :| 0 <= i < |all| && all[i] == m;
    assert list == all[..|list|];
    assert i >= |list|;
    assert |list| == RankingSize;
    assert all[RankingSize - 1] == list[RankingSize - 1];
  }

  /** The records of the list with a given time are those of the stored records, in stored
      order, as far as the list reaches. */
  lemma ListKeepsStoredOrder(records: seq<Record>, filter: ModeFilter, k: int)
    requires |SelectByMode(records, filter)| <= RankingSize
    ensures WithTime(FilteredRecords(records, filter), k) == WithTime(SelectByMode(records, filter), k)
  {
    var all := SortByTime(SelectByMode(records, filter));
    assert all[..|all|] == all;
    SortIsStable(SelectByMode(records, filter), k);
  }

  /** Cutting a list keeps a prefix of each time class. */
  lemma {:induction false} WithTimeOfPrefix(s: seq<Record>, n: nat, k: int)
    requires n <= |s|
    ensures WithTime(s[..n], k) <= WithTime(s, k)
  {
    if n > 0 {
      assert s[..n][1..] == s[1..][..n - 1];
      WithTimeOfPrefix(s[1..], n - 1, k);
    }
  }

  /** However many records match, the listed records with a given time come first among the
      stored ones with that time, in stored order. */
  lemma ListKeepsStoredOrderPrefix(records: seq<Record>, filter: ModeFilter, k: int)
    ensures WithTime(FilteredRecords(records, filter), k) <= WithTime(SelectByMode(records, filter), k)
  {
    var all := SortByTime(SelectByMode(records, filter));
    var list := FilteredRecords(records, filter);
    WithTimeOfPrefix(all, |list|, k);
    SortIsStable(SelectByMode(records, filter), k);
  }

  /** userRank: one more than the index of the player's first listed record, 0 when the player
      is not listed or nobody is logged in. */
  function UserRank(user: Option<User>, list: seq<Record>): (rank: nat)
    ensures rank <= |list|
    ensures rank == 0 <==> user.None? || forall r :: r in list ==> r.userId != user.value.id
    ensures rank > 0 ==> list[rank - 1].userId == user.value.id
    ensures rank > 0 ==> forall j :: 0 <= j < rank - 1 ==> list[j].userId != user.value.id
  {
    if user.None? then 0 else FindIndex(list, user.value.id) + 1
  }

  /** findIndex on the user id, -1 when absent. */
  function FindIndex(list: seq<Record>, userId: string): (i: int)
    ensures -1 <= i < |list|
    ensures i == -1 <==> forall r :: r in list ==> r.userId != userId
    ensures i >= 0 ==> list[i].userId == userId && forall j :: 0 <= j < i ==> list[j].userId != userId
  {
    if |list| == 0 then -1
    else if list[0].userId == userId then 0
    else
      var i := FindIndex(list[1..], userId);
      assert forall r :: r in list ==> r == list[0] || r in list[1..];
      if i == -1 then -1 else i + 1
  }

  /** find on the user id. */
  function Find(list: seq<Record>, userId: string): (r: Option<Record>)
    ensures r.Some? ==> r.value in list && r.value.userId == userId
    ensures r.None? ==> forall x :: x in list ==> x.userId != userId
  {
    if |list| == 0 then None
    else if list[0].userId == userId then Some(list[0])
    else
      assert forall x :: x in list ==> x == list[0] || x in list[1..];
      Find(list[1..], userId)
  }

  function UserBestRecord(user: Option<User>, list: seq<Record>): Option<Record>
  {
    if user.None? then None else Find(list, user.value.id)
  }

  /** The best record is the listed record at the player's rank. */
  lemma {:induction false} BestRecordAtRank(user: Option<User>, list: seq<Record>)
    ensures UserBestRecord(user, list) == if UserRank(user, list) > 0 then Some(list[UserRank(user, list) - 1]) else None
  {
    if user.Some? {
      FindAgrees(list, user.value.id);
    }
  }

  lemma {:induction false} FindAgrees(list: seq<Record>, userId: string)
    ensures Find(list, userId) == if FindIndex(list, userId) >= 0 then Some(list[FindIndex(list, userId)]) else None
  {
    if |list| > 0 && list[0].userId != userId {
      FindAgrees(list[1..], userId);
    }
  }

  /** On the sorted list the best record is the player's fastest listed time. */
  lemma BestRecordIsFastest(user: User, list: seq<Record>, r: Record)
    requires Sorted(list) && r in list && r.userId == user.id
    ensures UserBestRecord(Some(user), list).Some?
    ensures UserBestRecord(Some(user), list).value.reactionTime <= r.reactionTime
  {
    BestRecordAtRank(Some(user), list);
    var rank := UserRank(Some(user), list);
    var j :| 0 <= j < |list| && list[j] == r;
    assert rank - 1 <= j;
  }

  /** Decimal digits of n, as `${rank}` prints a whole number. */
  function NatToString(n: nat): (s: string)
    ensures |s| > 0
    ensures forall i :: 0 <= i < |s| ==> '0' <= s[i] <= '9'
  {
    if n < 10 then [DigitChar(n)] else NatToString(n / 10) + [DigitChar(n % 10)]
  }

  function DigitChar(d: nat): (c: char)
    requires d < 10
    ensures '0' <= c <= '9'
  {
    (('0' as int) + d) as char
  }

  function IntToString(n: int): string
  {
    if n < 0 then "-" + NatToString(-n) else NatToString(n)
  }

  /** Reading decimal digits back: the inverse of NatToString. */
  function ParseDigits(s: string): int
  {
    if |s| == 0 then 0 else ParseDigits(s[..|s| - 1]) * 10 + (s[|s| - 1] as int - '0' as int)
  }

  lemma {:induction false} NatToStringRoundTrip(n: nat)
    ensures ParseDigits(NatToString(n)) == n
  {
    if n >= 10 {
      var s := NatToString(n / 10) + [DigitChar(n % 10)];
      assert s[..|s| - 1] == NatToString(n / 10);
      NatToStringRoundTrip(n / 10);
    }
  }

  /** getMedalEmoji: medals for the first three places, "<rank>位" after them. */
  function MedalEmoji(rank: int): (s: string)
    ensures rank == 1 ==> s == "🥇"
    ensures rank == 2 ==> s == "🥈"
    ensures rank == 3 ==> s == "🥉"
    ensures rank > 3 ==> s == NatToString(rank) + "位"
  {
    if rank == 1 then "🥇"
    else if rank == 2 then "🥈"
    else if rank == 3 then "🥉"
    else IntToString(rank) + "位"
  }

  /** From fourth place on the label is the rank in decimal followed by 位, and it reads back. */
  lemma MedalNamesTheRank(rank: nat)
    requires rank > 3
    ensures |MedalEmoji(rank)| >= 2 && MedalEmoji(rank)[|MedalEmoji(rank)| - 1] == '位'
    ensures ParseDigits(MedalEmoji(rank)[..|MedalEmoji(rank)| - 1]) == rank
  {
    var s := MedalEmoji(rank);
    assert s[..|s| - 1] == NatToString(rank);
    NatToStringRoundTrip(rank);
  }

  /** getEvaluationEmoji: the page's own threshold chain. */
  function EvaluationEmoji(time: real): string
  {
    if time <= 150.0 then "⚡"
    else if time <= 200.0 then "🔥"
    else if time <= 250.0 then "👍"
    else if time <= 300.0 then "💪"
    else "🌱"
  }

  /** It always shows the emoji of the library's evaluation of the same time. */
  lemma EvaluationEmojiAgrees(time: real)
    ensures EvaluationEmoji(time) == EvaluateReactionTime(time).emoji
  {
  }

  function UserIds(list: seq<Record>): set<string>
  {
    set r | r in list :: r.userId
  }

  /** The participant count: the number of distinct user ids on the list. */
  function ParticipantCount(list: seq<Record>): (n: nat)
    ensures n <= |list|
    ensures |list| > 0 ==> n >= 1
    ensures n == |UserIds(list)|
  {
    UserIdsBound(list);
    |UserIds(list)|
  }

  lemma {:induction false} UserIdsBound(list: seq<Record>)
    ensures |UserIds(list)| <= |list|
    ensures |list| > 0 ==> |UserIds(list)| >= 1
  {
    if |list| > 0 {
      assert UserIds(list) == {list[0].userId} + UserIds(list[1..]) by {
        assert forall r :: r in list <==> r == list[0] || r in list[1..];
      }
      UserIdsBound(list[1..]);
    }
  }

  function Times(list: seq<Record>): (ts: seq<int>)
    ensures |ts| == |list|
    ensures forall i :: 0 <= i < |list| ==> ts[i] == list[i].reactionTime
  {
    if |list| == 0 then [] else [list[0].reactionTime] + Times(list[1..])
  }

  /** The average time of the summary, rounded; it lies between the first and the last listed
      time. Shown only for a non-empty list. */
  function AverageOfList(list: seq<Record>): (avg: int)
    requires |list| > 0
    ensures avg == Round(Mean(Times(list)))
    ensures Sorted(list) ==> list[0].reactionTime <= avg <= list[|list| - 1].reactionTime
  {
    StatsAverageBetween(Times(list));
    SortedTimesBetween(list);
    CalculateStats(Times(list)).value.average
  }

  lemma SortedTimesBetween(list: seq<Record>)
    requires |list| > 0
    ensures Sorted(list) ==> forall t :: t in Times(list) ==> list[0].reactionTime <= t <= list[|list| - 1].reactionTime
  {
    var ts := Times(list);
    if Sorted(list) {
      forall t | t in ts
        ensures list[0].reactionTime <= t <= list[|list| - 1].reactionTime
      {
        var i :| 0 <= i < |ts| && ts[i] == t;
      }
    }
  }

  /** The fastest time of the summary: the first listed time, 0 for an empty list. */
  function FastestTime(list: seq<Record>): (t: int)
    ensures |list| == 0 ==> t == 0
    ensures Sorted(list) ==> forall r :: r in list ==> t <= r.reactionTime
    ensures |list| > 0 ==> t == list[0].reactionTime
  {
    if |list| == 0 then 0 else list[0].reactionTime
  }

  /** What the page loads once on mount: the user, all records, and the session (which
      getCurrentSession writes on first read). */
  method LoadRanking(store: Store, today: string) returns (user: Option<User>, records: seq<Record>, session: Session)
    requires store.Valid()
    modifies store
    ensures store.Valid()
    ensures user == StoredUser(old(store.items)) && records == StoredRecords(old(store.items))
    ensures session == CurrentSession(old(store.items), today)
    ensures store.items == AfterSessionRead(old(store.items), today)
  {
    user := store.GetUser();
    records := store.GetRecords();
    session := store.GetCurrentSession(today);
  }
}
