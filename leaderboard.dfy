/**
 * The weekly leaderboard: non-ignored moderators ranked by message count,
 * descending, ties in stored order; ranks 1-3 earn 40, 30 and 20
 * leaderboard points. These functions specify `DiscordBot.GenerateLeaderboard`.
 */
module Leaderboard {
  import opened Wrappers
  import opened Seqs
  import opened Schema
  import opened Storage

  /** `const rewards = [40, 30, 20]`, by rank. */
  const Rewards: seq<int> := [40, 30, 20]

  predicate Active(m: Moderator) {
    !m.isIgnored
  }

  function MessageKey(m: Moderator): int {
    m.messageCount
  }

  /** `moderators.filter(m => !m.isIgnored).sort((a, b) => b.messageCount - a.messageCount)`. */
  function Ranking(mods: seq<Moderator>): seq<Moderator> {
    SortDesc(Filter(mods, Active), MessageKey)
  }

  /** `ranked.slice(0, 3)`. */
  function Top(ranked: seq<Moderator>): (t: seq<Moderator>)
    ensures |t| <= |Rewards| && |t| <= |ranked|
    ensures |t| == |Rewards| || |t| == |ranked|
    ensures t == ranked[..|t|]
  {
    if |ranked| <= 3 then ranked else ranked[..3]
  }

  function RewardUpdate(points: int): ModeratorUpdate {
    NoChange.(leaderboardPoints := Some(points))
  }

  /**
   * The table after the reward loop: each record that is among the winners
   * has gained its rank's reward and been restamped; every other record is
   * as before. `DiscordBot.AwardTop` is proved to compute it with one
   * `updateModerator` per winner.
   */
  function AwardAll(mods: seq<Moderator>, top: seq<Moderator>, now: int): (r: seq<Moderator>)
    requires |top| <= |Rewards|
    ensures |r| == |mods|
    ensures forall i :: 0 <= i < |mods| ==> r[i].id == mods[i].id && r[i].discordId == mods[i].discordId
  {
    AwardedAfter(mods, top, |top|, now)
  }

  /** The table once the first `n` winners have been rewarded. */
  function AwardedAfter(mods: seq<Moderator>, top: seq<Moderator>, n: nat, now: int): seq<Moderator>
    requires n <= |top| <= |Rewards|
  {
    seq(|mods|, i requires 0 <= i < |mods| => ExpectedAfter(top, n, mods[i], now))
  }

  /** Position of the record with primary key `id` among the first `n` winners. */
  function RankBelow(top: seq<Moderator>, n: nat, id: nat): (r: Option<nat>)
    requires n <= |top|
    ensures r.Some? ==> r.value < n && top[r.value].id == id
    ensures r.None? ==> forall k :: 0 <= k < n ==> top[k].id != id
    decreases n
  {
    if n == 0 then None
    else match RankBelow(top, n - 1, id)
      case Some(k) => Some(k)
      case None => if top[n - 1].id == id then Some(n - 1) else None
  }

  /** Position of the record with primary key `id` among the winners. */
  function RankIndex(top: seq<Moderator>, id: nat): (r: Option<nat>)
    ensures r.Some? ==> r.value < |top| && top[r.value].id == id
    ensures r.None? ==> forall k :: 0 <= k < |top| ==> top[k].id != id
  {
    RankBelow(top, |top|, id)
  }

  function Rewarded(m: Moderator, reward: int, now: int): Moderator {
    m.(leaderboardPoints := m.leaderboardPoints + reward, lastUpdated := now)
  }

  /** What the first `n` iterations make of record `m`: rewarded by its rank if it is among those winners. */
  function ExpectedAfter(top: seq<Moderator>, n: nat, m: Moderator, now: int): Moderator
    requires n <= |top| <= |Rewards|
  {
    match RankBelow(top, n, m.id)
    case Some(k) => Rewarded(m, Rewards[k], now)
    case None => m
  }

  /** What the reward loop makes of record `m`: rewarded by its rank if it is a winner. */
  function Expected(top: seq<Moderator>, m: Moderator, now: int): Moderator
    requires |top| <= |Rewards|
  {
    ExpectedAfter(top, |top|, m, now)
  }

  /** One line of the published report: rank, Discord id, message count and the reward if any. */
  datatype Row = Row(rank: nat, discordId: string, messageCount: int, reward: Option<int>)

  function ReportRow(ranked: seq<Moderator>, i: nat): Row
    requires i < |ranked|
  {
    Row(i + 1, ranked[i].discordId, ranked[i].messageCount, if i < 3 then Some(Rewards[i]) else None)
  }

  /** The report: every ranked moderator in rank order, the top three with their reward. */
  function Report(ranked: seq<Moderator>): (rows: seq<Row>)
    ensures |rows| == |ranked|
    ensures forall i :: 0 <= i < |ranked| ==> rows[i] == ReportRow(ranked, i)
  {
    seq(|ranked|, i requires 0 <= i < |ranked| => ReportRow(ranked, i))
  }

  /** One more line of the report. */
  lemma ReportStep(ranked: seq<Moderator>, i: nat)
    requires i < |ranked|
    ensures Report(ranked)[..i] + [ReportRow(ranked, i)] == Report(ranked)[..i + 1]
  {
  }

  /**
   * The ranking holds exactly the non-ignored records, by message count
   * descending, and records with equal counts keep their stored order.
   */
  lemma RankingFacts(mods: seq<Moderator>, k: int)
    ensures SortedDesc(Ranking(mods), MessageKey)
    ensures multiset(Ranking(mods)) == multiset(Filter(mods, Active))
    ensures forall i :: 0 <= i < |Ranking(mods)| ==> Ranking(mods)[i] in mods && !Ranking(mods)[i].isIgnored
    ensures WithKey(Ranking(mods), MessageKey, k) == WithKey(Filter(mods, Active), MessageKey, k)
  {
    var f := Filter(mods, Active);
    SortDescFacts(f, MessageKey);
    SortDescStable(f, MessageKey, k);
    forall i | 0 <= i < |Ranking(mods)|
      ensures Ranking(mods)[i] in mods && !Ranking(mods)[i].isIgnored
    {
      assert Ranking(mods)[i] in multiset(f);
    }
  }

  lemma CountTwo(r: seq<Moderator>, i: nat, j: nat)
    requires i < j < |r| && r[i] == r[j]
    ensures multiset(r)[r[i]] >= 2
  {
    assert r == r[..j] + [r[j]] + r[j + 1..];
    assert r[i] in r[..j];
  }

  lemma {:induction false} UniqueCountOne(mods: seq<Moderator>, x: Moderator)
    requires UniqueIds(mods)
    ensures multiset(mods)[x] <= 1
  {
    if mods != [] {
      assert mods == [mods[0]] + mods[1..];
      UniqueCountOne(mods[1..], x);
      if x == mods[0] {
        assert x !in mods[1..];
      }
    }
  }

  /** A sub-multiset of a table with unique ids has unique ids. */
  lemma UniqueIdsOfSub(r: seq<Moderator>, mods: seq<Moderator>)
    requires UniqueIds(mods) && multiset(r) <= multiset(mods)
    ensures UniqueIds(r)
  {
    forall i, j | 0 <= i < j < |r|
      ensures r[i].id != r[j].id
    {
      if r[i].id == r[j].id {
        assert r[i] in multiset(mods) && r[j] in multiset(mods);
        var a :| 0 <= a < |mods| && mods[a] == r[i];
        var b :| 0 <= b < |mods| && mods[b] == r[j];
        assert a == b;
        CountTwo(r, i, j);
        UniqueCountOne(mods, r[i]);
        assert false;
      }
    }
  }

  /** In a table with unique ids, a record that is in the table is the one row with its id. */
  lemma SameIdSameRecord(mods: seq<Moderator>, x: Moderator, i: nat)
    requires UniqueIds(mods) && x in mods && i < |mods|
    ensures x.id == mods[i].id ==> x == mods[i]
  {
    var a :| 0 <= a < |mods| && mods[a] == x;
  }

  /** Iteration `n` of the reward loop rewards winner `n` and leaves every other row as it was. */
  lemma AwardStep(mods: seq<Moderator>, top: seq<Moderator>, cur: seq<Moderator>, now: int, n: nat, i: nat)
    requires UniqueIds(mods) && UniqueIds(top) && UniqueIds(cur)
    requires n < |top| <= |Rewards| && i < |mods| == |cur|
    requires top[n] in mods && cur[i].id == mods[i].id
    requires cur[i] == ExpectedAfter(top, n, mods[i], now)
    ensures ApplyUpdate(cur, top[n].id, RewardUpdate(top[n].leaderboardPoints + Rewards[n]), now)[i]
         == ExpectedAfter(top, n + 1, mods[i], now)
  {
    var x := top[n];
    var u := RewardUpdate(x.leaderboardPoints + Rewards[n]);
    if mods[i].id == x.id {
      assert x == mods[i] by {
        SameIdSameRecord(mods, x, i);
      }
      assert RankBelow(top, n, x.id).None? by {
        assert forall j :: 0 <= j < n ==> top[j].id != top[n].id;
      }
      assert RankBelow(top, n + 1, x.id) == Some(n);
      assert ApplyUpdate(cur, x.id, u, now)[i] == Patch(cur[i], u, now);
    } else {
      assert RankBelow(top, n + 1, mods[i].id) == RankBelow(top, n, mods[i].id);
    }
  }

  /**
   * One iteration of the reward loop, `updateModerator(top[n].id, ...)` with
   * the points read before the loop, takes the table from the first `n`
   * rewards to the first `n + 1`.
   */
  lemma AwardNext(mods: seq<Moderator>, top: seq<Moderator>, n: nat, now: int)
    requires UniqueIds(mods) && UniqueIds(top) && n < |top| <= |Rewards|
    requires top[n] in mods
    ensures ApplyUpdate(AwardedAfter(mods, top, n, now), top[n].id,
                        RewardUpdate(top[n].leaderboardPoints + Rewards[n]), now)
         == AwardedAfter(mods, top, n + 1, now)
  {
    var cur := AwardedAfter(mods, top, n, now);
    assert UniqueIds(cur) by {
      assert forall i :: 0 <= i < |mods| ==> cur[i].id == mods[i].id;
    }
    var next := ApplyUpdate(cur, top[n].id, RewardUpdate(top[n].leaderboardPoints + Rewards[n]), now);
    forall i | 0 <= i < |mods|
      ensures next[i] == AwardedAfter(mods, top, n + 1, now)[i]
    {
      AwardStep(mods, top, cur, now, n, i);
    }
  }

  /** Before the loop nothing is rewarded. */
  lemma AwardedNone(mods: seq<Moderator>, top: seq<Moderator>, now: int)
    requires |top| <= |Rewards|
    ensures AwardedAfter(mods, top, 0, now) == mods
  {
  }

  /**
   * The leaderboard's effect on the table: the records ranked 1, 2 and 3 gain
   * exactly 40, 30 and 20 leaderboard points and are restamped; every other
   * record, ignored ones included, is unchanged.
   */
  lemma LeaderboardAwards(mods: seq<Moderator>, now: int)
    requires UniqueIds(mods)
    ensures var top := Top(Ranking(mods));
      forall k :: 0 <= k < |top| ==>
        exists i :: 0 <= i < |mods| && mods[i] == top[k] && AwardAll(mods, top, now)[i] == Rewarded(mods[i], Rewards[k], now)
    ensures var top := Top(Ranking(mods));
      forall i :: 0 <= i < |mods| && (forall k :: 0 <= k < |top| ==> top[k].id != mods[i].id) ==>
        AwardAll(mods, top, now)[i] == mods[i]
  {
    WinnersFacts(mods);
    var top := Top(Ranking(mods));
    forall k | 0 <= k < |top|
      ensures exists i :: 0 <= i < |mods| && mods[i] == top[k] && AwardAll(mods, top, now)[i] == Rewarded(mods[i], Rewards[k], now)
    {
      var i :| 0 <= i < |mods| && mods[i] == top[k];
      var r := RankIndex(top, top[k].id);
      assert r == Some(k);
      assert AwardAll(mods, top, now)[i] == Expected(top, mods[i], now);
    }
    forall i | 0 <= i < |mods| && (forall k :: 0 <= k < |top| ==> top[k].id != mods[i].id)
      ensures AwardAll(mods, top, now)[i] == mods[i]
    {
      assert RankIndex(top, mods[i].id).None?;
      assert AwardAll(mods, top, now)[i] == Expected(top, mods[i], now);
    }
  }

  /** The winners are non-ignored records of the table with distinct ids. */
  lemma WinnersFacts(mods: seq<Moderator>)
    requires UniqueIds(mods)
    ensures UniqueIds(Top(Ranking(mods)))
    ensures forall k :: 0 <= k < |Top(Ranking(mods))| ==>
      Top(Ranking(mods))[k] in mods && !Top(Ranking(mods))[k].isIgnored
  {
    var ranked := Ranking(mods);
    var top := Top(ranked);
    RankedFrom(mods);
    UniqueIdsOfSub(ranked, mods);
    forall k | 0 <= k < |top|
      ensures top[k] in mods && !top[k].isIgnored
    {
      assert top[k] == ranked[k];
      assert ranked[k] in multiset(mods);
    }
  }

  /** The ranking draws its records from the table, and only active ones. */
  lemma RankedFrom(mods: seq<Moderator>)
    ensures multiset(Ranking(mods)) <= multiset(mods)
    ensures forall k :: 0 <= k < |Ranking(mods)| ==> !Ranking(mods)[k].isIgnored
  {
    var f := Filter(mods, Active);
    var ranked := Ranking(mods);
    SortDescFacts(f, MessageKey);
    FilterMultiset(mods, Active);
    forall k | 0 <= k < |ranked|
      ensures !ranked[k].isIgnored
    {
      assert ranked[k] in multiset(f);
    }
  }

  /** No ignored record is ever ranked, so none is ever rewarded. */
  lemma IgnoredNeverRewarded(mods: seq<Moderator>, now: int, i: nat)
    requires UniqueIds(mods) && i < |mods| && mods[i].isIgnored
    ensures AwardAll(mods, Top(Ranking(mods)), now)[i] == mods[i]
  {
    LeaderboardAwards(mods, now);
    WinnersFacts(mods);
    var top := Top(Ranking(mods));
    forall k | 0 <= k < |top|
      ensures top[k].id != mods[i].id
    {
      SameIdSameRecord(mods, top[k], i);
    }
  }

  lemma ExampleFilter(a: Moderator, b: Moderator, c: Moderator, d: Moderator)
    requires !a.isIgnored && !b.isIgnored && !c.isIgnored && !d.isIgnored
    ensures Filter([a, b, c, d], Active) == [a, b, c, d]
  {
    var s := [a, b, c, d];
    assert forall i :: 0 <= i < |s| ==> Active(s[i]);
    FilterAll(s, Active);
  }

  lemma ExampleSort(a: Moderator, b: Moderator, c: Moderator, d: Moderator)
    requires a.messageCount == 100 && b.messageCount == 80 && c.messageCount == 80 && d.messageCount == 10
    ensures SortDesc([a, b, c, d], MessageKey) == [a, b, c, d]
  {
    assert SortDesc([a], MessageKey) == [a] by { assert [a][..0] == []; }
    assert SortDesc([a, b], MessageKey) == [a, b] by {
      assert [a, b][..1] == [a];
    }
    assert SortDesc([a, b, c], MessageKey) == [a, b, c] by {
      assert [a, b, c][..2] == [a, b];
    }
    assert [a, b, c, d][..3] == [a, b, c];
  }

  /** Counts [100, 80, 80, 10] rank in that order (the tie keeps stored order). */
  lemma ExampleRanking(a: Moderator, b: Moderator, c: Moderator, d: Moderator)
    requires !a.isIgnored && !b.isIgnored && !c.isIgnored && !d.isIgnored
    requires a.messageCount == 100 && b.messageCount == 80 && c.messageCount == 80 && d.messageCount == 10
    ensures Ranking([a, b, c, d]) == [a, b, c, d]
  {
    ExampleFilter(a, b, c, d);
    ExampleSort(a, b, c, d);
  }
}
