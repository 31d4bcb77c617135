/**
 * The figures the dashboard derives from the moderator list and the settings
 * list it fetches: the two rates with their defaults, every moderator
 * enriched with its point components and total, the list sorted by total,
 * and the summary counters.
 */
module Dashboard {
  import opened Wrappers
  import opened Seqs
  import opened Numbers
  import opened Schema
  import opened Storage
  import opened Points
  import opened Leaderboard

  /** `settings?.find(s => s.key === key)?.value`; `None` settings is the list not loaded yet. */
  function FindSetting(settings: Option<seq<BotSetting>>, key: string): (r: Option<string>)
    ensures settings.None? ==> r.None?
    ensures r.Some? ==> exists i :: 0 <= i < |settings.value| && settings.value[i] == BotSetting(key, r.value)
  {
    match settings
    case None => None
    case Some(list) =>
      match First(list, (s: BotSetting) => s.key == key)
      case None => None
      case Some(i) => Some(list[i].value)
  }

  /** `val ? parseInt(val) : dflt` over the fetched list. */
  function ListRate(settings: Option<seq<BotSetting>>, key: string, dflt: int): Option<int> {
    DashboardRate(FindSetting(settings, key), dflt)
  }

  /** A moderator row with its point components; `None` is `NaN`. */
  datatype Enriched = Enriched(mod: Moderator, messagePoints: Option<int>, invitePoints: Option<int>,
                               totalPoints: Option<int>)

  function Enrich(m: Moderator, per1000: Option<int>, perInvite: Option<int>): Enriched {
    var mp := if per1000.Some? then Some(MessagePoints(m.messageCount, per1000.value)) else None;
    var ip := if perInvite.Some? then Some(InvitePoints(m.inviteCount, perInvite.value)) else None;
    var total := if mp.Some? && ip.Some? then Some(mp.value + ip.value + m.leaderboardPoints + m.manualPoints) else None;
    Enriched(m, mp, ip, total)
  }

  /** `moderators.map(...)`. */
  function EnrichAll(mods: seq<Moderator>, per1000: Option<int>, perInvite: Option<int>): (r: seq<Enriched>)
    ensures |r| == |mods|
    ensures forall i :: 0 <= i < |mods| ==> r[i] == Enrich(mods[i], per1000, perInvite)
  {
    if mods == [] then [] else [Enrich(mods[0], per1000, perInvite)] + EnrichAll(mods[1..], per1000, perInvite)
  }

  /**
   * The comparator's key: `b.totalPoints - a.totalPoints` is `NaN` when the
   * totals are `NaN`, which the sort treats as equal; every total is then
   * `NaN`, so the key 0 for all of them gives the same order.
   */
  function TotalKey(e: Enriched): int {
    e.totalPoints.GetOr(0)
  }

  /** `enrichedModerators`: empty until the list is loaded, then enriched and sorted by total, descending. */
  function EnrichedModerators(mods: Option<seq<Moderator>>, settings: Option<seq<BotSetting>>): seq<Enriched> {
    match mods
    case None => []
    case Some(list) =>
      SortDesc(EnrichAll(list, ListRate(settings, PointsPer1000Msg, DefaultPer1000Msg),
                         ListRate(settings, PointsPerInvite, DefaultPerInvite)), TotalKey)
  }

  function EnrichedMessages(e: Enriched): int {
    e.mod.messageCount
  }

  function EnrichedInvites(e: Enriched): int {
    e.mod.inviteCount
  }

  predicate EnrichedActive(e: Enriched) {
    !e.mod.isIgnored
  }

  function Messages(m: Moderator): int {
    m.messageCount
  }

  function InvitesOf(m: Moderator): int {
    m.inviteCount
  }

  /** `totalMessages`. */
  function TotalMessages(rows: seq<Enriched>): int {
    Sum(rows, EnrichedMessages)
  }

  /** `totalInvites`. */
  function TotalInvites(rows: seq<Enriched>): int {
    Sum(rows, EnrichedInvites)
  }

  /** `activeMods`. */
  function ActiveMods(rows: seq<Enriched>): nat {
    |Filter(rows, EnrichedActive)|
  }

  /** The rank column: position in the sorted list plus one. */
  function DisplayRank(rows: seq<Enriched>, i: nat): (rank: nat)
    requires i < |rows|
    ensures 1 <= rank <= |rows|
  {
    i + 1
  }

  /** The dashboard's total is the one formula, `NaN` exactly when a rate is. */
  lemma EnrichTotal(m: Moderator, per1000: Option<int>, perInvite: Option<int>)
    ensures Enrich(m, per1000, perInvite).totalPoints == TotalOrNaN(m, BothRates(per1000, perInvite))
  {
  }

  /** Enrichment keeps the message and invite sums and the number of non-ignored rows. */
  lemma EnrichAllSums(mods: seq<Moderator>, per1000: Option<int>, perInvite: Option<int>)
    ensures Sum(EnrichAll(mods, per1000, perInvite), EnrichedMessages) == Sum(mods, Messages)
    ensures Sum(EnrichAll(mods, per1000, perInvite), EnrichedInvites) == Sum(mods, InvitesOf)
    ensures |Filter(EnrichAll(mods, per1000, perInvite), EnrichedActive)| == |Filter(mods, Active)|
  {
    EnrichAllMessages(mods, per1000, perInvite);
    EnrichAllInvites(mods, per1000, perInvite);
    EnrichAllActive(mods, per1000, perInvite);
  }

  lemma {:induction false} EnrichAllMessages(mods: seq<Moderator>, per1000: Option<int>, perInvite: Option<int>)
    ensures Sum(EnrichAll(mods, per1000, perInvite), EnrichedMessages) == Sum(mods, Messages)
  {
    if mods != [] {
      var e := EnrichAll(mods, per1000, perInvite);
      EnrichAllMessages(mods[1..], per1000, perInvite);
      assert e[1..] == EnrichAll(mods[1..], per1000, perInvite);
      assert EnrichedMessages(e[0]) == Messages(mods[0]);
    }
  }

  lemma {:induction false} EnrichAllInvites(mods: seq<Moderator>, per1000: Option<int>, perInvite: Option<int>)
    ensures Sum(EnrichAll(mods, per1000, perInvite), EnrichedInvites) == Sum(mods, InvitesOf)
  {
    if mods != [] {
      var e := EnrichAll(mods, per1000, perInvite);
      EnrichAllInvites(mods[1..], per1000, perInvite);
      assert e[1..] == EnrichAll(mods[1..], per1000, perInvite);
      assert EnrichedInvites(e[0]) == InvitesOf(mods[0]);
    }
  }

  lemma {:induction false} EnrichAllActive(mods: seq<Moderator>, per1000: Option<int>, perInvite: Option<int>)
    ensures |Filter(EnrichAll(mods, per1000, perInvite), EnrichedActive)| == |Filter(mods, Active)|
  {
    if mods != [] {
      var e := EnrichAll(mods, per1000, perInvite);
      EnrichAllActive(mods[1..], per1000, perInvite);
      assert e[1..] == EnrichAll(mods[1..], per1000, perInvite);
      assert EnrichedActive(e[0]) == Active(mods[0]);
    }
  }

  /** Every row the enrichment makes carries the one balance formula at the rates read. */
  lemma EnrichAllTotals(mods: seq<Moderator>, per1000: Option<int>, perInvite: Option<int>, rows: seq<Enriched>)
    requires rows == SortDesc(EnrichAll(mods, per1000, perInvite), TotalKey)
    ensures forall i :: 0 <= i < |rows| ==> rows[i].totalPoints == TotalOrNaN(rows[i].mod, BothRates(per1000, perInvite))
  {
    var base := EnrichAll(mods, per1000, perInvite);
    SortDescFacts(base, TotalKey);
    forall i | 0 <= i < |rows|
      ensures rows[i].totalPoints == TotalOrNaN(rows[i].mod, BothRates(per1000, perInvite))
    {
      assert rows[i] in multiset(base);
      var k :| 0 <= k < |base| && base[k] == rows[i];
      EnrichTotal(mods[k], per1000, perInvite);
    }
  }

  /**
   * The list shows every moderator exactly once, ignored ones included,
   * sorted by total descending (rank 1 has the highest total); with unreadable
   * rates it keeps the fetched order.
   */
  lemma DashboardOrder(mods: seq<Moderator>, settings: Option<seq<BotSetting>>)
    ensures var rows := EnrichedModerators(Some(mods), settings);
      var base := EnrichAll(mods, ListRate(settings, PointsPer1000Msg, DefaultPer1000Msg),
                            ListRate(settings, PointsPerInvite, DefaultPerInvite));
      && |rows| == |mods|
      && multiset(rows) == multiset(base)
      && (forall i, j :: 0 <= i < j < |rows| ==> TotalKey(rows[i]) >= TotalKey(rows[j]))
      && (forall i :: 0 <= i < |base| && base[i].totalPoints.None? ==> rows == base)
  {
    var p1 := ListRate(settings, PointsPer1000Msg, DefaultPer1000Msg);
    var p2 := ListRate(settings, PointsPerInvite, DefaultPerInvite);
    var base := EnrichAll(mods, p1, p2);
    var rows := EnrichedModerators(Some(mods), settings);
    assert rows == SortDesc(base, TotalKey);
    SortDescFacts(base, TotalKey);
    if !(p1.Some? && p2.Some?) {
      forall i | 0 <= i < |base|
        ensures TotalKey(base[i]) == 0
      {
        assert base[i] == Enrich(mods[i], p1, p2);
      }
      SortDescConstant(base, TotalKey, 0);
    } else {
      forall i | 0 <= i < |base|
        ensures base[i].totalPoints.Some?
      {
        assert base[i] == Enrich(mods[i], p1, p2);
      }
    }
  }

  /**
   * `totalMessages` and `totalInvites` are sums over every moderator, ignored
   * ones included, and `activeMods` counts the non-ignored ones, whatever the
   * order of the list.
   */
  lemma DashboardCounters(mods: seq<Moderator>, settings: Option<seq<BotSetting>>)
    ensures var rows := EnrichedModerators(Some(mods), settings);
      && TotalMessages(rows) == Sum(mods, Messages)
      && TotalInvites(rows) == Sum(mods, InvitesOf)
      && ActiveMods(rows) == |Filter(mods, Active)|
  {
    var p1 := ListRate(settings, PointsPer1000Msg, DefaultPer1000Msg);
    var p2 := ListRate(settings, PointsPerInvite, DefaultPerInvite);
    var base := EnrichAll(mods, p1, p2);
    var rows := EnrichedModerators(Some(mods), settings);
    SortDescFacts(base, TotalKey);
    SumPermutation(rows, base, EnrichedMessages);
    SumPermutation(rows, base, EnrichedInvites);
    FilterCountPermutation(rows, base, EnrichedActive);
    EnrichAllSums(mods, p1, p2);
  }

  /** The fetched list is exactly the stored settings map, one row per key. */
  ghost predicate ListsSettings(list: seq<BotSetting>, settings: map<string, string>) {
    && (forall i, j :: 0 <= i < j < |list| ==> list[i].key != list[j].key)
    && (forall i :: 0 <= i < |list| ==> list[i].key in settings && settings[list[i].key] == list[i].value)
    && (forall k :: k in settings ==> exists i :: 0 <= i < |list| && list[i].key == k)
  }

  lemma FindListedSetting(list: seq<BotSetting>, settings: map<string, string>, key: string)
    requires ListsSettings(list, settings)
    ensures FindSetting(Some(list), key) == SettingValue(settings, key)
  {
    if key in settings {
      var i :| 0 <= i < |list| && list[i].key == key;
    }
  }

  /**
   * Over the stored settings every dashboard row's total is the balance the
   * bot reports for that moderator, and missing or empty rates default to 15
   * and 1 on both sides.
   */
  lemma DashboardAgreesWithBot(mods: seq<Moderator>, list: seq<BotSetting>, settings: map<string, string>)
    requires ListsSettings(list, settings)
    ensures var rows := EnrichedModerators(Some(mods), Some(list));
      forall i :: 0 <= i < |rows| ==> rows[i].totalPoints == TotalOrNaN(rows[i].mod, CommandRates(settings))
  {
    var p1 := ListRate(Some(list), PointsPer1000Msg, DefaultPer1000Msg);
    var p2 := ListRate(Some(list), PointsPerInvite, DefaultPerInvite);
    ListedRates(list, settings);
    var rows := EnrichedModerators(Some(mods), Some(list));
    EnrichAllTotals(mods, p1, p2, rows);
  }

  /** The rates the dashboard reads from the listed settings are the bot's. */
  lemma ListedRates(list: seq<BotSetting>, settings: map<string, string>)
    requires ListsSettings(list, settings)
    ensures BothRates(ListRate(Some(list), PointsPer1000Msg, DefaultPer1000Msg),
                      ListRate(Some(list), PointsPerInvite, DefaultPerInvite)) == CommandRates(settings)
  {
    FindListedSetting(list, settings, PointsPer1000Msg);
    FindListedSetting(list, settings, PointsPerInvite);
    RatesAgree(settings);
  }

  /** With no rate settings the dashboard uses 15 per 1000 messages and 1 per invite. */
  lemma DashboardDefaults(settings: Option<seq<BotSetting>>)
    requires !Truthy(FindSetting(settings, PointsPer1000Msg)) && !Truthy(FindSetting(settings, PointsPerInvite))
    ensures ListRate(settings, PointsPer1000Msg, DefaultPer1000Msg) == Some(15)
    ensures ListRate(settings, PointsPerInvite, DefaultPerInvite) == Some(1)
  {
  }
}
