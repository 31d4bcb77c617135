/**
 * The recovery scan that backfills messages missed while the bot was
 * offline: a bounded backward walk over the tracked channel's history, with a
 * global cutoff and a strict per-record `createdAt > lastUpdated` guard. The
 * functions here specify what `DiscordBot.RecoverMissedMessages` does to the
 * table; the lemmas state what the scan can and cannot do to a record.
 */
module Recovery {
  import opened Wrappers
  import opened Schema
  import opened Storage
  import opened Points

  /** `MAX_RECOVERY`: the walk stops fetching once this many messages were looked at. */
  const MaxRecovery: nat := 500
  /** `limit: 100`: the most messages one history fetch returns. */
  const PageLimit: nat := 100

  /** A message of the tracked channel's history, newest first within the walk. */
  datatype HistoryMessage = HistoryMessage(authorId: string, authorIsBot: bool, inGuild: bool, createdAt: int)

  /**
   * The guild's member lookup: the role ids of the member with that account
   * id, or `None` when fetching the member fails.
   */
  type RoleLookup = string -> Option<set<string>>

  /** `member?.roles.cache.has(role)`. */
  predicate HoldsRole(roles: Option<set<string>>, role: string) {
    roles.Some? && role in roles.value
  }

  /**
   * `moderators.filter(m => !m.isIgnored).reduce((min, m) => m.lastUpdated < min ?
   * m.lastUpdated : min, start)`: the earliest update among non-ignored records,
   * or `start` if none is earlier.
   */
  function EarliestUpdate(mods: seq<Moderator>, start: int): (r: int)
    ensures r <= start
    ensures forall i :: 0 <= i < |mods| && !mods[i].isIgnored ==> r <= mods[i].lastUpdated
    ensures r == start || exists i :: 0 <= i < |mods| && !mods[i].isIgnored && r == mods[i].lastUpdated
  {
    if mods == [] then start
    else
      var next := if !mods[0].isIgnored && mods[0].lastUpdated < start then mods[0].lastUpdated else start;
      var r := EarliestUpdate(mods[1..], next);
      assert r == next || exists i :: 1 <= i < |mods| && !mods[i].isIgnored && r == mods[i].lastUpdated;
      r
  }

  /** What stays fixed during one run: cutoff, role id, member lookup and the clock. */
  datatype Scan = Scan(cutoff: int, modRole: string, roles: RoleLookup, now: int)

  function CountUpdate(count: int): ModeratorUpdate {
    NoChange.(messageCount := Some(count))
  }

  /**
   * One history message at or after the cutoff: credit its author if the
   * author holds the role, has a record, is not ignored, and the message is
   * strictly newer than the record's `lastUpdated`. The record is looked up
   * afresh, so an earlier credit in the same run is seen.
   */
  function CreditMessage(mods: seq<Moderator>, m: HistoryMessage, sc: Scan): seq<Moderator> {
    if !HoldsRole(sc.roles(m.authorId), sc.modRole) then mods
    else match IndexOfDiscordId(mods, m.authorId)
      case None => mods
      case Some(i) =>
        if !mods[i].isIgnored && m.createdAt > mods[i].lastUpdated
        then ApplyUpdate(mods, mods[i].id, CountUpdate(mods[i].messageCount + 1), sc.now)
        else mods
  }

  /**
   * The loop over one fetched page, from `checked` messages looked at so far:
   * every message counts as looked at; bot and guild-less messages are skipped;
   * a message older than the cutoff ends the whole walk (the counter jumps to
   * `MaxRecovery`).
   */
  function ScanPage(mods: seq<Moderator>, checked: nat, page: seq<HistoryMessage>, sc: Scan): (nat, seq<Moderator>)
    decreases |page|
  {
    if page == [] then (checked, mods)
    else if page[0].authorIsBot || !page[0].inGuild then ScanPage(mods, checked + 1, page[1..], sc)
    else if page[0].createdAt < sc.cutoff then (MaxRecovery, mods)
    else ScanPage(CreditMessage(mods, page[0], sc), checked + 1, page[1..], sc)
  }

  /**
   * The outer loop: fetch the next page while fewer than `MaxRecovery`
   * messages were looked at; an empty page (or the end of `pages`) ends it.
   */
  function ScanHistory(mods: seq<Moderator>, checked: nat, pages: seq<seq<HistoryMessage>>, sc: Scan): seq<Moderator>
    decreases |pages|
  {
    if checked >= MaxRecovery || pages == [] || pages[0] == [] then mods
    else
      var (c, ms) := ScanPage(mods, checked, pages[0], sc);
      ScanHistory(ms, c, pages[1..], sc)
  }

  /**
   * The whole recovery: a no-op without both settings, without a usable
   * channel, or with an empty table; otherwise the walk with the cutoff taken
   * from the table and the clock.
   */
  function Recover(mods: seq<Moderator>, settings: map<string, string>, channelOk: bool,
                   pages: seq<seq<HistoryMessage>>, roles: RoleLookup, now: int): seq<Moderator>
  {
    var channel := SettingValue(settings, TrackedChannelId);
    var role := SettingValue(settings, ModeratorRoleId);
    if !Truthy(channel) || !Truthy(role) || !channelOk || mods == [] then mods
    else ScanHistory(mods, 0, pages, Scan(EarliestUpdate(mods, now), role.value, roles, now))
  }

  /** A bot's message, or one outside a guild: counted as looked at, then skipped. */
  predicate Skipped(m: HistoryMessage) {
    m.authorIsBot || !m.inGuild
  }

  /** A human guild message older than the cutoff: the one that ends the walk. */
  predicate TooOld(m: HistoryMessage, cutoff: int) {
    !Skipped(m) && m.createdAt < cutoff
  }

  /** The index of the first message of `page` that ends the walk, if any. */
  function FirstTooOld(page: seq<HistoryMessage>, cutoff: int): (r: Option<nat>)
    ensures r.Some? ==> r.value < |page| && TooOld(page[r.value], cutoff)
    ensures r.Some? ==> forall j :: 0 <= j < r.value ==> !TooOld(page[j], cutoff)
    ensures r.None? ==> forall j :: 0 <= j < |page| ==> !TooOld(page[j], cutoff)
    decreases |page|
  {
    if page == [] then None
    else if TooOld(page[0], cutoff) then Some(0)
    else match FirstTooOld(page[1..], cutoff)
      case None => None
      case Some(k) => Some(k + 1)
  }

  /**
   * How many messages of one page the walk looks at: all of them, or those
   * up to and including the first one older than the cutoff.
   */
  function PageLooked(page: seq<HistoryMessage>, cutoff: int): (r: nat)
    ensures FirstTooOld(page, cutoff).Some? ==> r == FirstTooOld(page, cutoff).value + 1
    ensures FirstTooOld(page, cutoff).None? ==> r == |page|
    decreases |page|
  {
    if page == [] then 0
    else if TooOld(page[0], cutoff) then 1
    else 1 + PageLooked(page[1..], cutoff)
  }

  /** The walk's counter after one page: `MaxRecovery` if the page ends the walk, else one more per message. */
  function PageCounter(checked: nat, page: seq<HistoryMessage>, cutoff: int): nat {
    if FirstTooOld(page, cutoff).Some? then MaxRecovery else checked + |page|
  }

  /** How many messages the outer loop looks at, from `checked` so far. */
  function Inspected(checked: nat, pages: seq<seq<HistoryMessage>>, cutoff: int): nat
    decreases |pages|
  {
    if checked >= MaxRecovery || pages == [] || pages[0] == [] then 0
    else PageLooked(pages[0], cutoff) + Inspected(PageCounter(checked, pages[0], cutoff), pages[1..], cutoff)
  }

  /** How many messages the whole recovery looks at: none on the early returns. */
  function RecoverInspected(mods: seq<Moderator>, settings: map<string, string>, channelOk: bool,
                            pages: seq<seq<HistoryMessage>>, now: int): nat
  {
    if !Truthy(SettingValue(settings, TrackedChannelId)) || !Truthy(SettingValue(settings, ModeratorRoleId))
       || !channelOk || mods == [] then 0
    else Inspected(0, pages, EarliestUpdate(mods, now))
  }

  /** The counter `ScanPage` returns is `PageCounter`, whatever the table. */
  lemma {:induction false} ScanPageCounter(mods: seq<Moderator>, checked: nat, page: seq<HistoryMessage>, sc: Scan)
    ensures ScanPage(mods, checked, page, sc).0 == PageCounter(checked, page, sc.cutoff)
    decreases |page|
  {
    if page != [] && !TooOld(page[0], sc.cutoff) {
      var next := if Skipped(page[0]) then mods else CreditMessage(mods, page[0], sc);
      ScanPageCounter(next, checked + 1, page[1..], sc);
    }
  }

  /** One message of the page loop: what the scan and the count make of the page's head. */
  lemma ScanPageStep(mods: seq<Moderator>, checked: nat, page: seq<HistoryMessage>, sc: Scan)
    requires page != []
    ensures ScanPage(mods, checked, page, sc) ==
      if Skipped(page[0]) then ScanPage(mods, checked + 1, page[1..], sc)
      else if TooOld(page[0], sc.cutoff) then (MaxRecovery, mods)
      else ScanPage(CreditMessage(mods, page[0], sc), checked + 1, page[1..], sc)
    ensures PageLooked(page, sc.cutoff) ==
      if TooOld(page[0], sc.cutoff) then 1 else 1 + PageLooked(page[1..], sc.cutoff)
  {
  }

  /** Every page holds at most `PageLimit` messages. */
  ghost predicate PagesWithinLimit(pages: seq<seq<HistoryMessage>>) {
    forall p :: 0 <= p < |pages| ==> |pages[p]| <= PageLimit
  }

  /**
   * The 500 cap is checked only between pages, so the walk can overrun it by
   * less than one page: from a counter below the cap, fewer than
   * `MaxRecovery + PageLimit` messages are looked at in all.
   */
  lemma {:induction false} InspectedBound(checked: nat, pages: seq<seq<HistoryMessage>>, cutoff: int)
    requires checked < MaxRecovery && PagesWithinLimit(pages)
    ensures checked + Inspected(checked, pages, cutoff) < MaxRecovery + PageLimit
    decreases |pages|
  {
    if pages != [] && pages[0] != [] {
      var c := PageCounter(checked, pages[0], cutoff);
      assert |pages[0]| <= PageLimit;
      if c < MaxRecovery {
        assert PagesWithinLimit(pages[1..]) by {
          forall p | 0 <= p < |pages[1..]| ensures |pages[1..][p]| <= PageLimit {
            assert pages[1..][p] == pages[p + 1];
          }
        }
        InspectedBound(c, pages[1..], cutoff);
      }
    }
  }

  /** With pages of at most 100 messages, one recovery looks at fewer than 600. */
  lemma RecoverInspectedBound(mods: seq<Moderator>, settings: map<string, string>, channelOk: bool,
                              pages: seq<seq<HistoryMessage>>, now: int)
    requires PagesWithinLimit(pages)
    ensures RecoverInspected(mods, settings, channelOk, pages, now) < MaxRecovery + PageLimit
  {
    if RecoverInspected(mods, settings, channelOk, pages, now) != 0 {
      InspectedBound(0, pages, EarliestUpdate(mods, now));
    }
  }

  /**
   * Within a page, the first message older than the cutoff ends the walk:
   * the counter jumps to `MaxRecovery` and the table is what the messages
   * before it made of it.
   */
  lemma {:induction false} ScanPageStopsAt(mods: seq<Moderator>, checked: nat, page: seq<HistoryMessage>, sc: Scan, k: nat)
    requires FirstTooOld(page, sc.cutoff) == Some(k)
    ensures ScanPage(mods, checked, page, sc) == (MaxRecovery, ScanPage(mods, checked, page[..k], sc).1)
    decreases |page|
  {
    if k > 0 {
      assert !TooOld(page[0], sc.cutoff);
      assert FirstTooOld(page[1..], sc.cutoff) == Some(k - 1);
      assert page[..k][0] == page[0] && page[..k][1..] == page[1..][..k - 1];
      var next := if Skipped(page[0]) then mods else CreditMessage(mods, page[0], sc);
      ScanPageStopsAt(next, checked + 1, page[1..], sc, k - 1);
    }
  }

  /** A page of skipped messages only advances the counter. */
  lemma {:induction false} SkippedPage(mods: seq<Moderator>, checked: nat, page: seq<HistoryMessage>, sc: Scan)
    requires forall j :: 0 <= j < |page| ==> Skipped(page[j])
    ensures ScanPage(mods, checked, page, sc) == (checked + |page|, mods)
    decreases |page|
  {
    if page != [] {
      SkippedPage(mods, checked + 1, page[1..], sc);
    }
  }

  /**
   * A page holding a message older than the cutoff is the last one fetched:
   * the walk ends with the table that page's earlier messages made, whatever
   * pages follow.
   */
  lemma ScanHistoryStopsAt(mods: seq<Moderator>, checked: nat, pages: seq<seq<HistoryMessage>>, sc: Scan, k: nat)
    requires checked < MaxRecovery && pages != [] && FirstTooOld(pages[0], sc.cutoff) == Some(k)
    ensures ScanHistory(mods, checked, pages, sc) == ScanPage(mods, checked, pages[0][..k], sc).1
  {
    ScanPageStopsAt(mods, checked, pages[0], sc, k);
  }

  function Bumped(m: Moderator, now: int): Moderator {
    m.(messageCount := m.messageCount + 1, lastUpdated := now)
  }

  /**
   * `cur` differs from `orig` only in raised message counts (and their
   * stamps) of non-ignored records; nothing is created or removed.
   */
  ghost predicate OnlyCounts(orig: seq<Moderator>, cur: seq<Moderator>) {
    && |cur| == |orig|
    && forall i :: 0 <= i < |orig| ==>
         cur[i] == orig[i]
         || (&& !orig[i].isIgnored
             && cur[i].messageCount > orig[i].messageCount
             && cur[i] == orig[i].(messageCount := cur[i].messageCount, lastUpdated := cur[i].lastUpdated))
  }

  /** `cur` is `orig` with some non-ignored records credited exactly once, stamped `now`. */
  ghost predicate AtMostOnce(orig: seq<Moderator>, cur: seq<Moderator>, now: int) {
    && |cur| == |orig|
    && forall i :: 0 <= i < |orig| ==> cur[i] == orig[i] || (!orig[i].isIgnored && cur[i] == Bumped(orig[i], now))
  }

  /** The per-record guard is strict: the author's count rises by one exactly when the message is newer. */
  lemma CreditMessageGuard(mods: seq<Moderator>, m: HistoryMessage, sc: Scan, i: nat)
    requires UniqueIds(mods) && UniqueDiscordIds(mods)
    requires i < |mods| && mods[i].discordId == m.authorId && !mods[i].isIgnored
    requires HoldsRole(sc.roles(m.authorId), sc.modRole)
    ensures CreditMessage(mods, m, sc) ==
      if m.createdAt > mods[i].lastUpdated then mods[i := Bumped(mods[i], sc.now)] else mods
  {
    var r := CreditMessage(mods, m, sc);
    if m.createdAt > mods[i].lastUpdated {
      assert r == ApplyUpdate(mods, mods[i].id, CountUpdate(mods[i].messageCount + 1), sc.now);
      assert forall j :: 0 <= j < |mods| ==> r[j] == mods[i := Bumped(mods[i], sc.now)][j];
    }
  }

  /** A message from an author the role check rejects, or without a record, changes nothing. */
  lemma CreditMessageNoRecord(mods: seq<Moderator>, m: HistoryMessage, sc: Scan)
    requires !HoldsRole(sc.roles(m.authorId), sc.modRole)
          || forall i :: 0 <= i < |mods| ==> mods[i].discordId != m.authorId
    ensures CreditMessage(mods, m, sc) == mods
  {
  }

  lemma OnlyCountsTrans(a: seq<Moderator>, b: seq<Moderator>, c: seq<Moderator>)
    requires OnlyCounts(a, b) && OnlyCounts(b, c)
    ensures OnlyCounts(a, c)
  {
  }

  lemma OnlyCountsKeepsKeys(a: seq<Moderator>, b: seq<Moderator>)
    requires OnlyCounts(a, b)
    ensures forall i :: 0 <= i < |a| ==> b[i].id == a[i].id && b[i].discordId == a[i].discordId
    ensures UniqueIds(a) ==> UniqueIds(b)
    ensures UniqueDiscordIds(a) ==> UniqueDiscordIds(b)
  {
  }

  lemma CreditMessageOnlyCounts(mods: seq<Moderator>, m: HistoryMessage, sc: Scan)
    requires UniqueIds(mods)
    ensures OnlyCounts(mods, CreditMessage(mods, m, sc))
  {
  }

  lemma {:induction false} ScanPageOnlyCounts(mods: seq<Moderator>, checked: nat, page: seq<HistoryMessage>, sc: Scan)
    requires UniqueIds(mods)
    ensures OnlyCounts(mods, ScanPage(mods, checked, page, sc).1)
    decreases |page|
  {
    if page != [] && !(page[0].authorIsBot || !page[0].inGuild) && page[0].createdAt >= sc.cutoff {
      var next := CreditMessage(mods, page[0], sc);
      CreditMessageOnlyCounts(mods, page[0], sc);
      OnlyCountsKeepsKeys(mods, next);
      ScanPageOnlyCounts(next, checked + 1, page[1..], sc);
      OnlyCountsTrans(mods, next, ScanPage(next, checked + 1, page[1..], sc).1);
    } else if page != [] && (page[0].authorIsBot || !page[0].inGuild) {
      ScanPageOnlyCounts(mods, checked + 1, page[1..], sc);
    }
  }

  lemma {:induction false} ScanHistoryOnlyCounts(mods: seq<Moderator>, checked: nat, pages: seq<seq<HistoryMessage>>, sc: Scan)
    requires UniqueIds(mods)
    ensures OnlyCounts(mods, ScanHistory(mods, checked, pages, sc))
    decreases |pages|
  {
    if !(checked >= MaxRecovery || pages == [] || pages[0] == []) {
      var (c, ms) := ScanPage(mods, checked, pages[0], sc);
      ScanPageOnlyCounts(mods, checked, pages[0], sc);
      OnlyCountsKeepsKeys(mods, ms);
      ScanHistoryOnlyCounts(ms, c, pages[1..], sc);
      OnlyCountsTrans(mods, ms, ScanHistory(ms, c, pages[1..], sc));
    }
  }

  /**
   * Recovery never creates, removes or decrements: it only raises message
   * counts of non-ignored records, and leaves every other field except the
   * stamp as it was.
   */
  lemma RecoverOnlyCounts(mods: seq<Moderator>, settings: map<string, string>, channelOk: bool,
                          pages: seq<seq<HistoryMessage>>, roles: RoleLookup, now: int)
    requires UniqueIds(mods)
    ensures OnlyCounts(mods, Recover(mods, settings, channelOk, pages, roles, now))
  {
    var role := SettingValue(settings, ModeratorRoleId);
    if Truthy(SettingValue(settings, TrackedChannelId)) && Truthy(role) && channelOk && mods != [] {
      ScanHistoryOnlyCounts(mods, 0, pages, Scan(EarliestUpdate(mods, now), role.value, roles, now));
    }
  }

  /** Every history message was created no later than the update clock. */
  ghost predicate NotAfter(pages: seq<seq<HistoryMessage>>, now: int) {
    forall p, k :: 0 <= p < |pages| && 0 <= k < |pages[p]| ==> pages[p][k].createdAt <= now
  }

  lemma CreditMessageOnce(orig: seq<Moderator>, mods: seq<Moderator>, m: HistoryMessage, sc: Scan)
    requires UniqueIds(orig) && AtMostOnce(orig, mods, sc.now) && m.createdAt <= sc.now
    ensures AtMostOnce(orig, CreditMessage(mods, m, sc), sc.now)
  {
    assert UniqueIds(mods) by {
      assert forall i :: 0 <= i < |orig| ==> mods[i].id == orig[i].id;
    }
  }

  lemma {:induction false} ScanPageOnce(orig: seq<Moderator>, mods: seq<Moderator>, checked: nat,
                                        page: seq<HistoryMessage>, sc: Scan)
    requires UniqueIds(orig) && AtMostOnce(orig, mods, sc.now)
    requires forall k :: 0 <= k < |page| ==> page[k].createdAt <= sc.now
    ensures AtMostOnce(orig, ScanPage(mods, checked, page, sc).1, sc.now)
    decreases |page|
  {
    if page != [] {
      if page[0].authorIsBot || !page[0].inGuild {
        ScanPageOnce(orig, mods, checked + 1, page[1..], sc);
      } else if page[0].createdAt >= sc.cutoff {
        CreditMessageOnce(orig, mods, page[0], sc);
        ScanPageOnce(orig, CreditMessage(mods, page[0], sc), checked + 1, page[1..], sc);
      }
    }
  }

  lemma {:induction false} ScanHistoryOnce(orig: seq<Moderator>, mods: seq<Moderator>, checked: nat,
                                           pages: seq<seq<HistoryMessage>>, sc: Scan)
    requires UniqueIds(orig) && AtMostOnce(orig, mods, sc.now) && NotAfter(pages, sc.now)
    ensures AtMostOnce(orig, ScanHistory(mods, checked, pages, sc), sc.now)
    decreases |pages|
  {
    if !(checked >= MaxRecovery || pages == [] || pages[0] == []) {
      var (c, ms) := ScanPage(mods, checked, pages[0], sc);
      ScanPageOnce(orig, mods, checked, pages[0], sc);
      assert NotAfter(pages[1..], sc.now) by {
        forall p, k | 0 <= p < |pages[1..]| && 0 <= k < |pages[1..][p]|
          ensures pages[1..][p][k].createdAt <= sc.now
        {
          assert pages[1..][p] == pages[p + 1];
        }
      }
      ScanHistoryOnce(orig, ms, c, pages[1..], sc);
    }
  }

  /**
   * When no history message is newer than the clock, one run credits each
   * moderator at most once: a credit restamps the record with the clock, and
   * the strict guard then refuses every later message.
   */
  lemma RecoverAtMostOnce(mods: seq<Moderator>, settings: map<string, string>, channelOk: bool,
                          pages: seq<seq<HistoryMessage>>, roles: RoleLookup, now: int)
    requires UniqueIds(mods) && NotAfter(pages, now)
    ensures AtMostOnce(mods, Recover(mods, settings, channelOk, pages, roles, now), now)
  {
    var role := SettingValue(settings, ModeratorRoleId);
    if Truthy(SettingValue(settings, TrackedChannelId)) && Truthy(role) && channelOk && mods != [] {
      ScanHistoryOnce(mods, mods, 0, pages, Scan(EarliestUpdate(mods, now), role.value, roles, now));
    }
  }

  /**
   * When every message before the first human guild message was skipped and
   * that message is older than the cutoff, the walk ends with the table
   * unchanged, whatever pages follow.
   */
  lemma OlderThanCutoffStops(mods: seq<Moderator>, checked: nat, pages: seq<seq<HistoryMessage>>, sc: Scan, k: nat)
    requires checked < MaxRecovery && pages != [] && k < |pages[0]|
    requires forall j :: 0 <= j < k ==> Skipped(pages[0][j])
    requires TooOld(pages[0][k], sc.cutoff)
    ensures ScanHistory(mods, checked, pages, sc) == mods
  {
    assert FirstTooOld(pages[0], sc.cutoff) == Some(k);
    ScanHistoryStopsAt(mods, checked, pages, sc, k);
    SkippedPage(mods, checked, pages[0][..k], sc);
  }
}
