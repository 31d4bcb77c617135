/**
 * What the bot's event handlers and slash commands do to the moderator table
 * and the settings, as functions of the state before the event. The methods
 * of `DiscordBot` are proved to have exactly these effects; the lemmas here
 * state what they mean for a record and its balance.
 */
module Handlers {
  import opened Wrappers
  import opened Numbers
  import opened Schema
  import opened Storage
  import opened Points
  import opened Invites
  import opened Recovery

  /** A Discord account as an event or a command option presents it. */
  datatype Author = Author(id: string, username: string, avatar: Option<string>)

  /**
   * A `messageCreate` event: the author, whether the author is a bot, whether
   * the message came from a guild, its channel, and the role ids of the
   * sending guild member (`None` when the member is not available).
   */
  datatype ChatMessage = ChatMessage(author: Author, authorIsBot: bool, inGuild: bool,
                                     channelId: string, memberRoles: Option<set<string>>)

  /**
   * The gate of `messageCreate`: a human guild message, both settings
   * configured, in the tracked channel, from a holder of the moderator role.
   */
  predicate Counts(settings: map<string, string>, msg: ChatMessage) {
    var channel := SettingValue(settings, TrackedChannelId);
    var role := SettingValue(settings, ModeratorRoleId);
    && !msg.authorIsBot && msg.inGuild
    && Truthy(channel) && Truthy(role)
    && msg.channelId == channel.value
    && HoldsRole(msg.memberRoles, role.value)
  }

  /** The insert for an account first seen by the bot, with the given ignore flag and manual points. */
  function Enrolment(a: Author, ignored: bool, manual: int): InsertModerator {
    InsertModerator(a.id, a.username, a.avatar, Some(ignored), Some(manual))
  }

  /** One more message, and the author's current name and avatar where they differ from the record. */
  function MessageUpdate(m: Moderator, a: Author): ModeratorUpdate {
    NoChange.(messageCount := Some(m.messageCount + 1),
              username := if m.username != a.username then Some(a.username) else None,
              avatar := if m.avatar != a.avatar then Some(a.avatar) else None)
  }

  /** The table after `messageCreate`, with `newId` the next serial value and `now` the clock. */
  function MessageEffect(mods: seq<Moderator>, settings: map<string, string>, msg: ChatMessage,
                         newId: nat, now: int): seq<Moderator>
  {
    if !Counts(settings, msg) then mods
    else match IndexOfDiscordId(mods, msg.author.id)
      case None =>
        var m := NewRecord(Enrolment(msg.author, false, 0), newId, now);
        mods + [Patch(m, MessageUpdate(m, msg.author), now)]
      case Some(i) =>
        if mods[i].isIgnored then mods
        else mods[i := Patch(mods[i], MessageUpdate(mods[i], msg.author), now)]
  }

  /** A counted message from a known, active moderator adds one message and refreshes the profile. */
  lemma MessageCredits(mods: seq<Moderator>, settings: map<string, string>, msg: ChatMessage,
                       newId: nat, now: int, i: nat)
    requires UniqueDiscordIds(mods) && i < |mods| && mods[i].discordId == msg.author.id
    requires Counts(settings, msg) && !mods[i].isIgnored
    ensures MessageEffect(mods, settings, msg, newId, now) ==
      mods[i := mods[i].(messageCount := mods[i].messageCount + 1, username := msg.author.username,
                         avatar := msg.author.avatar, lastUpdated := now)]
  {
    assert IndexOfDiscordId(mods, msg.author.id) == Some(i);
  }

  /** A counted message from an unknown account enrols it with one message. */
  lemma MessageEnrols(mods: seq<Moderator>, settings: map<string, string>, msg: ChatMessage, newId: nat, now: int)
    requires Counts(settings, msg)
    requires forall i :: 0 <= i < |mods| ==> mods[i].discordId != msg.author.id
    ensures MessageEffect(mods, settings, msg, newId, now) ==
      mods + [Moderator(newId, msg.author.id, msg.author.username, msg.author.avatar, false, 1, 0, 0, 0, now)]
  {
    assert IndexOfDiscordId(mods, msg.author.id).None?;
  }

  /** A message that fails the gate, or from an ignored moderator, changes nothing. */
  lemma MessageIgnored(mods: seq<Moderator>, settings: map<string, string>, msg: ChatMessage, newId: nat, now: int)
    requires UniqueDiscordIds(mods)
    requires !Counts(settings, msg)
          || exists i :: 0 <= i < |mods| && mods[i].discordId == msg.author.id && mods[i].isIgnored
    ensures MessageEffect(mods, settings, msg, newId, now) == mods
  {
    if Counts(settings, msg) {
      var i :| 0 <= i < |mods| && mods[i].discordId == msg.author.id && mods[i].isIgnored;
      assert IndexOfDiscordId(mods, msg.author.id) == Some(i);
    }
  }

  /** Per message the balance rises by the message rate exactly at each thousandth message. */
  lemma MessageBalance(m: Moderator, a: Author, now: int, r: Rates)
    ensures TotalPoints(Patch(m, MessageUpdate(m, a), now), r)
         == TotalPoints(m, r) + (if (m.messageCount + 1) % 1000 == 0 then r.per1000Msg else 0)
  {
    TotalAfterMessage(m, r);
    TotalIgnoresIdentity(Patch(m, MessageUpdate(m, a), now), m.(messageCount := m.messageCount + 1), r);
  }

  function InviteUpdate(m: Moderator): ModeratorUpdate {
    NoChange.(inviteCount := Some(m.inviteCount + 1))
  }

  /**
   * The table after `guildMemberAdd` once the consumed invite's inviter is
   * known: the inviter is credited one invite if the role setting is
   * configured, the inviter's member lookup succeeds and shows the role, and
   * the inviter has a record that is not ignored. A join never creates a record.
   */
  function JoinEffect(mods: seq<Moderator>, settings: map<string, string>, inviter: Option<string>,
                      roles: RoleLookup, now: int): (r: seq<Moderator>)
    ensures |r| == |mods|
  {
    var role := SettingValue(settings, ModeratorRoleId);
    if inviter.None? || !Truthy(role) || !HoldsRole(roles(inviter.value), role.value) then mods
    else match IndexOfDiscordId(mods, inviter.value)
      case None => mods
      case Some(i) =>
        if mods[i].isIgnored then mods
        else mods[i := Patch(mods[i], InviteUpdate(mods[i]), now)]
  }

  /** The invite snapshot for a guild, if one was ever taken. */
  function SnapshotFor(cache: map<string, Snapshot>, guildId: string): Option<Snapshot> {
    if guildId in cache then Some(cache[guildId]) else None
  }

  /** The credited inviter gains exactly one invite, and with it the invite rate. */
  lemma JoinCredits(mods: seq<Moderator>, settings: map<string, string>, inviter: string,
                    roles: RoleLookup, now: int, i: nat, r: Rates)
    requires UniqueDiscordIds(mods) && i < |mods| && mods[i].discordId == inviter && !mods[i].isIgnored
    requires Truthy(SettingValue(settings, ModeratorRoleId))
    requires HoldsRole(roles(inviter), SettingValue(settings, ModeratorRoleId).value)
    ensures var after := JoinEffect(mods, settings, Some(inviter), roles, now);
      && after == mods[i := mods[i].(inviteCount := mods[i].inviteCount + 1, lastUpdated := now)]
      && TotalPoints(after[i], r) == TotalPoints(mods[i], r) + r.perInvite
  {
    assert IndexOfDiscordId(mods, inviter) == Some(i);
    TotalAfterInvite(mods[i], r);
  }

  /**
   * After an invite fetch that failed the guild's snapshot is empty, so the
   * next join in that guild credits nobody.
   */
  lemma FailedFetchForgets(newInvites: seq<Invite>)
    ensures CreditedInviter(newInvites, Some(SnapshotOf([]))).None?
  {
    assert forall j :: 0 <= j < |newInvites| ==> !Grew(newInvites[j], Some(SnapshotOf([])));
  }

  /** The cache after `refreshInviteCacheForGuild` for each guild in turn; `None` is a failed fetch. */
  function RefreshAll(cache: map<string, Snapshot>, guilds: seq<string>,
                      fetch: string -> Option<seq<Invite>>): map<string, Snapshot>
  {
    if guilds == [] then cache
    else
      var g := guilds[|guilds| - 1];
      var before := RefreshAll(cache, guilds[..|guilds| - 1], fetch);
      if fetch(g).Some? then before[g := SnapshotOf(fetch(g).value)] else before
  }

  /**
   * After a refresh of every guild, a guild whose fetch succeeds holds the
   * snapshot of its current invites, and every other guild keeps its old entry.
   */
  lemma {:induction false} RefreshAllEntry(cache: map<string, Snapshot>, guilds: seq<string>,
                                           fetch: string -> Option<seq<Invite>>, g: string)
    ensures g in guilds && fetch(g).Some? ==>
      g in RefreshAll(cache, guilds, fetch) && RefreshAll(cache, guilds, fetch)[g] == SnapshotOf(fetch(g).value)
    ensures !(g in guilds && fetch(g).Some?) ==> SnapshotFor(RefreshAll(cache, guilds, fetch), g) == SnapshotFor(cache, g)
  {
    if guilds != [] {
      var front := guilds[..|guilds| - 1];
      RefreshAllEntry(cache, front, fetch, g);
      assert guilds == front + [guilds[|guilds| - 1]];
    }
  }

  /** `set points`: each supplied value is stored as its decimal text. */
  function PointsSettings(settings: map<string, string>, msgs: Option<int>, invites: Option<int>): map<string, string> {
    var s1 := if msgs.Some? then settings[PointsPer1000Msg := IntToString(msgs.value)] else settings;
    if invites.Some? then s1[PointsPerInvite := IntToString(invites.value)] else s1
  }

  /** After `set points`, every supplied rate is read back exactly; an omitted one reads as before. */
  lemma SetPointsRates(settings: map<string, string>, msgs: Option<int>, invites: Option<int>)
    ensures var after := PointsSettings(settings, msgs, invites);
      && CommandRate(SettingValue(after, PointsPer1000Msg), "15") ==
           (if msgs.Some? then Some(msgs.value) else CommandRate(SettingValue(settings, PointsPer1000Msg), "15"))
      && CommandRate(SettingValue(after, PointsPerInvite), "1") ==
           (if invites.Some? then Some(invites.value) else CommandRate(SettingValue(settings, PointsPerInvite), "1"))
  {
    if msgs.Some? { RateRoundTrip(msgs.value, "15", DefaultPer1000Msg); }
    if invites.Some? { RateRoundTrip(invites.value, "1", DefaultPerInvite); }
  }

  /** With both values supplied, the commands' balance uses exactly those rates. */
  lemma SetPointsBoth(settings: map<string, string>, msgs: int, invites: int)
    ensures CommandRates(PointsSettings(settings, Some(msgs), Some(invites))) == Some(Rates(msgs, invites))
  {
    SetPointsRates(settings, Some(msgs), Some(invites));
  }

  const ExcludeUpdate: ModeratorUpdate := NoChange.(isIgnored := Some(true))

  /** `/exclude`: enrol the account as ignored, or mark its record ignored. */
  function ExcludeEffect(mods: seq<Moderator>, user: Author, newId: nat, now: int): seq<Moderator> {
    match IndexOfDiscordId(mods, user.id)
    case None => mods + [NewRecord(Enrolment(user, true, 0), newId, now)]
    case Some(i) => mods[i := Patch(mods[i], ExcludeUpdate, now)]
  }

  /**
   * After `/exclude` the account has exactly one record, it is ignored, and
   * its counters and points are as before (zero for a new record); every
   * other record is unchanged.
   */
  lemma ExcludeMarks(mods: seq<Moderator>, user: Author, newId: nat, now: int)
    requires UniqueDiscordIds(mods)
    ensures var after := ExcludeEffect(mods, user, newId, now);
      && (forall i :: 0 <= i < |mods| && mods[i].discordId != user.id ==> after[i] == mods[i])
      && match IndexOfDiscordId(after, user.id)
         case None => false
         case Some(k) =>
           && after[k].isIgnored
           && (k < |mods| ==> after[k] == mods[k].(isIgnored := true, lastUpdated := now))
           && (k == |mods| ==> after[k] == Moderator(newId, user.id, user.username, user.avatar, true, 0, 0, 0, 0, now))
  {
    var after := ExcludeEffect(mods, user, newId, now);
    match IndexOfDiscordId(mods, user.id)
    case None =>
      assert after[|mods|].discordId == user.id;
      assert IndexOfDiscordId(after, user.id).Some?;
    case Some(i) =>
      assert after[i].discordId == user.id;
      assert UniqueDiscordIds(after);
      assert IndexOfDiscordId(after, user.id) == Some(i);
  }

  function ManualUpdate(m: Moderator, amount: int): ModeratorUpdate {
    NoChange.(manualPoints := Some(m.manualPoints + amount))
  }

  /** `/addpoints`: enrol the account with `amount` manual points, or add `amount` to its manual points. */
  function AddPointsEffect(mods: seq<Moderator>, user: Author, amount: int, newId: nat, now: int): seq<Moderator> {
    match IndexOfDiscordId(mods, user.id)
    case None => mods + [NewRecord(Enrolment(user, false, amount), newId, now)]
    case Some(i) => mods[i := Patch(mods[i], ManualUpdate(mods[i], amount), now)]
  }

  /**
   * `/addpoints` raises the account's balance by exactly `amount` at any
   * rates; a new record's balance is `amount`. Every other record is unchanged.
   */
  lemma AddPointsBalance(mods: seq<Moderator>, user: Author, amount: int, newId: nat, now: int, r: Rates)
    requires UniqueDiscordIds(mods)
    ensures var after := AddPointsEffect(mods, user, amount, newId, now);
      && (forall i :: 0 <= i < |mods| && mods[i].discordId != user.id ==> after[i] == mods[i])
      && match IndexOfDiscordId(mods, user.id)
         case None => |after| == |mods| + 1 && after[|mods|].discordId == user.id
                      && TotalPoints(after[|mods|], r) == amount
         case Some(i) => |after| == |mods| && TotalPoints(after[i], r) == TotalPoints(mods[i], r) + amount
  {
    match IndexOfDiscordId(mods, user.id)
    case None =>
      assert MessagePoints(0, r.per1000Msg) == 0;
    case Some(i) =>
      TotalAfterBonus(mods[i], r, 0, amount);
      TotalIgnoresIdentity(Patch(mods[i], ManualUpdate(mods[i], amount), now),
                           mods[i].(manualPoints := mods[i].manualPoints + amount), r);
  }

  /** The figures of the `/stats` embed; the point figures are `None` where a rate is `NaN`. */
  datatype StatsView = StatsView(messages: int, invites: int, messagePoints: Option<int>,
                                 invitePoints: Option<int>, leaderboardPoints: int,
                                 manualPoints: int, total: Option<int>)

  /**
   * `/stats`: each point figure is computed from its own rate, so a `NaN`
   * per-thousand rate blanks the message figure and the total but not the
   * invite figure.
   */
  function Stats(m: Moderator, per1000: Option<int>, perInvite: Option<int>): StatsView {
    var mp := if per1000.Some? then Some(MessagePoints(m.messageCount, per1000.value)) else None;
    var ip := if perInvite.Some? then Some(InvitePoints(m.inviteCount, perInvite.value)) else None;
    var total := if mp.Some? && ip.Some? then Some(mp.value + ip.value + m.leaderboardPoints + m.manualPoints) else None;
    StatsView(m.messageCount, m.inviteCount, mp, ip, m.leaderboardPoints, m.manualPoints, total)
  }

  /**
   * The `/stats` total is the `/balance` total at the same two rates; each
   * point figure is present exactly when its own rate is, and the total is
   * the sum of the four components shown.
   */
  lemma StatsAgreesWithBalance(m: Moderator, per1000: Option<int>, perInvite: Option<int>)
    ensures Stats(m, per1000, perInvite).total == TotalOrNaN(m, BothRates(per1000, perInvite))
    ensures var v := Stats(m, per1000, perInvite);
      && v.messages == m.messageCount && v.invites == m.inviteCount
      && (v.messagePoints.Some? <==> per1000.Some?)
      && (per1000.Some? ==> v.messagePoints.value == MessagePoints(m.messageCount, per1000.value))
      && (v.invitePoints.Some? <==> perInvite.Some?)
      && (perInvite.Some? ==> v.invitePoints.value == InvitePoints(m.inviteCount, perInvite.value))
      && (v.total.Some? ==> v.total.value == v.messagePoints.value + v.invitePoints.value + v.leaderboardPoints + v.manualPoints)
  {
  }
}
