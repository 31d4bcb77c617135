/**
 * The Discord bot: its event handlers and slash commands over the storage
 * and its per-guild invite cache. Each method is proved to have exactly the
 * effect the functions of `Handlers`, `Recovery` and `Leaderboard` describe.
 * Discord's own calls (fetching members, invites, channel history, sending
 * messages) are inputs of the methods: their results, or `None` for a call
 * that fails.
 */
module Bot {
  import opened Wrappers
  import opened Seqs
  import opened Numbers
  import opened Schema
  import opened Storage
  import opened Points
  import opened Invites
  import opened Recovery
  import opened Leaderboard
  import opened Handlers

  /** Why `generateLeaderboard` throws. */
  datatype LeaderboardError = TrackedChannelNotSet | InvalidTrackedChannel | SendFailed

  /** The outcome of `generateLeaderboard`: the published rows, or the error thrown. */
  datatype LeaderboardOutcome = Published(rows: seq<Row>) | Failed(error: LeaderboardError)

  class DiscordBot {
    const store: Storage
    /** `inviteCache`: per guild id, the invite snapshot last taken. */
    var inviteCache: map<string, Snapshot>

    ghost predicate Valid()
      reads this, store
    {
      store.Valid()
    }

    constructor (store: Storage)
      requires store.Valid()
      ensures this.store == store && inviteCache == map[] && Valid()
    {
      this.store := store;
      inviteCache := map[];
    }

    /** The `messageCreate` handler. */
    method OnMessage(msg: ChatMessage)
      requires Valid()
      modifies store
      ensures Valid()
      ensures store.moderators ==
        MessageEffect(old(store.moderators), old(store.settings), msg, old(store.nextId), old(store.clock))
      ensures store.settings == old(store.settings) && store.clock == old(store.clock)
      ensures store.nextId == old(store.nextId) + (if |store.moderators| > |old(store.moderators)| then 1 else 0)
    {
      if msg.authorIsBot || !msg.inGuild {
        return;
      }
      var trackedChannelId := store.GetSetting(TrackedChannelId);
      var modRoleId := store.GetSetting(ModeratorRoleId);
      if !Truthy(trackedChannelId) || !Truthy(modRoleId) {
        return;
      }
      if msg.channelId != trackedChannelId.value {
        return;
      }
      if !HoldsRole(msg.memberRoles, modRoleId.value) {
        return;
      }
      CountMessage(msg);
    }

    /** The rest of `messageCreate` once the message passed the gate: enrol the author if new, then count. */
    method CountMessage(msg: ChatMessage)
      requires Valid() && Counts(store.settings, msg)
      modifies store
      ensures Valid()
      ensures store.moderators ==
        MessageEffect(old(store.moderators), old(store.settings), msg, old(store.nextId), old(store.clock))
      ensures store.settings == old(store.settings) && store.clock == old(store.clock)
      ensures store.nextId == old(store.nextId) + (if |store.moderators| > |old(store.moderators)| then 1 else 0)
    {
      ghost var mods := store.moderators;
      var moderator := store.GetModeratorByDiscordId(msg.author.id);
      if moderator.None? {
        ghost var id := store.nextId;
        moderator := store.CreateModerator(Enrolment(msg.author, false, 0));
        assert store.moderators == mods + [moderator.value];
        assert moderator.value.id == id && store.moderators[|mods|] == moderator.value;
        if moderator.value.isIgnored {
          return;
        }
        var _ := store.UpdateModerator(moderator.value.id, MessageUpdate(moderator.value, msg.author));
        ApplyUpdateAt(mods + [moderator.value], |mods|, MessageUpdate(moderator.value, msg.author), store.clock);
      } else {
        var i := IndexOfDiscordId(mods, msg.author.id).value;
        assert moderator.value == mods[i];
        if moderator.value.isIgnored {
          return;
        }
        var _ := store.UpdateModerator(moderator.value.id, MessageUpdate(moderator.value, msg.author));
        ApplyUpdateAt(mods, i, MessageUpdate(moderator.value, msg.author), store.clock);
      }
    }

    /**
     * The `guildMemberAdd` handler. `fetched` is the guild's current invite
     * list, `None` when that fetch fails (the handler then carries on with an
     * empty list); `roles` is the member lookup for the inviter.
     */
    method OnMemberJoin(guildId: string, fetched: Option<seq<Invite>>, roles: RoleLookup)
      requires Valid()
      modifies this, store
      ensures Valid()
      ensures store.moderators ==
        JoinEffect(old(store.moderators), old(store.settings),
                   CreditedInviter(fetched.GetOr([]), SnapshotFor(old(inviteCache), guildId)),
                   roles, old(store.clock))
      ensures inviteCache == old(inviteCache)[guildId := SnapshotOf(fetched.GetOr([]))]
      ensures store.settings == old(store.settings) && store.clock == old(store.clock)
      ensures store.nextId == old(store.nextId)
    {
      var cachedInvites := if guildId in inviteCache then Some(inviteCache[guildId]) else None;
      var newInvites := fetched.GetOr([]);
      var used := UsedInvite(newInvites, cachedInvites);
      var inviter := if used.Some? then newInvites[used.value].inviterId else None;
      CreditInvite(inviter, roles);
      var snapshot := CacheInvites(newInvites);
      inviteCache := inviteCache[guildId := snapshot];
    }

    /** The crediting half of `guildMemberAdd`: the inviter of the used invite, if any, gains one invite. */
    method CreditInvite(inviter: Option<string>, roles: RoleLookup)
      requires Valid()
      modifies store
      ensures Valid()
      ensures store.moderators == JoinEffect(old(store.moderators), old(store.settings), inviter, roles, old(store.clock))
      ensures store.settings == old(store.settings) && store.clock == old(store.clock)
      ensures store.nextId == old(store.nextId)
    {
      if inviter.Some? {
        var modRoleId := store.GetSetting(ModeratorRoleId);
        var inviterMember := roles(inviter.value);
        if Truthy(modRoleId) && HoldsRole(inviterMember, modRoleId.value) {
          ghost var mods := store.moderators;
          var moderator := store.GetModeratorByDiscordId(inviter.value);
          if moderator.Some? && !moderator.value.isIgnored {
            var i := IndexOfDiscordId(mods, inviter.value).value;
            assert moderator.value == mods[i];
            var _ := store.UpdateModerator(moderator.value.id, InviteUpdate(moderator.value));
            ApplyUpdateAt(mods, i, InviteUpdate(moderator.value), store.clock);
          }
        }
      }
    }

    /**
     * `refreshInviteCacheForGuild`: on success the guild's snapshot is
     * replaced; a failed fetch (`None`) leaves the cache as it was.
     */
    method RefreshInviteCacheForGuild(guildId: string, fetched: Option<seq<Invite>>)
      modifies this
      ensures inviteCache == if fetched.Some? then old(inviteCache)[guildId := SnapshotOf(fetched.value)]
                             else old(inviteCache)
    {
      if fetched.Some? {
        var snapshot := CacheInvites(fetched.value);
        inviteCache := inviteCache[guildId := snapshot];
      }
    }

    /** The `inviteCreate` and `inviteDelete` handlers: refresh the invite's guild, if it has one. */
    method OnInviteChanged(guildId: Option<string>, fetched: Option<seq<Invite>>)
      modifies this
      ensures inviteCache == if guildId.Some? && fetched.Some?
                             then old(inviteCache)[guildId.value := SnapshotOf(fetched.value)]
                             else old(inviteCache)
    {
      if guildId.Some? {
        RefreshInviteCacheForGuild(guildId.value, fetched);
      }
    }

    /** `refreshInviteCache`: every guild in the client's cache, in turn. */
    method RefreshInviteCache(guilds: seq<string>, fetch: string -> Option<seq<Invite>>) returns (done: bool)
      modifies this
      ensures inviteCache == RefreshAll(old(inviteCache), guilds, fetch)
      ensures done
    {
      var i := 0;
      while i < |guilds|
        invariant 0 <= i <= |guilds|
        invariant inviteCache == RefreshAll(old(inviteCache), guilds[..i], fetch)
      {
        RefreshInviteCacheForGuild(guilds[i], fetch(guilds[i]));
        assert guilds[..i + 1][..i] == guilds[..i];
        i := i + 1;
      }
      assert guilds[..i] == guilds;
      done := true;
    }

    /**
     * `recoverMissedMessages`. `channelOk` says whether the tracked channel
     * was fetched and is a text channel; `pages` is its history as the
     * successive fetches return it (a fetch past the end returns an empty
     * page); `roles` is the member lookup. The ghost result counts the
     * messages looked at, which is what `RecoverInspected` says.
     */
    method RecoverMissedMessages(channelOk: bool, pages: seq<seq<HistoryMessage>>, roles: RoleLookup)
      returns (ghost inspected: nat)
      requires Valid()
      modifies store
      ensures Valid()
      ensures store.moderators ==
        Recover(old(store.moderators), old(store.settings), channelOk, pages, roles, old(store.clock))
      ensures store.settings == old(store.settings) && store.clock == old(store.clock)
      ensures store.nextId == old(store.nextId)
      ensures inspected ==
        RecoverInspected(old(store.moderators), old(store.settings), channelOk, pages, old(store.clock))
      ensures PagesWithinLimit(pages) ==> inspected < MaxRecovery + PageLimit
    {
      inspected := 0;
      var trackedChannelId := store.GetSetting(TrackedChannelId);
      var modRoleId := store.GetSetting(ModeratorRoleId);
      if !Truthy(trackedChannelId) || !Truthy(modRoleId) {
        return;
      }
      if !channelOk {
        return;
      }
      var moderators := store.GetModerators();
      if |moderators| == 0 {
        return;
      }
      var earliestModUpdate := EarliestUpdate(moderators, store.clock);
      ghost var sc := Scan(earliestModUpdate, modRoleId.value, roles, store.clock);
      ghost var goal := ScanHistory(moderators, 0, pages, sc);
      ghost var allLooked := Inspected(0, pages, earliestModUpdate);
      var totalChecked: nat := 0;
      var p := 0;
      while totalChecked < MaxRecovery
        invariant 0 <= p <= |pages|
        invariant store.Valid()
        invariant store.settings == old(store.settings) && store.clock == old(store.clock)
        invariant store.nextId == old(store.nextId)
        invariant ScanHistory(store.moderators, totalChecked, pages[p..], sc) == goal
        invariant inspected + Inspected(totalChecked, pages[p..], earliestModUpdate) == allLooked
        decreases |pages| - p
      {
        var messages := if p < |pages| then pages[p] else [];
        if |messages| == 0 {
          break;
        }
        assert pages[p..][0] == messages && pages[p..][1..] == pages[p + 1..];
        ghost var before, checked := store.moderators, totalChecked;
        ghost var looked;
        totalChecked, looked := RecoverPage(messages, totalChecked, earliestModUpdate, modRoleId.value, roles);
        ScanPageCounter(before, checked, messages, sc);
        inspected := inspected + looked;
        p := p + 1;
        if totalChecked >= MaxRecovery {
          break;
        }
      }
      if PagesWithinLimit(pages) {
        InspectedBound(0, pages, earliestModUpdate);
      }
    }

    /**
     * The body of one iteration of the recovery walk: the loop over one
     * fetched page, from `checked` messages looked at so far. The ghost
     * result counts the messages of this page looked at.
     */
    method RecoverPage(messages: seq<HistoryMessage>, checked: nat, earliestModUpdate: int,
                       modRoleId: string, roles: RoleLookup)
      returns (totalChecked: nat, ghost looked: nat)
      requires Valid()
      modifies store
      ensures Valid()
      ensures (totalChecked, store.moderators) ==
        ScanPage(old(store.moderators), checked, messages, Scan(earliestModUpdate, modRoleId, roles, old(store.clock)))
      ensures store.settings == old(store.settings) && store.clock == old(store.clock)
      ensures store.nextId == old(store.nextId)
      ensures looked == PageLooked(messages, earliestModUpdate)
    {
      ghost var sc := Scan(earliestModUpdate, modRoleId, roles, store.clock);
      ghost var pageResult := ScanPage(store.moderators, checked, messages, sc);
      totalChecked, looked := checked, 0;
      var j := 0;
      while j < |messages|
        invariant 0 <= j <= |messages|
        invariant store.Valid()
        invariant store.settings == old(store.settings) && store.clock == old(store.clock)
        invariant store.nextId == old(store.nextId)
        invariant ScanPage(store.moderators, totalChecked, messages[j..], sc) == pageResult
        invariant looked == j && totalChecked == checked + j
        invariant PageLooked(messages, earliestModUpdate) == looked + PageLooked(messages[j..], earliestModUpdate)
      {
        var message := messages[j];
        assert messages[j..][0] == message && messages[j..][1..] == messages[j + 1..];
        ScanPageStep(store.moderators, totalChecked, messages[j..], sc);
        totalChecked := totalChecked + 1;
        looked := looked + 1;
        if message.authorIsBot || !message.inGuild {
          j := j + 1;
          continue;
        }
        if message.createdAt < earliestModUpdate {
          totalChecked := MaxRecovery;
          break;
        }
        RecoverMessage(message, earliestModUpdate, modRoleId, roles);
        j := j + 1;
      }
      if j == |messages| {
        assert messages[j..] == [];
      }
    }

    /** One human guild message of the walk, newer than the cutoff: credit its author if due. */
    method RecoverMessage(message: HistoryMessage, earliestModUpdate: int, modRoleId: string, roles: RoleLookup)
      requires Valid()
      modifies store
      ensures Valid()
      ensures store.moderators ==
        CreditMessage(old(store.moderators), message, Scan(earliestModUpdate, modRoleId, roles, old(store.clock)))
      ensures store.settings == old(store.settings) && store.clock == old(store.clock)
      ensures store.nextId == old(store.nextId)
    {
      var member := roles(message.authorId);
      if !HoldsRole(member, modRoleId) {
        return;
      }
      ghost var mods := store.moderators;
      var moderator := store.GetModeratorByDiscordId(message.authorId);
      if moderator.Some? {
        var i := IndexOfDiscordId(mods, message.authorId).value;
        assert moderator.value == mods[i];
        if !moderator.value.isIgnored && message.createdAt > moderator.value.lastUpdated {
          var _ := store.UpdateModerator(moderator.value.id, CountUpdate(moderator.value.messageCount + 1));
        }
      }
    }

    /** `/set manager`: store the moderator role id. */
    method SetManager(roleId: string)
      modifies store`settings
      ensures store.settings == old(store.settings)[ModeratorRoleId := roleId]
    {
      var _ := store.UpdateSetting(ModeratorRoleId, roleId);
    }

    /** `/set track`: store the tracked channel id. */
    method SetTrack(channelId: string)
      modifies store`settings
      ensures store.settings == old(store.settings)[TrackedChannelId := channelId]
    {
      var _ := store.UpdateSetting(TrackedChannelId, channelId);
    }

    /** `/set points`: store each rate given, as its decimal text; an option not given is not written. */
    method SetPoints(msgs: Option<int>, invites: Option<int>)
      modifies store`settings
      ensures store.settings == PointsSettings(old(store.settings), msgs, invites)
    {
      if msgs.Some? {
        var _ := store.UpdateSetting(PointsPer1000Msg, IntToString(msgs.value));
      }
      if invites.Some? {
        var _ := store.UpdateSetting(PointsPerInvite, IntToString(invites.value));
      }
    }

    /** `/exclude`: mark the account ignored, enrolling it if it has no record. */
    method Exclude(user: Author)
      requires Valid()
      modifies store
      ensures Valid()
      ensures store.moderators == ExcludeEffect(old(store.moderators), user, old(store.nextId), old(store.clock))
      ensures store.settings == old(store.settings) && store.clock == old(store.clock)
    {
      ghost var mods := store.moderators;
      var moderator := store.GetModeratorByDiscordId(user.id);
      if moderator.None? {
        var _ := store.CreateModerator(Enrolment(user, true, 0));
      } else {
        var i := IndexOfDiscordId(mods, user.id).value;
        assert moderator.value == mods[i];
        var _ := store.UpdateModerator(moderator.value.id, ExcludeUpdate);
        ApplyUpdateAt(mods, i, ExcludeUpdate, store.clock);
      }
    }

    /** `/addpoints`: add `amount` manual points, enrolling the account with them if it has no record. */
    method AddPoints(user: Author, amount: int)
      requires Valid()
      modifies store
      ensures Valid()
      ensures store.moderators == AddPointsEffect(old(store.moderators), user, amount, old(store.nextId), old(store.clock))
      ensures store.settings == old(store.settings) && store.clock == old(store.clock)
    {
      ghost var mods := store.moderators;
      var mod := store.GetModeratorByDiscordId(user.id);
      if mod.None? {
        var _ := store.CreateModerator(Enrolment(user, false, amount));
      } else {
        var i := IndexOfDiscordId(mods, user.id).value;
        assert mod.value == mods[i];
        var _ := store.UpdateModerator(mod.value.id, ManualUpdate(mod.value, amount));
        ApplyUpdateAt(mods, i, ManualUpdate(mod.value, amount), store.clock);
      }
    }

    /**
     * `/balance` for the calling account: `None` when it has no record
     * ("not a tracked moderator"), otherwise its total, `NaN` (`None`) when a
     * stored rate does not parse. The total is the one the dashboard shows
     * for the same record, and at unset rates it uses 15 and 1.
     */
    function Balance(userId: string): (r: Option<Option<int>>)
      reads store
      ensures r.None? <==> store.GetModeratorByDiscordId(userId).None?
      ensures r.Some? ==> r.value == TotalOrNaN(store.GetModeratorByDiscordId(userId).value, DashboardRates(store.settings))
      ensures r.Some? && !Truthy(SettingValue(store.settings, PointsPer1000Msg))
              && !Truthy(SettingValue(store.settings, PointsPerInvite)) ==>
                r.value == Some(TotalPoints(store.GetModeratorByDiscordId(userId).value, Rates(15, 1)))
    {
      RatesAgree(store.settings);
      var r := match store.GetModeratorByDiscordId(userId)
        case None => None
        case Some(mod) => Some(TotalOrNaN(mod, CommandRates(store.settings)));
      if !Truthy(SettingValue(store.settings, PointsPer1000Msg)) && !Truthy(SettingValue(store.settings, PointsPerInvite))
      then RatesDefault(store.settings); r
      else r
    }

    /**
     * `/stats` for the requested account, or the caller when none is given:
     * `None` without a record, otherwise its figures, whose total is the
     * `/balance` of that account.
     */
    function StatsFor(requested: Option<string>, callerId: string): (r: Option<StatsView>)
      reads store
      ensures var target := requested.GetOr(callerId);
        && (r.None? <==> Balance(target).None?)
        && (r.Some? ==> r.value.total == Balance(target).value)
        && (r.Some? ==> (r.value.messagePoints.Some? <==> CommandRate(SettingValue(store.settings, PointsPer1000Msg), "15").Some?))
        && (r.Some? ==> (r.value.invitePoints.Some? <==> CommandRate(SettingValue(store.settings, PointsPerInvite), "1").Some?))
    {
      var target := requested.GetOr(callerId);
      match store.GetModeratorByDiscordId(target)
      case None => None
      case Some(mod) =>
        var per1000 := CommandRate(store.GetSetting(PointsPer1000Msg), "15");
        var perInvite := CommandRate(store.GetSetting(PointsPerInvite), "1");
        StatsAgreesWithBalance(mod, per1000, perInvite);
        Some(Stats(mod, per1000, perInvite))
    }

    /**
     * `generateLeaderboard`. `channelValid` says whether the tracked channel
     * was fetched and is a text channel; `sendOk` whether posting the report
     * succeeds. Both configuration errors are raised before anything is
     * written; a failed post comes after the rewards were written.
     */
    method GenerateLeaderboard(channelValid: bool, sendOk: bool) returns (outcome: LeaderboardOutcome)
      requires Valid()
      modifies store
      ensures Valid()
      ensures store.settings == old(store.settings) && store.clock == old(store.clock)
      ensures store.nextId == old(store.nextId)
      ensures !Truthy(SettingValue(old(store.settings), TrackedChannelId)) ==>
        outcome == Failed(TrackedChannelNotSet) && store.moderators == old(store.moderators)
      ensures Truthy(SettingValue(old(store.settings), TrackedChannelId)) && !channelValid ==>
        outcome == Failed(InvalidTrackedChannel) && store.moderators == old(store.moderators)
      ensures Truthy(SettingValue(old(store.settings), TrackedChannelId)) && channelValid ==>
        && store.moderators == AwardAll(old(store.moderators), Top(Ranking(old(store.moderators))), old(store.clock))
        && outcome == (if sendOk then Published(Report(Ranking(old(store.moderators)))) else Failed(SendFailed))
    {
      var trackedChannelId := store.GetSetting(TrackedChannelId);
      if !Truthy(trackedChannelId) {
        return Failed(TrackedChannelNotSet);
      }
      if !channelValid {
        return Failed(InvalidTrackedChannel);
      }
      var moderators := store.GetModerators();
      var ranked := Ranking(moderators);
      WinnersFacts(moderators);
      var rows := AwardTop(ranked);
      var i := 3;
      label report:
      while i < |ranked|
        invariant 3 <= i
        invariant unchanged@report(store)
        invariant rows == Report(ranked)[..if i < |ranked| then i else |ranked|]
      {
        rows := rows + [ReportRow(ranked, i)];
        ReportStep(ranked, i);
        i := i + 1;
      }
      assert rows == Report(ranked);
      if !sendOk {
        return Failed(SendFailed);
      }
      return Published(rows);
    }

    /**
     * The reward loop of `generateLeaderboard`: each of the first three
     * ranked records gains its reward, and its report line is written.
     */
    method AwardTop(ranked: seq<Moderator>) returns (rows: seq<Row>)
      requires Valid() && UniqueIds(Top(ranked))
      requires forall k :: 0 <= k < |Top(ranked)| ==> Top(ranked)[k] in store.moderators
      modifies store
      ensures Valid()
      ensures store.settings == old(store.settings) && store.clock == old(store.clock)
      ensures store.nextId == old(store.nextId)
      ensures store.moderators == AwardAll(old(store.moderators), Top(ranked), old(store.clock))
      ensures rows == Report(ranked)[..|Top(ranked)|]
    {
      ghost var moderators := store.moderators;
      var top3 := Top(ranked);
      rows := [];
      AwardedNone(moderators, top3, store.clock);
      var i := 0;
      while i < |top3|
        invariant 0 <= i <= |top3|
        invariant store.Valid()
        invariant store.settings == old(store.settings) && store.clock == old(store.clock)
        invariant store.nextId == old(store.nextId)
        invariant store.moderators == AwardedAfter(moderators, top3, i, store.clock)
        invariant rows == Report(ranked)[..i]
      {
        AwardOne(moderators, top3, i);
        rows := rows + [ReportRow(ranked, i)];
        ReportStep(ranked, i);
        i := i + 1;
      }
    }

    /** One iteration of the reward loop: the winner at rank `i + 1` gains `Rewards[i]`. */
    method AwardOne(ghost moderators: seq<Moderator>, top3: seq<Moderator>, i: nat)
      requires Valid() && i < |top3| <= |Rewards|
      requires UniqueIds(moderators) && UniqueIds(top3)
      requires forall k :: 0 <= k < |top3| ==> top3[k] in moderators
      requires store.moderators == AwardedAfter(moderators, top3, i, store.clock)
      modifies store
      ensures Valid()
      ensures store.settings == old(store.settings) && store.clock == old(store.clock)
      ensures store.nextId == old(store.nextId)
      ensures store.moderators == AwardedAfter(moderators, top3, i + 1, store.clock)
    {
      var mod := top3[i];
      var reward := Rewards[i];
      AwardNext(moderators, top3, i, store.clock);
      var _ := store.UpdateModerator(mod.id, RewardUpdate(mod.leaderboardPoints + reward));
    }
  }
}
