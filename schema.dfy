/**
 * The two persisted tables: `moderators` and `bot_settings`, their column
 * defaults, the insert shape and the recognised setting keys.
 */
module Schema {
  import opened Wrappers

  /**
   * A row of `moderators`. `id` is the serial primary key, `discordId` is
   * unique, every counter is a non-null integer, `avatar` is nullable and
   * `lastUpdated` is a timestamp, modelled as an integer clock reading.
   */
  datatype Moderator = Moderator(
    id: nat,
    discordId: string,
    username: string,
    avatar: Option<string>,
    isIgnored: bool,
    messageCount: int,
    inviteCount: int,
    manualPoints: int,
    leaderboardPoints: int,
    lastUpdated: int)

  /**
   * The insert shape: `id`, `lastUpdated`, `messageCount`, `inviteCount` and
   * `leaderboardPoints` are not part of it; `isIgnored` and `manualPoints`
   * may be left out (`None`) and then take their column defaults.
   */
  datatype InsertModerator = InsertModerator(
    discordId: string,
    username: string,
    avatar: Option<string>,
    isIgnored: Option<bool>,
    manualPoints: Option<int>)

  /**
   * A `Partial<Moderator>` as the callers of `updateModerator` build it:
   * a `Some` field is written, a `None` field is left as it is.
   */
  datatype ModeratorUpdate = ModeratorUpdate(
    username: Option<string>,
    avatar: Option<Option<string>>,
    isIgnored: Option<bool>,
    messageCount: Option<int>,
    inviteCount: Option<int>,
    manualPoints: Option<int>,
    leaderboardPoints: Option<int>)

  const NoChange: ModeratorUpdate := ModeratorUpdate(None, None, None, None, None, None, None)

  /** The row the database creates for an insert, with the column defaults filled in. */
  function NewRecord(ins: InsertModerator, id: nat, now: int): Moderator {
    Moderator(id, ins.discordId, ins.username, ins.avatar,
              ins.isIgnored.GetOr(false), 0, 0, ins.manualPoints.GetOr(0), 0, now)
  }

  /** `set({...updates, lastUpdated: now})` applied to one row. */
  function Patch(m: Moderator, u: ModeratorUpdate, now: int): (r: Moderator)
    ensures r.id == m.id && r.discordId == m.discordId
  {
    m.(username := u.username.GetOr(m.username),
       avatar := u.avatar.GetOr(m.avatar),
       isIgnored := u.isIgnored.GetOr(m.isIgnored),
       messageCount := u.messageCount.GetOr(m.messageCount),
       inviteCount := u.inviteCount.GetOr(m.inviteCount),
       manualPoints := u.manualPoints.GetOr(m.manualPoints),
       leaderboardPoints := u.leaderboardPoints.GetOr(m.leaderboardPoints),
       lastUpdated := now)
  }

  /** A new moderator starts unignored with every counter at zero unless the insert says otherwise. */
  lemma NewRecordDefaults(ins: InsertModerator, id: nat, now: int)
    requires ins.isIgnored.None? && ins.manualPoints.None?
    ensures var m := NewRecord(ins, id, now);
      !m.isIgnored && m.messageCount == 0 && m.inviteCount == 0
      && m.manualPoints == 0 && m.leaderboardPoints == 0
  {
  }

  /** The omitted columns always start at their defaults, whatever the insert holds. */
  lemma NewRecordOmitted(ins: InsertModerator, id: nat, now: int)
    ensures var m := NewRecord(ins, id, now);
      m.id == id && m.lastUpdated == now
      && m.messageCount == 0 && m.inviteCount == 0 && m.leaderboardPoints == 0
  {
  }

  /** An update overwrites exactly the supplied fields: with nothing supplied only the stamp moves. */
  lemma PatchNothing(m: Moderator, now: int)
    ensures Patch(m, NoChange, now) == m.(lastUpdated := now)
  {
  }

  /** Repeating an update only restamps the record. */
  lemma PatchIdempotent(m: Moderator, u: ModeratorUpdate, t1: int, t2: int)
    ensures Patch(Patch(m, u, t1), u, t2) == Patch(m, u, t2)
  {
  }

  /** A row of `bot_settings`; `key` is unique, so the table is a map from key to value. */
  datatype BotSetting = BotSetting(key: string, value: string)

  const ModeratorRoleId: string := "moderator_role_id"
  const TrackedChannelId: string := "tracked_channel_id"
  const PointsPer1000Msg: string := "points_per_1000_msg"
  const PointsPerInvite: string := "points_per_invite"
  const LeaderboardRewards: string := "leaderboard_rewards"

  /** `SETTINGS_KEYS`, in declaration order. */
  const SettingsKeys: seq<string> :=
    [ModeratorRoleId, TrackedChannelId, PointsPer1000Msg, PointsPerInvite, LeaderboardRewards]

  /** Exactly five keys are recognised, and they are pairwise distinct. */
  lemma SettingsKeysDistinct()
    ensures |SettingsKeys| == 5
    ensures forall i, j :: 0 <= i < j < |SettingsKeys| ==> SettingsKeys[i] != SettingsKeys[j]
  {
  }
}
