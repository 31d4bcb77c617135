/**
 * The persistence contract (`IStorage` / `DatabaseStorage`) as an in-memory
 * moderator table and settings map. The table keeps rows in insertion order;
 * every update stamps `lastUpdated` with the storage clock, the model of
 * `new Date()`.
 */
module Storage {
  import opened Wrappers
  import opened Seqs
  import opened Schema

  ghost predicate UniqueIds(mods: seq<Moderator>) {
    forall i, j :: 0 <= i < j < |mods| ==> mods[i].id != mods[j].id
  }

  ghost predicate UniqueDiscordIds(mods: seq<Moderator>) {
    forall i, j :: 0 <= i < j < |mods| ==> mods[i].discordId != mods[j].discordId
  }

  /** Position of the row whose primary key is `id` (`where(eq(moderators.id, id))`). */
  function IndexOfId(mods: seq<Moderator>, id: nat): (r: Option<nat>)
    ensures r.Some? ==> r.value < |mods| && mods[r.value].id == id
    ensures r.None? ==> forall i :: 0 <= i < |mods| ==> mods[i].id != id
    ensures UniqueIds(mods) ==> forall i :: 0 <= i < |mods| && mods[i].id == id ==> r == Some(i)
  {
    First(mods, (m: Moderator) => m.id == id)
  }

  /** Position of the row whose `discordId` is `discordId`. */
  function IndexOfDiscordId(mods: seq<Moderator>, discordId: string): (r: Option<nat>)
    ensures r.Some? ==> r.value < |mods| && mods[r.value].discordId == discordId
    ensures r.None? ==> forall i :: 0 <= i < |mods| ==> mods[i].discordId != discordId
    ensures UniqueDiscordIds(mods) ==>
      forall i :: 0 <= i < |mods| && mods[i].discordId == discordId ==> r == Some(i)
  {
    First(mods, (m: Moderator) => m.discordId == discordId)
  }

  /** The table after `updateModerator(id, u)` at time `now`. */
  function ApplyUpdate(mods: seq<Moderator>, id: nat, u: ModeratorUpdate, now: int): (r: seq<Moderator>)
    ensures |r| == |mods|
    ensures forall i :: 0 <= i < |mods| ==> r[i].id == mods[i].id && r[i].discordId == mods[i].discordId
    ensures forall i :: 0 <= i < |mods| && mods[i].id != id ==> r[i] == mods[i]
    ensures UniqueIds(mods) ==>
      forall i :: 0 <= i < |mods| && mods[i].id == id ==> r[i] == Patch(mods[i], u, now)
  {
    match IndexOfId(mods, id)
    case None => mods
    case Some(i) => mods[i := Patch(mods[i], u, now)]
  }

  /** With unique ids, updating by the id of row `i` patches exactly row `i`. */
  lemma ApplyUpdateAt(mods: seq<Moderator>, i: nat, u: ModeratorUpdate, now: int)
    requires UniqueIds(mods) && i < |mods|
    ensures ApplyUpdate(mods, mods[i].id, u, now) == mods[i := Patch(mods[i], u, now)]
  {
    var r := ApplyUpdate(mods, mods[i].id, u, now);
    assert forall j :: 0 <= j < |mods| ==> r[j] == mods[i := Patch(mods[i], u, now)][j];
  }

  class Storage {
    var moderators: seq<Moderator>
    var settings: map<string, string>
    /** The current time, which `updateModerator` and the column default `defaultNow()` read. */
    var clock: int
    /** The next value of the `id` serial sequence. */
    var nextId: nat

    /** The table constraints: `id` and `discordId` unique, ids drawn from the serial. */
    ghost predicate Valid()
      reads this
    {
      && 0 < nextId
      && UniqueIds(moderators)
      && UniqueDiscordIds(moderators)
      && forall i :: 0 <= i < |moderators| ==> 0 < moderators[i].id < nextId
    }

    constructor (now: int)
      ensures Valid()
      ensures moderators == [] && settings == map[] && clock == now && nextId == 1
    {
      moderators, settings, clock, nextId := [], map[], now, 1;
    }

    /** The passage of time: what `new Date()` returns from now on. */
    method SetClock(now: int)
      modifies this`clock
      ensures clock == now
    {
      clock := now;
    }

    /** `getModerators()`: every row, in stored order. */
    function GetModerators(): seq<Moderator>
      reads this
    {
      moderators
    }

    /** `getModerator(id)`: the row with that primary key, or absent. */
    function GetModerator(id: nat): (r: Option<Moderator>)
      reads this
      ensures r.Some? ==> r.value in moderators && r.value.id == id
      ensures r.None? ==> forall i :: 0 <= i < |moderators| ==> moderators[i].id != id
    {
      match IndexOfId(moderators, id)
      case None => None
      case Some(i) => Some(moderators[i])
    }

    /** `getModeratorByDiscordId(discordId)`: the unique row with that Discord id, or absent. */
    function GetModeratorByDiscordId(discordId: string): (r: Option<Moderator>)
      reads this
      ensures r.Some? ==> r.value in moderators && r.value.discordId == discordId
      ensures r.None? ==> forall i :: 0 <= i < |moderators| ==> moderators[i].discordId != discordId
      ensures Valid() && r.Some? ==>
        forall i :: 0 <= i < |moderators| && moderators[i].discordId == discordId ==> moderators[i] == r.value
    {
      match IndexOfDiscordId(moderators, discordId)
      case None => None
      case Some(i) => Some(moderators[i])
    }

    /**
     * `createModerator(ins)`: appends the new row. An insert whose Discord id
     * is taken violates the unique constraint and fails (`None`); the serial
     * advances either way.
     */
    method CreateModerator(ins: InsertModerator) returns (r: Option<Moderator>)
      requires Valid()
      modifies this
      ensures Valid()
      ensures r.Some? <==> old(GetModeratorByDiscordId(ins.discordId)).None?
      ensures r.Some? ==> r.value == NewRecord(ins, old(nextId), clock)
      ensures moderators == if r.Some? then old(moderators) + [r.value] else old(moderators)
      ensures nextId == old(nextId) + 1
      ensures settings == old(settings) && clock == old(clock)
      ensures r.Some? ==> GetModerator(r.value.id) == r && GetModeratorByDiscordId(ins.discordId) == r
    {
      var existing := GetModeratorByDiscordId(ins.discordId);
      if existing.None? {
        var m := NewRecord(ins, nextId, clock);
        moderators := moderators + [m];
        r := Some(m);
        assert moderators[|moderators| - 1] == m;
        assert UniqueIds(moderators) && UniqueDiscordIds(moderators);
      } else {
        r := None;
      }
      nextId := nextId + 1;
    }

    /**
     * `updateModerator(id, u)`: overwrites exactly the supplied fields of the
     * row with that id and stamps `lastUpdated`; no other row changes. An
     * unknown id updates nothing and returns absent.
     */
    method UpdateModerator(id: nat, u: ModeratorUpdate) returns (r: Option<Moderator>)
      requires Valid()
      modifies this
      ensures Valid()
      ensures moderators == ApplyUpdate(old(moderators), id, u, clock)
      ensures r.Some? <==> old(GetModerator(id)).Some?
      ensures r.Some? ==> r.value == Patch(old(GetModerator(id)).value, u, clock) && r.value in moderators
      ensures settings == old(settings) && clock == old(clock) && nextId == old(nextId)
    {
      var i := IndexOfId(moderators, id);
      if i.Some? {
        var m := Patch(moderators[i.value], u, clock);
        moderators := moderators[i.value := m];
        r := Some(m);
      } else {
        r := None;
      }
    }

    /** `getSetting(key)`: the stored value, or absent for a key never stored. */
    function GetSetting(key: string): (r: Option<string>)
      reads this
      ensures r.Some? <==> key in settings
      ensures r.Some? ==> r.value == settings[key]
    {
      if key in settings then Some(settings[key]) else None
    }

    /** `updateSetting(key, value)`: an upsert on the unique key. */
    method UpdateSetting(key: string, value: string) returns (r: BotSetting)
      modifies this`settings
      ensures settings == old(settings)[key := value]
      ensures GetSetting(key) == Some(value)
      ensures forall k :: k != key ==> GetSetting(k) == old(GetSetting(k))
      ensures r == BotSetting(key, value)
    {
      settings := settings[key := value];
      r := BotSetting(key, value);
    }
  }
}
