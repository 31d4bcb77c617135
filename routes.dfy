/**
 * The HTTP mutation handlers of the server: grant manual points, toggle the
 * ignore flag, and update a setting. Each looks the record up first (404 for
 * an unknown id), validates its body next, and only then writes.
 */
module Routes {
  import opened Wrappers
  import opened Numbers
  import opened Schema
  import opened Storage
  import opened Points
  import opened ApiRoutes

  /** A handler's answer: the JSON body, a 404, or a body that failed validation (`parse` throws). */
  datatype Response<T> = Ok(body: T) | NotFound | ValidationFailed

  /**
   * `parseInt(req.params.id)`. A negative id matches no row. A `NaN` id is
   * `None` here too, so the handlers answer it as an unknown id; the
   * database query it reaches in the source is not part of this model.
   */
  function RouteId(param: string): (r: Option<nat>)
    ensures r.Some? <==> ParseInt(param).Some? && ParseInt(param).value >= 0
    ensures r.Some? ==> r.value == ParseInt(param).value
  {
    match ParseInt(param)
    case Some(n) => if n >= 0 then Some(n) else None
    case None => None
  }

  /** The row an id parameter names, if any. */
  function Target(mods: seq<Moderator>, param: string): (r: Option<nat>)
    ensures r.Some? ==> r.value < |mods| && RouteId(param) == Some(mods[r.value].id)
    ensures r.None? ==> RouteId(param).None? || forall i :: 0 <= i < |mods| ==> mods[i].id != RouteId(param).value
  {
    match RouteId(param)
    case None => None
    case Some(id) => IndexOfId(mods, id)
  }

  function PointsUpdate(m: Moderator, points: int): ModeratorUpdate {
    NoChange.(manualPoints := Some(m.manualPoints + points))
  }

  function ToggleUpdate(m: Moderator): ModeratorUpdate {
    NoChange.(isIgnored := Some(!m.isIgnored))
  }

  /** `POST /api/moderators/:id/manual-points`. */
  method UpdateManualPoints(store: Storage, idParam: string, points: Option<Json>, reason: Option<Json>)
    returns (res: Response<Moderator>)
    requires store.Valid()
    modifies store
    ensures store.Valid()
    ensures store.settings == old(store.settings) && store.clock == old(store.clock) && store.nextId == old(store.nextId)
    ensures Target(old(store.moderators), idParam).None? ==>
      res == NotFound && store.moderators == old(store.moderators)
    ensures Target(old(store.moderators), idParam).Some? && ParseManualPointsInput(points, reason).None? ==>
      res == ValidationFailed && store.moderators == old(store.moderators)
    ensures Target(old(store.moderators), idParam).Some? && ParseManualPointsInput(points, reason).Some? ==>
      var i := Target(old(store.moderators), idParam).value;
      var m := old(store.moderators)[i];
      var updated := Patch(m, PointsUpdate(m, ParseManualPointsInput(points, reason).value.points), store.clock);
      && store.moderators == old(store.moderators)[i := updated]
      && res == Ok(updated)
  {
    ghost var mods := store.moderators;
    var id := RouteId(idParam);
    if id.None? {
      return NotFound;
    }
    var mod := store.GetModerator(id.value);
    if mod.None? {
      return NotFound;
    }
    var i := IndexOfId(mods, id.value).value;
    assert mod.value == mods[i];
    var input := ParseManualPointsInput(points, reason);
    if input.None? {
      return ValidationFailed;
    }
    var updated := store.UpdateModerator(id.value, PointsUpdate(mod.value, input.value.points));
    ApplyUpdateAt(mods, i, PointsUpdate(mod.value, input.value.points), store.clock);
    return Ok(updated.value);
  }

  /**
   * A grant adds exactly `points` to the manual points, ignored or not, and
   * so exactly `points` to the balance at any rates; no other counter changes.
   */
  lemma ManualPointsGrant(m: Moderator, points: int, now: int, r: Rates)
    ensures var after := Patch(m, PointsUpdate(m, points), now);
      && after == m.(manualPoints := m.manualPoints + points, lastUpdated := now)
      && TotalPoints(after, r) == TotalPoints(m, r) + points
  {
    TotalAfterBonus(m, r, 0, points);
  }

  /** `POST /api/moderators/:id/toggle-ignore`. */
  method ToggleIgnore(store: Storage, idParam: string) returns (res: Response<Moderator>)
    requires store.Valid()
    modifies store
    ensures store.Valid()
    ensures store.settings == old(store.settings) && store.clock == old(store.clock) && store.nextId == old(store.nextId)
    ensures Target(old(store.moderators), idParam).None? ==>
      res == NotFound && store.moderators == old(store.moderators)
    ensures Target(old(store.moderators), idParam).Some? ==>
      var i := Target(old(store.moderators), idParam).value;
      var m := old(store.moderators)[i];
      && store.moderators == old(store.moderators)[i := Patch(m, ToggleUpdate(m), store.clock)]
      && res == Ok(Patch(m, ToggleUpdate(m), store.clock))
  {
    ghost var mods := store.moderators;
    var id := RouteId(idParam);
    if id.None? {
      return NotFound;
    }
    var mod := store.GetModerator(id.value);
    if mod.None? {
      return NotFound;
    }
    var i := IndexOfId(mods, id.value).value;
    assert mod.value == mods[i];
    var updated := store.UpdateModerator(id.value, ToggleUpdate(mod.value));
    ApplyUpdateAt(mods, i, ToggleUpdate(mod.value), store.clock);
    return Ok(updated.value);
  }

  /** A toggle flips only the flag; toggling twice restores it, and the record but its stamp. */
  lemma ToggleTwice(m: Moderator, t1: int, t2: int)
    ensures var once := Patch(m, ToggleUpdate(m), t1);
      && once == m.(isIgnored := !m.isIgnored, lastUpdated := t1)
      && Patch(once, ToggleUpdate(once), t2) == m.(lastUpdated := t2)
  {
  }

  /** `POST /api/settings`: validate the body, then upsert the pair. */
  method UpdateSettingRoute(store: Storage, key: Option<Json>, value: Option<Json>) returns (res: Response<BotSetting>)
    modifies store`settings
    ensures ParseSettingInput(key, value).None? ==> res == ValidationFailed && store.settings == old(store.settings)
    ensures ParseSettingInput(key, value).Some? ==>
      var (k, v) := ParseSettingInput(key, value).value;
      && store.settings == old(store.settings)[k := v]
      && res == Ok(BotSetting(k, v))
  {
    var input := ParseSettingInput(key, value);
    if input.None? {
      return ValidationFailed;
    }
    var updated := store.UpdateSetting(input.value.0, input.value.1);
    return Ok(updated);
  }
}
