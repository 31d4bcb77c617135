/**
 * Invite attribution by snapshot diff: the per-guild cache of invite use
 * counts (`cacheInvites`) and the choice of the invite a join consumed.
 */
module Invites {
  import opened Wrappers
  import opened Seqs

  /** An invite as the guild's invite list reports it; `uses` may be null, `inviterId` absent. */
  datatype Invite = Invite(code: string, uses: Option<int>, inviterId: Option<string>)

  /** `CachedInvite`: what the cache keeps of an invite. */
  datatype CachedInvite = CachedInvite(code: string, uses: int, inviterId: Option<string>)

  /** One guild's cache: invite code to cached entry. */
  type Snapshot = map<string, CachedInvite>

  /** `{ code, uses: inv.uses || 0, inviterId: inv.inviter?.id || null }`. */
  function Cached(inv: Invite): (c: CachedInvite)
    ensures c.code == inv.code
    ensures c.uses == (if inv.uses.Some? then inv.uses.value else 0)
    ensures c.inviterId.Some? ==> c.inviterId == inv.inviterId && c.inviterId.value != ""
  {
    CachedInvite(inv.code, inv.uses.GetOr(0),
                 if inv.inviterId.Some? && inv.inviterId.value != "" then inv.inviterId else None)
  }

  /** The cache `cacheInvites` builds: each invite in turn is `set` under its code. */
  function SnapshotOf(invites: seq<Invite>): Snapshot {
    if invites == [] then map[]
    else SnapshotOf(invites[..|invites| - 1])[invites[|invites| - 1].code := Cached(invites[|invites| - 1])]
  }

  /** `cacheInvites(invites)`, filling a fresh collection with `forEach`. */
  method CacheInvites(invites: seq<Invite>) returns (cache: Snapshot)
    ensures cache == SnapshotOf(invites)
    ensures cache.Keys == set i | 0 <= i < |invites| :: invites[i].code
  {
    cache := map[];
    var i := 0;
    while i < |invites|
      invariant 0 <= i <= |invites|
      invariant cache == SnapshotOf(invites[..i])
    {
      assert invites[..i + 1][..i] == invites[..i];
      cache := cache[invites[i].code := Cached(invites[i])];
      i := i + 1;
    }
    assert invites[..i] == invites;
    SnapshotKeys(invites);
  }

  /** The cache holds exactly the listed codes. */
  lemma {:induction false} SnapshotKeys(invites: seq<Invite>)
    ensures SnapshotOf(invites).Keys == set i | 0 <= i < |invites| :: invites[i].code
  {
    if invites != [] {
      var front := invites[..|invites| - 1];
      SnapshotKeys(front);
      assert forall i :: 0 <= i < |front| ==> front[i] == invites[i];
      assert (set i | 0 <= i < |invites| :: invites[i].code)
          == (set i | 0 <= i < |front| :: front[i].code) + {invites[|invites| - 1].code};
    }
  }

  /** Listing `i` is the last one of `code`, and the snapshot holds its entry. */
  ghost predicate LastListing(invites: seq<Invite>, code: string, i: int) {
    && 0 <= i < |invites| && invites[i].code == code
    && code in SnapshotOf(invites) && SnapshotOf(invites)[code] == Cached(invites[i])
    && forall j :: i < j < |invites| ==> invites[j].code != code
  }

  /** Each cached entry is the last listed invite with that code, uses defaulted to 0. */
  lemma {:induction false} SnapshotEntry(invites: seq<Invite>, code: string)
    requires code in SnapshotOf(invites)
    ensures exists i :: LastListing(invites, code, i)
  {
    var n := |invites| - 1;
    var last, front := invites[n], invites[..n];
    assert SnapshotOf(invites) == SnapshotOf(front)[last.code := Cached(last)];
    if last.code == code {
      assert SnapshotOf(invites)[code] == Cached(invites[n]);
      assert LastListing(invites, code, n);
    } else {
      assert code in SnapshotOf(front);
      SnapshotEntry(front, code);
      var i :| LastListing(front, code, i);
      assert invites[i] == front[i];
      assert forall j :: i < j < n ==> invites[j] == front[j];
      assert LastListing(invites, code, i);
    }
  }

  /** `cached ? (inv.uses || 0) > (cached.uses || 0) : false`. */
  predicate Grew(inv: Invite, cached: Option<Snapshot>) {
    cached.Some? && inv.code in cached.value && inv.uses.GetOr(0) > cached.value[inv.code].uses
  }

  /** `newInvites.find(...)`: the first listed invite whose use count rose since the snapshot. */
  function UsedInvite(newInvites: seq<Invite>, cached: Option<Snapshot>): (r: Option<nat>)
    ensures r.Some? ==> r.value < |newInvites| && Grew(newInvites[r.value], cached)
    ensures r.Some? ==> forall j :: 0 <= j < r.value ==> !Grew(newInvites[j], cached)
    ensures r.None? ==> forall j :: 0 <= j < |newInvites| ==> !Grew(newInvites[j], cached)
  {
    First(newInvites, (inv: Invite) => Grew(inv, cached))
  }

  /** The inviter a join is attributed to, if the consumed invite names one. */
  function CreditedInviter(newInvites: seq<Invite>, cached: Option<Snapshot>): (r: Option<string>)
    ensures r.Some? ==> exists i :: 0 <= i < |newInvites| && Grew(newInvites[i], cached)
                                  && newInvites[i].inviterId == r
    ensures cached.None? ==> r.None?
  {
    match UsedInvite(newInvites, cached)
    case None => None
    case Some(i) => newInvites[i].inviterId
  }

  /** With no snapshot for the guild (a cold start) no invite is ever found used. */
  lemma ColdStartCreditsNothing(newInvites: seq<Invite>)
    ensures UsedInvite(newInvites, None).None?
  {
  }

  /**
   * Snapshot {A: 5}, then list [A: 6, B: 0] credits A's inviter; with that list
   * as the new snapshot, list [A: 6, B: 1] credits B's inviter, not A's.
   */
  lemma TwoJoins(a: string, b: string, ia: string, ib: string)
    requires a != b && ia != "" && ib != ""
    ensures var s0 := SnapshotOf([Invite(a, Some(5), Some(ia))]);
            var l1 := [Invite(a, Some(6), Some(ia)), Invite(b, Some(0), Some(ib))];
            var l2 := [Invite(a, Some(6), Some(ia)), Invite(b, Some(1), Some(ib))];
            && CreditedInviter(l1, Some(s0)) == Some(ia)
            && CreditedInviter(l2, Some(SnapshotOf(l1))) == Some(ib)
  {
    var s0 := SnapshotOf([Invite(a, Some(5), Some(ia))]);
    var l1 := [Invite(a, Some(6), Some(ia)), Invite(b, Some(0), Some(ib))];
    var l2 := [Invite(a, Some(6), Some(ia)), Invite(b, Some(1), Some(ib))];
    assert Grew(l1[0], Some(s0));
    assert l1[..1] == [l1[0]];
    var s1 := SnapshotOf(l1);
    assert l1[..1][..0] == [];
    assert SnapshotOf(l1[..1]) == map[a := Cached(l1[0])];
    assert s1 == map[a := CachedInvite(a, 6, Some(ia)), b := CachedInvite(b, 0, Some(ib))];
    assert !Grew(l2[0], Some(s1));
    assert Grew(l2[1], Some(s1));
  }
}
