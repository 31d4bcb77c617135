/**
 * The derived balance: `floor(messageCount / 1000) * pointsPer1000Msg +
 * inviteCount * pointsPerInvite + leaderboardPoints + manualPoints`, computed
 * on read and never stored, and the two ways the source reads the rates.
 */
module Points {
  import opened Wrappers
  import opened Numbers
  import opened Schema

  datatype Rates = Rates(per1000Msg: int, perInvite: int)

  const DefaultPer1000Msg: int := 15
  const DefaultPerInvite: int := 1

  /** JavaScript truthiness of an optional setting: present and not the empty string. */
  predicate Truthy(v: Option<string>) {
    v.Some? && v.value != ""
  }

  /** `Math.floor(count / 1000) * rate`; Dafny's `/` by a positive divisor rounds down. */
  function MessagePoints(count: int, rate: int): int {
    (count / 1000) * rate
  }

  function InvitePoints(count: int, rate: int): int {
    count * rate
  }

  /** The one definition of a moderator's balance. */
  function TotalPoints(m: Moderator, r: Rates): int {
    MessagePoints(m.messageCount, r.per1000Msg) + InvitePoints(m.inviteCount, r.perInvite)
    + m.leaderboardPoints + m.manualPoints
  }

  /** A balance with possibly unreadable rates: `NaN` (`None`) when either rate is. */
  function TotalOrNaN(m: Moderator, r: Option<Rates>): (t: Option<int>)
    ensures t.Some? <==> r.Some?
    ensures r.Some? ==> t.value == TotalPoints(m, r.value)
  {
    match r
    case None => None
    case Some(rates) => Some(TotalPoints(m, rates))
  }

  function BothRates(per1000: Option<int>, perInvite: Option<int>): Option<Rates> {
    if per1000.Some? && perInvite.Some? then Some(Rates(per1000.value, perInvite.value)) else None
  }

  /** `parseInt(await storage.getSetting(key) || fallback)`, as `balance` and `stats` read a rate. */
  function CommandRate(v: Option<string>, fallback: string): Option<int> {
    ParseInt(if Truthy(v) then v.value else fallback)
  }

  /** `val ? parseInt(val) : dflt`, as the dashboard reads a rate. */
  function DashboardRate(v: Option<string>, dflt: int): Option<int> {
    if Truthy(v) then ParseInt(v.value) else Some(dflt)
  }

  function SettingValue(settings: map<string, string>, key: string): Option<string> {
    if key in settings then Some(settings[key]) else None
  }

  /** The rates `balance` and `stats` use, with the fallback texts '15' and '1'. */
  function CommandRates(settings: map<string, string>): Option<Rates> {
    BothRates(CommandRate(SettingValue(settings, PointsPer1000Msg), "15"),
              CommandRate(SettingValue(settings, PointsPerInvite), "1"))
  }

  /** The rates the dashboard uses, with the defaults 15 and 1. */
  function DashboardRates(settings: map<string, string>): Option<Rates> {
    BothRates(DashboardRate(SettingValue(settings, PointsPer1000Msg), DefaultPer1000Msg),
              DashboardRate(SettingValue(settings, PointsPerInvite), DefaultPerInvite))
  }

  /** The fallback texts are the decimal forms of the defaults. */
  lemma DefaultTexts()
    ensures IntToString(DefaultPer1000Msg) == "15" && IntToString(DefaultPerInvite) == "1"
  {
    assert NatToString(15) == NatToString(1) + [DigitChar(5)];
  }

  /** The two rate readers agree on every stored value, given matching defaults. */
  lemma RateReadersAgree(v: Option<string>, dflt: int)
    ensures CommandRate(v, IntToString(dflt)) == DashboardRate(v, dflt)
  {
    ParseIntOfIntToString(dflt);
  }

  /** The bot's commands and the dashboard read the same rates from any settings. */
  lemma RatesAgree(settings: map<string, string>)
    ensures CommandRates(settings) == DashboardRates(settings)
  {
    DefaultTexts();
    RateReadersAgree(SettingValue(settings, PointsPer1000Msg), DefaultPer1000Msg);
    RateReadersAgree(SettingValue(settings, PointsPerInvite), DefaultPerInvite);
  }

  /** A missing or empty rate setting falls back to 15 per 1000 messages and 1 per invite. */
  lemma RatesDefault(settings: map<string, string>)
    requires !Truthy(SettingValue(settings, PointsPer1000Msg))
    requires !Truthy(SettingValue(settings, PointsPerInvite))
    ensures CommandRates(settings) == DashboardRates(settings) == Some(Rates(15, 1))
  {
    RatesAgree(settings);
  }

  /** A rate written as `n.toString()` is read back as `n`, by either reader. */
  lemma RateRoundTrip(n: int, fallback: string, dflt: int)
    ensures CommandRate(Some(IntToString(n)), fallback) == Some(n)
    ensures DashboardRate(Some(IntToString(n)), dflt) == Some(n)
  {
    ParseIntOfIntToString(n);
    assert IntToString(n) != "" by {
      if n < 0 { assert IntToString(n)[0] == '-'; }
    }
  }

  /** The message component is `rate` per full thousand: below 1000 messages it is 0. */
  lemma MessagePointsPerThousand(count: nat, rate: int)
    ensures MessagePoints(count, rate) == (if count < 1000 then 0 else MessagePoints(count - 1000, rate) + rate)
  {
    if count >= 1000 {
      assert count / 1000 == (count - 1000) / 1000 + 1;
    }
  }

  /** One more message adds a rate's worth exactly when it completes a thousand. */
  lemma {:induction false} TotalAfterMessage(m: Moderator, r: Rates)
    ensures TotalPoints(m.(messageCount := m.messageCount + 1), r)
         == TotalPoints(m, r) + (if (m.messageCount + 1) % 1000 == 0 then r.per1000Msg else 0)
  {
    var c := m.messageCount;
    var q := c / 1000;
    assert c == 1000 * q + c % 1000;
    if (c + 1) % 1000 == 0 {
      assert c % 1000 == 999;
      assert (c + 1) / 1000 == q + 1;
    } else {
      assert c % 1000 < 999;
      assert (c + 1) / 1000 == q;
    }
  }

  /** One more invite adds exactly the invite rate. */
  lemma TotalAfterInvite(m: Moderator, r: Rates)
    ensures TotalPoints(m.(inviteCount := m.inviteCount + 1), r) == TotalPoints(m, r) + r.perInvite
  {
  }

  /** Leaderboard and manual points enter the balance one for one. */
  lemma TotalAfterBonus(m: Moderator, r: Rates, reward: int, delta: int)
    ensures TotalPoints(m.(leaderboardPoints := m.leaderboardPoints + reward), r) == TotalPoints(m, r) + reward
    ensures TotalPoints(m.(manualPoints := m.manualPoints + delta), r) == TotalPoints(m, r) + delta
  {
  }

  /** The balance reads only the four point-bearing counters. */
  lemma TotalIgnoresIdentity(m: Moderator, n: Moderator, r: Rates)
    requires m.messageCount == n.messageCount && m.inviteCount == n.inviteCount
    requires m.leaderboardPoints == n.leaderboardPoints && m.manualPoints == n.manualPoints
    ensures TotalPoints(m, r) == TotalPoints(n, r)
  {
  }

  /** With non-negative rates, more messages never lower the balance. */
  lemma TotalMonotone(m: Moderator, extra: nat, r: Rates)
    requires r.per1000Msg >= 0
    ensures TotalPoints(m.(messageCount := m.messageCount + extra), r) >= TotalPoints(m, r)
  {
    var c := m.messageCount;
    assert (c + extra) / 1000 >= c / 1000;
    assert ((c + extra) / 1000) * r.per1000Msg >= (c / 1000) * r.per1000Msg by {
      var d := (c + extra) / 1000 - c / 1000;
      assert ((c + extra) / 1000) * r.per1000Msg == (c / 1000) * r.per1000Msg + d * r.per1000Msg;
    }
  }

  /** 2500 messages, 3 invites, 20 leaderboard and -5 manual points at the default rates make 48. */
  lemma ExampleBalance(m: Moderator)
    requires m.messageCount == 2500 && m.inviteCount == 3
    requires m.leaderboardPoints == 20 && m.manualPoints == -5
    ensures TotalPoints(m, Rates(DefaultPer1000Msg, DefaultPerInvite)) == 48
  {
  }
}
