/**
 * The shared API contract: `buildUrl`, which fills `:key` placeholders of a
 * route path, and the input shapes the mutation endpoints accept.
 */
module ApiRoutes {
  import opened Wrappers
  import opened Numbers

  /** A value of `Record<string, string | number>` (integral numbers only). */
  datatype ParamValue = Text(text: string) | Number(number: int)

  /** `String(value)`. */
  function ValueText(v: ParamValue): string {
    match v
    case Text(t) => t
    case Number(n) => IntToString(n)
  }

  /** `t` occurs in `s` at position `i`. */
  predicate OccursAt(s: string, t: string, i: nat) {
    i + |t| <= |s| && s[i..i + |t|] == t
  }

  /** `s.indexOf(t, from)`: the first occurrence at or after `from`. */
  function IndexOfFrom(s: string, t: string, from: nat): (r: Option<nat>)
    ensures r.Some? ==> from <= r.value && OccursAt(s, t, r.value)
    ensures r.Some? ==> forall j :: from <= j < r.value ==> !OccursAt(s, t, j)
    ensures r.None? ==> forall j :: from <= j ==> !OccursAt(s, t, j)
    decreases |s| - from
  {
    if from + |t| > |s| then None
    else if s[from..from + |t|] == t then Some(from)
    else IndexOfFrom(s, t, from + 1)
  }

  function IndexOf(s: string, t: string): Option<nat> {
    IndexOfFrom(s, t, 0)
  }

  /** `s.includes(t)`. */
  predicate Contains(s: string, t: string) {
    IndexOf(s, t).Some?
  }

  /** `s.replace(t, r)` with a string pattern: only the first occurrence is replaced. */
  function ReplaceFirst(s: string, t: string, r: string): string {
    match IndexOf(s, t)
    case None => s
    case Some(i) => s[..i] + r + s[i + |t|..]
  }

  function Placeholder(key: string): string {
    ":" + key
  }

  /** One entry of the loop: replace the first `:key`, if the url holds one. */
  function Substitute(url: string, entry: (string, ParamValue)): string {
    if Contains(url, Placeholder(entry.0)) then ReplaceFirst(url, Placeholder(entry.0), ValueText(entry.1)) else url
  }

  /** The url after the entries in `Object.entries` order, each acting on the previous result. */
  function SubstituteAll(path: string, entries: seq<(string, ParamValue)>): string
    decreases |entries|
  {
    if entries == [] then path
    else Substitute(SubstituteAll(path, entries[..|entries| - 1]), entries[|entries| - 1])
  }

  /** `buildUrl(path, params)`. */
  method BuildUrl(path: string, params: Option<seq<(string, ParamValue)>>) returns (url: string)
    ensures url == if params.Some? then SubstituteAll(path, params.value) else path
  {
    url := path;
    if params.Some? {
      var entries := params.value;
      var i := 0;
      while i < |entries|
        invariant 0 <= i <= |entries|
        invariant url == SubstituteAll(path, entries[..i])
      {
        var key := entries[i].0;
        if Contains(url, Placeholder(key)) {
          url := ReplaceFirst(url, Placeholder(key), ValueText(entries[i].1));
        }
        assert entries[..i + 1][..i] == entries[..i];
        i := i + 1;
      }
      assert entries[..i] == entries;
    }
  }

  /** Without params, or with an empty record, the path is returned unchanged. */
  lemma NoParamsUnchanged(path: string)
    ensures SubstituteAll(path, []) == path
  {
  }

  /** A key whose placeholder does not occur leaves the url unchanged. */
  lemma AbsentKeyUnchanged(url: string, key: string, v: ParamValue)
    requires forall j :: 0 <= j ==> !OccursAt(url, Placeholder(key), j)
    ensures Substitute(url, (key, v)) == url
  {
  }

  /**
   * Only the first occurrence of `:key` is replaced: the text before it and
   * everything after it, later occurrences included, are kept.
   */
  lemma FirstOccurrenceOnly(url: string, key: string, v: ParamValue, i: nat)
    requires OccursAt(url, Placeholder(key), i)
    requires forall j :: 0 <= j < i ==> !OccursAt(url, Placeholder(key), j)
    ensures Substitute(url, (key, v)) == url[..i] + ValueText(v) + url[i + |Placeholder(key)|..]
  {
    assert IndexOf(url, Placeholder(key)) == Some(i);
  }

  /** Entries apply in order: substituting `a + b` is substituting `a`, then `b`. */
  lemma {:induction false} SubstituteInOrder(path: string, a: seq<(string, ParamValue)>, b: seq<(string, ParamValue)>)
    ensures SubstituteAll(path, a + b) == SubstituteAll(SubstituteAll(path, a), b)
    decreases |b|
  {
    if b == [] {
      assert a + b == a;
    } else {
      var front := b[..|b| - 1];
      assert (a + b)[..|a + b| - 1] == a + front;
      SubstituteInOrder(path, a, front);
    }
  }

  lemma FiveText()
    ensures ValueText(Number(5)) == "5"
  {
    assert NatToString(5) == [DigitChar(5)];
  }

  lemma ExamplePieces(path: string)
    requires path == "/api/moderators/:id/manual-points"
    ensures path[..16] == "/api/moderators/" && path[16..19] == ":id" && path[19..] == "/manual-points"
  {
  }

  lemma ExamplePlaceholderAt(path: string)
    requires path == "/api/moderators/:id/manual-points"
    ensures OccursAt(path, Placeholder("id"), 16)
    ensures forall j :: 0 <= j < 16 ==> !OccursAt(path, Placeholder("id"), j)
  {
    ExamplePieces(path);
    forall j | 0 <= j < 16
      ensures !OccursAt(path, Placeholder("id"), j)
    {
      assert path[j] == path[..16][j];
      assert Placeholder("id")[0] == ':';
    }
  }

  lemma ExampleJoin()
    ensures "/api/moderators/" + "5" + "/manual-points" == "/api/moderators/5/manual-points"
  {
  }

  /** `buildUrl('/api/moderators/:id/manual-points', { id: 5 })` is `/api/moderators/5/manual-points`. */
  lemma ExampleManualPointsUrl()
    ensures SubstituteAll("/api/moderators/:id/manual-points", [("id", Number(5))])
         == "/api/moderators/5/manual-points"
  {
    ExampleSubstitution("/api/moderators/:id/manual-points", [("id", Number(5))]);
  }

  lemma ExampleSubstitution(path: string, entries: seq<(string, ParamValue)>)
    requires path == "/api/moderators/:id/manual-points" && entries == [("id", Number(5))]
    ensures SubstituteAll(path, entries) == "/api/moderators/5/manual-points"
  {
    assert entries[..0] == [];
    assert SubstituteAll(path, entries) == Substitute(path, entries[0]);
    FiveText();
    ExamplePlaceholderAt(path);
    FirstOccurrenceOnly(path, "id", Number(5), 16);
    ExamplePieces(path);
    ExampleJoin();
  }

  /** A JSON value of a request body field. */
  datatype Json = JNull | JBool(b: bool) | JNumber(n: int) | JString(s: string) | JOther

  /** The `updateManualPoints` input: `{ points: number, reason?: string }`. */
  datatype ManualPointsInput = ManualPointsInput(points: int, reason: Option<string>)

  /**
   * `api.moderators.updateManualPoints.input.parse(body)` given the body's
   * `points` and `reason` fields (`None` when absent): `points` must be a
   * number, `reason` a string or absent; `None` is a validation failure.
   */
  function ParseManualPointsInput(points: Option<Json>, reason: Option<Json>): (r: Option<ManualPointsInput>)
    ensures r.Some? <==> points.Some? && points.value.JNumber? && (reason.None? || reason.value.JString?)
    ensures r.Some? ==> r.value.points == points.value.n
    ensures r.Some? ==> (r.value.reason.Some? <==> reason.Some?)
  {
    match points
    case Some(JNumber(n)) =>
      (match reason
       case None => Some(ManualPointsInput(n, None))
       case Some(JString(s)) => Some(ManualPointsInput(n, Some(s)))
       case Some(_) => None)
    case _ => None
  }

  /**
   * `api.settings.update.input.parse(body)`, the setting insert shape:
   * `key` and `value` are both required strings.
   */
  function ParseSettingInput(key: Option<Json>, value: Option<Json>): (r: Option<(string, string)>)
    ensures r.Some? <==> key.Some? && key.value.JString? && value.Some? && value.value.JString?
    ensures r.Some? ==> r.value == (key.value.s, value.value.s)
  {
    match (key, value)
    case (Some(JString(k)), Some(JString(v))) => Some((k, v))
    case _ => None
  }
}
