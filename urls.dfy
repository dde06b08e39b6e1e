/** `buildUrl(path, params)` of shared/routes.ts: every `:key` placeholder of
    a path is replaced by the text of its parameter, parameter by parameter in
    entry order, first occurrence only.

    The source calls `String.prototype.replace` with a string replacement, in
    which `$$`, `$&`, `` $` `` and `$'` are substitution patterns. That
    behaviour is modelled by `ExpandReplacement` and `SubstituteAsWritten`;
    the rest of the model uses the literal substitution `Substitute`, and
    `AsWrittenAgrees` shows that the two agree on every parameter list whose
    values contain no `$` (in particular on every integer id). */
module Urls {
  import opened Collections
  import opened Text

  /** A parameter value: `string | number`, with numbers restricted to integers. */
  datatype ParamValue = PStr(s: string) | PInt(i: int)

  /** One entry of `Object.entries(params)`. */
  datatype Param = Param(key: string, value: ParamValue)

  /** `String(value)`. */
  function ValueString(v: ParamValue): string {
    match v
    case PStr(s) => s
    case PInt(i) => IntToString(i)
  }

  /** The placeholder a parameter replaces: `:${key}`. */
  function Placeholder(key: string): (p: string)
    ensures |p| == |key| + 1 && p[0] == ':' && p[1..] == key
  {
    ":" + key
  }

  /** The first occurrence of `pat` in `s` replaced by `rep`, taken literally. */
  function ReplaceFirst(s: string, pat: string, rep: string): (r: string)
    ensures IndexOf(s, pat).None? ==> r == s
    ensures IndexOf(s, pat).Some? ==>
      r == s[..IndexOf(s, pat).value] + rep + s[IndexOf(s, pat).value + |pat|..]
  {
    match IndexOf(s, pat)
    case None => s
    case Some(i) => s[..i] + rep + s[i + |pat|..]
  }

  /** One iteration of the `forEach`: substitute the parameter if its
      placeholder occurs in the url. */
  function Step(url: string, p: Param): string {
    if Includes(url, Placeholder(p.key)) then ReplaceFirst(url, Placeholder(p.key), ValueString(p.value)) else url
  }

  /** The url after the parameters `params`, applied in order. */
  function Substitute(path: string, params: seq<Param>): string
    decreases |params|
  {
    if params == [] then path
    else Step(Substitute(path, params[..|params| - 1]), params[|params| - 1])
  }

  /** `buildUrl(path, params)`; `None` is an absent `params` argument. */
  method BuildUrl(path: string, params: Option<seq<Param>>) returns (url: string)
    ensures params.None? ==> url == path
    ensures params.Some? ==> url == Substitute(path, params.value)
  {
    url := path;
    if params.Some? {
      var entries := params.value;
      for i := 0 to |entries|
        invariant url == Substitute(path, entries[..i])
      {
        assert entries[..i + 1][..i] == entries[..i];
        var p := entries[i];
        if Includes(url, Placeholder(p.key)) {
          url := ReplaceFirst(url, Placeholder(p.key), ValueString(p.value));
        }
      }
      assert entries[..|entries|] == entries;
    }
  }

  // ---------------------------------------------------------------------
  // Properties of the substitution
  // ---------------------------------------------------------------------

  /** A parameter whose placeholder is present replaces its leftmost
      occurrence, and only that one, by the value's text; a parameter whose
      placeholder is absent leaves the url as it is. */
  lemma StepReplacesFirst(url: string, p: Param)
    ensures !(exists j :: OccursAt(url, Placeholder(p.key), j)) ==> Step(url, p) == url
    ensures forall i :: FirstOccurrence(url, Placeholder(p.key), i) ==>
      Step(url, p) == url[..i] + ValueString(p.value) + url[i + |Placeholder(p.key)|..]
  {
    var pat := Placeholder(p.key);
    IncludesIffOccurs(url, pat);
    forall i | FirstOccurrence(url, pat, i)
      ensures Step(url, p) == url[..i] + ValueString(p.value) + url[i + |pat|..]
    {
      var k := IndexOf(url, pat).value;
      assert !(k < i) && !(i < k);
    }
  }

  /** Without parameters the path is returned unchanged. */
  lemma NoParams(path: string)
    ensures Substitute(path, []) == path
  {
  }

  /** Parameters are applied one after the other, each to the result of the
      ones before it. */
  lemma {:induction false} SubstituteAppend(path: string, a: seq<Param>, b: seq<Param>)
    ensures Substitute(path, a + b) == Substitute(Substitute(path, a), b)
    decreases |b|
  {
    if b == [] {
      assert a + b == a;
    } else {
      assert (a + b)[..|a + b| - 1] == a + b[..|b| - 1];
      SubstituteAppend(path, a, b[..|b| - 1]);
    }
  }

  // ---------------------------------------------------------------------
  // The paths the client builds
  // ---------------------------------------------------------------------

  const HistoryItemPath := "/api/history/:id"
  const RoutePath := "/api/routes/:id"

  /** The url of one history item is its collection path followed by the id. */
  lemma HistoryItemUrl(id: nat)
    ensures Substitute(HistoryItemPath, [Param("id", PInt(id))]) == "/api/history/" + NatToString(id)
  {
    var pat := Placeholder("id");
    assert OccursAt(HistoryItemPath, pat, 13);
    ItemPathFirstOccurrence(HistoryItemPath, "/api/history/", 13);
    StepReplacesFirst(HistoryItemPath, Param("id", PInt(id)));
    assert HistoryItemPath[..13] == "/api/history/" && HistoryItemPath[16..] == [];
  }

  /** The url of one route is its collection path followed by the id. */
  lemma RouteUrl(id: nat)
    ensures Substitute(RoutePath, [Param("id", PInt(id))]) == "/api/routes/" + NatToString(id)
  {
    var pat := Placeholder("id");
    assert OccursAt(RoutePath, pat, 12);
    ItemPathFirstOccurrence(RoutePath, "/api/routes/", 12);
    StepReplacesFirst(RoutePath, Param("id", PInt(id)));
    assert RoutePath[..12] == "/api/routes/" && RoutePath[15..] == [];
  }

  /** In `prefix + ":id"`, where the prefix has no colon, `:id` first occurs after the prefix. */
  lemma ItemPathFirstOccurrence(path: string, prefix: string, n: nat)
    requires path == prefix + ":id" && |prefix| == n
    requires forall k :: 0 <= k < n ==> prefix[k] != ':'
    ensures FirstOccurrence(path, Placeholder("id"), n)
  {
    forall j | 0 <= j < n ensures !OccursAt(path, Placeholder("id"), j) {
      assert path[j] == prefix[j];
    }
  }

  // ---------------------------------------------------------------------
  // The replacement as JavaScript performs it
  // ---------------------------------------------------------------------

  /** The replacement text `rep` after `String.prototype.replace` expands its
      patterns, for a match `matched` preceded by `before` and followed by
      `after` (a string pattern has no capture groups, so `$1` and `$<` stay as
      they are). */
  function ExpandReplacement(rep: string, matched: string, before: string, after: string): string
    decreases |rep|
  {
    if rep == [] then []
    else if rep[0] == '$' && |rep| >= 2 && rep[1] == '$' then "$" + ExpandReplacement(rep[2..], matched, before, after)
    else if rep[0] == '$' && |rep| >= 2 && rep[1] == '&' then matched + ExpandReplacement(rep[2..], matched, before, after)
    else if rep[0] == '$' && |rep| >= 2 && rep[1] == '`' then before + ExpandReplacement(rep[2..], matched, before, after)
    else if rep[0] == '$' && |rep| >= 2 && rep[1] == '\'' then after + ExpandReplacement(rep[2..], matched, before, after)
    else [rep[0]] + ExpandReplacement(rep[1..], matched, before, after)
  }

  /** `s.replace(pat, rep)` with string arguments, as written. */
  function ReplaceFirstAsWritten(s: string, pat: string, rep: string): string {
    match IndexOf(s, pat)
    case None => s
    case Some(i) => s[..i] + ExpandReplacement(rep, pat, s[..i], s[i + |pat|..]) + s[i + |pat|..]
  }

  function StepAsWritten(url: string, p: Param): string {
    if Includes(url, Placeholder(p.key)) then ReplaceFirstAsWritten(url, Placeholder(p.key), ValueString(p.value))
    else url
  }

  /** `buildUrl(path, params)` exactly as written. */
  function SubstituteAsWritten(path: string, params: seq<Param>): (r: string)
    ensures params == [] ==> r == path
    decreases |params|
  {
    if params == [] then path
    else StepAsWritten(SubstituteAsWritten(path, params[..|params| - 1]), params[|params| - 1])
  }

  /** A replacement without `$` is inserted as it is. */
  lemma {:induction false} ExpandWithoutDollar(rep: string, matched: string, before: string, after: string)
    requires '$' !in rep
    ensures ExpandReplacement(rep, matched, before, after) == rep
    decreases |rep|
  {
    if rep != [] {
      assert rep[0] != '$';
      assert '$' !in rep[1..];
      ExpandWithoutDollar(rep[1..], matched, before, after);
      assert [rep[0]] + rep[1..] == rep;
    }
  }

  /** The text of an integer never contains `$`. */
  lemma IntTextHasNoDollar(i: int)
    ensures '$' !in IntToString(i)
  {
  }

  /** One parameter without `$` is substituted the same way as written and as intended. */
  lemma StepAgrees(url: string, p: Param)
    requires '$' !in ValueString(p.value)
    ensures StepAsWritten(url, p) == Step(url, p)
  {
    var pat := Placeholder(p.key);
    var found := IndexOf(url, pat);
    if found.Some? {
      var i := found.value;
      ExpandWithoutDollar(ValueString(p.value), pat, url[..i], url[i + |pat|..]);
    }
  }

  /** As written and as intended agree whenever no parameter value contains
      `$`, which covers every integer parameter. */
  lemma {:induction false} AsWrittenAgrees(path: string, params: seq<Param>)
    requires forall k :: 0 <= k < |params| ==> '$' !in ValueString(params[k].value)
    ensures SubstituteAsWritten(path, params) == Substitute(path, params)
    decreases |params|
  {
    if params != [] {
      var front := params[..|params| - 1];
      var p := params[|params| - 1];
      assert forall k :: 0 <= k < |front| ==> front[k] == params[k];
      AsWrittenAgrees(path, front);
      assert SubstituteAsWritten(path, params) == StepAsWritten(SubstituteAsWritten(path, front), p);
      assert Substitute(path, params) == Step(Substitute(path, front), p);
      StepAgrees(Substitute(path, front), p);
    }
  }

  /** The discrepancy: a string value `$&` puts the placeholder itself back,
      so the path comes out unchanged instead of ending in `$&`. */
  lemma DollarAmpersandKeepsPlaceholder()
    ensures SubstituteAsWritten(HistoryItemPath, [Param("id", PStr("$&"))]) == HistoryItemPath
    ensures Substitute(HistoryItemPath, [Param("id", PStr("$&"))]) == "/api/history/$&"
  {
    var pat := Placeholder("id");
    var p := Param("id", PStr("$&"));
    HistoryPlaceholderAt();
    assert [p][..0] == [];
    assert SubstituteAsWritten(HistoryItemPath, [p]) == StepAsWritten(HistoryItemPath, p);
    assert Substitute(HistoryItemPath, [p]) == Step(HistoryItemPath, p);
    assert HistoryItemPath[..13] == "/api/history/" && HistoryItemPath[16..] == [];
    assert ExpandReplacement("$&", pat, "/api/history/", []) == pat + ExpandReplacement([], pat, "/api/history/", []);
  }

  /** The placeholder of the history item path is found right after its prefix. */
  lemma HistoryPlaceholderAt()
    ensures IndexOf(HistoryItemPath, Placeholder("id")) == Some(13)
  {
    var pat := Placeholder("id");
    assert OccursAt(HistoryItemPath, pat, 13);
    ItemPathFirstOccurrence(HistoryItemPath, "/api/history/", 13);
    var k := IndexOf(HistoryItemPath, pat).value;
    assert !(k < 13) && !(13 < k);
  }
}
