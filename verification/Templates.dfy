// Template rendering (internal/content/content.go): `{{ name }}` with optional white
// space, replaced by the parameter of that name.

module Templates {
  import opened Wrappers

  type Params = map<string, string>

  predicate IsSpace(c: char) {
    c == ' ' || c == '\t' || c == '\n' || c == '\r' || c == '\U{000C}'
  }

  predicate IsNameStart(c: char) {
    'a' <= c <= 'z' || 'A' <= c <= 'Z' || c == '_'
  }

  predicate IsNameChar(c: char) {
    IsNameStart(c) || '0' <= c <= '9'
  }

  function SkipSpace(s: string, i: nat): (j: nat)
    requires i <= |s|
    ensures i <= j <= |s|
    decreases |s| - i
  {
    if i < |s| && IsSpace(s[i]) then SkipSpace(s, i + 1) else i
  }

  function SkipName(s: string, i: nat): (j: nat)
    requires i <= |s|
    ensures i <= j <= |s|
    decreases |s| - i
  {
    if i < |s| && IsNameChar(s[i]) then SkipName(s, i + 1) else i
  }

  datatype Placeholder = Placeholder(name: string, end: nat)

  // The placeholder that starts at i, if one does. Spaces, name characters and braces
  // are disjoint, so the regular expression can match there in one way only.
  function MatchAt(s: string, i: nat): (m: Option<Placeholder>)
    requires i <= |s|
    ensures m.Some? ==> i < m.value.end <= |s|
  {
    if i + 1 < |s| && s[i] == '{' && s[i + 1] == '{' then
      var from := SkipSpace(s, i + 2);
      if from < |s| && IsNameStart(s[from]) then
        var to := SkipName(s, from + 1);
        var close := SkipSpace(s, to);
        if close + 1 < |s| && s[close] == '}' && s[close + 1] == '}'
        then Some(Placeholder(s[from..to], close + 2)) else None
      else None
    else None
  }

  // The names of the placeholders from i on, in order.
  function NamesFrom(s: string, i: nat): seq<string>
    requires i <= |s|
    decreases |s| - i
  {
    if i == |s| then []
    else
      match MatchAt(s, i)
      case Some(p) => [p.name] + NamesFrom(s, p.end)
      case None => NamesFrom(s, i + 1)
  }

  function Names(s: string): set<string> {
    set name | name in NamesFrom(s, 0)
  }

  // The text from i on with every bound placeholder replaced, and the unbound names.
  function RenderFrom(s: string, params: Params, i: nat): (string, seq<string>)
    requires i <= |s|
    decreases |s| - i
  {
    if i == |s| then ("", [])
    else
      match MatchAt(s, i)
      case Some(p) =>
        var (text, unknown) := RenderFrom(s, params, p.end);
        if p.name in params then (params[p.name] + text, unknown) else (s[i..p.end] + text, [p.name] + unknown)
      case None =>
        var (text, unknown) := RenderFrom(s, params, i + 1);
        ([s[i]] + text, unknown)
  }

  function Rendered(s: string, params: Params): Result<string, seq<string>> {
    var (text, unknown) := RenderFrom(s, params, 0);
    if unknown == [] then Ok(text) else Err(unknown)
  }

  // What is done so far and what the rest will add.
  ghost predicate Splits(s: string, params: Params, i: nat, out: string, errs: seq<string>)
    requires i <= |s|
  {
    var (text, unknown) := RenderFrom(s, params, i);
    RenderFrom(s, params, 0) == (out + text, errs + unknown)
  }

  lemma SplitsAdvance(s: string, params: Params, i: nat, out: string, errs: seq<string>)
    requires i < |s| && Splits(s, params, i, out, errs)
    ensures match MatchAt(s, i)
            case Some(p) =>
              if p.name in params then Splits(s, params, p.end, out + params[p.name], errs)
              else Splits(s, params, p.end, out + s[i..p.end], errs + [p.name])
            case None => Splits(s, params, i + 1, out + [s[i]], errs)
  {
    match MatchAt(s, i)
    case Some(p) =>
      var (text, unknown) := RenderFrom(s, params, p.end);
      if p.name in params {
        assert out + (params[p.name] + text) == (out + params[p.name]) + text;
      } else {
        assert out + (s[i..p.end] + text) == (out + s[i..p.end]) + text;
        assert errs + ([p.name] + unknown) == (errs + [p.name]) + unknown;
      }
    case None =>
      var text := RenderFrom(s, params, i + 1).0;
      assert out + ([s[i]] + text) == (out + [s[i]]) + text;
  }

  // ReplaceAllStringFunc with its callback, from left to right.
  method Render(s: string, params: Params) returns (r: Result<string, seq<string>>)
    ensures r == Rendered(s, params)
  {
    var out, errs, i := "", [], 0;
    assert Splits(s, params, 0, out, errs) by {
      assert out + RenderFrom(s, params, 0).0 == RenderFrom(s, params, 0).0;
      assert errs + RenderFrom(s, params, 0).1 == RenderFrom(s, params, 0).1;
    }
    while i < |s|
      invariant 0 <= i <= |s| && Splits(s, params, i, out, errs)
    {
      SplitsAdvance(s, params, i, out, errs);
      match MatchAt(s, i) {
        case Some(p) =>
          if p.name in params {
            out := out + params[p.name];
          } else {
            out, errs := out + s[i..p.end], errs + [p.name];
          }
          i := p.end;
        case None =>
          out, i := out + [s[i]], i + 1;
      }
    }
    assert out + "" == out && errs + [] == errs;
    return if |errs| > 0 then Err(errs) else Ok(out);
  }

  lemma {:induction false} UnknownNames(s: string, params: Params, i: nat)
    requires i <= |s|
    ensures forall name :: name in RenderFrom(s, params, i).1 <==> name in NamesFrom(s, i) && name !in params
    decreases |s| - i
  {
    if i < |s| {
      match MatchAt(s, i)
      case Some(p) => UnknownNames(s, params, p.end);
      case None => UnknownNames(s, params, i + 1);
    }
  }

  // Rendering succeeds exactly when every placeholder's name is bound, and the error
  // names exactly those that are not.
  lemma RenderSucceeds(s: string, params: Params)
    ensures Rendered(s, params).Ok? <==> Names(s) <= params.Keys
    ensures Rendered(s, params).Err? ==> forall name :: name in Rendered(s, params).error <==> name in Names(s) - params.Keys
  {
    UnknownNames(s, params, 0);
    var unknown := RenderFrom(s, params, 0).1;
    if unknown != [] {
      assert unknown[0] in unknown;
    }
  }

  lemma {:induction false} SameFrom(s: string, params: Params, params': Params, i: nat)
    requires i <= |s|
    requires forall name | name in NamesFrom(s, i) :: name in params && name in params' && params[name] == params'[name]
    ensures RenderFrom(s, params, i) == RenderFrom(s, params', i)
    decreases |s| - i
  {
    if i < |s| {
      match MatchAt(s, i)
      case Some(p) =>
        assert p.name in NamesFrom(s, i);
        SameFrom(s, params, params', p.end);
      case None => SameFrom(s, params, params', i + 1);
    }
  }

  // The text depends on nothing but the parameters named.
  lemma RenderReadsNames(s: string, params: Params, params': Params)
    requires Names(s) <= params.Keys && Names(s) <= params'.Keys
    requires forall name | name in Names(s) :: params[name] == params'[name]
    ensures Rendered(s, params) == Rendered(s, params')
  {
    SameFrom(s, params, params', 0);
  }
}
