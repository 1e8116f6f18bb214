// What rendering does to a text, said of the placeholders in it and not of the search
// that finds them (internal/content/content.go).

module Placeholders {
  import opened Wrappers
  import opened Templates

  // The character classes by code point: A-Z, a-z and the underscore; 0-9; and the five
  // characters of \s.
  predicate IsLetter(c: char) {
    0x41 <= c as int <= 0x5A || 0x61 <= c as int <= 0x7A || c as int == 0x5F
  }

  predicate IsDigit(c: char) {
    0x30 <= c as int <= 0x39
  }

  predicate IsWhite(c: char) {
    c as int == 0x20 || c as int == 9 || c as int == 10 || c as int == 12 || c as int == 13
  }

  // [A-Za-z_][A-Za-z0-9_]*
  predicate IsName(name: string) {
    name != "" && IsLetter(name[0]) && forall i | 0 <= i < |name| :: IsLetter(name[i]) || IsDigit(name[i])
  }

  predicate IsBlank(w: string) {
    forall i | 0 <= i < |w| :: IsWhite(w[i])
  }

  function Written(before: string, name: string, after: string): string {
    "{{" + before + name + after + "}}"
  }

  ghost predicate IsPlaceholder(s: string) {
    exists before, name, after :: IsWritten(s, before, name, after)
  }

  ghost predicate IsWritten(s: string, before: string, name: string, after: string) {
    IsBlank(before) && IsName(name) && IsBlank(after) && s == Written(before, name, after)
  }

  ghost predicate HasPlaceholder(s: string) {
    exists i, j :: PlaceholderAt(s, i, j)
  }

  ghost predicate PlaceholderAt(s: string, i: int, j: int) {
    0 <= i <= j <= |s| && IsPlaceholder(s[i..j])
  }

  // ----- the search finds them

  lemma {:induction false} SpaceEnds(s: string, i: nat)
    requires i <= |s|
    ensures forall k | i <= k < SkipSpace(s, i) :: IsWhite(s[k])
    decreases |s| - i
  {
    if i < |s| && IsSpace(s[i]) { SpaceEnds(s, i + 1); }
  }

  lemma {:induction false} NameEnds(s: string, i: nat)
    requires i <= |s|
    ensures forall k | i <= k < SkipName(s, i) :: IsLetter(s[k]) || IsDigit(s[k])
    decreases |s| - i
  {
    if i < |s| && IsNameChar(s[i]) { NameEnds(s, i + 1); }
  }

  lemma {:induction false} SpaceIs(s: string, i: nat, j: nat)
    requires i <= j < |s| && !IsWhite(s[j]) && forall k | i <= k < j :: IsWhite(s[k])
    ensures SkipSpace(s, i) == j
    decreases j - i
  {
    if i < j { SpaceIs(s, i + 1, j); }
  }

  lemma {:induction false} NameIs(s: string, i: nat, j: nat)
    requires i <= j < |s| && !IsLetter(s[j]) && !IsDigit(s[j]) && forall k | i <= k < j :: IsLetter(s[k]) || IsDigit(s[k])
    ensures SkipName(s, i) == j
    decreases j - i
  {
    if i < j { NameIs(s, i + 1, j); }
  }

  // A placeholder at i: after its braces, blanks, a name, blanks.
  ghost predicate Laid(s: string, i: nat, from: nat, to: nat, close: nat) {
    && i + 2 <= from < to <= close && close + 1 < |s|
    && s[i] == '{' && s[i + 1] == '{' && s[close] == '}' && s[close + 1] == '}'
    && (forall k | i + 2 <= k < from :: IsWhite(s[k]))
    && IsLetter(s[from]) && (forall k | from <= k < to :: IsLetter(s[k]) || IsDigit(s[k]))
    && (forall k | to <= k < close :: IsWhite(s[k]))
  }

  lemma MatchIsLaid(s: string, i: nat) returns (from: nat, to: nat, close: nat)
    requires i <= |s| && MatchAt(s, i).Some?
    ensures Laid(s, i, from, to, close) && MatchAt(s, i) == Some(Placeholder(s[from..to], close + 2))
  {
    from := SkipSpace(s, i + 2);
    to := SkipName(s, from + 1);
    close := SkipSpace(s, to);
    SpaceEnds(s, i + 2);
    NameEnds(s, from + 1);
    SpaceEnds(s, to);
  }

  lemma LaidIsWritten(s: string, i: nat, from: nat, to: nat, close: nat)
    requires Laid(s, i, from, to, close)
    ensures IsWritten(s[i..close + 2], s[i + 2..from], s[from..to], s[to..close])
  {
    assert s[i..i + 2] == "{{" && s[close..close + 2] == "}}";
    Pieces(s, i, i + 2, from, to, close, close + 2);
  }

  lemma Pieces(s: string, a: nat, b: nat, c: nat, d: nat, e: nat, f: nat)
    requires a <= b <= c <= d <= e <= f <= |s|
    ensures s[a..f] == s[a..b] + s[b..c] + s[c..d] + s[d..e] + s[e..f]
  {
    Cut(s, a, b, c);
    Cut(s, a, c, d);
    Cut(s, a, d, e);
    Cut(s, a, e, f);
  }

  lemma Cut(s: string, a: nat, b: nat, c: nat)
    requires a <= b <= c <= |s|
    ensures s[a..c] == s[a..b] + s[b..c]
  {
  }

  lemma LaidMatches(s: string, i: nat, from: nat, to: nat, close: nat)
    requires Laid(s, i, from, to, close)
    ensures MatchAt(s, i) == Some(Placeholder(s[from..to], close + 2))
  {
    SpaceIs(s, i + 2, from);
    NameIs(s, from + 1, to);
    SpaceIs(s, to, close);
  }

  lemma WrittenIsLaid(s: string, pre: string, before: string, name: string, after: string, post: string)
    requires IsBlank(before) && IsName(name) && IsBlank(after) && s == pre + Written(before, name, after) + post
    ensures var from := |pre| + 2 + |before|; var to := from + |name|; var close := to + |after|;
            Laid(s, |pre|, from, to, close) && s[from..to] == name && s[close + 2..] == post
  {
    var from := |pre| + 2 + |before|;
    var to := from + |name|;
    var close := to + |after|;
    assert s == pre + "{{" + before + name + after + "}}" + post;
    assert forall k | 0 <= k < |before| :: s[|pre| + 2 + k] == before[k];
    assert forall k | |pre| + 2 <= k < from :: s[k] == before[k - |pre| - 2];
    assert forall k | from <= k < to :: s[k] == name[k - from];
    assert forall k | to <= k < close :: s[k] == after[k - to];
  }

  // The placeholder p stands at i.
  ghost predicate Stands(s: string, i: nat, p: Placeholder) {
    exists from, to, close :: StandsAt(s, i, from, to, close, p)
  }

  ghost predicate StandsAt(s: string, i: nat, from: nat, to: nat, close: nat, p: Placeholder) {
    Laid(s, i, from, to, close) && p == Placeholder(s[from..to], close + 2)
  }

  ghost predicate NoneAt(s: string, i: nat) {
    forall p :: !Stands(s, i, p)
  }

  lemma MatchStands(s: string, i: nat)
    requires i <= |s|
    ensures MatchAt(s, i).Some? ==> Stands(s, i, MatchAt(s, i).value)
  {
    if MatchAt(s, i).Some? {
      var from, to, close := MatchIsLaid(s, i);
      assert StandsAt(s, i, from, to, close, MatchAt(s, i).value);
    }
  }

  lemma StandsMatches(s: string, i: nat, p: Placeholder)
    requires Stands(s, i, p)
    ensures i <= |s| && MatchAt(s, i) == Some(p) && i < p.end <= |s|
  {
    var from, to, close :| StandsAt(s, i, from, to, close, p);
    LaidMatches(s, i, from, to, close);
  }

  lemma StandsIsPlaceholder(s: string, i: nat, p: Placeholder)
    requires Stands(s, i, p)
    ensures i < p.end <= |s| && PlaceholderAt(s, i, p.end)
    ensures forall k | i + 2 <= k < p.end :: s[k] != '{'
    ensures s[i] == '{' && s[i + 1] == '{'
  {
    var from, to, close :| StandsAt(s, i, from, to, close, p);
    LaidIsWritten(s, i, from, to, close);
    assert IsPlaceholder(s[i..p.end]);
  }

  // ----- rendering with whatever finds the placeholders

  // What stands at each index of a text.
  type Finder = nat -> Option<Placeholder>

  function Finding(s: string): Finder {
    (i: nat) => if i <= |s| then MatchAt(s, i) else None
  }

  function Replaced(find: Finder, s: string, params: Params, i: nat): (string, seq<string>)
    requires i <= |s|
    decreases |s| - i
  {
    if i == |s| then ("", [])
    else if find(i).Some? && i < find(i).value.end <= |s| then
      var p := find(i).value;
      var (text, unknown) := Replaced(find, s, params, p.end);
      if p.name in params then (params[p.name] + text, unknown) else (s[i..p.end] + text, [p.name] + unknown)
    else
      var (text, unknown) := Replaced(find, s, params, i + 1);
      ([s[i]] + text, unknown)
  }

  lemma {:induction false} RenderIsReplaced(s: string, params: Params, i: nat)
    requires i <= |s|
    ensures RenderFrom(s, params, i) == Replaced(Finding(s), s, params, i)
    decreases |s| - i
  {
    if i < |s| {
      match MatchAt(s, i)
      case None => RenderIsReplaced(s, params, i + 1);
      case Some(p) => RenderIsReplaced(s, params, p.end);
    }
  }

  lemma Found(s: string, i: nat, p: Placeholder)
    requires Stands(s, i, p)
    ensures i < p.end <= |s| && Finding(s)(i) == Some(p)
  {
    StandsMatches(s, i, p);
  }

  lemma NoneFound(s: string, i: nat)
    requires NoneAt(s, i)
    ensures Finding(s)(i).None?
  {
    if i <= |s| { MatchStands(s, i); }
  }

  // ----- texts without placeholders

  lemma NoneStands(s: string, i: nat, p: Placeholder)
    requires !HasPlaceholder(s)
    ensures !Stands(s, i, p)
  {
    if Stands(s, i, p) {
      StandsIsPlaceholder(s, i, p);
    }
  }

  lemma {:induction false} AllLeft(find: Finder, s: string, params: Params, i: nat)
    requires i <= |s| && forall k | 0 <= k < |s| :: find(k).None?
    ensures Replaced(find, s, params, i) == (s[i..], [])
    decreases |s| - i
  {
    if i < |s| {
      AllLeft(find, s, params, i + 1);
      assert s[i..] == [s[i]] + s[i + 1..];
    } else {
      assert s[i..] == "";
    }
  }

  // A text without placeholders comes out as it is.
  lemma PlainIsLeft(s: string, params: Params)
    requires !HasPlaceholder(s)
    ensures Rendered(s, params) == Ok(s)
  {
    forall k | 0 <= k < |s| ensures Finding(s)(k).None? {
      forall p ensures !Stands(s, k, p) { NoneStands(s, k, p); }
      NoneFound(s, k);
    }
    AllLeft(Finding(s), s, params, 0);
    RenderIsReplaced(s, params, 0);
    assert s[0..] == s;
  }

  // ----- the first placeholder of a text

  function Later(p: Placeholder, n: nat): Placeholder {
    Placeholder(p.name, n + p.end)
  }

  // t from n on is s.
  ghost predicate Ends(t: string, n: nat, s: string) {
    n + |s| == |t| && forall k | n <= k < |t| :: t[k] == s[k - n]
  }

  lemma LaidShifts(t: string, n: nat, s: string, i: nat, from: nat, to: nat, close: nat)
    requires Ends(t, n, s) && Laid(s, i, from, to, close)
    ensures Laid(t, n + i, n + from, n + to, n + close) && t[n + from..n + to] == s[from..to]
  {
  }

  lemma LaidShiftsBack(t: string, n: nat, s: string, i: nat, from: nat, to: nat, close: nat)
    requires Ends(t, n, s) && Laid(t, n + i, from, to, close)
    ensures Laid(s, i, from - n, to - n, close - n)
  {
    forall k | i <= k < |s| ensures t[k + n] == s[k] {
    }
  }

  lemma StandsShifts(t: string, n: nat, s: string, i: nat, p: Placeholder)
    requires Ends(t, n, s) && Stands(s, i, p)
    ensures Stands(t, n + i, Later(p, n))
  {
    var from: nat, to: nat, close: nat :| StandsAt(s, i, from, to, close, p);
    LaidShifts(t, n, s, i, from, to, close);
    assert StandsAt(t, n + i, n + from, n + to, n + close, Later(p, n));
  }

  lemma NoneShifts(t: string, n: nat, s: string, i: nat, at: nat)
    requires Ends(t, n, s) && NoneAt(s, i) && at == n + i
    ensures NoneAt(t, at)
  {
    forall p ensures !Stands(t, at, p) {
      if Stands(t, at, p) {
        var from: nat, to: nat, close: nat :| StandsAt(t, at, from, to, close, p);
        LaidShiftsBack(t, n, s, i, from, to, close);
        LaidStands(s, i, from - n, to - n, close - n);
      }
    }
  }

  lemma LaidStands(s: string, i: nat, from: nat, to: nat, close: nat)
    requires Laid(s, i, from, to, close)
    ensures Stands(s, i, Placeholder(s[from..to], close + 2))
  {
    assert StandsAt(s, i, from, to, close, Placeholder(s[from..to], close + 2));
  }

  ghost predicate FindsAlike(findT: Finder, n: nat, find: Finder, i: nat) {
    findT(n + i) == match find(i) case None => None case Some(p) => Some(Later(p, n))
  }

  lemma FindingShifts(t: string, n: nat, s: string, i: nat)
    requires Ends(t, n, s)
    ensures FindsAlike(Finding(t), n, Finding(s), i)
  {
    if NoneAt(s, i) {
      NoneShifts(t, n, s, i, n + i);
      NoneFound(s, i);
      NoneFound(t, n + i);
    } else {
      var p :| Stands(s, i, p);
      StandsShifts(t, n, s, i, p);
      Found(s, i, p);
      Found(t, n + i, Later(p, n));
    }
  }

  lemma {:induction false} ReplacedShifts(findT: Finder, t: string, n: nat, find: Finder, s: string, params: Params, i: nat)
    requires i <= |s| && Ends(t, n, s) && forall k :: FindsAlike(findT, n, find, k)
    ensures Replaced(findT, t, params, n + i) == Replaced(find, s, params, i)
    decreases |s| - i
  {
    if i < |s| {
      assert FindsAlike(findT, n, find, i);
      if find(i).Some? && i < find(i).value.end <= |s| {
        var end := find(i).value.end;
        ReplacedShifts(findT, t, n, find, s, params, end);
        assert t[n + i..n + end] == s[i..end];
      } else {
        ReplacedShifts(findT, t, n, find, s, params, i + 1);
      }
    }
  }

  // The rest of a text renders as it does by itself.
  lemma RestReplaced(t: string, n: nat, s: string, params: Params)
    requires Ends(t, n, s)
    ensures Replaced(Finding(t), t, params, n) == Replaced(Finding(s), s, params, 0)
  {
    forall k ensures FindsAlike(Finding(t), n, Finding(s), k) {
      FindingShifts(t, n, s, k);
    }
    ReplacedShifts(Finding(t), t, n, Finding(s), s, params, 0);
  }

  // Nothing starts before the first braces: inside a placeholder there are no others.
  lemma NoneStandsBefore(s: string, pre: string, rest: string, i: nat, p: Placeholder)
    requires s == pre + rest && |rest| >= 2 && rest[0] == '{' && rest[1] == '{' && !HasPlaceholder(pre) && i < |pre|
    ensures !Stands(s, i, p)
  {
    assert s[|pre|] == '{' && s[|pre| + 1] == '{';
    if Stands(s, i, p) {
      StandsIsPlaceholder(s, i, p);
      if p.end <= |pre| { StandsInside(s, pre, rest, i, p); }
    }
  }

  lemma StandsInside(s: string, pre: string, rest: string, i: nat, p: Placeholder)
    requires s == pre + rest && Stands(s, i, p) && i < p.end <= |pre|
    ensures HasPlaceholder(pre)
  {
    StandsIsPlaceholder(s, i, p);
    assert pre[i..p.end] == s[i..p.end];
    assert PlaceholderAt(pre, i, p.end);
  }

  lemma {:induction false} LeftUpTo(find: Finder, s: string, n: nat, params: Params, i: nat)
    requires i <= n <= |s| && forall k | 0 <= k < n :: find(k).None?
    ensures var (text, unknown) := Replaced(find, s, params, n); Replaced(find, s, params, i) == (s[i..n] + text, unknown)
    decreases n - i
  {
    if i < n {
      LeftUpTo(find, s, n, params, i + 1);
      var text := Replaced(find, s, params, n).0;
      assert s[i..n] + text == [s[i]] + (s[i + 1..n] + text);
    } else {
      var text := Replaced(find, s, params, n).0;
      assert s[i..n] + text == text;
    }
  }

  lemma NoneFoundBefore(s: string, pre: string, rest: string)
    requires s == pre + rest && |rest| >= 2 && rest[0] == '{' && rest[1] == '{' && !HasPlaceholder(pre)
    ensures forall k | 0 <= k < |pre| :: Finding(s)(k).None?
  {
    forall k | 0 <= k < |pre| ensures Finding(s)(k).None? {
      forall p ensures !Stands(s, k, p) { NoneStandsBefore(s, pre, rest, k, p); }
      NoneFound(s, k);
    }
  }

  lemma FirstStands(s: string, pre: string, before: string, name: string, after: string, post: string)
    requires IsBlank(before) && IsName(name) && IsBlank(after) && s == pre + Written(before, name, after) + post
    ensures Finding(s)(|pre|) == Some(Placeholder(name, |pre| + |Written(before, name, after)|))
  {
    WrittenIsLaid(s, pre, before, name, after, post);
    var from := |pre| + 2 + |before|;
    LaidStands(s, |pre|, from, from + |name|, from + |name| + |after|);
    Found(s, |pre|, Placeholder(name, |pre| + |Written(before, name, after)|));
  }

  lemma FirstReplaced(find: Finder, s: string, n: nat, end: nat, name: string, params: Params)
    requires n < end <= |s| && find(n) == Some(Placeholder(name, end)) && forall k | 0 <= k < n :: find(k).None?
    ensures var (text, unknown) := Replaced(find, s, params, end);
            Replaced(find, s, params, 0)
            == if name in params then (s[..n] + (params[name] + text), unknown) else (s[..n] + (s[n..end] + text), [name] + unknown)
  {
    LeftUpTo(find, s, n, params, 0);
    assert s[0..n] == s[..n];
  }

  lemma RenderedIs(s: string, params: Params)
    ensures var (text, unknown) := Replaced(Finding(s), s, params, 0);
            Rendered(s, params) == if unknown == [] then Ok(text) else Err(unknown)
  {
    RenderIsReplaced(s, params, 0);
  }

  lemma Parts(s: string, pre: string, whole: string, post: string)
    requires s == pre + whole + post
    ensures s == pre + (whole + post) && s[..|pre|] == pre && Ends(s, |pre| + |whole|, post)
  {
  }

  lemma FirstIsFound(s: string, pre: string, before: string, name: string, after: string, post: string) returns (end: nat)
    requires !HasPlaceholder(pre) && IsBlank(before) && IsName(name) && IsBlank(after)
    requires s == pre + Written(before, name, after) + post
    ensures |pre| < end <= |s| && s[..|pre|] == pre && Ends(s, end, post)
    ensures Finding(s)(|pre|) == Some(Placeholder(name, end))
    ensures forall k | 0 <= k < |pre| :: Finding(s)(k).None?
  {
    var whole := Written(before, name, after);
    end := |pre| + |whole|;
    Parts(s, pre, whole, post);
    NoneFoundBefore(s, pre, whole + post);
    FirstStands(s, pre, before, name, after, post);
  }

  lemma ReplacedWhole(s: string, pre: string, before: string, name: string, after: string, post: string, params: Params)
    requires !HasPlaceholder(pre) && IsBlank(before) && IsName(name) && IsBlank(after)
    requires s == pre + Written(before, name, after) + post
    ensures var (text, unknown) := Replaced(Finding(post), post, params, 0);
            var r := Replaced(Finding(s), s, params, 0);
            if name in params then r == (pre + params[name] + text, unknown) else r.1 == [name] + unknown
  {
    var end := FirstIsFound(s, pre, before, name, after, post);
    RestReplaced(s, end, post, params);
    ReplacedFirst(Finding(s), Finding(post), s, pre, end, name, post, params);
  }

  lemma ReplacedFirst(find: Finder, findPost: Finder, s: string, pre: string, end: nat, name: string, post: string, params: Params)
    requires |pre| < end <= |s| && s[..|pre|] == pre && find(|pre|) == Some(Placeholder(name, end))
    requires forall k | 0 <= k < |pre| :: find(k).None?
    requires Replaced(find, s, params, end) == Replaced(findPost, post, params, 0)
    ensures var (text, unknown) := Replaced(findPost, post, params, 0);
            var r := Replaced(find, s, params, 0);
            if name in params then r == (pre + params[name] + text, unknown) else r.1 == [name] + unknown
  {
    FirstReplaced(find, s, |pre|, end, name, params);
    var text := Replaced(findPost, post, params, 0).0;
    if name in params { assert pre + (params[name] + text) == pre + params[name] + text; }
  }

  // The names reported for a rest that did not render.
  function Unknown(r: Result<string, seq<string>>): seq<string> {
    if r.Err? then r.error else []
  }

  // Up to its first placeholder a text is left as it is; there stands the value, and then
  // what the rest renders to; or, if the name is not bound, it is the first one reported.
  lemma FirstIsReplaced(pre: string, before: string, name: string, after: string, post: string, params: Params)
    requires !HasPlaceholder(pre) && IsBlank(before) && IsName(name) && IsBlank(after)
    ensures var rest := Rendered(post, params);
            Rendered(pre + Written(before, name, after) + post, params)
            == if name !in params then Err([name] + Unknown(rest))
               else if rest.Err? then rest
               else Ok(pre + params[name] + rest.value)
  {
    var s := pre + Written(before, name, after) + post;
    ReplacedWhole(s, pre, before, name, after, post, params);
    RenderedIs(s, params);
    RenderedIs(post, params);
  }

  // A text is of one of the two kinds, so the two laws say what every text renders to.
  lemma {:induction false} PlainOrFirst(s: string, n: nat) returns (pre: string, before: string, name: string, after: string, post: string)
    requires n <= |s| && HasPlaceholder(s) && forall i, j | PlaceholderAt(s, i, j) :: j <= n
    ensures !HasPlaceholder(pre) && IsBlank(before) && IsName(name) && IsBlank(after)
    ensures s == pre + Written(before, name, after) + post
    decreases n
  {
    var i, j :| PlaceholderAt(s, i, j);
    pre := s[..i];
    if HasPlaceholder(pre) {
      forall a, b | PlaceholderAt(pre, a, b) ensures PlaceholderAt(s, a, b) {
        assert pre[a..b] == s[a..b];
      }
      var p', b', n', a', post' := PlainOrFirst(pre, i);
      pre, before, name, after, post := p', b', n', a', post' + s[i..];
      assert s == s[..i] + s[i..];
      assert p' + Written(b', n', a') + post' + s[i..] == p' + Written(b', n', a') + (post' + s[i..]);
    } else {
      before, name, after :| IsWritten(s[i..j], before, name, after);
      post := s[j..];
      assert s == s[..i] + s[i..j] + s[j..];
    }
  }
}
