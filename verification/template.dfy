/** `replaceTemplate`: every placeholder `{{ key }}` of a reply template, written with
    optional white space inside the braces and an optional `$` before the name, is
    replaced by the value given for that name, one name after another in the order of the
    variables. */
module Template {
  import opened Wrappers
  import opened Text

  predicate IsKeyChar(c: char) {
    'a' <= c <= 'z' || 'A' <= c <= 'Z' || '0' <= c <= '9' || c == '_'
  }

  /** A variable name the engine uses: a non-empty identifier, which needs no escaping
      inside a regular expression. */
  predicate IsKey(k: string) {
    |k| > 0 && forall i :: 0 <= i < |k| ==> IsKeyChar(k[i])
  }

  /** What lies between the braces: white space, an optional `$`, the name, white space. */
  predicate InnerMatches(u: string, key: string) {
    var t := TrimStart(u);
    var body := if t != [] && t[0] == '$' then t[1..] else t;
    StartsWith(body, key) && AllWhitespace(body[|key|..])
  }

  /** `p` is, as a whole, a match of the pattern `\{\{\s*\$?key\s*\}\}`. */
  predicate IsPlaceholder(p: string, key: string) {
    |p| >= 4 && p[..2] == "{{" && p[|p| - 2..] == "}}" && InnerMatches(p[2..|p| - 2], key)
  }

  /** The shortest prefix of `s`, of length at least `m`, that is a placeholder for `key`. */
  function MatchFrom(s: string, key: string, m: nat): (r: Option<nat>)
    ensures r.Some? ==> m <= r.value <= |s| && IsPlaceholder(s[..r.value], key)
    ensures r.Some? ==> forall j :: m <= j < r.value ==> !IsPlaceholder(s[..j], key)
    ensures r.None? ==> forall j :: m <= j <= |s| ==> !IsPlaceholder(s[..j], key)
    decreases |s| + 1 - m
  {
    if m > |s| then None
    else if IsPlaceholder(s[..m], key) then Some(m)
    else MatchFrom(s, key, m + 1)
  }

  /** The length of the placeholder for `key` that starts `s`, if one does; for a name
      this is the only one (see `PlaceholderUnique`), so it is the regular expression's match. */
  function MatchAt(s: string, key: string): Option<nat> {
    MatchFrom(s, key, 0)
  }

  /** `s.replace(pattern, value)` with the global flag: scanning from the left, each
      placeholder for `key` is replaced by `value` and scanning resumes after it. What it
      does to a text is stated by `PlaceholderReplaced`, `OtherPlaceholderKept`,
      `LiteralKept` and `ReplaceAllClear` below. */
  function ReplaceAll(s: string, key: string, value: string): string
    decreases |s|
  {
    if s == [] then []
    else
      match MatchAt(s, key)
      case Some(n) => value + ReplaceAll(s[n..], key, value)
      case None => [s[0]] + ReplaceAll(s[1..], key, value)
  }

  /** The template after the substitutions for `vars[0]`, ..., `vars[|vars| - 1]`, in that
      order (the order `Object.entries` lists the keys of the variables' object). A template
      without `{` holds no placeholder and comes back unchanged. */
  function Render(template: string, vars: seq<(string, string)>): (r: string)
    ensures '{' !in template ==> r == template
    decreases |vars|
  {
    if vars == [] then template
    else
      var last := vars[|vars| - 1];
      var inner := Render(template, vars[..|vars| - 1]);
      assert '{' !in template ==> ReplaceAll(inner, last.0, last.1) == template by {
        if '{' !in template {
          LiteralKept(template, [], last.0, last.1);
          assert template + [] == template;
          assert ReplaceAll([], last.0, last.1) == [];
        }
      }
      ReplaceAll(inner, last.0, last.1)
  }

  /** `replaceTemplate`: the loop over the entries, replacing into `result`. */
  method ReplaceTemplate(template: string, vars: seq<(string, string)>) returns (result: string)
    ensures result == Render(template, vars)
  {
    result := template;
    var i := 0;
    while i < |vars|
      invariant 0 <= i <= |vars|
      invariant result == Render(template, vars[..i])
    {
      var (key, value) := vars[i];
      assert vars[..i + 1][..i] == vars[..i];
      result := ReplaceAll(result, key, value);
      i := i + 1;
    }
    assert vars[..|vars|] == vars;
  }

  // ---- the shape of a placeholder ----

  /** A character that may stand between the braces of a placeholder for `key`. */
  predicate InnerChar(c: char, key: string) {
    IsWhitespace(c) || c == '$' || c in key
  }

  /** A name followed by white space consists of placeholder characters. */
  lemma BodyChars(body: string, key: string)
    requires StartsWith(body, key) && AllWhitespace(body[|key|..])
    ensures forall i :: 0 <= i < |body| ==> InnerChar(body[i], key)
  {
    forall i | 0 <= i < |body| ensures InnerChar(body[i], key) {
      if i < |key| {
        assert body[..|key|][i] == body[i];
        assert key[i] == body[i];
      } else {
        assert body[|key|..][i - |key|] == body[i];
      }
    }
  }

  /** What stands between the braces of a placeholder consists of placeholder characters,
      and there is at least one. */
  lemma InnerChars(u: string, key: string)
    requires InnerMatches(u, key)
    ensures |u| >= |key|
    ensures forall i :: 0 <= i < |u| ==> InnerChar(u[i], key)
  {
    var t := TrimStart(u);
    var c := |u| - |t|;
    var body := if t != [] && t[0] == '$' then t[1..] else t;
    BodyChars(body, key);
    assert forall i :: 0 <= i < |t| ==> InnerChar(t[i], key) by {
      forall i | 0 <= i < |t| ensures InnerChar(t[i], key) {
        if t[0] == '$' && i > 0 {
          assert t[i] == body[i - 1];
        }
      }
    }
    forall i | 0 <= i < |u| ensures InnerChar(u[i], key) {
      if i < c {
        assert u[..c][i] == u[i];
      } else {
        assert t[i - c] == u[i];
      }
    }
  }

  /** Between the braces of a placeholder for a name there is at least one character and
      only white space, `$` and characters of the name, so no brace. */
  lemma PlaceholderInner(p: string, key: string)
    requires IsKey(key) && IsPlaceholder(p, key)
    ensures |p| >= 5 && p[0] == '{' && p[1] == '{' && p[|p| - 2] == '}' && p[|p| - 1] == '}'
    ensures forall i :: 2 <= i < |p| - 2 ==> InnerChar(p[i], key) && p[i] != '{' && p[i] != '}'
  {
    assert p[..2][0] == p[0] && p[..2][1] == p[1];
    assert p[|p| - 2..][0] == p[|p| - 2] && p[|p| - 2..][1] == p[|p| - 1];
    var u := p[2..|p| - 2];
    InnerChars(u, key);
    KeyNoBraces(key);
    forall i | 2 <= i < |p| - 2
      ensures InnerChar(p[i], key) && p[i] != '{' && p[i] != '}'
    {
      assert u[i - 2] == p[i];
    }
  }

  /** A placeholder starts with `{{`. */
  lemma PlaceholderStartsWithBrace(p: string, key: string)
    requires IsPlaceholder(p, key)
    ensures p[0] == '{' && p[1] == '{'
  {
    assert p[..2][0] == p[0] && p[..2][1] == p[1];
  }

  /** A placeholder for a name ends with `}}` after at least one inner character, and
      no brace stands between its braces. */
  lemma NoBraceInPlaceholder(p: string, key: string, i: nat)
    requires IsKey(key) && IsPlaceholder(p, key) && 2 <= i < |p| - 2
    ensures |p| >= 5 && p[|p| - 2] == '}' && p[i] != '}'
  {
    PlaceholderInner(p, key);
  }

  /** Placeholders for names never overlap at one start: two placeholders that begin `s`
      are the same text. */
  lemma PlaceholderUnique(s: string, m1: nat, m2: nat, k1: string, k2: string)
    requires IsKey(k1) && IsKey(k2) && m1 <= m2 <= |s|
    requires IsPlaceholder(s[..m1], k1) && IsPlaceholder(s[..m2], k2)
    ensures m1 == m2
  {
    if m1 < m2 {
      var p1, p2 := s[..m1], s[..m2];
      // the closing braces of the shorter one would lie inside the longer one
      NoBraceInPlaceholder(p1, k1, 2);
      NoBraceInPlaceholder(p2, k2, m1 - 2);
    }
  }

  /** The characters of `s` up to its first white space. */
  function LeadingWord(s: string): string {
    if s == [] || IsWhitespace(s[0]) then [] else [s[0]] + LeadingWord(s[1..])
  }

  /** A name followed only by white space is the leading word of the text. */
  lemma {:induction false} NameIsLeadingWord(body: string, k: string)
    requires forall i :: 0 <= i < |k| ==> IsKeyChar(k[i])
    requires StartsWith(body, k) && AllWhitespace(body[|k|..])
    ensures LeadingWord(body) == k
  {
    if k == [] {
      if body != [] {
        assert body[|k|..][0] == body[0];
      }
    } else {
      assert body[..|k|][0] == body[0] == k[0];
      assert body[1..][..|k| - 1] == body[..|k|][1..];
      assert body[1..][|k| - 1..] == body[|k|..];
      NameIsLeadingWord(body[1..], k[1..]);
      assert [k[0]] + k[1..] == k;
    }
  }

  /** The text of a placeholder determines its name. */
  lemma KeyDetermined(p: string, k1: string, k2: string)
    requires IsKey(k1) && IsKey(k2) && IsPlaceholder(p, k1) && IsPlaceholder(p, k2)
    ensures k1 == k2
  {
    var t := TrimStart(p[2..|p| - 2]);
    var body := if t != [] && t[0] == '$' then t[1..] else t;
    NameIsLeadingWord(body, k1);
    NameIsLeadingWord(body, k2);
  }

  /** A text that starts with a placeholder for `key` is matched exactly there. */
  lemma MatchAtPlaceholder(p: string, post: string, key: string)
    requires IsKey(key) && IsPlaceholder(p, key)
    ensures MatchAt(p + post, key) == Some(|p|)
  {
    var s := p + post;
    assert s[..|p|] == p;
    var r := MatchAt(s, key);
    assert r.Some?;
    PlaceholderUnique(s, r.value, |p|, key, key);
  }

  /** A text that does not start with `{` has no placeholder at its start. */
  lemma NoMatchWithoutBrace(s: string, key: string)
    requires s != [] && s[0] != '{'
    ensures MatchAt(s, key) == None
  {
    var r := MatchAt(s, key);
    if r.Some? {
      PlaceholderStartsWithBrace(s[..r.value], key);
    }
  }

  /** Nor does a text whose second character is not `{`. */
  lemma NoMatchWithoutSecondBrace(s: string, key: string)
    requires |s| >= 2 && s[1] != '{'
    ensures MatchAt(s, key) == None
  {
    var r := MatchAt(s, key);
    if r.Some? {
      PlaceholderStartsWithBrace(s[..r.value], key);
    }
  }

  /** Nor is there a placeholder for one name where one for another name begins. */
  lemma NoMatchAtOther(p: string, post: string, key: string, other: string)
    requires IsKey(key) && IsKey(other) && key != other && IsPlaceholder(p, other)
    ensures MatchAt(p + post, key) == None
  {
    var s := p + post;
    var r := MatchAt(s, key);
    if r.Some? {
      assert s[..|p|] == p;
      if r.value <= |p| {
        PlaceholderUnique(s, r.value, |p|, key, other);
      } else {
        PlaceholderUnique(s, |p|, r.value, other, key);
      }
      KeyDetermined(p, key, other);
    }
  }

  // ---- what a replacement does ----

  /** A placeholder for `key` at the front is replaced by the value. */
  lemma PlaceholderReplaced(p: string, post: string, key: string, value: string)
    requires IsKey(key) && IsPlaceholder(p, key)
    ensures ReplaceAll(p + post, key, value) == value + ReplaceAll(post, key, value)
  {
    MatchAtPlaceholder(p, post, key);
    assert (p + post)[|p|..] == post;
  }

  lemma ConsSplit(a: string, w: string)
    requires a != []
    ensures [a[0]] + (a[1..] + w) == a + w
  {
  }

  /** Text without a `{` at the front is kept as it is. */
  lemma {:induction false} LiteralKept(a: string, post: string, key: string, value: string)
    requires '{' !in a
    ensures ReplaceAll(a + post, key, value) == a + ReplaceAll(post, key, value)
  {
    var s := a + post;
    if a != [] {
      NoMatchWithoutBrace(s, key);
      assert ReplaceAll(s, key, value) == [a[0]] + ReplaceAll(s[1..], key, value);
      assert s[1..] == a[1..] + post;
      LiteralKept(a[1..], post, key, value);
      ConsSplit(a, ReplaceAll(post, key, value));
    } else {
      assert s == post;
    }
  }

  lemma TailConcat(a: string, b: string)
    requires a != []
    ensures (a + b)[1..] == a[1..] + b
  {
  }

  lemma NoBraceInside(p: string)
    requires |p| >= 2 && forall i :: 2 <= i < |p| ==> p[i] != '{'
    ensures '{' !in p[2..]
  {
    forall i | 0 <= i < |p[2..]| ensures p[2..][i] != '{' {
      assert p[2..][i] == p[i + 2];
    }
  }

  /** A placeholder for a different name at the front is kept as it is. */
  lemma OtherPlaceholderKept(p: string, post: string, key: string, other: string, value: string)
    requires IsKey(key) && IsKey(other) && key != other && IsPlaceholder(p, other)
    ensures ReplaceAll(p + post, key, value) == p + ReplaceAll(post, key, value)
  {
    var s := p + post;
    PlaceholderInner(p, other);
    NoMatchAtOther(p, post, key, other);
    TailConcat(p, post);
    TailConcat(p[1..], post);
    assert p[1..][1..] == p[2..];
    assert s[1..][1] == p[2];
    NoMatchWithoutSecondBrace(s[1..], key);
    NoBraceInside(p);
    LiteralKept(p[2..], post, key, value);
    ConsSplit(p[1..], ReplaceAll(post, key, value));
    ConsSplit(p, ReplaceAll(post, key, value));
  }

  // ---- texts without placeholders ----

  /** No placeholder for `key` starts anywhere in `s`. */
  predicate Clear(s: string, key: string)
    decreases |s|
  {
    (forall m :: 0 <= m <= |s| ==> !IsPlaceholder(s[..m], key)) && (s != [] ==> Clear(s[1..], key))
  }

  /** Replacing in a text without placeholders changes nothing. */
  lemma {:induction false} ReplaceAllClear(s: string, key: string, value: string)
    requires Clear(s, key)
    ensures ReplaceAll(s, key, value) == s
    decreases |s|
  {
    if s != [] {
      ReplaceAllClear(s[1..], key, value);
      assert [s[0]] + s[1..] == s;
    }
  }

  lemma {:induction false} ClearSuffix(s: string, n: nat, key: string)
    requires Clear(s, key) && n <= |s|
    ensures Clear(s[n..], key)
  {
    if n > 0 {
      ClearSuffix(s[1..], n - 1, key);
      assert s[1..][n - 1..] == s[n..];
    }
  }

  /** Text without `{` in front of a text without placeholders adds none. */
  lemma {:induction false} ClearPrepend(a: string, b: string, key: string)
    requires '{' !in a && Clear(b, key)
    ensures Clear(a + b, key)
  {
    if a == [] {
      assert a + b == b;
    } else {
      var s := a + b;
      forall m | 0 <= m <= |s| ensures !IsPlaceholder(s[..m], key) {
        if IsPlaceholder(s[..m], key) {
          PlaceholderStartsWithBrace(s[..m], key);
        }
      }
      assert s[1..] == a[1..] + b;
      ClearPrepend(a[1..], b, key);
    }
  }

  // sequence facts used below, stated apart from the replacement so that they are cheap

  lemma HeadTail(x: string)
    requires x != []
    ensures [x[0]] + x[1..] == x
  {
  }

  lemma ShiftAll(r: string, r1: string, c: char, ok: char -> bool, m: nat)
    requires r == [c] + r1 && m <= |r|
    requires forall i :: 0 <= i < m ==> ok(r[i])
    ensures forall i :: 0 <= i < m - 1 ==> ok(r1[i])
  {
    forall i | 0 <= i < m - 1 ensures ok(r1[i]) {
      assert r1[i] == r[i + 1];
    }
  }

  lemma ConsPrefixes(c: char, a: string, b: string, m: nat)
    requires 1 <= m && m - 1 <= |a| && m - 1 <= |b| && a[..m - 1] == b[..m - 1]
    ensures ([c] + a)[..m] == ([c] + b)[..m]
  {
    assert ([c] + a)[..m] == [c] + a[..m - 1];
    assert ([c] + b)[..m] == [c] + b[..m - 1];
  }

  /** A replaced text that starts with `{` did not start with a placeholder: a value
      without `{` would stand there instead. */
  lemma KeptHead(y: string, key: string, value: string)
    requires value != [] && value[0] != '{'
    requires y != [] && ReplaceAll(y, key, value) != [] && ReplaceAll(y, key, value)[0] == '{'
    ensures MatchAt(y, key).None?
    ensures ReplaceAll(y, key, value) == [y[0]] + ReplaceAll(y[1..], key, value)
  {
    match MatchAt(y, key)
    case Some(n) =>
      assert false;
    case None =>
  }

  /** Where the replaced text consists of characters `ok` accepts, it is the original
      text, provided the value starts with a character `ok` refuses. */
  lemma {:induction false} PrefixAgree(x: string, key: string, value: string, ok: char -> bool, m: nat)
    requires value != [] && !ok(value[0])
    requires m <= |ReplaceAll(x, key, value)|
    requires forall i :: 0 <= i < m ==> ok(ReplaceAll(x, key, value)[i])
    ensures m <= |x| && x[..m] == ReplaceAll(x, key, value)[..m]
    decreases |x|
  {
    if m > 0 {
      var r := ReplaceAll(x, key, value);
      assert ok(r[0]);
      match MatchAt(x, key)
      case Some(n) =>
        assert false;
      case None =>
        var r1 := ReplaceAll(x[1..], key, value);
        ShiftAll(r, r1, x[0], ok, m);
        PrefixAgree(x[1..], key, value, ok, m - 1);
        ConsPrefixes(x[0], x[1..], r1, m);
        HeadTail(x);
    }
  }

  /** A value is safe for a name when it is non-empty, holds no `{`, and does not start
      with a character that can continue a placeholder for the name (white space, `$`,
      `}` or a character of the name). */
  predicate Safe(value: string, key: string) {
    |value| > 0 && '{' !in value &&
    !(IsWhitespace(value[0]) || value[0] == '$' || value[0] == '}' || value[0] in key)
  }

  /** Where a replaced text starts with `{` followed by characters `ok` accepts, it is the
      original text. */
  lemma BraceAgrees(y: string, kj: string, value: string, ok: char -> bool, m: nat)
    requires value != [] && value[0] != '{' && !ok(value[0]) && y != []
    requires 1 <= m <= |ReplaceAll(y, kj, value)| && ReplaceAll(y, kj, value)[0] == '{'
    requires forall i :: 1 <= i < m ==> ok(ReplaceAll(y, kj, value)[i])
    ensures m <= |y| && y[..m] == ReplaceAll(y, kj, value)[..m]
  {
    var r1 := ReplaceAll(y, kj, value);
    KeptHead(y, kj, value);
    var r2 := ReplaceAll(y[1..], kj, value);
    forall i | 0 <= i < m - 1 ensures ok(r2[i]) {
      assert r2[i] == r1[i + 1];
    }
    PrefixAgree(y[1..], kj, value, ok, m - 1);
    ConsPrefixes(y[0], y[1..], r2, m);
    HeadTail(y);
  }

  /** Where a replaced text starts with a character other than the value's first, then `{`,
      then characters `ok` accepts, it is the original text. */
  lemma FrontAgrees(s: string, kj: string, value: string, ok: char -> bool, m: nat)
    requires value != [] && value[0] != '{' && !ok(value[0]) && s != [] && MatchAt(s, kj).None?
    requires 2 <= m <= |ReplaceAll(s, kj, value)| && ReplaceAll(s, kj, value)[1] == '{'
    requires forall i :: 2 <= i < m ==> ok(ReplaceAll(s, kj, value)[i])
    ensures m <= |s| && s[..m] == ReplaceAll(s, kj, value)[..m]
  {
    var r := ReplaceAll(s, kj, value);
    var r1 := ReplaceAll(s[1..], kj, value);
    assert r == [s[0]] + r1;
    assert r1[0] == r[1];
    forall i | 1 <= i < m - 1 ensures ok(r1[i]) {
      assert r1[i] == r[i + 1];
    }
    BraceAgrees(s[1..], kj, value, ok, m - 1);
    ConsPrefixes(s[0], s[1..], r1, m);
    HeadTail(s);
  }

  /** A placeholder for `ki` at the front of a text in which `kj` was replaced by a safe
      value was already there before the replacement. */
  lemma FrontPlaceholder(s: string, kj: string, value: string, ki: string, m: nat)
    requires IsKey(ki) && Safe(value, ki) && s != [] && MatchAt(s, kj).None?
    requires m <= |ReplaceAll(s, kj, value)| && IsPlaceholder(ReplaceAll(s, kj, value)[..m], ki)
    ensures m <= |s| && s[..m] == ReplaceAll(s, kj, value)[..m]
  {
    var r := ReplaceAll(s, kj, value);
    PlaceholderInner(r[..m], ki);
    var ok := (c: char) => InnerChar(c, ki) || c == '}';
    forall i | 2 <= i < m ensures ok(r[i]) {
      assert r[i] == r[..m][i];
    }
    assert r[1] == r[..m][1];
    FrontAgrees(s, kj, value, ok, m);
  }

  /** After replacing `kj` by a value safe for `ki`, no placeholder for `ki` is left: not
      for `kj` itself, and for another name only if there was none before. */
  lemma {:induction false} ReplacedClear(s: string, kj: string, value: string, ki: string)
    requires IsKey(ki) && IsKey(kj) && Safe(value, ki)
    requires ki == kj || Clear(s, ki)
    ensures Clear(ReplaceAll(s, kj, value), ki)
    decreases |s|
  {
    var r := ReplaceAll(s, kj, value);
    if s == [] {
      assert r == [];
    } else {
      match MatchAt(s, kj)
      case Some(n) =>
        if ki != kj {
          ClearSuffix(s, n, ki);
        }
        ReplacedClear(s[n..], kj, value, ki);
        ClearPrepend(value, ReplaceAll(s[n..], kj, value), ki);
      case None =>
        ReplacedClear(s[1..], kj, value, ki);
        forall m | 0 <= m <= |r| ensures !IsPlaceholder(r[..m], ki) {
          if IsPlaceholder(r[..m], ki) {
            FrontPlaceholder(s, kj, value, ki, m);
          }
        }
        assert r[1..] == ReplaceAll(s[1..], kj, value);
    }
  }

  // ---- whole templates ----

  predicate AllKeys(vars: seq<(string, string)>) {
    forall i :: 0 <= i < |vars| ==> IsKey(vars[i].0)
  }

  /** Every value is safe for every name. */
  predicate AllSafe(vars: seq<(string, string)>) {
    forall i, j :: 0 <= i < |vars| && 0 <= j < |vars| ==> Safe(vars[i].1, vars[j].0)
  }

  /** One more substitution with safe values keeps every earlier name clear and clears
      the name just replaced. */
  lemma RenderStep(before: string, vars: seq<(string, string)>, i: nat)
    requires AllKeys(vars) && AllSafe(vars) && i < |vars|
    requires i < |vars| - 1 ==> Clear(before, vars[i].0)
    ensures Clear(ReplaceAll(before, vars[|vars| - 1].0, vars[|vars| - 1].1), vars[i].0)
  {
    var last := vars[|vars| - 1];
    assert IsKey(vars[i].0) && IsKey(last.0) && Safe(last.1, vars[i].0);
    ReplacedClear(before, last.0, last.1, vars[i].0);
  }

  /** With safe values, the rendered text has no placeholder left for any of the names. */
  lemma {:induction false} RenderClear(template: string, vars: seq<(string, string)>)
    requires AllKeys(vars) && AllSafe(vars)
    ensures forall i :: 0 <= i < |vars| ==> Clear(Render(template, vars), vars[i].0)
    decreases |vars|
  {
    if vars != [] {
      var pre, last := vars[..|vars| - 1], vars[|vars| - 1];
      assert AllKeys(pre) && AllSafe(pre) by {
        assert forall i :: 0 <= i < |pre| ==> pre[i] == vars[i];
      }
      RenderClear(template, pre);
      var before := Render(template, pre);
      assert Render(template, vars) == ReplaceAll(before, last.0, last.1);
      forall i | 0 <= i < |vars| ensures Clear(ReplaceAll(before, last.0, last.1), vars[i].0) {
        if i < |pre| {
          assert pre[i] == vars[i];
        }
        RenderStep(before, vars, i);
      }
    }
  }

  /** A text without placeholders for any of the names is rendered unchanged. */
  lemma {:induction false} RenderOfClear(s: string, vars: seq<(string, string)>)
    requires forall i :: 0 <= i < |vars| ==> Clear(s, vars[i].0)
    ensures Render(s, vars) == s
    decreases |vars|
  {
    if vars != [] {
      var pre, last := vars[..|vars| - 1], vars[|vars| - 1];
      assert forall i :: 0 <= i < |pre| ==> pre[i] == vars[i];
      RenderOfClear(s, pre);
      ReplaceAllClear(s, last.0, last.1);
    }
  }

  /** With safe values, rendering a second time with the same variables changes nothing. */
  lemma RenderIdempotent(template: string, vars: seq<(string, string)>)
    requires AllKeys(vars) && AllSafe(vars)
    ensures Render(Render(template, vars), vars) == Render(template, vars)
  {
    RenderClear(template, vars);
    RenderOfClear(Render(template, vars), vars);
  }

  lemma KeyCharNotSpecial(c: char)
    requires IsKeyChar(c)
    ensures !IsWhitespace(c) && c != '$' && c != '{' && c != '}'
  {
  }

  lemma Braced(x: string)
    ensures var p := "{{" + x + "}}";
      |p| >= 4 && p[..2] == "{{" && p[|p| - 2..] == "}}" && p[2..|p| - 2] == x
  {
    var p := "{{" + x + "}}";
    assert p[..2] == "{{";
    assert p[|p| - 2..] == "}}";
    assert p[2..|p| - 2] == x;
  }

  /** `{{key}}` is a placeholder for `key`. */
  lemma PlainPlaceholder(key: string)
    requires IsKey(key)
    ensures IsPlaceholder("{{" + key + "}}", key)
  {
    Braced(key);
    KeyCharNotSpecial(key[0]);
    assert TrimStart(key) == key;
    assert key[|key|..] == [];
  }

  lemma Assoc(a: string, b: string, c: string)
    ensures a + (b + c) == a + b + c
  {
  }

  lemma NoBraceConcat(a: string, b: string)
    requires '{' !in a && '{' !in b
    ensures '{' !in a + b
  {
  }

  lemma KeyNoBraces(key: string)
    requires IsKey(key)
    ensures '{' !in key && '}' !in key
  {
    forall i | 0 <= i < |key| ensures key[i] != '{' && key[i] != '}' {
      KeyCharNotSpecial(key[i]);
    }
  }

  lemma RenderOne(t: string, k: string, v: string)
    ensures Render(t, [(k, v)]) == ReplaceAll(t, k, v)
  {
    assert [(k, v)][..0] == [];
  }

  lemma RenderTwo(t: string, k1: string, v1: string, k2: string, v2: string)
    ensures Render(t, [(k1, v1), (k2, v2)]) == ReplaceAll(ReplaceAll(t, k1, v1), k2, v2)
  {
    var vars := [(k1, v1), (k2, v2)];
    assert vars[..1] == [(k1, v1)];
    RenderOne(t, k1, v1);
  }

  lemma ReplaceAllEmpty(k: string, v: string)
    ensures ReplaceAll([], k, v) == []
  {
  }

  /** Without the safety condition a second rendering can change the text, even when no
      value holds a placeholder: with a name mapped to `{{`, `{{name}}name}}` renders to
      `{{name}}` and that to `{{`. */
  lemma RenderNotIdempotent(key: string)
    requires IsKey(key)
    ensures Render("{{" + key + "}}" + key + "}}", [(key, "{{")]) == "{{" + key + "}}"
    ensures Render("{{" + key + "}}", [(key, "{{")]) == "{{"
  {
    var p, q := "{{" + key + "}}", key + "}}";
    RenderOne(p + key + "}}", key, "{{");
    RenderOne(p, key, "{{");
    PlainPlaceholder(key);
    Assoc(p, key, "}}");
    PlaceholderReplaced(p, q, key, "{{");
    KeyNoBraces(key);
    NoBraceConcat(key, "}}");
    LiteralKept(q, [], key, "{{");
    ReplaceAllEmpty(key, "{{");
    assert q + [] == q;
    Assoc("{{", key, "}}");
    PlaceholderReplaced(p, [], key, "{{");
    assert p + [] == p;
    assert "{{" + [] == "{{";
  }

  /** The engine's reply: with `a` and `b` free of `{` and a first value free of `{`, the
      template `a{{data_vencimento}}b{{valor_boleto}}` becomes `a`, the due date, `b`, the
      amount; for example `Vencimento: {{data_vencimento}}, valor {{valor_boleto}}` with
      `10/05/2024` and `150.00` reads `Vencimento: 10/05/2024, valor 150.00`. */
  lemma ReplyFilled(a: string, b: string, due: string, amount: string)
    requires '{' !in a && '{' !in b && '{' !in due
    ensures Render(a + "{{data_vencimento}}" + b + "{{valor_boleto}}",
                   [("data_vencimento", due), ("valor_boleto", amount)])
      == a + due + b + amount
  {
    var k1, k2 := "data_vencimento", "valor_boleto";
    var p1, p2 := "{{" + k1 + "}}", "{{" + k2 + "}}";
    EngineKeys();
    RenderTwo(a + p1 + b + p2, k1, due, k2, amount);
    PlainPlaceholder(k1);
    PlainPlaceholder(k2);
    NoBraceConcat(a, due);
    NoBraceConcat(a + due, b);
    FirstPass(a, p1, b, p2, k1, k2, due);
    SecondPass(a + due + b, p2, k2, amount);
  }

  lemma Assoc4(a: string, b: string, c: string, d: string)
    ensures a + b + c + d == a + (b + (c + d))
  {
  }

  lemma AppendEmpty(x: string)
    ensures x + [] == x
  {
  }

  lemma SecondPass(a: string, p: string, k: string, v: string)
    requires IsKey(k) && IsPlaceholder(p, k) && '{' !in a
    ensures ReplaceAll(a + p, k, v) == a + v
  {
    LiteralKept(a, p, k, v);
    AppendEmpty(p);
    PlaceholderReplaced(p, [], k, v);
    ReplaceAllEmpty(k, v);
    AppendEmpty(v);
  }

  /** The two names the engine fills in. */
  lemma EngineKeys()
    ensures IsKey("data_vencimento") && IsKey("valor_boleto") && "data_vencimento" != "valor_boleto"
    ensures "{{" + "data_vencimento" + "}}" == "{{data_vencimento}}"
    ensures "{{" + "valor_boleto" + "}}" == "{{valor_boleto}}"
  {
  }

  lemma FirstPass(a: string, p1: string, b: string, p2: string, k1: string, k2: string, due: string)
    requires IsKey(k1) && IsKey(k2) && k1 != k2 && IsPlaceholder(p1, k1) && IsPlaceholder(p2, k2)
    requires '{' !in a && '{' !in b
    ensures ReplaceAll(a + p1 + b + p2, k1, due) == a + due + b + p2
  {
    Assoc4(a, p1, b, p2);
    LiteralKept(a, p1 + (b + p2), k1, due);
    PlaceholderReplaced(p1, b + p2, k1, due);
    LiteralKept(b, p2, k1, due);
    AppendEmpty(p2);
    OtherPlaceholderKept(p2, [], k1, k2, due);
    ReplaceAllEmpty(k1, due);
    Assoc4(a, due, b, p2);
  }
}
