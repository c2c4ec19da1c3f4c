/** `slugify` from lib/utils.ts: lowercase, trim, replace every maximal run of
    characters outside `[a-z0-9]` by one dash, then drop a dash at either end. */
module Utils {
  import opened JsStrings

  /** The class `[a-z0-9]`. */
  predicate IsAlnum(c: char) {
    'a' <= c <= 'z' || '0' <= c <= '9'
  }

  /** The class `[a-z0-9-]`, the characters the server accepts in a slug. */
  predicate IsSlugChar(c: char) {
    IsAlnum(c) || c == '-'
  }

  /** The `[a-z0-9]` characters of `s`, in order. */
  function Alnums(s: string): string {
    if s == [] then [] else (if IsAlnum(s[0]) then [s[0]] else []) + Alnums(s[1..])
  }

  /** Drops the leading run of characters outside `[a-z0-9]`. */
  function SkipRun(s: string): (r: string)
    ensures |r| <= |s|
    ensures r == [] || IsAlnum(r[0])
    ensures Alnums(r) == Alnums(s)
  {
    if s != [] && !IsAlnum(s[0]) then SkipRun(s[1..]) else s
  }

  /** What `SkipRun` drops is a prefix of characters outside `[a-z0-9]`. */
  lemma {:induction false} SkipRunDropsSeparators(s: string)
    decreases |s|
    ensures var r := SkipRun(s);
      && r == s[|s| - |r|..]
      && forall i :: 0 <= i < |s| - |r| ==> !IsAlnum(s[i])
  {
    if s != [] && !IsAlnum(s[0]) {
      SkipRunDropsSeparators(s[1..]);
      var r := SkipRun(s[1..]);
      assert s[1..][|s| - 1 - |r|..] == s[|s| - |r|..];
      forall i | 1 <= i < |s| - |r| ensures !IsAlnum(s[i]) {
        assert s[i] == s[1..][i - 1];
      }
    }
  }

  /** The maximal runs of `[a-z0-9]` in `s`, in order, as
      `s.split(/[^a-z0-9]+/).filter((w) => w !== "")` would list them. */
  function Words(s: string): (ws: seq<string>)
    ensures forall k :: 0 <= k < |ws| ==> ws[k] != [] && forall i :: 0 <= i < |ws[k]| ==> IsAlnum(ws[k][i])
    ensures s != [] && IsAlnum(s[0]) ==> ws != []
  {
    if s == [] then []
    else
      var rest := Words(s[1..]);
      if !IsAlnum(s[0]) then rest
      else if s[1..] != [] && IsAlnum(s[1]) then [[s[0]] + rest[0]] + rest[1..]
      else [[s[0]]] + rest
  }

  /** A leading stretch without letters or digits holds no word. */
  lemma {:induction false} WordsDropPrefix(s: string, n: nat)
    requires n <= |s|
    requires forall i :: 0 <= i < n ==> !IsAlnum(s[i])
    ensures Words(s[n..]) == Words(s)
  {
    if n > 0 {
      WordsDropPrefix(s[1..], n - 1);
      assert s[1..][n - 1..] == s[n..];
    }
  }

  /** A trailing stretch without letters or digits holds no word. */
  lemma {:induction false} WordsDropSuffix(s: string, n: nat)
    requires n <= |s|
    requires forall i :: n <= i < |s| ==> !IsAlnum(s[i])
    ensures Words(s[..n]) == Words(s)
  {
    if n == 0 {
      WordsDropPrefix(s, |s|);
      assert s[|s|..] == [];
    } else {
      WordsDropSuffix(s[1..], n - 1);
      assert s[..n][1..] == s[1..][..n - 1];
    }
  }

  /** `s.replace(/[^a-z0-9]+/g, "-")`. */
  function CollapseRuns(s: string): (r: string)
    decreases |s|
    ensures r == [] <==> s == []
    ensures r != [] ==> (r[0] == '-' <==> !IsAlnum(s[0]))
  {
    if s == [] then []
    else if IsAlnum(s[0]) then [s[0]] + CollapseRuns(s[1..])
    else "-" + CollapseRuns(SkipRun(s[1..]))
  }

  /** The collapsed string ends in a dash exactly when the input ends in a
      character outside `[a-z0-9]`. */
  lemma {:induction false} CollapseRunsLastDash(s: string)
    decreases |s|
    requires s != []
    ensures var r := CollapseRuns(s); r[|r| - 1] == '-' <==> !IsAlnum(s[|s| - 1])
  {
    if IsAlnum(s[0]) {
      if s[1..] != [] {
        CollapseRunsLastDash(s[1..]);
        AlnumHeadKeepsLast(s);
      }
    } else {
      var k := SkipRun(s[1..]);
      if k != [] {
        CollapseRunsLastDash(k);
      }
      SeparatorHeadLast(s);
    }
  }

  /** A leading letter or digit does not change how the collapsed string ends. */
  lemma AlnumHeadKeepsLast(s: string)
    requires |s| > 1 && IsAlnum(s[0])
    ensures var r := CollapseRuns(s); var rest := CollapseRuns(s[1..]);
      rest != [] && r[|r| - 1] == rest[|rest| - 1] && s[|s| - 1] == s[1..][|s| - 2]
  {
    var rest := CollapseRuns(s[1..]);
    assert CollapseRuns(s) == [s[0]] + rest;
  }

  /** After a leading separator run the collapsed string ends like the collapse of
      what follows the run, or is the lone dash when nothing follows. */
  lemma SeparatorHeadLast(s: string)
    requires s != [] && !IsAlnum(s[0])
    ensures var r := CollapseRuns(s); var k := SkipRun(s[1..]);
      && (k == [] ==> r == "-" && !IsAlnum(s[|s| - 1]))
      && (k != [] ==> var rest := CollapseRuns(k);
            rest != [] && r[|r| - 1] == rest[|rest| - 1] && s[|s| - 1] == k[|k| - 1])
  {
    var k := SkipRun(s[1..]);
    var rest := CollapseRuns(k);
    assert CollapseRuns(s) == "-" + rest;
    var t := s[1..];
    SkipRunDropsSeparators(t);
    assert k == t[|t| - |k|..];
    if k != [] {
      assert k[|k| - 1] == t[|t| - 1];
    } else if t != [] {
      assert !IsAlnum(t[|t| - 1]);
    }
  }

  /** Collapsing leaves only `[a-z0-9-]` and never two dashes in a row. */
  lemma {:induction false} CollapseRunsShape(s: string)
    decreases |s|
    ensures DashSeparated(CollapseRuns(s))
  {
    if s != [] {
      var r := CollapseRuns(s);
      var rest, t;
      if IsAlnum(s[0]) {
        t := s[1..];
        rest := CollapseRuns(t);
        assert r == [s[0]] + rest;
      } else {
        t := SkipRun(s[1..]);
        rest := CollapseRuns(t);
        assert r == "-" + rest;
        assert rest == [] || rest[0] != '-';
      }
      CollapseRunsShape(t);
      forall i | 0 <= i < |r| ensures IsSlugChar(r[i]) {
        if i > 0 {
          assert r[i] == rest[i - 1];
        }
      }
      forall i, j | 0 <= i < |r| && 0 <= j < |r| && j == i + 1
        ensures !(r[i] == '-' && r[j] == '-')
      {
        if i > 0 {
          assert r[i] == rest[i - 1] && r[j] == rest[j - 1];
        }
      }
    }
  }

  /** Collapsing changes only the separators: the letters and digits stay, in order. */
  lemma {:induction false} CollapseRunsKeepsAlnums(s: string)
    decreases |s|
    ensures Alnums(CollapseRuns(s)) == Alnums(s)
  {
    if s == [] {
    } else if IsAlnum(s[0]) {
      CollapseRunsKeepsAlnums(s[1..]);
      var rest := CollapseRuns(s[1..]);
      assert ([s[0]] + rest)[1..] == rest;
    } else {
      var k := SkipRun(s[1..]);
      CollapseRunsKeepsAlnums(k);
      var rest := CollapseRuns(k);
      assert ("-" + rest)[1..] == rest;
    }
  }

  /** Collapsing keeps the words: each separator run becomes one dash and no
      letter or digit moves between words. */
  lemma {:induction false} CollapseRunsKeepsWords(s: string)
    decreases |s|
    ensures Words(CollapseRuns(s)) == Words(s)
  {
    if s == [] {
    } else if IsAlnum(s[0]) {
      CollapseRunsKeepsWords(s[1..]);
      var rest := CollapseRuns(s[1..]);
      assert ([s[0]] + rest)[1..] == rest;
    } else {
      var k := SkipRun(s[1..]);
      SkipRunDropsSeparators(s[1..]);
      forall i | 1 <= i < |s| - |k| ensures !IsAlnum(s[i]) {
        assert s[i] == s[1..][i - 1];
      }
      WordsDropPrefix(s, |s| - |k|);
      assert s[|s| - |k|..] == k;
      CollapseRunsKeepsWords(k);
      var rest := CollapseRuns(k);
      assert ("-" + rest)[1..] == rest;
    }
  }

  /** `s.replace(/(^-|-$)+/g, "")`: one leading dash and one trailing dash go. */
  function TrimDashes(s: string): string {
    var t := if s != [] && s[0] == '-' then s[1..] else s;
    if t != [] && t[|t| - 1] == '-' then t[..|t| - 1] else t
  }

  function Slugify(input: string): string {
    TrimDashes(CollapseRuns(Trim(LowerAscii(input))))
  }

  /** Only `[a-z0-9-]`, and no two dashes in a row. */
  predicate DashSeparated(s: string) {
    && (forall i :: 0 <= i < |s| ==> IsSlugChar(s[i]))
    && (forall i, j :: 0 <= i < |s| && 0 <= j < |s| && j == i + 1 ==> !(s[i] == '-' && s[j] == '-'))
  }

  /** The output form: dash-separated with no dash at either end. */
  predicate SlugShaped(s: string) {
    DashSeparated(s) && (s != [] ==> s[0] != '-' && s[|s| - 1] != '-')
  }

  lemma {:induction false} AlnumsAppend(a: string, b: string)
    ensures Alnums(a + b) == Alnums(a) + Alnums(b)
  {
    if a == [] {
      assert a + b == b;
    } else {
      var head := if IsAlnum(a[0]) then [a[0]] else [];
      assert (a + b)[0] == a[0] && (a + b)[1..] == a[1..] + b;
      assert Alnums(a + b) == head + Alnums(a[1..] + b);
      AlnumsAppend(a[1..], b);
      assert Alnums(a) == head + Alnums(a[1..]);
      assert head + (Alnums(a[1..]) + Alnums(b)) == (head + Alnums(a[1..])) + Alnums(b);
    }
  }

  lemma {:induction false} TrimStartKeepsAlnums(s: string)
    ensures Alnums(TrimStart(s)) == Alnums(s)
  {
    if s != [] && IsJsWhitespace(s[0]) {
      TrimStartKeepsAlnums(s[1..]);
    }
  }

  lemma {:induction false} TrimEndKeepsAlnums(s: string)
    ensures Alnums(TrimEnd(s)) == Alnums(s)
  {
    if s != [] && IsJsWhitespace(s[|s| - 1]) {
      var init := s[..|s| - 1];
      TrimEndKeepsAlnums(init);
      assert s == init + [s[|s| - 1]];
      AlnumsAppend(init, [s[|s| - 1]]);
    }
  }

  /** Trimming removes only whitespace, never a letter or digit. */
  lemma TrimKeepsAlnums(s: string)
    ensures Alnums(Trim(s)) == Alnums(s)
  {
    TrimStartKeepsAlnums(s);
    TrimEndKeepsAlnums(TrimStart(s));
  }

  lemma DropFirstDash(s: string)
    requires DashSeparated(s) && s != [] && s[0] == '-'
    ensures DashSeparated(s[1..])
    ensures s[1..] == [] || s[1] != '-'
    ensures Alnums(s[1..]) == Alnums(s)
  {
    assert |s| > 1 ==> !(s[0] == '-' && s[1] == '-');
    assert s == "-" + s[1..];
    AlnumsAppend("-", s[1..]);
  }

  lemma DropLastDash(s: string)
    requires DashSeparated(s) && s != [] && s[|s| - 1] == '-'
    ensures DashSeparated(s[..|s| - 1])
    ensures |s| > 1 ==> s[|s| - 2] != '-'
    ensures Alnums(s[..|s| - 1]) == Alnums(s)
  {
    var u := s[..|s| - 1];
    assert |s| > 1 ==> !(s[|s| - 1] == '-' && s[|s| - 2] == '-');
    DashSeparatedPrefix(s, |u|);
    assert s == u + "-";
    AlnumsAppend(s[..|s| - 1], "-");
  }

  /** A prefix of a dash-separated string is dash-separated. */
  lemma DashSeparatedPrefix(s: string, n: nat)
    requires DashSeparated(s) && n <= |s|
    ensures DashSeparated(s[..n])
  {
    var u := s[..n];
    forall i, j | 0 <= i < |u| && 0 <= j < |u| && j == i + 1
      ensures !(u[i] == '-' && u[j] == '-')
    {
      assert u[i] == s[i] && u[j] == s[j];
    }
  }

  /** Dropping edge dashes keeps the letters and digits and makes the shape. */
  lemma TrimDashesShape(s: string)
    requires DashSeparated(s)
    ensures SlugShaped(TrimDashes(s))
    ensures Alnums(TrimDashes(s)) == Alnums(s)
  {
    var t := if s != [] && s[0] == '-' then s[1..] else s;
    if s != [] && s[0] == '-' {
      DropFirstDash(s);
    }
    assert DashSeparated(t) && (t == [] || t[0] != '-') && Alnums(t) == Alnums(s);
    if t != [] && t[|t| - 1] == '-' {
      DropLastDash(t);
      var u := t[..|t| - 1];
      assert u == [] || u[0] == t[0];
    }
  }

  /** Every result of `slugify` has the slug shape. */
  lemma SlugifyShape(input: string)
    ensures SlugShaped(Slugify(input))
  {
    CollapseRunsShape(Trim(LowerAscii(input)));
    TrimDashesShape(CollapseRuns(Trim(LowerAscii(input))));
  }

  /** The letters and digits of the lowercased input survive, in order, and
      nothing else does but single separating dashes. */
  lemma SlugifyKeepsAlnums(input: string)
    ensures Alnums(Slugify(input)) == Alnums(LowerAscii(input))
    ensures SlugShaped(Slugify(input))
  {
    var lowered := LowerAscii(input);
    TrimKeepsAlnums(lowered);
    CollapseRunsKeepsAlnums(Trim(lowered));
    CollapseRunsShape(Trim(lowered));
    TrimDashesShape(CollapseRuns(Trim(lowered)));
  }

  /** Collapsing runs leaves a dash-separated word sequence as it is. */
  lemma {:induction false} CollapseRunsFixed(s: string)
    requires DashSeparated(s)
    ensures CollapseRuns(s) == s
  {
    if s == [] {
    } else if IsAlnum(s[0]) {
      CollapseRunsFixed(s[1..]);
    } else {
      assert s[0] == '-' && (s[1..] == [] || IsAlnum(s[1]));
      assert SkipRun(s[1..]) == s[1..];
      CollapseRunsFixed(s[1..]);
      assert CollapseRuns(s) == "-" + CollapseRuns(s[1..]);
      assert s == "-" + s[1..];
    }
  }

  lemma SlugShapedLowercase(s: string)
    requires SlugShaped(s)
    ensures LowerAscii(s) == s
  {
    LowerAsciiNoCapitals(s);
  }

  lemma SlugShapedTrimmed(s: string)
    requires SlugShaped(s)
    ensures Trim(s) == s
  {
    assert s != [] ==> IsSlugChar(s[0]) && IsSlugChar(s[|s| - 1]);
  }

  lemma SlugShapedCollapsed(s: string)
    requires SlugShaped(s)
    ensures TrimDashes(CollapseRuns(s)) == s
  {
    CollapseRunsFixed(s);
  }

  /** A string already in slug shape is left alone by `slugify`. */
  lemma SlugShapedFixed(s: string)
    requires SlugShaped(s)
    ensures Slugify(s) == s
  {
    SlugShapedLowercase(s);
    SlugShapedTrimmed(s);
    SlugShapedCollapsed(s);
  }

  /** `slugify(slugify(x)) == slugify(x)`. */
  lemma SlugifyIdempotent(input: string)
    ensures Slugify(Slugify(input)) == Slugify(input)
  {
    SlugifyShape(input);
    SlugShapedFixed(Slugify(input));
  }

  /** The result is empty exactly when the lowercased input has no letter or digit. */
  lemma SlugifyEmptyIffNoAlnum(input: string)
    ensures Slugify(input) == [] <==> Alnums(LowerAscii(input)) == []
  {
    var s := Slugify(input);
    SlugifyKeepsAlnums(input);
    if s != [] {
      assert IsAlnum(s[0]);
      assert Alnums(s) == [s[0]] + Alnums(s[1..]);
    }
  }

  /** Trimming whitespace removes no word. */
  lemma TrimKeepsWords(s: string)
    ensures Words(Trim(s)) == Words(s)
  {
    TrimCutsWhitespace(s);
    var a := LeadingSpace(s);
    var b := a + |Trim(s)|;
    forall i | 0 <= i < |s| && !(a <= i < b) ensures !IsAlnum(s[i]) {
      assert IsJsWhitespace(s[i]);
    }
    WordsOfInfix(s, a, b);
  }

  /** Cutting off stretches without letters or digits at both ends removes no word. */
  lemma WordsOfInfix(s: string, a: nat, b: nat)
    requires a <= b <= |s|
    requires forall i :: 0 <= i < |s| && !(a <= i < b) ==> !IsAlnum(s[i])
    ensures Words(s[a..b]) == Words(s)
  {
    WordsDropSuffix(s, b);
    WordsDropPrefix(s[..b], a);
    assert s[..b][a..] == s[a..b];
  }

  /** Dropping edge dashes removes no word. */
  lemma TrimDashesKeepsWords(s: string)
    ensures Words(TrimDashes(s)) == Words(s)
  {
    var t := if s != [] && s[0] == '-' then s[1..] else s;
    if s != [] && s[0] == '-' {
      WordsDropPrefix(s, 1);
    }
    if t != [] && t[|t| - 1] == '-' {
      WordsDropSuffix(t, |t| - 1);
    }
  }

  /** A slug-shaped string is its words joined with single dashes. */
  lemma {:induction false} SlugShapedJoinsWords(t: string)
    requires SlugShaped(t)
    ensures Join(Words(t), '-') == t
  {
    if t != [] {
      var c := t[0];
      var u := t[1..];
      if u == [] {
        assert Words(t) == [[c]];
      } else if IsAlnum(u[0]) {
        SlugShapedTail(t);
        SlugShapedJoinsWords(u);
        var w := Words(u);
        assert Words(t) == [[c] + w[0]] + w[1..];
        JoinGrowFirst(c, w);
        assert t == [c] + u;
      } else {
        SlugShapedAfterDash(t);
        var v := t[2..];
        SlugShapedJoinsWords(v);
        assert u[1..] == v;
        assert Words(u) == Words(v);
        assert Words(t) == [[c]] + Words(v);
        JoinNewFirst(c, Words(v));
        assert t == [c] + "-" + v;
      }
    }
  }

  lemma SlugShapedTail(t: string)
    requires SlugShaped(t) && |t| >= 2 && IsAlnum(t[1])
    ensures SlugShaped(t[1..])
  {
    var u := t[1..];
    assert forall i :: 0 <= i < |u| ==> u[i] == t[i + 1];
  }

  lemma SlugShapedAfterDash(t: string)
    requires SlugShaped(t) && |t| >= 2 && !IsAlnum(t[1])
    ensures |t| > 2 && IsAlnum(t[2]) && SlugShaped(t[2..])
  {
    assert IsSlugChar(t[1]) && t[1] == '-';
    assert |t| > 2;
    assert IsSlugChar(t[2]) && t[2] != '-';
    var v := t[2..];
    assert forall i :: 0 <= i < |v| ==> v[i] == t[i + 2];
  }

  /** A letter put in front of the first word. */
  lemma JoinGrowFirst(c: char, w: seq<string>)
    requires w != []
    ensures Join([[c] + w[0]] + w[1..], '-') == [c] + Join(w, '-')
  {
    var x := [[c] + w[0]] + w[1..];
    assert x[1..] == w[1..];
    if |w| > 1 {
      assert Join(x, '-') == [c] + w[0] + ['-'] + Join(w[1..], '-');
    }
  }

  /** A one-letter word put in front. */
  lemma JoinNewFirst(c: char, w: seq<string>)
    requires w != []
    ensures Join([[c]] + w, '-') == [c] + "-" + Join(w, '-')
  {
    assert ([[c]] + w)[1..] == w;
  }

  /** `slugify` is the words of the lowercased input joined with single dashes:
      every separator run between two words becomes exactly one dash, and
      nothing is left at either end. */
  lemma SlugifyJoinsWords(input: string)
    ensures Slugify(input) == Join(Words(LowerAscii(input)), '-')
  {
    var lowered := LowerAscii(input);
    TrimKeepsWords(lowered);
    CollapseRunsKeepsWords(Trim(lowered));
    TrimDashesKeepsWords(CollapseRuns(Trim(lowered)));
    SlugifyShape(input);
    SlugShapedJoinsWords(Slugify(input));
  }
}
