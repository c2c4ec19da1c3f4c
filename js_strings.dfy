/** The JavaScript string built-ins the core relies on, over `seq<char>`.
    Characters are Unicode scalar values; where JavaScript counts UTF-16 code
    units (`String.prototype.length`) the count is written out explicitly. */
module JsStrings {

  /** The WhiteSpace and LineTerminator code points that `String.prototype.trim`
      removes (ECMAScript 2023, sections 12.2 and 12.3). */
  predicate IsJsWhitespace(c: char) {
    if c <= ' ' then c == ' ' || '\t' <= c <= '\r'
    else
      && '\U{00A0}' <= c
      && (c == '\U{00A0}' || c == '\U{1680}' || ('\U{2000}' <= c <= '\U{200A}')
          || c == '\U{2028}' || c == '\U{2029}' || c == '\U{202F}' || c == '\U{205F}'
          || c == '\U{3000}' || c == '\U{FEFF}')
  }

  /** No whitespace at either end. */
  predicate Trimmed(s: string) {
    s == [] || (!IsJsWhitespace(s[0]) && !IsJsWhitespace(s[|s| - 1]))
  }

  function TrimStart(s: string): (r: string)
    ensures |r| <= |s|
    ensures r == [] || !IsJsWhitespace(r[0])
  {
    if s != [] && IsJsWhitespace(s[0]) then TrimStart(s[1..]) else s
  }

  function TrimEnd(s: string): (r: string)
    ensures |r| <= |s| && (r != [] ==> r[0] == s[0])
    ensures r == [] || !IsJsWhitespace(r[|r| - 1])
  {
    if s != [] && IsJsWhitespace(s[|s| - 1]) then TrimEnd(s[..|s| - 1]) else s
  }

  /** `TrimStart` drops a prefix of whitespace. */
  lemma {:induction false} TrimStartSuffix(s: string)
    ensures TrimStart(s) == s[|s| - |TrimStart(s)|..]
    ensures forall i :: 0 <= i < |s| - |TrimStart(s)| ==> IsJsWhitespace(s[i])
  {
    if s != [] && IsJsWhitespace(s[0]) {
      TrimStartSuffix(s[1..]);
    }
  }

  /** `TrimEnd` drops a suffix of whitespace. */
  lemma {:induction false} TrimEndPrefix(s: string)
    ensures TrimEnd(s) == s[..|TrimEnd(s)|]
    ensures forall i :: |TrimEnd(s)| <= i < |s| ==> IsJsWhitespace(s[i])
  {
    if s != [] && IsJsWhitespace(s[|s| - 1]) {
      TrimEndPrefix(s[..|s| - 1]);
    }
  }

  /** The number of whitespace characters `s` starts with. */
  function LeadingSpace(s: string): (n: nat)
    ensures n <= |s|
    ensures forall i :: 0 <= i < n ==> IsJsWhitespace(s[i])
    ensures n == |s| || !IsJsWhitespace(s[n])
  {
    if s != [] && IsJsWhitespace(s[0]) then 1 + LeadingSpace(s[1..]) else 0
  }

  /** `String.prototype.trim`: the longest infix with no whitespace at either end,
      everything cut off being whitespace (see `TrimCutsWhitespace`). */
  function Trim(s: string): (r: string)
    ensures Trimmed(r)
    ensures Trimmed(s) ==> r == s
  {
    TrimEnd(TrimStart(s))
  }

  /** What `trim` cuts off is whitespace: the result is the infix of `s` that
      starts right after the leading whitespace, and everything after it is
      whitespace too. With `Trimmed(Trim(s))` this fixes the result. */
  lemma TrimCutsWhitespace(s: string)
    ensures var r := Trim(s);
      && LeadingSpace(s) + |r| <= |s| && r == s[LeadingSpace(s)..LeadingSpace(s) + |r|]
      && forall i :: LeadingSpace(s) + |r| <= i < |s| ==> IsJsWhitespace(s[i])
  {
    var a := LeadingSpace(s);
    TrimStartIsDrop(s);
    TrimEndOfDrop(s, a);
  }

  /** Trimming the end of `s[a..]` keeps an infix of `s` starting at `a`, followed
      by nothing but whitespace. */
  lemma TrimEndOfDrop(s: string, a: nat)
    requires a <= |s|
    ensures var r := TrimEnd(s[a..]);
      && a + |r| <= |s| && r == s[a..a + |r|]
      && forall i :: a + |r| <= i < |s| ==> IsJsWhitespace(s[i])
  {
    var t := s[a..];
    var r := TrimEnd(t);
    TrimEndPrefix(t);
    assert r == s[a..a + |r|] by {
      assert r == t[..|r|];
    }
    forall i | a + |r| <= i < |s| ensures IsJsWhitespace(s[i]) {
      assert s[i] == t[i - a];
    }
  }

  /** `TrimStart` is the string with its leading whitespace dropped. */
  lemma TrimStartIsDrop(s: string)
    ensures TrimStart(s) == s[LeadingSpace(s)..]
  {
    TrimStartSuffix(s);
    TrimStartSkipsLeading(s);
  }

  /** `TrimStart` drops exactly the leading whitespace. */
  lemma {:induction false} TrimStartSkipsLeading(s: string)
    ensures |TrimStart(s)| == |s| - LeadingSpace(s)
  {
    if s != [] && IsJsWhitespace(s[0]) {
      TrimStartSkipsLeading(s[1..]);
    }
  }

  lemma TrimIdempotent(s: string)
    ensures Trim(Trim(s)) == Trim(s)
  {
  }

  /** `String.prototype.toLowerCase`, restricted to ASCII: only `A`..`Z` change. */
  function LowerChar(c: char): char {
    if 'A' <= c <= 'Z' then (c as int + 32) as char else c
  }

  function LowerAscii(s: string): (r: string)
    ensures |r| == |s|
    ensures forall i :: 0 <= i < |s| ==> r[i] == LowerChar(s[i])
  {
    if s == [] then [] else [LowerChar(s[0])] + LowerAscii(s[1..])
  }

  /** A string with no ASCII capital is its own lowercase. */
  lemma LowerAsciiNoCapitals(s: string)
    requires forall i :: 0 <= i < |s| ==> !('A' <= s[i] <= 'Z')
    ensures LowerAscii(s) == s
  {
  }

  predicate StartsWith(s: string, prefix: string) {
    |prefix| <= |s| && s[..|prefix|] == prefix
  }

  /** `String.prototype.includes`: `needle` occurs somewhere in `s`. */
  predicate Includes(s: string, needle: string)
    decreases |s|
  {
    StartsWith(s, needle) || (s != [] && Includes(s[1..], needle))
  }

  /** `String.prototype.length`: UTF-16 code units, two for a code point above U+FFFF. */
  function Utf16Length(s: string): (n: nat)
    ensures |s| <= n <= 2 * |s|
  {
    if s == [] then 0 else (if s[0] as int > 0xFFFF then 2 else 1) + Utf16Length(s[1..])
  }

  /** `String.prototype.split(sep)` for a one-character separator: the pieces between
      consecutive separators, so there is always at least one piece. */
  function Split(s: string, sep: char): (parts: seq<string>)
    ensures |parts| >= 1
    ensures |parts| == 1 <==> sep !in s
    ensures forall i :: 0 <= i < |parts| ==> sep !in parts[i]
  {
    if s == [] then [[]]
    else if s[0] == sep then [[]] + Split(s[1..], sep)
    else
      var rest := Split(s[1..], sep);
      [[s[0]] + rest[0]] + rest[1..]
  }

  /** `Array.prototype.join(sep)`. */
  function Join(parts: seq<string>, sep: char): string {
    if |parts| == 0 then []
    else if |parts| == 1 then parts[0]
    else parts[0] + [sep] + Join(parts[1..], sep)
  }

  /** Split then keep the first piece and join the others: the first piece is the
      text before the first separator, and joining the others gives back
      everything after it (the empty string when there is no separator). */
  lemma {:induction false} SplitFirstAndRest(s: string, sep: char)
    ensures var parts := Split(s, sep);
      && sep !in parts[0]
      && (sep in s ==> s == parts[0] + [sep] + Join(parts[1..], sep))
      && (sep !in s ==> parts[0] == s && Join(parts[1..], sep) == [])
  {
    if s == [] {
    } else if s[0] == sep {
      var rest := Split(s[1..], sep);
      JoinSplit(s[1..], sep);
      assert Split(s, sep)[1..] == rest;
    } else {
      SplitFirstAndRest(s[1..], sep);
      var rest := Split(s[1..], sep);
      assert Split(s, sep)[1..] == rest[1..];
      if sep in s {
        assert sep in s[1..];
        assert s == [s[0]] + s[1..];
      }
    }
  }

  /** Joining the pieces with the separator gives back the string. */
  lemma {:induction false} JoinSplit(s: string, sep: char)
    ensures Join(Split(s, sep), sep) == s
  {
    if s == [] {
    } else if s[0] == sep {
      JoinSplit(s[1..], sep);
      var rest := Split(s[1..], sep);
      assert Split(s, sep) == [[]] + rest;
      assert s == [sep] + s[1..];
    } else {
      JoinSplit(s[1..], sep);
      var rest := Split(s[1..], sep);
      if |rest| == 1 {
      } else {
        assert Join(rest, sep) == rest[0] + [sep] + Join(rest[1..], sep);
        assert Split(s, sep)[1..] == rest[1..];
        assert s == [s[0]] + s[1..];
      }
    }
  }

  /** A separator-free prefix followed by the separator is exactly the first piece. */
  lemma {:induction false} SplitAfterPrefix(u: string, sep: char, rest: string)
    requires sep !in u
    ensures Split(u + [sep] + rest, sep) == [u] + Split(rest, sep)
  {
    var s := u + [sep] + rest;
    if u == [] {
      assert s[1..] == rest;
    } else {
      assert s[1..] == u[1..] + [sep] + rest;
      SplitAfterPrefix(u[1..], sep, rest);
      assert [s[0]] + u[1..] == u;
    }
  }
}
