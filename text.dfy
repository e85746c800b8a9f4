/** The handful of Python string operations the box layout relies on:
    `str.split` on one separator, `str.strip`, and prefix slicing `s[:n]`
    with its rule for negative bounds. */
module Text {

  /** `str.isspace()` for one character. */
  predicate IsSpace(c: char) {
    || c == ' '
    || '\t' <= c <= '\r'
    || '\U{1c}' <= c <= '\U{1f}'
    || c == '\U{85}' || c == '\U{a0}' || c == '\U{1680}'
    || '\U{2000}' <= c <= '\U{200a}'
    || c == '\U{2028}' || c == '\U{2029}' || c == '\U{202f}' || c == '\U{205f}'
    || c == '\U{3000}'
  }

  predicate IsBlank(s: string) {
    forall i :: 0 <= i < |s| ==> IsSpace(s[i])
  }

  function TrimStart(s: string): string {
    if |s| > 0 && IsSpace(s[0]) then TrimStart(s[1..]) else s
  }

  function TrimEnd(s: string): string {
    if |s| > 0 && IsSpace(s[|s| - 1]) then TrimEnd(s[..|s| - 1]) else s
  }

  /** `str.strip()` with no argument. */
  function Strip(s: string): string {
    TrimEnd(TrimStart(s))
  }

  /** The prefix slice `s[:n]`: a negative `n` counts from the end, and a
      bound beyond either end is clamped. */
  function Take<T>(s: seq<T>, n: int): (r: seq<T>)
    ensures |r| == if n >= 0 then (if n <= |s| then n else |s|) else (if -n <= |s| then |s| + n else 0)
    ensures r == s[..|r|]
  {
    if n >= 0 then
      (if n <= |s| then s[..n] else s)
    else
      (if -n <= |s| then s[..|s| + n] else [])
  }

  /** `s.split(sep)` for a one-character separator. */
  function Split(s: string, sep: char): (parts: seq<string>)
    ensures |parts| >= 1
  {
    if |s| == 0 then [""]
    else
      var rest := Split(s[1..], sep);
      if s[0] == sep then [""] + rest
      else [[s[0]] + rest[0]] + rest[1..]
  }

  /** `sep.join(parts)`. */
  function Join(parts: seq<string>, sep: char): string {
    if |parts| == 0 then ""
    else if |parts| == 1 then parts[0]
    else parts[0] + [sep] + Join(parts[1..], sep)
  }

  /** Stripping leading whitespace removes a whitespace prefix and
      nothing more: what is left is a suffix of `s` that does not start
      with whitespace. */
  lemma {:induction false} TrimStartSuffix(s: string)
    ensures var t := TrimStart(s);
      && |t| <= |s|
      && t == s[|s| - |t|..]
      && IsBlank(s[..|s| - |t|])
      && (|t| > 0 ==> !IsSpace(t[0]))
    decreases |s|
  {
    if |s| > 0 && IsSpace(s[0]) {
      var t := TrimStart(s[1..]);
      TrimStartSuffix(s[1..]);
      assert s[1..][|s| - 1 - |t|..] == s[|s| - |t|..];
      var dropped := s[..|s| - |t|];
      assert dropped == [s[0]] + s[1..][..|s| - 1 - |t|];
      forall i | 0 <= i < |dropped| ensures IsSpace(dropped[i]) {
        if i > 0 { assert dropped[i] == s[1..][..|s| - 1 - |t|][i - 1]; }
      }
    } else {
      assert s[|s| - |s|..] == s;
    }
  }

  /** Stripping leading whitespace leaves nothing exactly when `s` is
      blank. */
  lemma TrimStartBlank(s: string)
    ensures TrimStart(s) == [] <==> IsBlank(s)
  {
    TrimStartSuffix(s);
    var t := TrimStart(s);
    if t == [] {
      assert s[..|s| - |t|] == s;
    } else {
      assert t[0] == s[|s| - |t|];
    }
  }

  /** Stripping trailing whitespace removes a whitespace suffix and
      nothing more: what is left is a prefix of `s` that does not end with
      whitespace. */
  lemma {:induction false} TrimEndPrefix(s: string)
    ensures var t := TrimEnd(s);
      && |t| <= |s|
      && t == s[..|t|]
      && IsBlank(s[|t|..])
      && (|t| > 0 ==> !IsSpace(t[|t| - 1]))
    decreases |s|
  {
    if |s| > 0 && IsSpace(s[|s| - 1]) {
      var u := s[..|s| - 1];
      var t := TrimEnd(u);
      TrimEndPrefix(u);
      assert u[..|t|] == s[..|t|];
      var dropped := s[|t|..];
      assert dropped == u[|t|..] + [s[|s| - 1]];
      forall i | 0 <= i < |dropped| ensures IsSpace(dropped[i]) {
        if i < |dropped| - 1 { assert dropped[i] == u[|t|..][i]; }
      }
    } else {
      assert s[..|s|] == s;
    }
  }

  /** Stripping trailing whitespace leaves nothing exactly when `s` is
      blank. */
  lemma TrimEndBlank(s: string)
    ensures TrimEnd(s) == [] <==> IsBlank(s)
  {
    TrimEndPrefix(s);
    var t := TrimEnd(s);
    if t == [] {
      assert s[|t|..] == s;
    } else {
      assert t[|t| - 1] == s[|t| - 1];
    }
  }

  /** `s.strip() == ""` exactly when every character of `s` is whitespace. */
  lemma StripEmptyIffBlank(s: string)
    ensures Strip(s) == "" <==> IsBlank(s)
  {
    TrimStartBlank(s);
    TrimStartSuffix(s);
    var t := TrimStart(s);
    TrimEndBlank(t);
    if |t| > 0 {
      assert !IsSpace(t[0]);
      assert !IsBlank(t);
    }
  }

  /** Splitting and joining again gives the original string back. */
  lemma {:induction false} JoinSplit(s: string, sep: char)
    ensures Join(Split(s, sep), sep) == s
    decreases |s|
  {
    if |s| > 0 {
      var rest := Split(s[1..], sep);
      JoinSplit(s[1..], sep);
      if s[0] == sep {
        assert Split(s, sep) == [""] + rest;
        assert ([""] + rest)[1..] == rest;
      } else {
        var parts := [[s[0]] + rest[0]] + rest[1..];
        assert Split(s, sep) == parts;
        if |rest| == 1 {
          assert Join(parts, sep) == [s[0]] + rest[0];
        } else {
          assert parts[1..] == rest[1..];
          assert Join(rest, sep) == rest[0] + [sep] + Join(rest[1..], sep);
          assert Join(parts, sep) == [s[0]] + rest[0] + [sep] + Join(rest[1..], sep);
        }
      }
    }
  }

  /** No piece produced by `Split` contains the separator. */
  lemma {:induction false} SplitPiecesHaveNoSeparator(s: string, sep: char)
    ensures forall i, j :: 0 <= i < |Split(s, sep)| && 0 <= j < |Split(s, sep)[i]| ==> Split(s, sep)[i][j] != sep
    decreases |s|
  {
    if |s| > 0 {
      SplitPiecesHaveNoSeparator(s[1..], sep);
    }
  }
}
