/** The Python `str` methods the store applies to names and to the writer column:
    `upper()`, `capitalize()`, `split(sep)`, `strip()` and `sep.join(parts)`.
    Case mapping is modelled for ASCII letters; whitespace follows `str.isspace`. */
module Text {

  predicate IsLower(c: char) { 'a' <= c <= 'z' }

  predicate IsUpper(c: char) { 'A' <= c <= 'Z' }

  function ToUpper(c: char): (u: char)
    ensures !IsLower(u)
    ensures IsLower(c) ==> IsUpper(u)
    ensures !IsLower(c) ==> u == c
  {
    if IsLower(c) then (c as int - 32) as char else c
  }

  function ToLower(c: char): (l: char)
    ensures !IsUpper(l)
    ensures IsUpper(c) ==> IsLower(l)
    ensures !IsUpper(c) ==> l == c
  {
    if IsUpper(c) then (c as int + 32) as char else c
  }

  /** The characters for which Python's `str.isspace()` holds. */
  predicate IsSpace(c: char)
  {
    || '\t' <= c <= '\r'
    || '\U{1C}' <= c <= ' '
    || c == '\U{85}' || c == '\U{A0}' || c == '\U{1680}'
    || '\U{2000}' <= c <= '\U{200A}'
    || c == '\U{2028}' || c == '\U{2029}' || c == '\U{202F}' || c == '\U{205F}' || c == '\U{3000}'
  }

  /** `s.upper()`: every letter is replaced by its upper-case form, nothing else changes. */
  function Upper(s: string): (r: string)
    ensures |r| == |s|
    ensures forall i :: 0 <= i < |s| ==> r[i] == ToUpper(s[i])
    ensures forall i :: 0 <= i < |r| ==> !IsLower(r[i])
  {
    if s == [] then [] else [ToUpper(s[0])] + Upper(s[1..])
  }

  /** `s.lower()` */
  function Lower(s: string): (r: string)
    ensures |r| == |s|
    ensures forall i :: 0 <= i < |s| ==> r[i] == ToLower(s[i])
    ensures forall i :: 0 <= i < |r| ==> !IsUpper(r[i])
  {
    if s == [] then [] else [ToLower(s[0])] + Lower(s[1..])
  }

  /** `s.capitalize()`: the first character upper-cased, the rest lower-cased. */
  function Capitalize(s: string): (r: string)
    ensures |r| == |s|
    ensures |s| > 0 ==> r[0] == ToUpper(s[0])
    ensures forall i :: 1 <= i < |s| ==> r[i] == ToLower(s[i])
  {
    if s == [] then [] else [ToUpper(s[0])] + Lower(s[1..])
  }

  /** `capitalize()` does not depend on the case the name was written in. */
  lemma CapitalizeIgnoresCase(s: string)
    ensures Capitalize(Upper(s)) == Capitalize(s)
  {
    var a, b := Capitalize(Upper(s)), Capitalize(s);
    forall i | 0 <= i < |s| ensures a[i] == b[i] {
      if i > 0 {
        assert ToLower(ToUpper(s[i])) == ToLower(s[i]);
      }
    }
  }

  /** A capitalized name upper-cases back to the upper-cased name. */
  lemma UpperOfCapitalize(s: string)
    ensures Upper(Capitalize(s)) == Upper(s)
  {
    var a, b := Upper(Capitalize(s)), Upper(s);
    forall i | 0 <= i < |s| ensures a[i] == b[i] {
      if i > 0 {
        assert ToUpper(ToLower(s[i])) == ToUpper(s[i]);
      }
    }
  }

  // ---------------------------------------------------------------------------
  // split and join

  /** `s.split(sep)` with an explicit separator: the pieces between separators, empty
      pieces included, so there is always at least one piece. */
  function Split(s: string, sep: char): (parts: seq<string>)
    ensures |parts| >= 1
    decreases |s|
  {
    if s == [] then [""]
    else if s[0] == sep then [""] + Split(s[1..], sep)
    else
      var rest := Split(s[1..], sep);
      [[s[0]] + rest[0]] + rest[1..]
  }

  /** No piece of a split holds the separator. */
  lemma {:induction false} SplitPiecesFree(s: string, sep: char)
    ensures forall k :: 0 <= k < |Split(s, sep)| ==> sep !in Split(s, sep)[k]
    decreases |s|
  {
    if s != [] {
      SplitPiecesFree(s[1..], sep);
      if s[0] != sep {
        var rest := Split(s[1..], sep);
        assert sep !in [s[0]] + rest[0];
      }
    }
  }

  /** `sep.join(parts)` */
  function Join(parts: seq<string>, sep: char): string
  {
    if |parts| == 0 then ""
    else if |parts| == 1 then parts[0]
    else parts[0] + [sep] + Join(parts[1..], sep)
  }

  /** Joining the pieces of a split gives back the original string. */
  lemma {:induction false} JoinSplit(s: string, sep: char)
    ensures Join(Split(s, sep), sep) == s
    decreases |s|
  {
    if s == [] {
    } else if s[0] == sep {
      JoinSplit(s[1..], sep);
      assert Split(s, sep) == [""] + Split(s[1..], sep);
      assert s == [sep] + s[1..];
    } else {
      var rest := Split(s[1..], sep);
      JoinSplit(s[1..], sep);
      var parts := [[s[0]] + rest[0]] + rest[1..];
      assert Split(s, sep) == parts;
      if |rest| == 1 {
        assert Join(parts, sep) == [s[0]] + rest[0];
        assert s == [s[0]] + s[1..];
      } else {
        assert parts[1..] == rest[1..];
        calc {
          Join(parts, sep);
          ([s[0]] + rest[0]) + [sep] + Join(rest[1..], sep);
          [s[0]] + (rest[0] + [sep] + Join(rest[1..], sep));
          [s[0]] + Join(rest, sep);
          s;
        }
      }
    }
  }

  /** A string without the separator splits into itself alone. */
  lemma {:induction false} SplitWithoutSeparator(s: string, sep: char)
    requires sep !in s
    ensures Split(s, sep) == [s]
    decreases |s|
  {
    if s != [] {
      SplitWithoutSeparator(s[1..], sep);
      assert [s[0]] + s[1..] == s;
    }
  }

  /** Splitting `p + sep + t`, where `p` holds no separator, yields `p` then the pieces of `t`. */
  lemma {:induction false} SplitAfterPiece(p: string, t: string, sep: char)
    requires sep !in p
    ensures Split(p + [sep] + t, sep) == [p] + Split(t, sep)
    decreases |p|
  {
    var s := p + [sep] + t;
    if p == [] {
      assert s[1..] == t;
    } else {
      assert s[1..] == p[1..] + [sep] + t;
      SplitAfterPiece(p[1..], t, sep);
      var rest := Split(s[1..], sep);
      assert rest == [p[1..]] + Split(t, sep);
      assert [s[0]] + rest[0] == p;
    }
  }

  /** Splitting a join of separator-free pieces gives back the pieces. */
  lemma {:induction false} SplitJoin(parts: seq<string>, sep: char)
    requires |parts| >= 1
    requires forall k :: 0 <= k < |parts| ==> sep !in parts[k]
    ensures Split(Join(parts, sep), sep) == parts
    decreases |parts|
  {
    if |parts| == 1 {
      SplitWithoutSeparator(parts[0], sep);
    } else {
      SplitJoin(parts[1..], sep);
      SplitAfterPiece(parts[0], Join(parts[1..], sep), sep);
      assert [parts[0]] + parts[1..] == parts;
    }
  }

  // ---------------------------------------------------------------------------
  // strip

  predicate AllSpace(s: string)
  {
    forall i :: 0 <= i < |s| ==> IsSpace(s[i])
  }

  /** Neither end of `s` is whitespace. */
  predicate IsStripped(s: string)
  {
    |s| > 0 ==> !IsSpace(s[0]) && !IsSpace(s[|s| - 1])
  }

  /** `s.lstrip()` */
  function StripLeft(s: string): (r: string)
    ensures |r| <= |s|
    ensures |r| > 0 ==> !IsSpace(r[0]) && r[|r| - 1] == s[|s| - 1]
    decreases |s|
  {
    if |s| > 0 && IsSpace(s[0]) then StripLeft(s[1..]) else s
  }

  /** `s.rstrip()` */
  function StripRight(s: string): (r: string)
    ensures |r| <= |s|
    ensures |r| > 0 ==> !IsSpace(r[|r| - 1]) && r[0] == s[0]
    decreases |s|
  {
    if |s| > 0 && IsSpace(s[|s| - 1]) then StripRight(s[..|s| - 1]) else s
  }

  /** `s.lstrip()` drops the leading whitespace and keeps the rest. */
  lemma {:induction false} StripLeftSuffix(s: string)
    ensures StripLeft(s) == s[|s| - |StripLeft(s)|..]
    ensures AllSpace(s[..|s| - |StripLeft(s)|])
    decreases |s|
  {
    if |s| > 0 && IsSpace(s[0]) {
      var t := s[1..];
      StripLeftSuffix(t);
      var n := |s| - |StripLeft(s)|;
      assert StripLeft(s) == StripLeft(t);
      assert t[n - 1..] == s[n..];
      forall i | 0 <= i < n ensures IsSpace(s[..n][i]) {
        if i > 0 {
          assert s[..n][i] == t[..n - 1][i - 1];
          assert IsSpace(t[..n - 1][i - 1]);
        } else {
          assert s[..n][i] == s[0];
        }
      }
    }
  }

  /** `s.rstrip()` drops the trailing whitespace and keeps the rest. */
  lemma {:induction false} StripRightPrefix(s: string)
    ensures StripRight(s) == s[..|StripRight(s)|]
    ensures AllSpace(s[|StripRight(s)|..])
    decreases |s|
  {
    if |s| > 0 && IsSpace(s[|s| - 1]) {
      var t := s[..|s| - 1];
      StripRightPrefix(t);
      var n := |StripRight(s)|;
      assert t[..n] == s[..n];
    }
  }

  /** `s.strip()`: the result neither starts nor ends with whitespace. */
  function Strip(s: string): (r: string)
    ensures IsStripped(r)
  {
    StripRight(StripLeft(s))
  }

  /** `s` is some whitespace, then `Strip(s)`, then some whitespace. */
  lemma StripSurroundings(s: string)
    ensures StrippedAt(s, Strip(s), |s| - |StripLeft(s)|)
  {
    var l := StripLeft(s);
    StripLeftSuffix(s);
    StripRightPrefix(l);
    SliceOfSuffix(s, |s| - |l|, |StripRight(l)|);
  }

  /** `r` sits at index `i` of `s` with only whitespace around it. */
  ghost predicate StrippedAt(s: string, r: string, i: int)
  {
    && 0 <= i <= i + |r| <= |s|
    && r == s[i..i + |r|]
    && AllSpace(s[..i])
    && AllSpace(s[i + |r|..])
  }

  lemma SliceOfSuffix(s: string, i: nat, n: nat)
    requires i + n <= |s|
    ensures s[i..][..n] == s[i..i + n]
    ensures s[i..][n..] == s[i + n..]
  {
  }

  /** Stripping a string that is already stripped changes nothing. */
  lemma StripStripped(s: string)
    requires IsStripped(s)
    ensures Strip(s) == s
  {
  }
}
