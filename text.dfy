/**
 * The few Python `str` operations the two cookie readers and the downloader
 * rely on, each defined on `string` (a sequence of Unicode scalar values,
 * which is what a decoded Python `str` is).
 */
module Text {
  import opened Maybe

  // ---------------------------------------------------------------------------
  // Whitespace and str.strip()
  // ---------------------------------------------------------------------------

  /** Python's `str.isspace()` for one character: the ASCII controls
      TAB..CR and FS..US, SPACE, NEL, NBSP, OGHAM SPACE MARK, the spaces
      U+2000..U+200A, LINE/PARAGRAPH SEPARATOR, NNBSP, MMSP and IDEOGRAPHIC SPACE. */
  predicate IsSpace(c: char) {
    || ('\t' <= c <= '\r')
    || ('\U{1C}' <= c <= ' ')
    || c == '\U{85}' || c == '\U{A0}' || c == '\U{1680}'
    || ('\U{2000}' <= c <= '\U{200A}')
    || c == '\U{2028}' || c == '\U{2029}' || c == '\U{202F}'
    || c == '\U{205F}' || c == '\U{3000}'
  }

  predicate AllSpace(s: string) {
    forall i | 0 <= i < |s| :: IsSpace(s[i])
  }

  /** `s.lstrip()`: `s` without its leading whitespace. */
  function LStrip(s: string): (r: string)
    ensures |r| <= |s|
    ensures r == [] || !IsSpace(r[0])
  {
    if s != [] && IsSpace(s[0]) then LStrip(s[1..]) else s
  }

  /** `lstrip` removes a prefix, and that prefix is whitespace. */
  lemma {:induction false} LStripShape(s: string)
    ensures LStrip(s) == s[|s| - |LStrip(s)|..]
    ensures AllSpace(s[..|s| - |LStrip(s)|])
  {
    if s != [] && IsSpace(s[0]) {
      var r := LStrip(s[1..]);
      LStripShape(s[1..]);
      assert s[..|s| - |r|] == [s[0]] + s[1..][..|s| - 1 - |r|];
    }
  }

  /** `s.rstrip()`: `s` without its trailing whitespace. */
  function RStrip(s: string): (r: string)
    ensures |r| <= |s|
    ensures r == [] || !IsSpace(r[|r| - 1])
  {
    if s != [] && IsSpace(s[|s| - 1]) then RStrip(s[..|s| - 1]) else s
  }

  /** `rstrip` removes a suffix, and that suffix is whitespace. */
  lemma {:induction false} RStripShape(s: string)
    ensures RStrip(s) == s[..|RStrip(s)|]
    ensures AllSpace(s[|RStrip(s)|..])
  {
    if s != [] && IsSpace(s[|s| - 1]) {
      var r := RStrip(s[..|s| - 1]);
      RStripShape(s[..|s| - 1]);
      assert s[|r|..] == s[..|s| - 1][|r|..] + [s[|s| - 1]];
    }
  }

  /** `s.strip()` with no argument. */
  function Strip(s: string): (r: string)
    ensures |r| <= |s|
    ensures r == [] || (!IsSpace(r[0]) && !IsSpace(r[|r| - 1]))
  {
    RStripShape(LStrip(s));
    RStrip(LStrip(s))
  }

  /** A character that is not whitespace survives stripping. */
  lemma StripKeeps(s: string, c: char)
    requires c in s && !IsSpace(c)
    ensures c in Strip(s)
  {
    var l := LStrip(s);
    var i :| 0 <= i < |s| && s[i] == c;
    var d := |s| - |l|;
    LStripShape(s);
    assert forall k | 0 <= k < d :: s[..d][k] == s[k];
    assert l[i - d] == c;
    var r := RStrip(l);
    RStripShape(l);
    assert forall k | |r| <= k < |l| :: l[|r|..][k - |r|] == l[k];
    assert r[i - d] == c;
  }

  /** Stripping leaves nothing exactly when every character is whitespace. */
  lemma StripBlank(s: string)
    ensures Strip(s) == [] <==> AllSpace(s)
  {
    var l := LStrip(s);
    var d := |s| - |l|;
    LStripShape(s);
    RStripShape(l);
    if Strip(s) == [] {
      assert l == [] by {
        assert AllSpace(l[0..]);
        assert l[0..] == l;
      }
      forall i | 0 <= i < |s| ensures IsSpace(s[i]) {
        assert s[..d][i] == s[i];
      }
    } else {
      var c := Strip(s)[0];
      assert c in s by {
        assert RStrip(l)[0] == l[0] == s[d];
      }
    }
  }

  /** A string that neither starts nor ends with whitespace is its own strip. */
  lemma StripFixed(t: string)
    requires t == [] || (!IsSpace(t[0]) && !IsSpace(t[|t| - 1]))
    ensures Strip(t) == t
  {
  }

  // ---------------------------------------------------------------------------
  // str.lower(), restricted to ASCII letters
  // ---------------------------------------------------------------------------

  predicate IsUpperAscii(c: char) {
    'A' <= c <= 'Z'
  }

  function LowerChar(c: char): char {
    if IsUpperAscii(c) then (c as int + 32) as char else c
  }

  /** `s.lower()` for the ASCII letters A..Z; every other character is kept. */
  function ToLower(s: string): (r: string)
    ensures |r| == |s|
    ensures forall i | 0 <= i < |s| :: !IsUpperAscii(r[i])
    ensures forall i | 0 <= i < |s| :: r[i] == LowerChar(s[i])
  {
    if s == [] then [] else [LowerChar(s[0])] + ToLower(s[1..])
  }

  /** Lower-casing twice is lower-casing once. */
  lemma ToLowerIdempotent(s: string)
    ensures ToLower(ToLower(s)) == ToLower(s)
  {
    var r := ToLower(s);
    assert forall i | 0 <= i < |s| :: ToLower(r)[i] == LowerChar(r[i]) == r[i];
  }

  /** The lower-cased strip of a string is again stripped: no leading or
      trailing whitespace can appear, since lower-casing maps no character
      to or from whitespace. */
  lemma LowerOfStripIsStripped(s: string)
    ensures Strip(ToLower(Strip(s))) == ToLower(Strip(s))
  {
    var t := Strip(s);
    var l := ToLower(t);
    if t != [] {
      assert l[0] == LowerChar(t[0]);
      assert l[|l| - 1] == LowerChar(t[|t| - 1]);
    }
    StripFixed(l);
  }

  // ---------------------------------------------------------------------------
  // Prefixes, suffixes and substrings
  // ---------------------------------------------------------------------------

  /** `s.startswith(prefix)` */
  predicate StartsWith(s: string, prefix: string) {
    |prefix| <= |s| && s[..|prefix|] == prefix
  }

  /** `s.endswith(suffix)` */
  predicate EndsWith(s: string, suffix: string) {
    |suffix| <= |s| && s[|s| - |suffix|..] == suffix
  }

  predicate OccursAt(s: string, sub: string, i: int) {
    0 <= i && i + |sub| <= |s| && s[i..i + |sub|] == sub
  }

  /** Python's `sub in s`: a case-sensitive substring test. */
  predicate Contains(s: string, sub: string) {
    exists i | 0 <= i <= |s| - |sub| :: OccursAt(s, sub, i)
  }

  /** A substring of a substring is a substring. */
  lemma ContainsTransitive(s: string, t: string, u: string)
    requires Contains(s, t) && Contains(t, u)
    ensures Contains(s, u)
  {
    var i :| 0 <= i <= |s| - |t| && OccursAt(s, t, i);
    var j :| 0 <= j <= |t| - |u| && OccursAt(t, u, j);
    assert forall k | 0 <= k < |u| :: s[i + j + k] == t[j + k] == u[k];
    assert s[i + j..i + j + |u|] == u;
    assert OccursAt(s, u, i + j);
  }

  // ---------------------------------------------------------------------------
  // str.split(sep) and the unpacking `a, b = s.split(sep, 1)`
  // ---------------------------------------------------------------------------

  /** `s.split(sep)` for a one-character separator: every field, empty ones
      included, so there is always at least one. */
  function Split(s: string, sep: char): (parts: seq<string>)
    ensures |parts| >= 1
    ensures forall k | 0 <= k < |parts| :: sep !in parts[k]
  {
    if s == [] then [[]]
    else
      var rest := Split(s[1..], sep);
      if s[0] == sep then [[]] + rest else [[s[0]] + rest[0]] + rest[1..]
  }

  /** `sep.join(parts)`, the inverse of Split. */
  function Join(parts: seq<string>, sep: char): string
    requires |parts| >= 1
  {
    if |parts| == 1 then parts[0] else parts[0] + [sep] + Join(parts[1..], sep)
  }

  /** Joining the fields of a split gives back the string. */
  lemma {:induction false} JoinSplit(s: string, sep: char)
    ensures Join(Split(s, sep), sep) == s
  {
    if s != [] {
      var rest := Split(s[1..], sep);
      JoinSplit(s[1..], sep);
      if s[0] == sep {
        assert Split(s, sep)[1..] == rest;
      } else if |rest| == 1 {
        assert Join(Split(s, sep), sep) == [s[0]] + rest[0];
      } else {
        var parts := Split(s, sep);
        assert parts[1..] == rest[1..];
        assert Join(rest, sep) == rest[0] + [sep] + Join(rest[1..], sep);
      }
    }
  }

  /** Splitting `w + t` where `w` holds no separator glues `w` onto the first field of `t`. */
  lemma {:induction false} SplitAfterPlain(w: string, t: string, sep: char)
    requires sep !in w
    ensures Split(w + t, sep) == [w + Split(t, sep)[0]] + Split(t, sep)[1..]
  {
    var fields := Split(t, sep);
    if w != [] {
      var u := w[1..];
      SplitAfterPlain(u, t, sep);
      var inner := Split(u + t, sep);
      assert inner == [u + fields[0]] + fields[1..];
      assert (w + t)[1..] == u + t;
      assert Split(w + t, sep) == [[w[0]] + inner[0]] + inner[1..];
      assert [w[0]] + (u + fields[0]) == w + fields[0];
    } else {
      assert w + t == t;
      assert w + fields[0] == fields[0];
      assert [fields[0]] + fields[1..] == fields;
    }
  }

  /** Split recovers the fields it was joined from, as long as no field holds the separator. */
  lemma {:induction false} SplitJoin(parts: seq<string>, sep: char)
    requires |parts| >= 1
    requires forall k | 0 <= k < |parts| :: sep !in parts[k]
    ensures Split(Join(parts, sep), sep) == parts
  {
    if |parts| == 1 {
      SplitAfterPlain(parts[0], [], sep);
      assert parts[0] + [] == parts[0];
    } else {
      var tail := Join(parts[1..], sep);
      SplitJoin(parts[1..], sep);
      assert Split([sep] + tail, sep) == [[]] + parts[1..] by {
        assert ([sep] + tail)[1..] == tail;
      }
      SplitAfterPlain(parts[0], [sep] + tail, sep);
      assert parts[0] + [sep] + tail == parts[0] + ([sep] + tail);
      assert parts[0] + [] == parts[0];
      assert [parts[0]] + parts[1..] == parts;
    }
  }

  /** `head, tail = s.split(sep, 1)`: the text before the first separator and
      the rest. Python raises a ValueError when `s` holds no separator (the
      split yields one element, not two); that is `None` here. */
  function SplitOnce(s: string, sep: char): (r: Option<(string, string)>)
    ensures r.None? <==> sep !in s
    ensures r.Some? ==> r.value.0 + [sep] + r.value.1 == s && sep !in r.value.0
  {
    if s == [] then None
    else if s[0] == sep then Some(([], s[1..]))
    else
      match SplitOnce(s[1..], sep)
      case None => None
      case Some((head, tail)) => Some(([s[0]] + head, tail))
  }

  /** The split is at the FIRST separator: any decomposition whose head has
      no separator is the one SplitOnce returns. */
  lemma {:induction false} SplitOnceUnique(s: string, sep: char, head: string, tail: string)
    requires s == head + [sep] + tail && sep !in head
    ensures SplitOnce(s, sep) == Some((head, tail))
  {
    if head == [] {
      assert s[1..] == tail;
    } else {
      assert s[1..] == head[1..] + [sep] + tail;
      SplitOnceUnique(s[1..], sep, head[1..], tail);
      assert [s[0]] + head[1..] == head;
    }
  }

  // ---------------------------------------------------------------------------
  // s.encode('ascii', errors='ignore').decode('ascii')
  // ---------------------------------------------------------------------------

  predicate IsAsciiChar(c: char) {
    c < '\U{80}'
  }

  predicate IsAscii(s: string) {
    forall i | 0 <= i < |s| :: IsAsciiChar(s[i])
  }

  /** Drops every non-ASCII character of `s`. */
  function AsciiOnly(s: string): (r: string)
    ensures IsAscii(r)
    ensures |r| <= |s|
  {
    if s == [] then []
    else (if IsAsciiChar(s[0]) then [s[0]] else []) + AsciiOnly(s[1..])
  }

  /** On one character the filter keeps it when it is ASCII and drops it otherwise. */
  lemma AsciiOnlyChar(c: char)
    ensures AsciiOnly([c]) == if IsAsciiChar(c) then [c] else []
  {
    assert [c][1..] == [];
  }

  /** The filter works character by character: it distributes over concatenation,
      which with AsciiOnlyChar says it keeps the ASCII characters in order and
      drops the others. */
  lemma {:induction false} AsciiOnlyAppend(s: string, t: string)
    ensures AsciiOnly(s + t) == AsciiOnly(s) + AsciiOnly(t)
  {
    if s != [] {
      assert (s + t)[1..] == s[1..] + t;
      AsciiOnlyAppend(s[1..], t);
    } else {
      assert s + t == t;
    }
  }

  /** An ASCII string passes the filter unchanged. */
  lemma {:induction false} AsciiOnlyKeepsAscii(s: string)
    requires IsAscii(s)
    ensures AsciiOnly(s) == s
  {
    if s != [] {
      AsciiOnlyKeepsAscii(s[1..]);
    }
  }

  /** Filtering twice is filtering once. */
  lemma AsciiOnlyIdempotent(s: string)
    ensures AsciiOnly(AsciiOnly(s)) == AsciiOnly(s)
  {
    AsciiOnlyKeepsAscii(AsciiOnly(s));
  }
}
