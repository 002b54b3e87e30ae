/**
  The JavaScript string built-ins the core relies on, as functions on `seq<char>`:
  `trim`, `startsWith`/`endsWith`, `includes`, a global `replace` of a literal
  pattern, and `Array.prototype.join`.
 */
module Text {

  /** The characters `String.prototype.trim` removes: WhiteSpace and LineTerminator of ECMA-262. */
  predicate IsJsWhitespace(c: char) {
    || c == ' ' || c == '\t' || c == '\n' || c == '\r' || c == '\U{000B}' || c == '\U{000C}'
    || c == '\U{00A0}' || c == '\U{1680}' || ('\U{2000}' <= c <= '\U{200A}')
    || c == '\U{2028}' || c == '\U{2029}' || c == '\U{202F}' || c == '\U{205F}'
    || c == '\U{3000}' || c == '\U{FEFF}'
  }

  predicate AllWhitespace(s: string) {
    forall i :: 0 <= i < |s| ==> IsJsWhitespace(s[i])
  }

  /** `s` with its leading whitespace removed. */
  function TrimStart(s: string): string
  {
    if |s| > 0 && IsJsWhitespace(s[0]) then TrimStart(s[1..]) else s
  }

  /** What `TrimStart` keeps is a suffix that does not start with whitespace, after a whitespace prefix. */
  lemma {:induction false} TrimStartSpec(s: string)
    ensures var t := TrimStart(s);
      && |t| <= |s| && t == s[|s| - |t|..]
      && (t == [] || !IsJsWhitespace(t[0]))
      && forall i :: 0 <= i < |s| - |t| ==> IsJsWhitespace(s[i])
    decreases |s|
  {
    if |s| > 0 && IsJsWhitespace(s[0]) {
      TrimStartSpec(s[1..]);
      var t := TrimStart(s);
      assert s[1..][|s| - 1 - |t|..] == s[|s| - |t|..];
      forall i | 1 <= i < |s| - |t| ensures IsJsWhitespace(s[i]) {
        assert s[1..][i - 1] == s[i];
      }
    }
  }

  /** `s` with its trailing whitespace removed. */
  function TrimEnd(s: string): string
  {
    if |s| > 0 && IsJsWhitespace(s[|s| - 1]) then TrimEnd(s[..|s| - 1]) else s
  }

  /** What `TrimEnd` keeps is a prefix that does not end with whitespace, before a whitespace suffix. */
  lemma {:induction false} TrimEndSpec(s: string)
    ensures var t := TrimEnd(s);
      && |t| <= |s| && t == s[..|t|]
      && (t == [] || !IsJsWhitespace(t[|t| - 1]))
      && forall i :: |t| <= i < |s| ==> IsJsWhitespace(s[i])
    decreases |s|
  {
    if |s| > 0 && IsJsWhitespace(s[|s| - 1]) {
      var k := |s| - 1;
      TrimEndSpec(s[..k]);
      var t := TrimEnd(s);
      assert s[..k][..|t|] == s[..|t|];
      forall i | |t| <= i < k ensures IsJsWhitespace(s[i]) {
        assert s[..k][i] == s[i];
      }
    }
  }

  /** Models `String.prototype.trim`. */
  function Trim(s: string): string
  {
    TrimEnd(TrimStart(s))
  }

  /**
    Trim removes exactly a whitespace prefix and a whitespace suffix: what is left is the
    slice `s[lo..hi]`, which neither starts nor ends with whitespace.
   */
  lemma TrimIsMaximalSlice(s: string) returns (lo: nat, hi: nat)
    ensures lo <= hi <= |s| && Trim(s) == s[lo..hi]
    ensures forall i :: 0 <= i < lo ==> IsJsWhitespace(s[i])
    ensures forall i :: hi <= i < |s| ==> IsJsWhitespace(s[i])
    ensures lo < hi ==> !IsJsWhitespace(s[lo]) && !IsJsWhitespace(s[hi - 1])
  {
    var u := TrimStart(s);
    TrimStartSpec(s);
    TrimEndSpec(u);
    lo, hi := SliceOfSuffix(s, u, TrimEnd(u));
  }

  /** A prefix `t` of a suffix `u` of `s`, each cut off at whitespace only, is a slice of `s`. */
  lemma SliceOfSuffix(s: string, u: string, t: string) returns (lo: nat, hi: nat)
    requires |u| <= |s| && u == s[|s| - |u|..]
    requires forall i :: 0 <= i < |s| - |u| ==> IsJsWhitespace(s[i])
    requires |t| <= |u| && t == u[..|t|]
    requires forall i :: |t| <= i < |u| ==> IsJsWhitespace(u[i])
    requires t == [] || (!IsJsWhitespace(t[0]) && !IsJsWhitespace(t[|t| - 1]))
    ensures lo == |s| - |u| && hi == lo + |t| <= |s| && t == s[lo..hi]
    ensures forall i :: 0 <= i < lo ==> IsJsWhitespace(s[i])
    ensures forall i :: hi <= i < |s| ==> IsJsWhitespace(s[i])
    ensures lo < hi ==> !IsJsWhitespace(s[lo]) && !IsJsWhitespace(s[hi - 1])
  {
    lo := |s| - |u|;
    hi := lo + |t|;
    assert s[lo..][..|t|] == s[lo..hi];
    forall i | hi <= i < |s| ensures IsJsWhitespace(s[i]) {
      assert u[i - lo] == s[i];
    }
    assert lo < hi ==> t[0] == s[lo] && t[|t| - 1] == s[hi - 1];
  }

  /** The trimmed string is empty exactly when the string is whitespace only. */
  lemma TrimEmptyIffAllWhitespace(s: string)
    ensures Trim(s) == [] <==> AllWhitespace(s)
  {
    var lo, hi := TrimIsMaximalSlice(s);
  }

  /** Trimming twice is the same as trimming once. */
  lemma TrimIdempotent(s: string)
    ensures Trim(Trim(s)) == Trim(s)
  {
    var lo, hi := TrimIsMaximalSlice(s);
    var t := Trim(s);
    if t != [] {
      assert TrimStart(t) == t;
      assert TrimEnd(t) == t;
    }
  }

  predicate StartsWith(s: string, prefix: string) {
    |prefix| <= |s| && s[..|prefix|] == prefix
  }

  /** Models `String.prototype.endsWith`. */
  predicate EndsWith(s: string, suffix: string) {
    |suffix| <= |s| && s[|s| - |suffix|..] == suffix
  }

  /** Models `String.prototype.includes`: `sub` occurs at some position of `s`. */
  predicate Contains(s: string, sub: string)
    decreases |s|
  {
    StartsWith(s, sub) || (|s| > 0 && Contains(s[1..], sub))
  }

  /** `sub` occurs in `s` starting at position `i`. */
  predicate OccursAt(s: string, sub: string, i: nat) {
    i + |sub| <= |s| && s[i..i + |sub|] == sub
  }

  /** `Contains` agrees with the positional definition of an occurrence. */
  lemma {:induction false} ContainsAt(s: string, sub: string, i: nat)
    requires OccursAt(s, sub, i)
    ensures Contains(s, sub)
    decreases i
  {
    if i > 0 {
      assert s[1..][i - 1..i - 1 + |sub|] == s[i..i + |sub|];
      ContainsAt(s[1..], sub, i - 1);
    }
  }

  /** Conversely, whatever `Contains` finds is an occurrence at some position. */
  lemma {:induction false} ContainsHasPosition(s: string, sub: string)
    requires Contains(s, sub)
    ensures exists i: nat :: OccursAt(s, sub, i)
    decreases |s|
  {
    if StartsWith(s, sub) {
      assert OccursAt(s, sub, 0);
    } else {
      ContainsHasPosition(s[1..], sub);
      var i: nat :| OccursAt(s[1..], sub, i);
      assert s[1..][i..i + |sub|] == s[i + 1..i + 1 + |sub|];
      assert OccursAt(s, sub, i + 1);
    }
  }

  /** A text without the first character of `sub` cannot contain `sub`. */
  lemma {:induction false} NotContainsWithoutFirstChar(s: string, sub: string)
    requires sub != [] && sub[0] !in s
    ensures !Contains(s, sub)
    decreases |s|
  {
    if |s| > 0 {
      assert s[0] in s;
      assert sub[0] !in s[1..];
      NotContainsWithoutFirstChar(s[1..], sub);
    }
  }

  /**
    Models `s.replace(/pat/g, rep)` for a literal pattern and a replacement without `$`
    patterns: occurrences are found left to right and do not overlap.
   */
  function ReplaceAll(s: string, pat: string, rep: string): string
    requires pat != []
    decreases |s|
  {
    if |s| < |pat| then s
    else if s[..|pat|] == pat then rep + ReplaceAll(s[|pat|..], pat, rep)
    else [s[0]] + ReplaceAll(s[1..], pat, rep)
  }

  /** Without an occurrence of the pattern, the replacement changes nothing. */
  lemma {:induction false} ReplaceAllAbsent(s: string, pat: string, rep: string)
    requires pat != [] && !Contains(s, pat)
    ensures ReplaceAll(s, pat, rep) == s
    decreases |s|
  {
    if |s| >= |pat| {
      ReplaceAllAbsent(s[1..], pat, rep);
    }
  }

  /**
    The first occurrence of the pattern, found after a stretch without the pattern's first
    character, is replaced; the scan then goes on after it.
   */
  lemma {:induction false} ReplaceAllOccurrence(a: string, pat: string, rep: string, b: string)
    requires pat != [] && pat[0] !in a
    ensures ReplaceAll(a + pat + b, pat, rep) == a + rep + ReplaceAll(b, pat, rep)
    decreases |a|
  {
    var s := a + pat + b;
    if a == [] {
      assert s == pat + b && s[..|pat|] == pat && s[|pat|..] == b;
    } else {
      assert s[0] == a[0] && s[0] != pat[0];
      assert s[..|pat|] != pat;
      assert s[1..] == a[1..] + pat + b;
      assert a[0] in a;
      ReplaceAllOccurrence(a[1..], pat, rep, b);
    }
  }

  /**
    A pattern whose first character does not recur in it cannot overlap itself, so the first
    occurrence after a stretch free of the pattern is replaced, and the scan goes on after it.
   */
  lemma {:induction false} ReplaceAllFirstOccurrence(a: string, pat: string, rep: string, b: string)
    requires pat != [] && pat[0] !in pat[1..] && !Contains(a, pat)
    ensures ReplaceAll(a + pat + b, pat, rep) == a + rep + ReplaceAll(b, pat, rep)
    decreases |a|
  {
    var s := a + pat + b;
    if a == [] {
      assert s == pat + b && s[..|pat|] == pat && s[|pat|..] == b;
    } else {
      assert !StartsWith(a, pat) && !Contains(a[1..], pat);
      ReplaceAllFirstOccurrence(a[1..], pat, rep, b);
      ReplaceAllPastFirst(a, pat, rep, b);
    }
  }

  /** The inductive step: the first character of `a` is kept, and the rest is replaced as before. */
  lemma ReplaceAllPastFirst(a: string, pat: string, rep: string, b: string)
    requires pat != [] && pat[0] !in pat[1..] && a != [] && !StartsWith(a, pat)
    requires ReplaceAll(a[1..] + pat + b, pat, rep) == a[1..] + rep + ReplaceAll(b, pat, rep)
    ensures ReplaceAll(a + pat + b, pat, rep) == a + rep + ReplaceAll(b, pat, rep)
  {
    var s := a + pat + b;
    NoOccurrenceAtStart(a, pat, b);
    assert s[1..] == a[1..] + pat + b;
    assert [a[0]] + (a[1..] + rep + ReplaceAll(b, pat, rep)) == a + rep + ReplaceAll(b, pat, rep);
  }

  /** Such a pattern does not occur at the start of a non-empty, pattern-free text followed by it. */
  lemma NoOccurrenceAtStart(a: string, pat: string, b: string)
    requires pat != [] && pat[0] !in pat[1..] && a != [] && !StartsWith(a, pat)
    ensures (a + pat + b)[..|pat|] != pat
  {
    var s := a + pat + b;
    if |a| >= |pat| {
      assert s[..|pat|] == a[..|pat|];
    } else {
      assert s[|a|] == pat[0];
      assert pat[|a|] == pat[1..][|a| - 1];
      assert s[..|pat|][|a|] != pat[|a|];
    }
  }

  /** Joining pattern-free parts with such a pattern and replacing it joins them with the replacement. */
  lemma {:induction false} ReplaceAllJoin(parts: seq<string>, pat: string, rep: string)
    requires pat != [] && pat[0] !in pat[1..]
    requires forall i :: 0 <= i < |parts| ==> !Contains(parts[i], pat)
    ensures ReplaceAll(Join(parts, pat), pat, rep) == Join(parts, rep)
    decreases |parts|
  {
    if |parts| == 1 {
      ReplaceAllAbsent(parts[0], pat, rep);
    } else if |parts| > 1 {
      ReplaceAllFirstOccurrence(parts[0], pat, rep, Join(parts[1..], pat));
      ReplaceAllJoin(parts[1..], pat, rep);
    }
  }

  /** Replacing a single character by text that does not contain it removes every copy of it. */
  lemma {:induction false} ReplaceCharRemovesIt(s: string, c: char, rep: string)
    requires c !in rep
    ensures c !in ReplaceAll(s, [c], rep)
    decreases |s|
  {
    if |s| >= 1 {
      ReplaceCharRemovesIt(s[1..], c, rep);
      assert s[1..] == s[|[c]|..];
    }
  }

  /** Percent-encodes the space character only, as `%20` (RFC 3986 section 2.1). */
  function EncodeSpaces(s: string): string
  {
    ReplaceAll(s, " ", "%20")
  }

  /** Percent-decodes `%20` back to a space. */
  function DecodeSpaces(s: string): string
  {
    ReplaceAll(s, "%20", " ")
  }

  /** The first character of the encoding, and how the encoding of a non-space head unfolds. */
  lemma EncodeHead(s: string)
    requires s != []
    ensures EncodeSpaces(s) != []
    ensures EncodeSpaces(s)[0] == if s[0] == ' ' then '%' else s[0]
    ensures s[0] == ' ' ==> EncodeSpaces(s) == "%20" + EncodeSpaces(s[1..])
    ensures s[0] != ' ' ==> EncodeSpaces(s) == [s[0]] + EncodeSpaces(s[1..])
  {
    if s[0] == ' ' {
      assert s[..1] == " ";
    } else {
      assert s[..1] != " ";
    }
  }

  /** The encoding starts with the digits "20" only when the text itself does. */
  lemma EncodeStarts20(t: string)
    requires t != []
    ensures StartsWith(EncodeSpaces(t), "20") ==> StartsWith(t, "20")
  {
    EncodeHead(t);
    if t[0] != ' ' && |t| >= 2 {
      EncodeHead(t[1..]);
      assert EncodeSpaces(t)[1] == EncodeSpaces(t[1..])[0];
    } else if t[0] != ' ' {
      assert t[1..] == [];
      assert EncodeSpaces(t) == [t[0]];
    }
  }

  /** Decoding undoes the encoding of any text that does not already hold a literal `%20`. */
  lemma {:induction false} DecodeEncodeSpaces(s: string)
    requires !Contains(s, "%20")
    ensures DecodeSpaces(EncodeSpaces(s)) == s
    decreases |s|
  {
    if s != [] {
      assert !Contains(s[1..], "%20");
      DecodeEncodeSpaces(s[1..]);
      var e := EncodeSpaces(s[1..]);
      EncodeHead(s);
      if s[0] == ' ' {
        var x := "%20" + e;
        assert x[..3] == "%20" && x[3..] == e;
      } else {
        var x := [s[0]] + e;
        assert x[1..] == e;
        if |x| < 3 {
          assert DecodeSpaces(e) == e;
        } else {
          assert x[..3] != "%20" by {
            if x[..3] == "%20" {
              assert x[..3] == [s[0]] + e[..2];
              assert StartsWith(e, "20");
              EncodeStarts20(s[1..]);
              assert false;
            }
          }
          assert DecodeSpaces(x) == [s[0]] + DecodeSpaces(e);
        }
      }
    }
  }

  /** Models `Array.prototype.join(sep)` on strings. */
  function Join(parts: seq<string>, sep: string): string
    decreases |parts|
  {
    if |parts| == 0 then ""
    else if |parts| == 1 then parts[0]
    else parts[0] + sep + Join(parts[1..], sep)
  }

  /** Joining two non-empty lists puts one separator between their joins. */
  lemma {:induction false} JoinAppend(a: seq<string>, b: seq<string>, sep: string)
    requires a != [] && b != []
    ensures Join(a + b, sep) == Join(a, sep) + sep + Join(b, sep)
    decreases |a|
  {
    if |a| > 1 {
      assert (a + b)[1..] == a[1..] + b;
      JoinAppend(a[1..], b, sep);
    } else {
      assert (a + b)[1..] == b;
    }
  }

  function DigitChar(d: nat): char
    requires d < 10
  {
    "0123456789"[d]
  }

  /** The decimal digits of a natural number. */
  function NatDigits(n: nat): (s: string)
    ensures |s| >= 1
    ensures forall i :: 0 <= i < |s| ==> '0' <= s[i] <= '9'
    decreases n
  {
    if n < 10 then [DigitChar(n)] else NatDigits(n / 10) + [DigitChar(n % 10)]
  }

  /** Models `Number.prototype.toString()` on an integral number. */
  function DecimalString(n: int): (s: string)
    ensures |s| >= 1
    ensures (s[0] == '-') <==> n < 0
    ensures forall i :: 0 <= i < |s| && (i > 0 || n >= 0) ==> '0' <= s[i] <= '9'
  {
    if n < 0 then "-" + NatDigits(-n) else NatDigits(n)
  }
}
