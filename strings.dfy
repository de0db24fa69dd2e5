/** The JavaScript string operations the source relies on, over `seq<char>`. */
module Strings {
  import opened Common

  /** `sub` occurs in `s` starting at offset `i`. */
  predicate OccursAt(s: string, sub: string, i: int) {
    0 <= i <= |s| - |sub| && s[i..i + |sub|] == sub
  }

  /** `s.includes(sub)`: `sub` occurs at some offset of `s`. */
  ghost predicate Occurs(s: string, sub: string) {
    exists i :: OccursAt(s, sub, i)
  }

  /** A scanner for `includes`, proved equal to the occurrence predicate. */
  function Contains(s: string, sub: string): (r: bool)
    ensures r <==> Occurs(s, sub)
    decreases |s|
  {
    if |sub| > |s| then false
    else if s[..|sub|] == sub then assert OccursAt(s, sub, 0); true
    else
      var r := Contains(s[1..], sub);
      assert r ==> Occurs(s, sub) by {
        if r {
          var i :| OccursAt(s[1..], sub, i);
          assert s[i + 1..i + 1 + |sub|] == s[1..][i..i + |sub|];
          assert OccursAt(s, sub, i + 1);
        }
      }
      assert Occurs(s, sub) ==> r by {
        if Occurs(s, sub) {
          var i :| OccursAt(s, sub, i);
          assert i != 0;
          assert s[1..][i - 1..i - 1 + |sub|] == s[i..i + |sub|];
          assert OccursAt(s[1..], sub, i - 1);
        }
      }
      r
  }

  lemma {:induction false} EmptyOccurs(s: string)
    ensures Contains(s, "")
  {
    assert OccursAt(s, "", 0);
  }

  /** ASCII lower-casing, as `toLowerCase` does on the ASCII range. */
  function LowerChar(c: char): char {
    if 'A' <= c <= 'Z' then (c as int + 32) as char else c
  }

  function Lower(s: string): (r: string)
    ensures |r| == |s|
    ensures forall i :: 0 <= i < |s| ==> r[i] == LowerChar(s[i])
  {
    if s == [] then [] else [LowerChar(s[0])] + Lower(s[1..])
  }

  /** A case-insensitive `contains` filter (Postgres ILIKE '%sub%', ASCII only). */
  predicate ContainsInsensitive(s: string, sub: string) {
    Contains(Lower(s), Lower(sub))
  }

  /** Index of the first occurrence of `c`, if any. */
  function IndexOf(s: string, c: char): (r: Option<nat>)
    ensures r.Some? ==> r.value < |s| && s[r.value] == c && c !in s[..r.value]
    ensures r.None? ==> c !in s
  {
    if s == [] then None
    else if s[0] == c then Some(0)
    else
      match IndexOf(s[1..], c)
      case None => None
      case Some(i) =>
        assert s[..i + 1] == [s[0]] + s[1..][..i];
        Some(i + 1)
  }

  /** `s.split(sep)` for a one-character separator. */
  function Split(s: string, sep: char): (r: seq<string>)
    ensures |r| >= 1
    ensures forall k :: 0 <= k < |r| ==> sep !in r[k]
    decreases |s|
  {
    match IndexOf(s, sep)
    case None => [s]
    case Some(i) => [s[..i]] + Split(s[i + 1..], sep)
  }

  /** `parts.join(sep)`, the inverse of `Split`. */
  function Join(parts: seq<string>, sep: char): string
    requires |parts| >= 1
  {
    if |parts| == 1 then parts[0] else parts[0] + [sep] + Join(parts[1..], sep)
  }

  lemma {:induction false} SplitJoin(s: string, sep: char)
    ensures Join(Split(s, sep), sep) == s
    decreases |s|
  {
    match IndexOf(s, sep)
    case None =>
    case Some(i) =>
      var parts := Split(s[i + 1..], sep);
      SplitJoin(s[i + 1..], sep);
      var all := [s[..i]] + parts;
      assert Split(s, sep) == all;
      assert all[1..] == parts;
      assert Join(all, sep) == s[..i] + [sep] + Join(parts, sep);
      assert s == s[..i] + [sep] + s[i + 1..];
  }

  /** Splitting a word that has no separator, followed by the separator and a rest. */
  lemma {:induction false} SplitAfterWord(w: string, sep: char, rest: string)
    requires sep !in w
    ensures Split(w + [sep] + rest, sep) == [w] + Split(rest, sep)
  {
    var s := w + [sep] + rest;
    var i := IndexOf(s, sep);
    assert s[|w|] == sep;
    assert s[..|w|] == w;
    assert sep in s;
    assert forall k :: 0 <= k < |w| ==> s[k] == w[k];
    assert i == Some(|w|);
    assert s[|w| + 1..] == rest;
  }

  lemma {:induction false} SplitNoSeparator(w: string, sep: char)
    requires sep !in w
    ensures Split(w, sep) == [w]
  {
  }

  /** `Split(s, sep).pop()`: the text after the last separator. */
  function LastSegment(s: string, sep: char): string {
    var parts := Split(s, sep);
    parts[|parts| - 1]
  }

  /** `Split(s, sep)[0]`: the text before the first separator. */
  function FirstSegment(s: string, sep: char): string {
    Split(s, sep)[0]
  }

  lemma {:induction false} LastSegmentIsSuffix(s: string, sep: char)
    ensures sep !in LastSegment(s, sep)
    ensures |LastSegment(s, sep)| <= |s|
    ensures s[|s| - |LastSegment(s, sep)|..] == LastSegment(s, sep)
    ensures |LastSegment(s, sep)| < |s| ==> s[|s| - |LastSegment(s, sep)| - 1] == sep
    decreases |s|
  {
    match IndexOf(s, sep)
    case None =>
    case Some(i) =>
      var rest := s[i + 1..];
      LastSegmentIsSuffix(rest, sep);
      assert LastSegment(s, sep) == LastSegment(rest, sep);
      var n := |LastSegment(rest, sep)|;
      assert s[|s| - n..] == rest[|rest| - n..];
      if n == |rest| {
        assert s[|s| - n - 1] == s[i];
      } else {
        assert s[|s| - n - 1] == rest[|rest| - n - 1];
      }
  }

  lemma {:induction false} FirstSegmentIsPrefix(s: string, sep: char)
    ensures sep !in FirstSegment(s, sep)
    ensures |FirstSegment(s, sep)| <= |s|
    ensures s[..|FirstSegment(s, sep)|] == FirstSegment(s, sep)
    ensures |FirstSegment(s, sep)| < |s| ==> s[|FirstSegment(s, sep)|] == sep
  {
  }

  /** The white space `String.prototype.trim` removes: ECMAScript's WhiteSpace and LineTerminator characters. */
  const WHITE_SPACE: set<char> := {
    ' ', '\t', '\n', '\r', '\U{B}', '\U{C}', '\U{A0}', '\U{1680}',
    '\U{2000}', '\U{2001}', '\U{2002}', '\U{2003}', '\U{2004}', '\U{2005}', '\U{2006}',
    '\U{2007}', '\U{2008}', '\U{2009}', '\U{200A}', '\U{2028}', '\U{2029}', '\U{202F}',
    '\U{205F}', '\U{3000}', '\U{FEFF}'}

  predicate IsSpace(c: char) {
    c in WHITE_SPACE
  }

  function TrimStart(s: string): (r: string)
    ensures |r| <= |s| && r == s[|s| - |r|..]
    ensures r != [] ==> !IsSpace(r[0])
    ensures forall i :: 0 <= i < |s| - |r| ==> IsSpace(s[i])
  {
    if s != [] && IsSpace(s[0]) then
      var t := TrimStart(s[1..]);
      assert s[1..][|s| - 1 - |t|..] == s[|s| - |t|..];
      assert forall i :: 1 <= i < |s| - |t| ==> s[i] == s[1..][i - 1];
      t
    else s
  }

  function TrimEnd(s: string): (r: string)
    ensures |r| <= |s| && r == s[..|r|]
    ensures r != [] ==> !IsSpace(r[|r| - 1])
    ensures forall i :: |r| <= i < |s| ==> IsSpace(s[i])
  {
    if s != [] && IsSpace(s[|s| - 1]) then TrimEnd(s[..|s| - 1]) else s
  }

  /** `s.trim()`: the longest infix with no space at either end. */
  function Trim(s: string): (r: string)
    ensures r == [] || (!IsSpace(r[0]) && !IsSpace(r[|r| - 1]))
    ensures Occurs(s, r)
    ensures (forall i :: 0 <= i < |s| ==> !IsSpace(s[i])) ==> r == s
  {
    TrimBothEnds(s);
    TrimEnd(TrimStart(s))
  }

  /** Trimming the start, then the end, leaves an infix of `s` with no space at
      either end, and all of `s` when `s` holds no space. */
  lemma TrimBothEnds(s: string)
    ensures var b := TrimEnd(TrimStart(s));
      (b == [] || (!IsSpace(b[0]) && !IsSpace(b[|b| - 1])))
      && OccursAt(s, b, |s| - |TrimStart(s)|)
      && ((forall i :: 0 <= i < |s| ==> !IsSpace(s[i])) ==> b == s)
  {
    TrimEnds(s);
    TrimInfix(s);
    if forall i :: 0 <= i < |s| ==> !IsSpace(s[i]) {
      TrimStartNoSpace(s);
      TrimEndNoSpace(s);
    }
  }

  lemma TrimEnds(s: string)
    ensures var b := TrimEnd(TrimStart(s));
      b == [] || (!IsSpace(b[0]) && !IsSpace(b[|b| - 1]))
  {
    var a := TrimStart(s);
    var b := TrimEnd(a);
    assert b != [] ==> b[0] == a[0];
  }

  lemma TrimInfix(s: string)
    ensures OccursAt(s, TrimEnd(TrimStart(s)), |s| - |TrimStart(s)|)
  {
    PrefixOfSuffix(s, TrimStart(s), TrimEnd(TrimStart(s)));
  }

  /** A prefix of a suffix of `s` occurs in `s` where the suffix starts. */
  lemma PrefixOfSuffix(s: string, a: string, b: string)
    requires |a| <= |s| && a == s[|s| - |a|..]
    requires |b| <= |a| && b == a[..|b|]
    ensures OccursAt(s, b, |s| - |a|)
  {
    assert s[|s| - |a|..|s| - |a| + |b|] == a[..|b|];
  }

  lemma TrimStartNoSpace(s: string)
    requires forall i :: 0 <= i < |s| ==> !IsSpace(s[i])
    ensures TrimStart(s) == s
  {
    assert s == [] || !IsSpace(s[0]);
  }

  lemma TrimEndNoSpace(s: string)
    requires forall i :: 0 <= i < |s| ==> !IsSpace(s[i])
    ensures TrimEnd(s) == s
  {
    assert s == [] || !IsSpace(s[|s| - 1]);
  }

  /** `s.padStart(width, fill)`. */
  function PadStart(s: string, width: nat, fill: char): (r: string)
    ensures |s| >= width ==> r == s
    ensures |s| < width ==> |r| == width
    ensures r[|r| - |s|..] == s
    ensures forall i :: 0 <= i < |r| - |s| ==> r[i] == fill
    decreases width - |s|
  {
    if |s| >= width then s else PadStart([fill] + s, width, fill)
  }

  /** Lexicographic order on character codes (the model's stand-in for `localeCompare`). */
  predicate StrLe(a: string, b: string) {
    if a == [] then true
    else if b == [] then false
    else if a[0] != b[0] then a[0] < b[0]
    else StrLe(a[1..], b[1..])
  }

  lemma {:induction false} StrLeTotal(a: string, b: string)
    ensures StrLe(a, b) || StrLe(b, a)
  {
    if a != [] && b != [] && a[0] == b[0] {
      StrLeTotal(a[1..], b[1..]);
    }
  }

  lemma {:induction false} StrLeTransitive(a: string, b: string, c: string)
    requires StrLe(a, b) && StrLe(b, c)
    ensures StrLe(a, c)
  {
    if a != [] && b != [] && c != [] && a[0] == b[0] && b[0] == c[0] {
      StrLeTransitive(a[1..], b[1..], c[1..]);
    }
  }

  lemma {:induction false} StrLeAntisymmetric(a: string, b: string)
    requires StrLe(a, b) && StrLe(b, a)
    ensures a == b
  {
    if a != [] && b != [] {
      StrLeAntisymmetric(a[1..], b[1..]);
      assert a == [a[0]] + a[1..];
      assert b == [b[0]] + b[1..];
    }
  }

  /** Decimal value of a string of ASCII digits. */
  predicate IsDigit(c: char) { '0' <= c <= '9' }

  function DigitsValue(s: string): (r: nat)
    requires forall i :: 0 <= i < |s| ==> IsDigit(s[i])
  {
    if s == [] then 0
    else
      assert IsDigit(s[|s| - 1]);
      DigitsValue(s[..|s| - 1]) * 10 + (s[|s| - 1] as int - '0' as int)
  }

  /** The longest run of digits at the start of `s`. */
  function LeadingDigits(s: string): (r: string)
    ensures |r| <= |s| && r == s[..|r|]
    ensures forall i :: 0 <= i < |r| ==> IsDigit(r[i])
    ensures |r| < |s| ==> !IsDigit(s[|r|])
  {
    if s != [] && IsDigit(s[0]) then [s[0]] + LeadingDigits(s[1..]) else []
  }

  /** `parseInt(s, 10) || 0`: leading white space skipped, an optional sign, then the
      value of the leading decimal digits; 0 when there are none (NaN is falsy). */
  function ParseIntOrZero(s: string): (r: int) {
    var t := TrimStart(s);
    if t != [] && t[0] == '-' then -(DigitsValue(LeadingDigits(t[1..])) as int)
    else if t != [] && t[0] == '+' then DigitsValue(LeadingDigits(t[1..]))
    else DigitsValue(LeadingDigits(t))
  }
}
