/** The JavaScript string primitives the core relies on, on `seq<char>`:
    first-occurrence search and `String.prototype.replace` with a string
    pattern, `split` on a one-character separator, and `parseInt` with no radix. */
module Text {
  import opened Common

  // ---------------------------------------------------------------------
  // Search and first-occurrence replacement
  // ---------------------------------------------------------------------

  predicate OccursAt(s: string, pat: string, i: nat)
  {
    i + |pat| <= |s| && s[i..i + |pat|] == pat
  }

  /** Index of the first occurrence of `pat` in `s` at or after `from`. */
  function IndexFrom(s: string, pat: string, from: nat): (r: Option<nat>)
    requires from <= |s|
    ensures r.Some? ==> from <= r.value && OccursAt(s, pat, r.value)
    ensures r.Some? ==> forall j :: from <= j < r.value ==> !OccursAt(s, pat, j)
    ensures r.None? ==> forall j :: from <= j <= |s| ==> !OccursAt(s, pat, j)
    decreases |s| - from
  {
    if OccursAt(s, pat, from) then Some(from)
    else if from == |s| then None
    else IndexFrom(s, pat, from + 1)
  }

  /** String.prototype.indexOf(pat). */
  function IndexOf(s: string, pat: string): (r: Option<nat>)
    ensures r.Some? ==> OccursAt(s, pat, r.value)
    ensures r.Some? ==> forall j :: 0 <= j < r.value ==> !OccursAt(s, pat, j)
    ensures r.None? ==> forall j :: 0 <= j <= |s| ==> !OccursAt(s, pat, j)
  {
    IndexFrom(s, pat, 0)
  }

  /** `s.replace(pat, rep)` with a string pattern: only the first occurrence
      is replaced (the replacement strings used here contain no `$`). */
  function ReplaceFirst(s: string, pat: string, rep: string): (r: string)
  {
    match IndexOf(s, pat)
    case None => s
    case Some(i) => s[..i] + rep + s[i + |pat|..]
  }

  /** Two occurrences that each have none before them are the same. */
  lemma FirstOccurrenceUnique(s: string, pat: string, i: nat, k: nat)
    requires OccursAt(s, pat, i) && forall j :: 0 <= j < i ==> !OccursAt(s, pat, j)
    requires OccursAt(s, pat, k) && forall j :: 0 <= j < k ==> !OccursAt(s, pat, j)
    ensures i == k
  {
  }

  /** A string without an occurrence of the pattern is left alone, and one
      that has it gets exactly its first occurrence replaced. */
  lemma ReplaceFirstSpec(s: string, pat: string, rep: string)
    ensures (forall j :: 0 <= j <= |s| ==> !OccursAt(s, pat, j)) ==> ReplaceFirst(s, pat, rep) == s
    ensures forall i: nat :: OccursAt(s, pat, i) && (forall j :: 0 <= j < i ==> !OccursAt(s, pat, j)) ==>
              ReplaceFirst(s, pat, rep) == s[..i] + rep + s[i + |pat|..]
  {
    match IndexOf(s, pat)
    case None =>
    case Some(k) =>
      assert k <= |s| && OccursAt(s, pat, k);
      forall i: nat | OccursAt(s, pat, i) && (forall j :: 0 <= j < i ==> !OccursAt(s, pat, j))
        ensures ReplaceFirst(s, pat, rep) == s[..i] + rep + s[i + |pat|..]
      {
        FirstOccurrenceUnique(s, pat, i, k);
      }
  }

  /** A replacement at the very start keeps everything after the pattern. */
  lemma ReplaceFirstAtStart(rest: string, pat: string, rep: string)
    ensures ReplaceFirst(pat + rest, pat, rep) == rep + rest
  {
    var s := pat + rest;
    assert OccursAt(s, pat, 0) by { assert s[0..|pat|] == pat; }
    assert s[|pat|..] == rest;
  }

  // ---------------------------------------------------------------------
  // split on one character
  // ---------------------------------------------------------------------

  /** `s.split(sep)` for a one-character separator: the empty string gives
      `[""]`, two adjacent separators give an empty piece. */
  function Split(s: string, sep: char): (r: seq<string>)
    ensures |r| >= 1
  {
    if s == [] then [""]
    else
      var rest := Split(s[1..], sep);
      if s[0] == sep then [""] + rest
      else [[s[0]] + rest[0]] + rest[1..]
  }

  /** `parts.join(sep)`. */
  function Join(parts: seq<string>, sep: char): string
    requires |parts| >= 1
  {
    if |parts| == 1 then parts[0] else parts[0] + [sep] + Join(parts[1..], sep)
  }

  predicate NoSeparator(parts: seq<string>, sep: char)
  {
    forall i :: 0 <= i < |parts| ==> sep !in parts[i]
  }

  /** Splitting loses nothing: the pieces hold no separator and joining them
      with it gives the string back. */
  lemma {:induction false} SplitJoin(s: string, sep: char)
    ensures NoSeparator(Split(s, sep), sep)
    ensures Join(Split(s, sep), sep) == s
  {
    if s != [] {
      SplitJoin(s[1..], sep);
      var rest := Split(s[1..], sep);
      if s[0] == sep {
        assert Split(s, sep) == [""] + rest;
        assert Split(s, sep)[1..] == rest;
      } else {
        var r := Split(s, sep);
        assert r == [[s[0]] + rest[0]] + rest[1..];
        if |rest| == 1 {
          assert Join(r, sep) == [s[0]] + rest[0];
        } else {
          assert r[1..] == rest[1..];
          assert Join(rest, sep) == rest[0] + [sep] + Join(rest[1..], sep);
        }
        forall i | 0 <= i < |r| ensures sep !in r[i] {
          if i > 0 { assert r[i] == rest[i]; }
        }
      }
    }
  }

  /** The converse round trip: pieces without the separator come back from
      splitting their join. */
  lemma {:induction false} JoinSplit(parts: seq<string>, sep: char)
    requires |parts| >= 1 && NoSeparator(parts, sep)
    ensures Split(Join(parts, sep), sep) == parts
  {
    if |parts| == 1 {
      SplitNoSeparator(parts[0], sep);
    } else {
      JoinSplit(parts[1..], sep);
      SplitPrefix(parts[0], Join(parts[1..], sep), sep);
      assert [parts[0]] + parts[1..] == parts;
    }
  }

  lemma {:induction false} SplitNoSeparator(s: string, sep: char)
    requires sep !in s
    ensures Split(s, sep) == [s]
  {
    if s != [] {
      assert sep !in s[1..];
      SplitNoSeparator(s[1..], sep);
      assert [s[0]] + s[1..] == s;
    }
  }

  lemma {:induction false} SplitPrefix(a: string, b: string, sep: char)
    requires sep !in a
    ensures Split(a + [sep] + b, sep) == [a] + Split(b, sep)
  {
    if a == [] {
      assert a + [sep] + b == [sep] + b;
      assert ([sep] + b)[1..] == b;
    } else {
      assert (a + [sep] + b)[1..] == a[1..] + [sep] + b;
      assert sep !in a[1..];
      SplitPrefix(a[1..], b, sep);
      assert [a[0]] + a[1..] == a;
    }
  }

  // ---------------------------------------------------------------------
  // parseInt with no radix
  // ---------------------------------------------------------------------

  predicate IsDigit(c: char)
  {
    '0' <= c <= '9'
  }

  predicate AllDigits(s: string)
  {
    forall i :: 0 <= i < |s| ==> IsDigit(s[i])
  }

  function DigitValue(c: char): nat
    requires IsDigit(c)
  {
    c as int - '0' as int
  }

  /** Value of a decimal digit string, most significant digit first. */
  function DigitsValue(d: string): nat
    requires AllDigits(d)
  {
    if d == [] then 0 else DigitsValue(d[..|d| - 1]) * 10 + DigitValue(d[|d| - 1])
  }

  /** The longest prefix made of decimal digits. */
  function DigitPrefix(s: string): (d: string)
    ensures AllDigits(d) && d <= s
    ensures |d| < |s| ==> !IsDigit(s[|d|])
  {
    if s == [] || !IsDigit(s[0]) then [] else [s[0]] + DigitPrefix(s[1..])
  }

  /** The white space and line terminators `parseInt` trims from the front
      (sections 12.2 and 12.3 of ECMA-262, 2022 edition): tab, line feed,
      vertical tab, form feed, carriage return, the space separators of
      Unicode category Zs, U+2028, U+2029 and U+FEFF. */
  predicate IsSpace(c: char)
  {
    var n := c as int;
    0x09 <= n <= 0x0D || n == 0x20 || n == 0xA0 || n == 0x1680 ||
    0x2000 <= n <= 0x200A || n == 0x2028 || n == 0x2029 || n == 0x202F ||
    n == 0x205F || n == 0x3000 || n == 0xFEFF
  }

  function TrimStart(s: string): (t: string)
    ensures |t| <= |s| && t == s[|s| - |t|..]
    ensures t != [] ==> !IsSpace(t[0])
  {
    if s != [] && IsSpace(s[0]) then TrimStart(s[1..]) else s
  }

  function ParseDigits(s: string): Option<nat>
  {
    var d := DigitPrefix(s);
    if d == [] then None else Some(DigitsValue(d))
  }

  predicate IsHexDigit(c: char)
  {
    IsDigit(c) || 'a' <= c <= 'f' || 'A' <= c <= 'F'
  }

  predicate AllHex(s: string)
  {
    forall i :: 0 <= i < |s| ==> IsHexDigit(s[i])
  }

  function HexDigitValue(c: char): (v: nat)
    requires IsHexDigit(c)
    ensures v < 16
  {
    if IsDigit(c) then DigitValue(c)
    else if 'a' <= c <= 'f' then c as int - 'a' as int + 10
    else c as int - 'A' as int + 10
  }

  /** Value of a hexadecimal digit string, most significant digit first. */
  function HexValue(d: string): nat
    requires AllHex(d)
  {
    if d == [] then 0 else HexValue(d[..|d| - 1]) * 16 + HexDigitValue(d[|d| - 1])
  }

  /** The longest prefix made of hexadecimal digits. */
  function HexPrefix(s: string): (d: string)
    ensures AllHex(d) && d <= s
    ensures |d| < |s| ==> !IsHexDigit(s[|d|])
  {
    if s == [] || !IsHexDigit(s[0]) then [] else [s[0]] + HexPrefix(s[1..])
  }

  /** Without a radix, `parseInt` reads `0x`/`0X` as the mark of base 16. */
  predicate HexMarked(t: string)
  {
    |t| >= 2 && t[0] == '0' && (t[1] == 'x' || t[1] == 'X')
  }

  /** The unsigned part: hexadecimal after the mark, decimal otherwise. */
  function ParseMagnitude(t: string): Option<nat>
  {
    if HexMarked(t) then
      var d := HexPrefix(t[2..]);
      if d == [] then None else Some(HexValue(d))
    else ParseDigits(t)
  }

  /** `parseInt(s)` with no radix: leading white space, an optional sign,
      then the longest run of hexadecimal digits after `0x`/`0X`, or of
      decimal digits otherwise; `None` stands for NaN. */
  function ParseInt(s: string): Option<int>
  {
    ParseTrimmed(TrimStart(s))
  }

  /** What `parseInt` reads once the leading white space is gone. */
  function ParseTrimmed(t: string): Option<int>
  {
    if t != [] && t[0] == '-' then
      match ParseMagnitude(t[1..])
      case None => None
      case Some(n) => Some(0 - n as int)
    else if t != [] && t[0] == '+' then
      match ParseMagnitude(t[1..])
      case None => None
      case Some(n) => Some(n)
    else
      match ParseMagnitude(t)
      case None => None
      case Some(n) => Some(n)
  }

  /** Leading white space, of any of the kinds above, never changes what
      `parseInt` reads: `parseInt("\v5")` is 5. */
  lemma ParseIntSkipsSpace(c: char, s: string)
    requires IsSpace(c)
    ensures ParseInt([c] + s) == ParseInt(s)
  {
    TrimSpace(c, s);
  }

  lemma TrimSpace(c: char, s: string)
    requires IsSpace(c)
    ensures TrimStart([c] + s) == TrimStart(s)
  {
    assert ([c] + s)[1..] == s;
  }

  function DigitChar(d: nat): (c: char)
    requires d < 10
    ensures IsDigit(c) && DigitValue(c) == d
  {
    ('0' as int + d) as char
  }

  /** Decimal rendering of a natural number (String(n)). */
  function NatToString(n: nat): (s: string)
    ensures AllDigits(s) && |s| >= 1
  {
    if n < 10 then [DigitChar(n)] else NatToString(n / 10) + [DigitChar(n % 10)]
  }

  lemma {:induction false} NatToStringValue(n: nat)
    ensures DigitsValue(NatToString(n)) == n
  {
    var s := NatToString(n);
    if n >= 10 {
      NatToStringValue(n / 10);
      assert s[..|s| - 1] == NatToString(n / 10);
    } else {
      assert s[..0] == [];
    }
  }

  lemma {:induction false} DigitPrefixOfDigits(s: string)
    requires AllDigits(s)
    ensures DigitPrefix(s) == s
  {
    if s != [] {
      DigitPrefixOfDigits(s[1..]);
    }
  }

  /** parseInt reads back what String(n) wrote. */
  lemma ParseIntOfNat(n: nat)
    ensures ParseInt(NatToString(n)) == Some(n)
  {
    var s := NatToString(n);
    DigitPrefixOfDigits(s);
    NatToStringValue(n);
    assert !IsSpace(s[0]) && s[0] != '-' && s[0] != '+';
    assert !HexMarked(s) by {
      if |s| >= 2 {
        assert IsDigit(s[1]);
      }
    }
  }

  lemma {:induction false} HexPrefixOfHex(s: string)
    requires AllHex(s)
    ensures HexPrefix(s) == s
  {
    if s != [] {
      HexPrefixOfHex(s[1..]);
    }
  }

  lemma ParseIntMarked(t: string)
    requires HexMarked(t) && t[2..] != [] && AllHex(t[2..])
    ensures ParseInt(t) == Some(HexValue(t[2..]))
  {
    HexPrefixOfHex(t[2..]);
    assert TrimStart(t) == t;
  }

  /** A `0x` (or `0X`) numeral is read in base 16. */
  lemma ParseIntHex(rest: string)
    requires rest != [] && AllHex(rest)
    ensures ParseInt("0x" + rest) == Some(HexValue(rest))
    ensures ParseInt("0X" + rest) == Some(HexValue(rest))
  {
    var lower, upper := "0x" + rest, "0X" + rest;
    assert lower[2..] == rest && upper[2..] == rest;
    ParseIntMarked(lower);
    ParseIntMarked(upper);
  }

  /** The mark alone, or the mark before a non-hexadecimal letter, is NaN. */
  lemma ParseIntHexMarkOnly(rest: string)
    requires rest == [] || !IsHexDigit(rest[0])
    ensures ParseInt("0x" + rest).None?
  {
    var t := "0x" + rest;
    assert t[0] == '0' && t[1] == 'x' && t[2..] == rest;
    assert TrimStart(t) == t;
    assert HexPrefix(rest) == [];
    assert ParseMagnitude(t) == None;
  }
}
