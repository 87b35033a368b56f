/** The handful of JavaScript string operations the views rely on:
    `toLowerCase`, `includes`, `trim`, `parseInt`, number-to-string and
    `padStart(2, "0")`. Case folding is modelled for ASCII letters only and
    `trim` for ASCII white space. */
module Text {
  import opened Wrappers

  // ---------------------------------------------------------------------
  // Case folding
  // ---------------------------------------------------------------------

  function Lower(c: char): (r: char)
    ensures 'A' <= c <= 'Z' ==> r as int == c as int + 32
    ensures !('A' <= c <= 'Z') ==> r == c
  {
    if 'A' <= c <= 'Z' then (c as int + 32) as char else c
  }

  /** `s.toLowerCase()` */
  function ToLower(s: string): (r: string)
    ensures |r| == |s|
    ensures forall i :: 0 <= i < |s| ==> r[i] == Lower(s[i])
  {
    seq(|s|, i requires 0 <= i < |s| => Lower(s[i]))
  }

  /** Lower-casing twice is lower-casing once: a lower-cased search term and a
      lower-cased field can be compared without folding again. */
  lemma ToLowerIdempotent(s: string)
    ensures ToLower(ToLower(s)) == ToLower(s)
  {
    var t := ToLower(s);
    forall i | 0 <= i < |s| ensures ToLower(t)[i] == t[i] {
      assert t[i] == Lower(s[i]);
    }
  }

  /** Lower-casing works character by character, so it can be done piece by
      piece. */
  lemma ToLowerConcat(a: string, b: string)
    ensures ToLower(a + b) == ToLower(a) + ToLower(b)
  {
    var l, r := ToLower(a + b), ToLower(a) + ToLower(b);
    forall i | 0 <= i < |a + b| ensures l[i] == r[i] {
      if i < |a| {
        assert (a + b)[i] == a[i];
      } else {
        assert (a + b)[i] == b[i - |a|];
      }
    }
  }

  // ---------------------------------------------------------------------
  // Substring search
  // ---------------------------------------------------------------------

  predicate IsPrefix(p: string, s: string) {
    |p| <= |s| && s[..|p|] == p
  }

  /** `s.includes(sub)`, scanning left to right as the engine does. */
  predicate Contains(s: string, sub: string)
    ensures Contains(s, sub) ==> |sub| <= |s|
    ensures IsPrefix(sub, s) ==> Contains(s, sub)
    decreases |s|
  {
    IsPrefix(sub, s) || (|s| > 0 && Contains(s[1..], sub))
  }

  /** `sub` occurs in `s` starting at offset `i`. */
  predicate OccursAt(s: string, sub: string, i: int) {
    0 <= i && i + |sub| <= |s| && s[i..i + |sub|] == sub
  }

  /** A slice of the tail of `s` is the slice of `s` one further on. */
  lemma TailSlice(s: string, i: int, n: nat)
    requires 1 <= i && i + n <= |s|
    ensures s[1..][i - 1..i - 1 + n] == s[i..i + n]
  {
    var t := s[1..];
    forall k | i - 1 <= k < i - 1 + n ensures t[k] == s[k + 1] {
    }
    assert t[i - 1..i - 1 + n] == s[i..i + n];
  }

  /** The scan finds `sub` exactly when it occurs at some offset of `s`. */
  lemma {:induction false} ContainsIff(s: string, sub: string)
    ensures Contains(s, sub) <==> exists i :: OccursAt(s, sub, i)
    decreases |s|
  {
    if IsPrefix(sub, s) {
      assert OccursAt(s, sub, 0);
    } else if |s| > 0 {
      ContainsIff(s[1..], sub);
      if Contains(s[1..], sub) {
        var i :| OccursAt(s[1..], sub, i);
        TailSlice(s, i + 1, |sub|);
        assert OccursAt(s, sub, i + 1);
      } else {
        forall i | 0 < i && i + |sub| <= |s| ensures OccursAt(s, sub, i) ==> OccursAt(s[1..], sub, i - 1) {
          TailSlice(s, i, |sub|);
        }
      }
    } else {
      forall i | OccursAt(s, sub, i) ensures false {
      }
    }
  }

  /** Every string contains the empty search term: an empty search box filters
      nothing out. */
  lemma {:induction false} ContainsEmpty(s: string)
    ensures Contains(s, "")
  {
    assert IsPrefix("", s);
  }

  // ---------------------------------------------------------------------
  // Trimming
  // ---------------------------------------------------------------------

  predicate IsSpace(c: char) {
    c == ' ' || c == '\t' || c == '\n' || c == '\r' || c == '\U{B}' || c == '\U{C}'
  }

  function TrimStart(s: string): (r: string)
    ensures |r| <= |s| && r == s[|s| - |r|..]
    ensures r == [] || !IsSpace(r[0])
    ensures forall i :: 0 <= i < |s| - |r| ==> IsSpace(s[i])
    decreases |s|
  {
    if |s| > 0 && IsSpace(s[0]) then TrimStart(s[1..]) else s
  }

  function TrimEnd(s: string): (r: string)
    ensures |r| <= |s| && r == s[..|r|]
    ensures r == [] || !IsSpace(r[|r| - 1])
    ensures forall i :: |r| <= i < |s| ==> IsSpace(s[i])
    decreases |s|
  {
    if |s| > 0 && IsSpace(s[|s| - 1]) then TrimEnd(s[..|s| - 1]) else s
  }

  /** `s.trim()`: the longest slice of `s` that neither starts nor ends with
      white space, obtained by dropping white space from both ends. */
  function Trim(s: string): (r: string)
    ensures |r| <= |s|
    ensures r == [] || (!IsSpace(r[0]) && !IsSpace(r[|r| - 1]))
  {
    var t := TrimStart(s);
    var r := TrimEnd(t);
    assert r != [] ==> r[0] == t[0];
    r
  }

  /** What `trim()` keeps is a slice of the original string. */
  lemma TrimIsSlice(s: string)
    ensures exists a :: OccursAt(s, Trim(s), a)
  {
    var t := TrimStart(s);
    assert Trim(s) == TrimEnd(t);
    PrefixOfSuffix(s, |s| - |t|, Trim(s));
  }

  /** `trim()` removes white space and nothing else: what it keeps is the
      slice of `s` after the leading white space, and all that follows that
      slice is white space too. */
  lemma TrimRemovesOnlySpace(s: string)
    ensures var a := |s| - |TrimStart(s)|;
            OccursAt(s, Trim(s), a)
            && (forall i :: 0 <= i < a ==> IsSpace(s[i]))
            && (forall i :: a + |Trim(s)| <= i < |s| ==> IsSpace(s[i]))
  {
    var t := TrimStart(s);
    var r := Trim(s);
    var a := |s| - |t|;
    assert r == TrimEnd(t);
    assert t == s[a..] && r == t[..|r|];
    PrefixOfSuffix(s, a, r);
    forall i | a + |r| <= i < |s| ensures IsSpace(s[i]) {
      assert |r| <= i - a < |t|;
      assert s[i] == t[i - a] && IsSpace(t[i - a]);
    }
  }

  /** A prefix of the suffix from `k` occurs at `k`. */
  lemma PrefixOfSuffix(s: string, k: int, r: string)
    requires 0 <= k <= |s| && |r| <= |s| - k && r == s[k..][..|r|]
    ensures OccursAt(s, r, k)
  {
    assert s[k..][..|r|] == s[k..k + |r|];
  }

  /** A string trims to nothing exactly when it is all white space. */
  lemma {:induction false} TrimEmptyIff(s: string)
    ensures Trim(s) == [] <==> forall i :: 0 <= i < |s| ==> IsSpace(s[i])
  {
    var t := TrimStart(s);
    if Trim(s) == [] {
      forall i | 0 <= i < |s| ensures IsSpace(s[i]) {
        if i >= |s| - |t| {
          assert s[i] == t[i - (|s| - |t|)];
        }
      }
    } else {
      var r := Trim(s);
      TrimIsSlice(s);
      var a :| OccursAt(s, r, a);
      assert s[a] == r[0] && !IsSpace(s[a]);
    }
  }

  /** A trimmed string trims to itself: values stored after `trim()` pass
      the same check again unchanged. */
  lemma TrimIdempotent(s: string)
    ensures Trim(Trim(s)) == Trim(s)
  {
    var r := Trim(s);
    assert TrimStart(r) == r;
    assert TrimEnd(r) == r;
  }

  /** `s.length` in JavaScript: the number of UTF-16 code units, two for
      each character outside the Basic Multilingual Plane. */
  function Utf16Length(s: string): (n: nat)
    ensures |s| <= n <= 2 * |s|
    ensures (forall i :: 0 <= i < |s| ==> (s[i] as int) < 0x1_0000) ==> n == |s|
    decreases |s|
  {
    if s == [] then 0
    else
      var init := s[..|s| - 1];
      assert forall i :: 0 <= i < |init| ==> init[i] == s[i];
      Utf16Length(init) + (if (s[|s| - 1] as int) < 0x1_0000 then 1 else 2)
  }

  // ---------------------------------------------------------------------
  // Decimal numerals
  // ---------------------------------------------------------------------

  predicate IsDigit(c: char) {
    '0' <= c <= '9'
  }

  function DigitChar(d: nat): (c: char)
    requires d < 10
    ensures IsDigit(c) && c as int - '0' as int == d
  {
    (d + '0' as int) as char
  }

  /** `String(n)` for a non-negative integer: its shortest decimal numeral. */
  function NatToString(n: nat): (r: string)
    ensures |r| >= 1
    ensures forall i :: 0 <= i < |r| ==> IsDigit(r[i])
    ensures n >= 10 ==> r[0] != '0'
    decreases n
  {
    if n < 10 then [DigitChar(n)] else NatToString(n / 10) + [DigitChar(n % 10)]
  }

  function DigitValue(c: char): (d: nat)
    requires IsDigit(c)
    ensures d < 10
  {
    c as int - '0' as int
  }

  /** `String(n)` for any integer. */
  function IntToString(n: int): string
  {
    if n < 0 then "-" + NatToString(-n) else NatToString(n)
  }

  /** The value of a string of digits, read left to right. */
  function DigitsValue(s: string): nat
    requires forall i :: 0 <= i < |s| ==> IsDigit(s[i])
    decreases |s|
  {
    if s == [] then 0
    else DigitsValue(s[..|s| - 1]) * 10 + DigitValue(s[|s| - 1])
  }

  lemma {:induction false} DigitsValueOfNatToString(n: nat)
    ensures DigitsValue(NatToString(n)) == n
    decreases n
  {
    if n >= 10 {
      var r := NatToString(n);
      assert r[..|r| - 1] == NatToString(n / 10);
      DigitsValueOfNatToString(n / 10);
    }
  }

  /** Number of digits at the front of `s`. */
  function LeadingDigits(s: string): (k: nat)
    ensures k <= |s|
    ensures forall i :: 0 <= i < k ==> IsDigit(s[i])
    ensures k < |s| ==> !IsDigit(s[k])
    decreases |s|
  {
    if |s| > 0 && IsDigit(s[0]) then 1 + LeadingDigits(s[1..]) else 0
  }

  /** The magnitude read by `parseInt` after an optional sign: the longest run
      of leading digits, or nothing when there is none. */
  function UnsignedPrefix(s: string): (r: Option<int>)
    ensures r.None? <==> (s == [] || !IsDigit(s[0]))
    ensures r.Some? ==> r.value >= 0
  {
    var k := LeadingDigits(s);
    if k == 0 then None else Some(DigitsValue(s[..k]))
  }

  /** `parseInt(s)`: skip leading white space, accept one sign, read leading
      digits; `None` stands for NaN. `-0` is folded into 0. */
  function ParseInt(s: string): (r: Option<int>)
    ensures var t := TrimStart(s);
            var u := if |t| > 0 && (t[0] == '-' || t[0] == '+') then t[1..] else t;
            r.None? <==> u == [] || !IsDigit(u[0])
    ensures r.Some? && r.value < 0 ==> |TrimStart(s)| > 0 && TrimStart(s)[0] == '-'
  {
    var t := TrimStart(s);
    if |t| > 0 && t[0] == '-' then
      match UnsignedPrefix(t[1..])
      case Some(v) => Some(-v)
      case None => None
    else if |t| > 0 && t[0] == '+' then
      match UnsignedPrefix(t[1..])
      case Some(v) => Some(v)
      case None => None
    else
      match UnsignedPrefix(t)
      case Some(v) => Some(v)
      case None => None
  }

  /** Reading back the numeral of a non-negative number gives the number: the
      value a `<select>` option renders is the value `parseInt` recovers. */
  lemma {:induction false} ParseIntOfNatToString(n: nat)
    ensures ParseInt(NatToString(n)) == Some(n)
  {
    var r := NatToString(n);
    ParseIntOfDigitFirst(r);
    UnsignedPrefixOfDigits(r);
    DigitsValueOfNatToString(n);
  }

  /** Without white space or a sign in front, `parseInt` reads the digits. */
  lemma ParseIntOfDigitFirst(s: string)
    requires |s| > 0 && IsDigit(s[0])
    ensures ParseInt(s) == UnsignedPrefix(s)
  {
    assert !IsSpace(s[0]) && s[0] != '-' && s[0] != '+';
    assert TrimStart(s) == s;
  }

  /** A string of digits is read whole. */
  lemma UnsignedPrefixOfDigits(s: string)
    requires |s| > 0 && forall i :: 0 <= i < |s| ==> IsDigit(s[i])
    ensures UnsignedPrefix(s) == Some(DigitsValue(s))
  {
    AllDigitsLeading(s);
    assert s[..|s|] == s;
  }

  lemma {:induction false} AllDigitsLeading(s: string)
    requires forall i :: 0 <= i < |s| ==> IsDigit(s[i])
    ensures LeadingDigits(s) == |s|
    decreases |s|
  {
    if |s| > 0 {
      AllDigitsLeading(s[1..]);
    }
  }

  /** `String(n).padStart(2, "0")`. */
  function Pad2(n: nat): (r: string)
    ensures |r| == if n < 10 then 2 else |NatToString(n)|
    ensures n < 10 ==> r[0] == '0' && r[1] == DigitChar(n)
    ensures forall i :: 0 <= i < |r| ==> IsDigit(r[i])
  {
    if n < 10 then "0" + NatToString(n) else NatToString(n)
  }

  /** `parts.join(sep)`. */
  function Join(parts: seq<string>, sep: string): (r: string)
    ensures parts == [] ==> r == ""
    ensures |parts| == 1 ==> r == parts[0]
    decreases |parts|
  {
    if parts == [] then ""
    else if |parts| == 1 then parts[0]
    else parts[0] + sep + Join(parts[1..], sep)
  }

  /** An occurrence in `t` is an occurrence in `s + t`, shifted by `|s|`. */
  lemma OccursAtShift(s: string, t: string, sub: string, i: int)
    requires OccursAt(t, sub, i)
    ensures OccursAt(s + t, sub, |s| + i)
  {
    assert (s + t)[|s| + i..|s| + i + |sub|] == t[i..i + |sub|];
  }

  /** Every part of a join occurs in the joined string. */
  lemma {:induction false} JoinContainsParts(parts: seq<string>, sep: string, k: int)
    requires 0 <= k < |parts|
    ensures exists a :: OccursAt(Join(parts, sep), parts[k], a)
    decreases |parts|
  {
    var j := Join(parts, sep);
    if k == 0 {
      assert j[0..|parts[0]|] == parts[0];
      assert OccursAt(j, parts[0], 0);
    } else {
      JoinContainsParts(parts[1..], sep, k - 1);
      var a :| OccursAt(Join(parts[1..], sep), parts[1..][k - 1], a);
      OccursAtShift(parts[0] + sep, Join(parts[1..], sep), parts[k], a);
      assert j == parts[0] + sep + Join(parts[1..], sep);
    }
  }
}
