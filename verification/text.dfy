/**
 The string helpers the entitlement code leans on: Python's `str.strip()`
 and `str.lower()` (used to normalise e-mail addresses and subscription
 statuses), substring search, decimal rendering of integers (used in the
 paywall copy) and the DVA card-type normaliser `normalise_card_type`.

 `str.strip()` is modelled exactly (Python's `str.isspace` character set);
 case mapping is modelled on ASCII letters only.
 */
module Text {

  /** Python's `str.isspace`: the characters `str.strip()` removes. */
  predicate IsSpace(c: char) {
    || ('\t' <= c <= '\r')          // tab, line feed, vertical tab, form feed, carriage return
    || ('\U{1C}' <= c <= ' ')       // the four information separators and space
    || c == '\U{85}' || c == '\U{A0}' || c == '\U{1680}'
    || ('\U{2000}' <= c <= '\U{200A}')
    || c == '\U{2028}' || c == '\U{2029}' || c == '\U{202F}' || c == '\U{205F}'
    || c == '\U{3000}'
  }

  /** Every character of `s` is white space (the empty string included). */
  predicate IsBlank(s: string) {
    forall i :: 0 <= i < |s| ==> IsSpace(s[i])
  }

  /** `s` neither starts nor ends with white space. */
  predicate IsTrimmed(s: string) {
    s == [] || (!IsSpace(s[0]) && !IsSpace(s[|s| - 1]))
  }

  /** `r` sits in `s` at index `i` with nothing but white space around it. */
  predicate StrippedAt(s: string, r: string, i: int) {
    && 0 <= i && i + |r| <= |s|
    && r == s[i..i + |r|]
    && IsBlank(s[..i]) && IsBlank(s[i + |r|..])
  }

  /** `r` is `s` with its leading and trailing white space removed: a
      contiguous slice of `s`, with only white space around it, and itself
      free of white space at either end. */
  ghost predicate Trims(s: string, r: string) {
    IsTrimmed(r) && exists i :: StrippedAt(s, r, i)
  }

  /** Python's `s.lstrip()`. */
  function TrimStart(s: string): (r: string)
    ensures |r| <= |s| && r == s[|s| - |r|..]
    ensures IsBlank(s[..|s| - |r|])
    ensures r == [] || !IsSpace(r[0])
  {
    if |s| > 0 && IsSpace(s[0]) then
      var r := TrimStart(s[1..]);
      assert s[..|s| - |r|] == [s[0]] + s[1..][..|s| - 1 - |r|];
      r
    else s
  }

  /** Python's `s.rstrip()`. */
  function TrimEnd(s: string): (r: string)
    ensures |r| <= |s| && r == s[..|r|]
    ensures IsBlank(s[|r|..])
    ensures r == [] || !IsSpace(r[|r| - 1])
  {
    if |s| > 0 && IsSpace(s[|s| - 1]) then
      var r := TrimEnd(s[..|s| - 1]);
      assert s[|r|..] == s[..|s| - 1][|r|..] + [s[|s| - 1]];
      r
    else s
  }

  /** Trimming the end of a trimmed-at-the-start suffix of `s` leaves a
      slice of `s` with only white space around it and none at its ends. */
  lemma TrimmedSlice(s: string, a: string, r: string)
    requires |a| <= |s| && a == s[|s| - |a|..] && IsBlank(s[..|s| - |a|])
    requires a == [] || !IsSpace(a[0])
    requires |r| <= |a| && r == a[..|r|] && IsBlank(a[|r|..])
    requires r == [] || !IsSpace(r[|r| - 1])
    ensures Trims(s, r)
  {
    var i := |s| - |a|;
    assert r == s[i..i + |r|];
    assert s[i + |r|..] == a[|r|..];
    assert StrippedAt(s, r, i);
    if r != [] { assert r[0] == a[0]; }
  }

  /** Python's `s.strip()`. */
  function Strip(s: string): (r: string)
    ensures Trims(s, r)
  {
    var a := TrimStart(s);
    var r := TrimEnd(a);
    TrimmedSlice(s, a, r);
    r
  }

  /** Stripping removes nothing from a string that has no white space at
      either end, so stripping twice is stripping once. */
  lemma StripTrimmed(s: string)
    requires IsTrimmed(s)
    ensures Strip(s) == s
  {
    var r := Strip(s);
    var i :| StrippedAt(s, r, i);
    if i > 0 {
      assert false;
    }
    if |r| < |s| {
      assert false;
    }
  }

  /** Strip leaves an empty string exactly when its input is all white space. */
  lemma StripEmptyIffBlank(s: string)
    ensures Strip(s) == [] <==> IsBlank(s)
  {
    var r := Strip(s);
    var i :| StrippedAt(s, r, i);
    if r == [] {
      forall k | 0 <= k < |s| ensures IsSpace(s[k]) {
        if k < i { assert s[k] == s[..i][k]; } else { assert s[k] == s[i..][k - i]; }
      }
    } else {
      assert r[0] == s[i];
    }
  }

  /** ASCII `str.lower()` on one character. */
  function LowerChar(c: char): char {
    if 'A' <= c <= 'Z' then (c as int + 32) as char else c
  }

  /** ASCII `str.upper()` on one character. */
  function UpperChar(c: char): char {
    if 'a' <= c <= 'z' then (c as int - 32) as char else c
  }

  /** `s.lower()`, character by character. */
  function Lower(s: string): (r: string)
    ensures |r| == |s|
    ensures forall i :: 0 <= i < |s| ==> r[i] == LowerChar(s[i])
  {
    seq(|s|, i requires 0 <= i < |s| => LowerChar(s[i]))
  }

  /** `s` has no upper-case ASCII letter, i.e. lower-casing leaves it alone. */
  predicate IsLowered(s: string) {
    forall i :: 0 <= i < |s| ==> !('A' <= s[i] <= 'Z')
  }

  /** Lower-casing yields a lowered string, and fixes exactly the lowered ones. */
  lemma LowerFixesLowered(s: string)
    ensures IsLowered(Lower(s))
    ensures Lower(s) == s <==> IsLowered(s)
  {
    if IsLowered(s) {
      assert forall i :: 0 <= i < |s| ==> LowerChar(s[i]) == s[i];
    }
  }

  /** Case mapping never turns a space into a non-space or back. */
  lemma LowerKeepsSpaces(s: string)
    ensures forall i :: 0 <= i < |s| ==> (IsSpace(Lower(s)[i]) <==> IsSpace(s[i]))
    ensures IsTrimmed(s) ==> IsTrimmed(Lower(s))
  {
  }

  /** `sub` occurs in `s` starting at index `i`. */
  predicate OccursAt(s: string, sub: string, i: int) {
    0 <= i && i + |sub| <= |s| && s[i..i + |sub|] == sub
  }

  /** Python's `sub in s`. */
  function Contains(s: string, sub: string): (r: bool)
    ensures r <==> exists i :: OccursAt(s, sub, i)
  {
    if |sub| > |s| then
      assert forall i :: !OccursAt(s, sub, i);
      false
    else if s[..|sub|] == sub then
      assert OccursAt(s, sub, 0);
      true
    else
      var rest := Contains(s[1..], sub);
      assert forall i :: OccursAt(s[1..], sub, i) <==> OccursAt(s, sub, i + 1) by {
        forall i ensures OccursAt(s[1..], sub, i) <==> OccursAt(s, sub, i + 1) {
          if 0 <= i && i + |sub| <= |s| - 1 {
            assert s[1..][i..i + |sub|] == s[i + 1..i + 1 + |sub|];
          }
        }
      }
      assert rest ==> exists i :: OccursAt(s, sub, i) by {
        if rest {
          var i :| OccursAt(s[1..], sub, i);
          assert OccursAt(s, sub, i + 1);
        }
      }
      assert (exists i :: OccursAt(s, sub, i)) ==> rest by {
        if exists i :: OccursAt(s, sub, i) {
          var i :| OccursAt(s, sub, i);
          assert i != 0;
          assert OccursAt(s[1..], sub, i - 1);
        }
      }
      rest
  }

  /** `normalise_card_type`: the DVA card type as free text, reduced to
      "Gold", "White", a capitalised lower-case word, or "" when blank. */
  function NormaliseCardType(s: string): (r: string)
    ensures r == [] <==> IsBlank(s)
    ensures r != [] ==> !('a' <= r[0] <= 'z')
    ensures Contains(Lower(Strip(s)), "gold") ==> r == "Gold"
    ensures !Contains(Lower(Strip(s)), "gold") && Contains(Lower(Strip(s)), "white") ==> r == "White"
    // otherwise: the stripped, lower-cased text with only its first letter capitalised
    ensures !IsBlank(s) && !Contains(Lower(Strip(s)), "gold") && !Contains(Lower(Strip(s)), "white") ==>
      r != [] && Lower(r) == Lower(Strip(s)) && r[1..] == Lower(Strip(s))[1..]
  {
    var t := Lower(Strip(s));
    StripEmptyIffBlank(s);
    if t == [] then ""
    else if Contains(t, "gold") then "Gold"
    else if Contains(t, "white") then "White"
    else
      var r := [UpperChar(t[0])] + t[1..];
      LowerFixesLowered(Strip(s));
      LowerUndoesCapital(t);
      r
  }

  /** Stripping and lower-casing "Gold" gives "gold", which mentions "gold". */
  lemma GoldKey()
    ensures Lower(Strip("Gold")) == "gold" && Contains("gold", "gold")
  {
    StripGold();
    LowerGold();
    assert OccursAt("gold", "gold", 0);
  }

  /** "Gold" has no white space to strip. */
  lemma StripGold()
    ensures Strip("Gold") == "Gold"
  {
    var g := "Gold";
    assert !IsSpace(g[0]) && !IsSpace(g[|g| - 1]);
    StripTrimmed(g);
  }

  /** Lower-casing "Gold" gives "gold". */
  lemma LowerGold()
    ensures Lower("Gold") == "gold"
  {
    var l := Lower("Gold");
    assert l[0] == 'g';
  }

  /** "Gold" is already normal. */
  lemma NormaliseGold()
    ensures NormaliseCardType("Gold") == "Gold"
  {
    GoldKey();
  }

  /** "gold" does not occur in "white". */
  lemma NoGoldInWhite()
    ensures !Contains("white", "gold")
  {
    var w := "white";
    forall i ensures !OccursAt(w, "gold", i) {
      if 0 <= i && i + 4 <= |w| {
        assert w[i..i + 4][0] == w[i];
      }
    }
  }

  /** Stripping and lower-casing "White" gives "white", which mentions
      "white" but not "gold". */
  lemma WhiteKey()
    ensures Lower(Strip("White")) == "white" && Contains("white", "white") && !Contains("white", "gold")
  {
    StripWhite();
    LowerWhite();
    NoGoldInWhite();
    assert OccursAt("white", "white", 0);
  }

  /** "White" has no white space to strip. */
  lemma StripWhite()
    ensures Strip("White") == "White"
  {
    var w := "White";
    assert !IsSpace(w[0]) && !IsSpace(w[|w| - 1]);
    StripTrimmed(w);
  }

  /** Lower-casing "White" gives "white". */
  lemma LowerWhite()
    ensures Lower("White") == "white"
  {
    var l := Lower("White");
    assert l[0] == 'w';
  }

  /** "White" is already normal. */
  lemma NormaliseWhite()
    ensures NormaliseCardType("White") == "White"
  {
    WhiteKey();
  }

  /** Lower-casing undoes the capitalisation of a lower-case text. */
  lemma LowerUndoesCapital(t: string)
    requires t != [] && IsLowered(t)
    ensures var r := [UpperChar(t[0])] + t[1..];
      Lower(r) == t && r[1..] == t[1..] && !('a' <= r[0] <= 'z')
  {
    var r := [UpperChar(t[0])] + t[1..];
    var l := Lower(r);
    assert |l| == |t|;
    forall i | 0 <= i < |t| ensures l[i] == t[i] {
      if i > 0 { assert r[i] == t[i]; }
    }
  }

  /** Capitalising the first letter keeps a trimmed text trimmed. */
  lemma CapitalisedTrimmed(t: string)
    requires t != [] && IsTrimmed(t)
    ensures IsTrimmed([UpperChar(t[0])] + t[1..])
  {
    var r := [UpperChar(t[0])] + t[1..];
    assert !IsSpace(r[0]) by {
      if 'a' <= t[0] <= 'z' { assert 'A' <= r[0] <= 'Z'; } else { assert r[0] == t[0]; }
    }
    if |r| > 1 { assert r[|r| - 1] == t[|t| - 1]; }
  }

  /** Capitalising a stripped, lower-case text that names neither colour
      gives a text that normalises to itself. */
  lemma NormaliseCapitalised(t: string)
    requires t != [] && IsTrimmed(t) && IsLowered(t)
    requires !Contains(t, "gold") && !Contains(t, "white")
    ensures NormaliseCardType([UpperChar(t[0])] + t[1..]) == [UpperChar(t[0])] + t[1..]
  {
    var r := [UpperChar(t[0])] + t[1..];
    CapitalisedTrimmed(t);
    StripTrimmed(r);
    LowerUndoesCapital(t);
    assert Lower(Strip(r)) == t;
  }

  /** Normalising an already normalised card type changes nothing. */
  lemma NormaliseCardTypeIdempotent(s: string)
    ensures NormaliseCardType(NormaliseCardType(s)) == NormaliseCardType(s)
  {
    var r := NormaliseCardType(s);
    var t := Lower(Strip(s));
    if r == "Gold" {
      NormaliseGold();
    } else if r == "White" {
      NormaliseWhite();
    } else if r != [] {
      LowerFixesLowered(Strip(s));
      LowerKeepsSpaces(Strip(s));
      NormaliseCapitalised(t);
    }
  }

  /** The decimal digit character for `d`. */
  function DigitChar(d: nat): (c: char)
    requires d < 10
    ensures '0' <= c <= '9'
  {
    (d + 48) as char
  }

  /** The value of a decimal digit character. */
  function DigitValue(c: char): nat
    requires '0' <= c <= '9'
  {
    c as int - 48
  }

  /** Every character of `s` is a decimal digit. */
  predicate IsDigits(s: string) {
    forall i :: 0 <= i < |s| ==> '0' <= s[i] <= '9'
  }

  /** Python's `str(n)` for a non-negative integer. */
  function NatToDecimal(n: nat): (r: string)
    ensures |r| >= 1 && IsDigits(r)
    ensures |r| > 1 ==> r[0] != '0'
  {
    if n < 10 then [DigitChar(n)] else NatToDecimal(n / 10) + [DigitChar(n % 10)]
  }

  /** Python's `str(n)` (as used by f-strings) for any integer. */
  function IntToDecimal(n: int): (r: string)
    ensures |r| >= 1
    ensures r[0] == '-' <==> n < 0
    ensures IsDigits(if n < 0 then r[1..] else r)
    // no leading zero, except for zero itself
    ensures n >= 0 && |r| > 1 ==> r[0] != '0'
    ensures n < 0 ==> |r| > 1 && r[1] != '0'
  {
    if n < 0 then "-" + NatToDecimal(-n) else NatToDecimal(n)
  }

  /** Reads back a string of decimal digits. */
  function ParseNat(s: string): int
    requires IsDigits(s)
  {
    if s == [] then 0 else ParseNat(s[..|s| - 1]) * 10 + DigitValue(s[|s| - 1])
  }

  /** Reads back an optionally negative decimal integer. */
  function ParseInt(s: string): int
    requires |s| >= 1
    requires IsDigits(if s[0] == '-' then s[1..] else s)
  {
    if s[0] == '-' then -ParseNat(s[1..]) else ParseNat(s)
  }

  /** Rendering a natural number and reading it back is the identity. */
  lemma {:induction false} NatDecimalRoundTrip(n: nat)
    ensures ParseNat(NatToDecimal(n)) == n
  {
    if n >= 10 {
      var s := NatToDecimal(n);
      assert s[..|s| - 1] == NatToDecimal(n / 10);
      NatDecimalRoundTrip(n / 10);
    }
  }

  /** Rendering any integer and reading it back is the identity, so the
      numbers in the paywall copy are the numbers in the payload. */
  lemma IntDecimalRoundTrip(n: int)
    ensures ParseInt(IntToDecimal(n)) == n
  {
    if n < 0 {
      var d := NatToDecimal(-n);
      assert ("-" + d)[1..] == d;
      NatDecimalRoundTrip(-n);
    } else {
      NatDecimalRoundTrip(n);
    }
  }
}
