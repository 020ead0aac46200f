/**
 * The few JavaScript string operations the pages use, on `seq<char>`:
 * `toLowerCase` (ASCII only), `includes`, `split(sep)[0]` and `split(sep)[1]`,
 * `parseInt` (decimal), number-to-string in template literals, and the
 * order of ISO "YYYY-MM-DD" date strings.
 */
module Text {
  import opened Wrappers

  // ---------------------------------------------------------------------------
  // Lower case

  /** `toLowerCase` on one character; only ASCII letters are folded. */
  function LowerChar(c: char): char
  {
    if 'A' <= c <= 'Z' then (c as int + 32) as char else c
  }

  function Lower(s: string): (r: string)
    ensures |r| == |s|
    ensures forall i :: 0 <= i < |s| ==> r[i] == LowerChar(s[i])
  {
    seq(|s|, i requires 0 <= i < |s| => LowerChar(s[i]))
  }

  /** Folding twice is folding once: a search term already in lower case is unchanged. */
  lemma LowerIdempotent(s: string)
    ensures Lower(Lower(s)) == Lower(s)
  {
    assert forall i :: 0 <= i < |s| ==> LowerChar(LowerChar(s[i])) == LowerChar(s[i]);
  }

  // ---------------------------------------------------------------------------
  // Substrings

  /** `pat` occurs in `s` starting at index `i`. */
  ghost predicate OccursAt(s: string, pat: string, i: int)
  {
    0 <= i && i + |pat| <= |s| && s[i..i + |pat|] == pat
  }

  lemma OccursShift(s: string, pat: string, j: int)
    requires s != [] && 0 <= j
    ensures OccursAt(s, pat, j + 1) <==> OccursAt(s[1..], pat, j)
  {
    if j + 1 + |pat| <= |s| {
      assert s[j + 1..j + 1 + |pat|] == s[1..][j..j + |pat|];
    }
  }

  /** `s.indexOf(pat)`: the first index at which `pat` occurs, if any. */
  function IndexOf(s: string, pat: string): (r: Option<nat>)
    ensures r.Some? ==> OccursAt(s, pat, r.value)
    ensures r.Some? ==> forall j :: 0 <= j < r.value ==> !OccursAt(s, pat, j)
    ensures r.None? ==> forall j :: !OccursAt(s, pat, j)
    decreases |s|
  {
    if pat <= s then
      assert s[0..|pat|] == pat;
      Some(0)
    else if s == [] then
      None
    else
      var rest := IndexOf(s[1..], pat);
      assert forall j :: 0 <= j ==> (OccursAt(s, pat, j + 1) <==> OccursAt(s[1..], pat, j)) by {
        forall j | 0 <= j ensures OccursAt(s, pat, j + 1) <==> OccursAt(s[1..], pat, j) {
          OccursShift(s, pat, j);
        }
      }
      assert !OccursAt(s, pat, 0);
      match rest
      case None =>
        assert forall j :: !OccursAt(s, pat, j) by {
          forall j ensures !OccursAt(s, pat, j) {
            if j >= 1 { assert !OccursAt(s[1..], pat, j - 1); }
          }
        }
        None
      case Some(k) =>
        assert forall j :: 0 <= j < k + 1 ==> !OccursAt(s, pat, j) by {
          forall j | 0 <= j < k + 1 ensures !OccursAt(s, pat, j) {
            if j >= 1 { assert !OccursAt(s[1..], pat, j - 1); }
          }
        }
        Some(k + 1)
  }

  /** `s.includes(pat)`. */
  predicate Contains(s: string, pat: string)
    ensures Contains(s, pat) <==> exists i :: OccursAt(s, pat, i)
  {
    IndexOf(s, pat).Some?
  }

  /** The empty text occurs in every text, so an empty search term matches everything. */
  lemma ContainsEmpty(s: string)
    ensures Contains(s, "")
  {
    assert OccursAt(s, "", 0);
  }

  // ---------------------------------------------------------------------------
  // split

  /** `s.split(sep)[0]`: the text before the first `sep`, or all of `s`. */
  function FirstPiece(s: string, sep: string): (r: string)
    requires sep != []
    ensures r <= s
    ensures !Contains(r, sep)
    ensures Contains(s, sep) <==> |r| + |sep| <= |s| && s[|r|..|r| + |sep|] == sep
  {
    match IndexOf(s, sep)
    case None => s
    case Some(i) =>
      assert OccursAt(s, sep, i);
      assert forall j :: !OccursAt(s[..i], sep, j) by {
        forall j ensures !OccursAt(s[..i], sep, j) {
          if OccursAt(s[..i], sep, j) {
            assert s[..i][j..j + |sep|] == s[j..j + |sep|];
            assert OccursAt(s, sep, j);
          }
        }
      }
      s[..i]
  }

  /** `s.split(sep)[1]`; `None` where JavaScript yields `undefined` (no `sep` in `s`). */
  function SecondPiece(s: string, sep: string): (r: Option<string>)
    requires sep != []
    ensures r.Some? <==> Contains(s, sep)
    ensures r.Some? ==> var n := |FirstPiece(s, sep)| + |sep|;
      n <= |s| && s[..n] == FirstPiece(s, sep) + sep && r.value == FirstPiece(s[n..], sep)
  {
    if Contains(s, sep) then
      assert s[..|FirstPiece(s, sep)| + |sep|] == FirstPiece(s, sep) + sep by {
        var k := |FirstPiece(s, sep)|;
        assert s[..k + |sep|] == s[..k] + s[k..k + |sep|];
      }
      Some(FirstPiece(s[|FirstPiece(s, sep)| + |sep|..], sep))
    else
      None
  }

  /** Splitting at a one-character separator that `a` lacks gives back `a` as the first piece. */
  lemma FirstPieceBefore(a: string, c: char, b: string)
    requires c !in a
    ensures FirstPiece(a + [c] + b, [c]) == a
  {
    var s := a + [c] + b;
    assert OccursAt(s, [c], |a|);
    var k := IndexOf(s, [c]).value;
    assert k <= |a|;
    assert s[k] == c by { assert s[k..k + 1] == [c]; }
    assert forall j :: 0 <= j < |a| ==> s[j] == a[j];
    assert k == |a|;
    assert FirstPiece(s, [c]) == s[..k];
    assert s[..|a|] == a;
  }

  // ---------------------------------------------------------------------------
  // Decimal numbers

  predicate IsDigit(c: char)
  {
    '0' <= c <= '9'
  }

  /** The white space `parseInt` skips (ASCII part only). */
  predicate IsSpace(c: char)
  {
    c == ' ' || c == '\t' || c == '\n' || c == '\r'
  }

  function TrimStart(s: string): (r: string)
    ensures r == [] || !IsSpace(r[0])
    ensures |r| <= |s| && r == s[|s| - |r|..]
  {
    if s != [] && IsSpace(s[0]) then TrimStart(s[1..]) else s
  }

  /** The longest prefix of `s` made of decimal digits. */
  function DigitPrefix(s: string): (r: string)
    ensures r <= s
    ensures forall i :: 0 <= i < |r| ==> IsDigit(r[i])
    ensures |r| < |s| ==> !IsDigit(s[|r|])
  {
    if s != [] && IsDigit(s[0]) then [s[0]] + DigitPrefix(s[1..]) else []
  }

  predicate AllDigits(s: string)
  {
    forall i :: 0 <= i < |s| ==> IsDigit(s[i])
  }

  /** The value of a string of decimal digits, most significant first. */
  function DigitsValue(ds: string): nat
    requires AllDigits(ds)
  {
    if ds == [] then 0 else DigitsValue(ds[..|ds| - 1]) * 10 + (ds[|ds| - 1] as int - '0' as int)
  }

  /** The sign character `parseInt` accepts after white space, if present. */
  predicate HasSign(t: string)
  {
    t != [] && (t[0] == '-' || t[0] == '+')
  }

  /** What follows the optional sign. */
  function Unsigned(t: string): string
  {
    if HasSign(t) then t[1..] else t
  }

  /**
   * `parseInt(s, 10)`: skip leading white space, take an optional sign, then
   * the longest run of digits; no digits gives NaN, here `None`.
   */
  function ParseInt(s: string): Option<int>
  {
    var t := TrimStart(s);
    var ds := DigitPrefix(Unsigned(t));
    if ds == [] then None
    else
      var v: int := DigitsValue(ds);
      var r: Option<int> := Some(if t[0] == '-' then -v else v);
      r
  }

  function DigitChar(d: nat): (c: char)
    requires d < 10
    ensures IsDigit(c)
  {
    ('0' as int + d) as char
  }

  /** The decimal text of a natural number, as a template literal prints it. */
  function NatToString(n: nat): (r: string)
    ensures r != [] && AllDigits(r)
    ensures DigitsValue(r) == n
  {
    if n < 10 then [DigitChar(n)]
    else
      var r := NatToString(n / 10) + [DigitChar(n % 10)];
      assert r[..|r| - 1] == NatToString(n / 10);
      r
  }

  /** The decimal text of an integer; negative numbers get a leading '-'. */
  function IntToString(i: int): (r: string)
    ensures r != []
  {
    if i < 0 then "-" + NatToString(-i) else NatToString(i)
  }

  lemma {:induction false} DigitPrefixOfDigits(ds: string, tail: string)
    requires AllDigits(ds)
    requires tail == [] || !IsDigit(tail[0])
    ensures DigitPrefix(ds + tail) == ds
  {
    if ds != [] {
      assert (ds + tail)[1..] == ds[1..] + tail;
      DigitPrefixOfDigits(ds[1..], tail);
    } else {
      assert ds + tail == tail;
    }
  }

  /** Reading back a run of digits with no sign. */
  lemma ParseUnsignedDigits(ds: string, tail: string)
    requires ds != [] && AllDigits(ds)
    requires tail == [] || !IsDigit(tail[0])
    ensures ParseInt(ds + tail) == Some(DigitsValue(ds) as int)
  {
    var s := ds + tail;
    assert s[0] == ds[0] && IsDigit(s[0]) && !IsSpace(s[0]);
    assert TrimStart(s) == s;
    assert !HasSign(s) && s[0] != '-';
    assert Unsigned(s) == s;
    DigitPrefixOfDigits(ds, tail);
    ParseIntOf(s, ds);
  }

  /** Reading back a run of digits after a minus sign. */
  lemma ParseNegativeDigits(ds: string, tail: string)
    requires ds != [] && AllDigits(ds)
    requires tail == [] || !IsDigit(tail[0])
    ensures ParseInt("-" + ds + tail) == Some(-(DigitsValue(ds) as int))
  {
    var s := "-" + ds + tail;
    assert s[0] == '-' && !IsSpace(s[0]);
    assert TrimStart(s) == s;
    assert s[1..] == ds + tail;
    assert Unsigned(s) == ds + tail;
    DigitPrefixOfDigits(ds, tail);
    ParseIntOf(s, ds);
  }

  /** `ParseInt` of a text with no leading space whose digits after the sign are `ds`. */
  lemma ParseIntOf(s: string, ds: string)
    requires s != [] && TrimStart(s) == s
    requires ds != [] && DigitPrefix(Unsigned(s)) == ds
    ensures ParseInt(s).Some?
    ensures ParseInt(s).value == if s[0] == '-' then -(DigitsValue(ds) as int) else DigitsValue(ds) as int
  {
  }

  /**
   * Printing an integer and parsing it back gives the integer, whatever
   * non-digit text follows it (so "9:00 AM" parses as 9).
   */
  lemma ParseIntToString(i: int, tail: string)
    requires tail == [] || !IsDigit(tail[0])
    ensures ParseInt(IntToString(i) + tail) == Some(i)
  {
    if i < 0 {
      ParseNegativeDigits(NatToString(-i), tail);
    } else {
      ParseUnsignedDigits(NatToString(i), tail);
    }
  }

  // ---------------------------------------------------------------------------
  // Order of date strings

  /**
   * Lexicographic order on character codes. On well-formed "YYYY-MM-DD"
   * strings this is chronological order, which is what `new Date(a) - new Date(b)`
   * compares in the pages' sort comparators.
   */
  predicate LexLe(a: string, b: string)
    decreases |a|
  {
    a == [] || (b != [] && (a[0] < b[0] || (a[0] == b[0] && LexLe(a[1..], b[1..]))))
  }

  lemma {:induction false} LexReflexive(a: string)
    ensures LexLe(a, a)
    decreases |a|
  {
    if a != [] {
      LexReflexive(a[1..]);
    }
  }

  lemma {:induction false} LexTotal(a: string, b: string)
    ensures LexLe(a, b) || LexLe(b, a)
    decreases |a|
  {
    if a != [] && b != [] && a[0] == b[0] {
      LexTotal(a[1..], b[1..]);
    }
  }

  lemma {:induction false} LexTransitive(a: string, b: string, c: string)
    requires LexLe(a, b) && LexLe(b, c)
    ensures LexLe(a, c)
    decreases |a|
  {
    if a != [] && a[0] == b[0] && b[0] == c[0] {
      LexTransitive(a[1..], b[1..], c[1..]);
    }
  }

  lemma {:induction false} LexAntisymmetric(a: string, b: string)
    requires LexLe(a, b) && LexLe(b, a)
    ensures a == b
    decreases |a|
  {
    if a != [] {
      LexAntisymmetric(a[1..], b[1..]);
      assert a == [a[0]] + a[1..];
      assert b == [b[0]] + b[1..];
    }
  }

  /** The sign of `new Date(a) - new Date(b)`: negative when `a` is earlier. */
  function DateCompare(a: string, b: string): (r: int)
    ensures r == 0 <==> a == b
    ensures r < 0 ==> LexLe(a, b)
    ensures r > 0 ==> LexLe(b, a)
    ensures -1 <= r <= 1
    ensures r <= 0 <==> LexLe(a, b)
  {
    if a == b then LexReflexive(a); 0
    else if LexLe(a, b) then -1
    else (LexTotal(a, b); 1)
  }
}
