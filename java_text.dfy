/**
 * The few pieces of java.lang.String and java.lang.Integer that the word-count
 * pipeline relies on: `split`, `trim`, `equalsIgnoreCase`, `Integer.valueOf`,
 * decimal rendering of an `int`, and 32-bit wrap-around of `+`.
 */
module JavaText {
  import opened Wrappers

  // ---------------------------------------------------------------------------
  // 32-bit integers
  // ---------------------------------------------------------------------------

  const INT_MIN: int := -0x8000_0000
  const INT_MAX: int := 0x7FFF_FFFF
  const TWO_32: int := 0x1_0000_0000

  predicate IsInt32(x: int) {
    INT_MIN <= x <= INT_MAX
  }

  /** The value Java's `int` arithmetic yields for the mathematical result `x`. */
  function Wrap32(x: int): (r: int)
    ensures IsInt32(r)
    ensures IsInt32(x) ==> r == x
  {
    (x - INT_MIN) % TWO_32 + INT_MIN
  }

  /** Wrapping after every addition is the same as wrapping once at the end. */
  lemma WrapAdd(a: int, b: int)
    ensures Wrap32(Wrap32(a) + b) == Wrap32(a + b)
  {
    var q := (a - INT_MIN) / TWO_32;
    assert Wrap32(a) == a - q * TWO_32;
    var x := a + b - INT_MIN;
    assert Wrap32(a) + b - INT_MIN == x - q * TWO_32;
    ModShift(x, q);
  }

  lemma ModShift(x: int, q: int)
    ensures (x - q * TWO_32) % TWO_32 == x % TWO_32
  {
    var r := x % TWO_32;
    var d := x / TWO_32;
    assert x - q * TWO_32 == (d - q) * TWO_32 + r;
  }

  // ---------------------------------------------------------------------------
  // Splitting
  // ---------------------------------------------------------------------------

  predicate IsColon(c: char) { c == ':' }

  predicate IsSlash(c: char) { c == '/' }

  /** The separator class of the regular expression "[ \t'.,]+" used to tokenise a line. */
  predicate IsWordSeparator(c: char) {
    c == ' ' || c == '\t' || c == '\'' || c == '.' || c == ','
  }

  predicate NoSeparator(s: string, sep: char -> bool) {
    forall i :: 0 <= i < |s| ==> !sep(s[i])
  }

  /**
   * The pieces of `s` between consecutive separator characters, empty pieces
   * included: one more piece than there are separators.
   */
  function Pieces(s: string, sep: char -> bool): (r: seq<string>)
    ensures |r| >= 1
    decreases |s|
  {
    if s == [] then [""]
    else
      var rest := Pieces(s[1..], sep);
      if sep(s[0]) then [""] + rest
      else [[s[0]] + rest[0]] + rest[1..]
  }

  /** Drops the empty strings at the end of `ps`, as `String.split` with limit 0 does. */
  function StripTrailingEmpty(ps: seq<string>): (r: seq<string>)
    ensures r <= ps
    ensures r == [] || r[|r| - 1] != ""
    ensures forall i :: |r| <= i < |ps| ==> ps[i] == ""
  {
    if ps != [] && ps[|ps| - 1] == "" then StripTrailingEmpty(ps[..|ps| - 1]) else ps
  }

  /**
   * `s.split(regex)` for a regular expression that matches one separator
   * character: the whole string when no separator occurs, otherwise the pieces
   * with the trailing empty ones removed.
   */
  function Split(s: string, sep: char -> bool): seq<string>
  {
    if NoSeparator(s, sep) then [s] else StripTrailingEmpty(Pieces(s, sep))
  }

  /** The non-empty strings of `ps`, in order. */
  function NonEmpty(ps: seq<string>): (r: seq<string>)
    ensures forall i :: 0 <= i < |r| ==> r[i] != ""
    ensures forall p :: p in r <==> p in ps && p != ""
  {
    if ps == [] then []
    else if ps[0] == "" then NonEmpty(ps[1..])
    else [ps[0]] + NonEmpty(ps[1..])
  }

  lemma {:induction false} NonEmptyAppend(a: seq<string>, b: seq<string>)
    ensures NonEmpty(a + b) == NonEmpty(a) + NonEmpty(b)
  {
    if a == [] {
      assert a + b == b;
    } else {
      assert (a + b)[0] == a[0];
      assert (a + b)[1..] == a[1..] + b;
      NonEmptyAppend(a[1..], b);
      if a[0] != "" {
        assert NonEmpty(a + b) == [a[0]] + (NonEmpty(a[1..]) + NonEmpty(b));
      }
    }
  }

  /** Filtering one more string. */
  lemma NonEmptySnoc(ps: seq<string>, p: string)
    ensures NonEmpty(ps + [p]) == NonEmpty(ps) + (if p == "" then [] else [p])
  {
    NonEmptyAppend(ps, [p]);
    assert [p][1..] == [];
  }

  /** Filtering a prefix one element longer. */
  lemma NonEmptyPrefixStep(ps: seq<string>, j: nat)
    requires j < |ps|
    ensures NonEmpty(ps[..j + 1]) == NonEmpty(ps[..j]) + (if ps[j] == "" then [] else [ps[j]])
  {
    assert ps[..j + 1] == ps[..j] + [ps[j]];
    NonEmptySnoc(ps[..j], ps[j]);
  }

  /** No string occurs twice in `q`. */
  predicate NoRepeats(q: seq<string>)
  {
    forall i, j :: 0 <= i < j < |q| ==> q[i] != q[j]
  }

  /** Filtering a list without repeats leaves a list without repeats. */
  lemma {:induction false} NonEmptyDistinct(ps: seq<string>)
    requires NoRepeats(ps)
    ensures NoRepeats(NonEmpty(ps))
  {
    if ps != [] {
      var rest := ps[1..];
      assert NoRepeats(rest) by {
        forall i, j | 0 <= i < j < |rest| ensures rest[i] != rest[j] {
          assert rest[i] == ps[i + 1] && rest[j] == ps[j + 1];
        }
      }
      NonEmptyDistinct(rest);
      var tail := NonEmpty(rest);
      if ps[0] != "" {
        assert ps[0] !in rest by {
          forall j | 0 <= j < |rest| ensures rest[j] != ps[0] {
            assert rest[j] == ps[j + 1];
          }
        }
        var r := [ps[0]] + tail;
        assert NonEmpty(ps) == r;
        forall i, j | 0 <= i < j < |r| ensures r[i] != r[j] {
          if i == 0 {
            assert r[j] == tail[j - 1] && tail[j - 1] in tail;
          } else {
            assert r[i] == tail[i - 1] && r[j] == tail[j - 1];
          }
        }
      } else {
        assert NonEmpty(ps) == tail;
      }
    }
  }

  /** Filtering keeps every string when none is empty, so filtering twice changes nothing. */
  lemma {:induction false} NonEmptyOfClean(ps: seq<string>)
    requires forall i :: 0 <= i < |ps| ==> ps[i] != ""
    ensures NonEmpty(ps) == ps
  {
    if ps != [] {
      NonEmptyOfClean(ps[1..]);
      assert [ps[0]] + ps[1..] == ps;
    }
  }

  /** Trailing empty strings do not change the non-empty ones. */
  lemma NonEmptyStrip(ps: seq<string>)
    ensures NonEmpty(StripTrailingEmpty(ps)) == NonEmpty(ps)
  {
    if ps != [] && ps[|ps| - 1] == "" {
      var init := ps[..|ps| - 1];
      assert ps == init + [""];
      NonEmptyAppend(init, [""]);
      NonEmptyStrip(init);
    }
  }

  /** Every piece is free of separators. */
  lemma {:induction false} PiecesHaveNoSeparator(s: string, sep: char -> bool)
    ensures forall p :: p in Pieces(s, sep) ==> NoSeparator(p, sep)
    decreases |s|
  {
    if s != [] {
      PiecesHaveNoSeparator(s[1..], sep);
      var rest := Pieces(s[1..], sep);
      if !sep(s[0]) {
        assert NoSeparator([s[0]] + rest[0], sep) by {
          assert rest[0] in rest;
        }
        forall p | p in rest[1..] ensures NoSeparator(p, sep) {
          assert p in rest;
        }
      }
    }
  }

  /** A string without separators is a single piece. */
  lemma {:induction false} PiecesOfPlain(s: string, sep: char -> bool)
    requires NoSeparator(s, sep)
    ensures Pieces(s, sep) == [s]
    decreases |s|
  {
    if s != [] {
      assert !sep(s[0]);
      assert NoSeparator(s[1..], sep) by {
        forall i | 0 <= i < |s[1..]| ensures !sep(s[1..][i]) {
          assert s[1..][i] == s[i + 1];
        }
      }
      PiecesOfPlain(s[1..], sep);
      assert [s[0]] + s[1..] == s;
    }
  }

  /** A separator ends the first piece. */
  lemma {:induction false} PiecesCons(a: string, c: char, b: string, sep: char -> bool)
    requires NoSeparator(a, sep) && sep(c)
    ensures Pieces(a + [c] + b, sep) == [a] + Pieces(b, sep)
    decreases |a|
  {
    if a == [] {
      assert (a + [c] + b)[1..] == b;
    } else {
      var s := a + [c] + b;
      assert s[0] == a[0] && !sep(a[0]);
      assert s[1..] == a[1..] + [c] + b;
      assert NoSeparator(a[1..], sep) by {
        forall i | 0 <= i < |a[1..]| ensures !sep(a[1..][i]) {
          assert a[1..][i] == a[i + 1];
        }
      }
      PiecesCons(a[1..], c, b, sep);
      assert [a[0]] + a[1..] == a;
    }
  }

  /**
   * Splitting a `first:second` string on the colon gives back its two halves
   * when neither contains a colon and the second is not empty.
   */
  lemma SplitPair(first: string, second: string)
    requires NoSeparator(first, IsColon) && NoSeparator(second, IsColon) && second != ""
    ensures Split(first + ":" + second, IsColon) == [first, second]
  {
    var s := first + ":" + second;
    assert s[|first|] == ':';
    PiecesCons(first, ':', second, IsColon);
    PiecesOfPlain(second, IsColon);
  }

  // ---------------------------------------------------------------------------
  // Trimming and case
  // ---------------------------------------------------------------------------

  /** `String.trim` removes the characters up to U+0020 at both ends. */
  predicate IsTrimmable(c: char) { c <= ' ' }

  predicate IsBlank(s: string) {
    forall i :: 0 <= i < |s| ==> IsTrimmable(s[i])
  }

  /** `trim`'s first loop: from `i`, the index of the first character kept. */
  function FirstKept(s: string, i: nat): (n: nat)
    requires i <= |s|
    ensures i <= n <= |s| && (n == |s| || !IsTrimmable(s[n]))
    ensures forall k :: i <= k < n ==> IsTrimmable(s[k])
    decreases |s| - i
  {
    if i < |s| && IsTrimmable(s[i]) then FirstKept(s, i + 1) else i
  }

  /** `trim`'s second loop: from `j` down to `lo`, the index just past the last character kept. */
  function LastKept(s: string, lo: nat, j: nat): (n: nat)
    requires lo <= j <= |s|
    ensures lo <= n <= j && (n == lo || !IsTrimmable(s[n - 1]))
    ensures forall k :: n <= k < j ==> IsTrimmable(s[k])
  {
    if j > lo && IsTrimmable(s[j - 1]) then LastKept(s, lo, j - 1) else j
  }

  /** `s.trim()`. */
  function Trim(s: string): (r: string)
    ensures r == [] <==> IsBlank(s)
    ensures r != [] ==> !IsTrimmable(r[0]) && !IsTrimmable(r[|r| - 1])
  {
    var st := FirstKept(s, 0);
    var len := LastKept(s, st, |s|);
    s[st..len]
  }

  /** A string without surrounding blanks is its own trimmed form. */
  lemma TrimUntrimmed(s: string)
    requires s != [] && !IsTrimmable(s[0]) && !IsTrimmable(s[|s| - 1])
    ensures Trim(s) == s
  {
  }

  /** ASCII upper case: the case mapping the model gives to `Character.toUpperCase`. */
  function ToUpper(c: char): char {
    if 'a' <= c <= 'z' then (c as int - 32) as char else c
  }

  /** ASCII lower case: the case mapping the model gives to `Character.toLowerCase`. */
  function ToLower(c: char): char {
    if 'A' <= c <= 'Z' then (c as int + 32) as char else c
  }

  /** The per-character test of `String.equalsIgnoreCase`. */
  predicate CharEqualsIgnoreCase(a: char, b: char) {
    a == b || ToUpper(a) == ToUpper(b) || ToLower(ToUpper(a)) == ToLower(ToUpper(b))
  }

  /** `a.equalsIgnoreCase(b)`. */
  predicate EqualsIgnoreCase(a: string, b: string) {
    |a| == |b| && forall i :: 0 <= i < |a| ==> CharEqualsIgnoreCase(a[i], b[i])
  }

  function UpperCase(s: string): (r: string)
    ensures |r| == |s| && forall i :: 0 <= i < |s| ==> r[i] == ToUpper(s[i])
  {
    if s == [] then [] else [ToUpper(s[0])] + UpperCase(s[1..])
  }

  /** Two characters are equal ignoring case exactly when their upper-case forms are. */
  lemma CharEqualsIgnoreCaseIsUpperEquality(a: char, b: char)
    ensures CharEqualsIgnoreCase(a, b) <==> ToUpper(a) == ToUpper(b)
  {
    var ua, ub := ToUpper(a), ToUpper(b);
    assert !('a' <= ua <= 'z') && !('a' <= ub <= 'z');
    if ToLower(ua) == ToLower(ub) {
      if 'A' <= ua <= 'Z' {
        assert 'a' <= ToLower(ua) <= 'z';
      }
      if 'A' <= ub <= 'Z' {
        assert 'a' <= ToLower(ub) <= 'z';
      }
    }
  }

  /** Ignoring case means comparing the upper-case forms. */
  lemma EqualsIgnoreCaseIsUpperEquality(a: string, b: string)
    ensures EqualsIgnoreCase(a, b) <==> UpperCase(a) == UpperCase(b)
  {
    if |a| == |b| {
      forall i | 0 <= i < |a|
        ensures CharEqualsIgnoreCase(a[i], b[i]) <==> UpperCase(a)[i] == UpperCase(b)[i]
      {
        CharEqualsIgnoreCaseIsUpperEquality(a[i], b[i]);
      }
    }
  }

  // ---------------------------------------------------------------------------
  // Decimal numbers
  // ---------------------------------------------------------------------------

  predicate IsDigit(c: char) { '0' <= c <= '9' }

  predicate AllDigits(s: string) {
    forall i :: 0 <= i < |s| ==> IsDigit(s[i])
  }

  function DigitChar(d: nat): (c: char)
    requires d < 10
    ensures IsDigit(c) && c as int - '0' as int == d
  {
    ('0' as int + d) as char
  }

  /** The decimal value of a string of digits. */
  function DigitsValue(s: string): nat
    requires AllDigits(s)
  {
    if s == [] then 0
    else 10 * DigitsValue(s[..|s| - 1]) + (s[|s| - 1] as int - '0' as int)
  }

  /** The decimal form of `n`, as `String.valueOf(int)` writes a non-negative value. */
  function NatToString(n: nat): (r: string)
    ensures r != [] && AllDigits(r)
    ensures r[0] == '0' ==> n == 0
  {
    if n < 10 then [DigitChar(n)] else NatToString(n / 10) + [DigitChar(n % 10)]
  }

  /** The decimal form of `x`, with a leading minus sign when it is negative. */
  function IntToString(x: int): string
  {
    if x < 0 then "-" + NatToString(-x) else NatToString(x)
  }

  /**
   * `Integer.valueOf(s)`: an optional sign, at least one decimal digit and a
   * value within the `int` range; anything else is a NumberFormatException
   * (`None`).
   */
  function ParseInt(s: string): (r: Option<int>)
    ensures r.Some? ==> IsInt32(r.value)
  {
    if s == [] then None
    else
      var digits := if s[0] == '-' || s[0] == '+' then s[1..] else s;
      if digits == [] || !AllDigits(digits) then None
      else
        var v: int := if s[0] == '-' then -(DigitsValue(digits) as int) else DigitsValue(digits);
        if IsInt32(v) then Some(v) else None
  }

  lemma {:induction false} DigitsValueOfNatToString(n: nat)
    ensures DigitsValue(NatToString(n)) == n
  {
    if n >= 10 {
      var s := NatToString(n / 10) + [DigitChar(n % 10)];
      assert s[..|s| - 1] == NatToString(n / 10);
      DigitsValueOfNatToString(n / 10);
    }
  }

  /** `Integer.valueOf` reads back every `int` that `String.valueOf` writes. */
  lemma ParseIntToString(x: int)
    requires IsInt32(x)
    ensures ParseInt(IntToString(x)) == Some(x)
  {
    var s := IntToString(x);
    if x < 0 {
      var digits := NatToString(-x);
      assert s[0] == '-' && s[1..] == digits;
      DigitsValueOfNatToString(-x);
      assert -(DigitsValue(digits) as int) == x;
    } else {
      assert s == NatToString(x) && IsDigit(s[0]);
      DigitsValueOfNatToString(x);
    }
  }

  /** Decimal names are distinct for distinct numbers. */
  lemma NatToStringInjective(a: nat, b: nat)
    requires NatToString(a) == NatToString(b)
    ensures a == b
  {
    DigitsValueOfNatToString(a);
    DigitsValueOfNatToString(b);
  }
}
