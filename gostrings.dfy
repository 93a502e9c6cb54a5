/**
 * The two Go library functions the trigger-time parser relies on:
 * `strings.Split` with a one-character separator and `strconv.Atoi`.
 * Both are stated over unbounded integers; Atoi's range error for values
 * that do not fit in a Go `int` is not part of this model.
 */
module GoStrings {
  import opened Wrappers

  // ---------------------------------------------------------------------
  // strings.Split(s, sep) for a single-character separator
  // ---------------------------------------------------------------------

  /** Number of occurrences of `sep` in `s`. */
  function Count(s: string, sep: char): nat {
    if s == [] then 0 else Count(s[..|s| - 1], sep) + (if s[|s| - 1] == sep then 1 else 0)
  }

  /**
   * Go's `strings.Split(s, string(sep))`: the maximal `sep`-free pieces of
   * `s`, in order.  Like Go, the empty string yields one empty field and a
   * trailing separator yields a trailing empty field.
   */
  function Split(s: string, sep: char): (fields: seq<string>)
    ensures |fields| >= 1
    decreases |s|
  {
    if s == [] then [[]]
    else
      var init := Split(s[..|s| - 1], sep);
      if s[|s| - 1] == sep then init + [[]]
      else init[..|init| - 1] + [init[|init| - 1] + [s[|s| - 1]]]
  }

  /** Concatenation of `fields` with `sep` between neighbours (Go's `strings.Join`). */
  function Join(fields: seq<string>, sep: char): string {
    if |fields| <= 1 then (if fields == [] then [] else fields[0])
    else Join(fields[..|fields| - 1], sep) + [sep] + fields[|fields| - 1]
  }

  lemma {:induction false} SplitLength(s: string, sep: char)
    ensures |Split(s, sep)| == Count(s, sep) + 1
    decreases |s|
  {
    if s != [] {
      SplitLength(s[..|s| - 1], sep);
    }
  }

  lemma {:induction false} SplitFieldsSepFree(s: string, sep: char)
    ensures forall i :: 0 <= i < |Split(s, sep)| ==> sep !in Split(s, sep)[i]
    decreases |s|
  {
    if s != [] {
      var p, c := s[..|s| - 1], s[|s| - 1];
      SplitFieldsSepFree(p, sep);
      SplitLength(p, sep);
      var init := Split(p, sep);
      if c != sep {
        var r := Split(s, sep);
        assert forall i :: 0 <= i < |r| - 1 ==> r[i] == init[i];
        assert r[|r| - 1] == init[|init| - 1] + [c];
      }
    }
  }

  /** Joining the fields back with the separator gives the original text. */
  lemma {:induction false} SplitJoin(s: string, sep: char)
    ensures Join(Split(s, sep), sep) == s
    decreases |s|
  {
    if s != [] {
      var p, c := s[..|s| - 1], s[|s| - 1];
      assert s == p + [c];
      SplitJoin(p, sep);
      SplitLength(p, sep);
      var init := Split(p, sep);
      var r := Split(s, sep);
      if c == sep {
        assert r[..|r| - 1] == init;
      } else {
        var last := init[|init| - 1] + [c];
        if |init| == 1 {
          assert Join(r, sep) == last;
        } else {
          assert r[..|r| - 1] == init[..|init| - 1];
          assert Join(r, sep) == Join(init[..|init| - 1], sep) + [sep] + last;
        }
      }
    }
  }

  lemma {:induction false} CountAppend(a: string, b: string, sep: char)
    ensures Count(a + b, sep) == Count(a, sep) + Count(b, sep)
    decreases |b|
  {
    if b == [] {
      assert a + b == a;
    } else {
      assert (a + b)[..|a + b| - 1] == a + b[..|b| - 1];
      CountAppend(a, b[..|b| - 1], sep);
    }
  }

  lemma {:induction false} CountZero(s: string, sep: char)
    ensures Count(s, sep) == 0 <==> sep !in s
    decreases |s|
  {
    if s != [] {
      CountZero(s[..|s| - 1], sep);
      assert s == s[..|s| - 1] + [s[|s| - 1]];
    }
  }

  lemma {:induction false} SplitNoSep(s: string, sep: char)
    requires sep !in s
    ensures Split(s, sep) == [s]
    decreases |s|
  {
    if s != [] {
      var p := s[..|s| - 1];
      SplitNoSep(p, sep);
      assert p + [s[|s| - 1]] == s;
    }
  }

  lemma {:induction false} SplitAppendSep(a: string, sep: char)
    ensures Split(a + [sep], sep) == Split(a, sep) + [[]]
  {
    assert (a + [sep])[..|a + [sep]| - 1] == a;
  }

  lemma {:induction false} SplitAppendChar(a: string, c: char, sep: char)
    requires c != sep
    ensures var f := Split(a, sep); Split(a + [c], sep) == f[..|f| - 1] + [f[|f| - 1] + [c]]
  {
    assert (a + [c])[..|a + [c]| - 1] == a;
  }

  lemma {:induction false} SplitAppendPlain(a: string, b: string, sep: char)
    requires sep !in b
    ensures var f := Split(a, sep); Split(a + b, sep) == f[..|f| - 1] + [f[|f| - 1] + b]
    decreases |b|
  {
    SplitLength(a, sep);
    var f := Split(a, sep);
    if b == [] {
      assert a + b == a;
      assert f[|f| - 1] + b == f[|f| - 1];
      assert f[..|f| - 1] + [f[|f| - 1]] == f;
    } else {
      var b', c := b[..|b| - 1], b[|b| - 1];
      assert b == b' + [c];
      assert a + b == (a + b') + [c];
      SplitAppendPlain(a, b', sep);
      SplitAppendChar(a + b', c, sep);
      var init := Split(a + b', sep);
      assert init[..|init| - 1] == f[..|f| - 1];
      assert init[|init| - 1] + [c] == f[|f| - 1] + b;
    }
  }

  /**
   * Splitting yields exactly the two fields `[a, b]` precisely when the text
   * is `a`, one separator, `b`, with no further separator in either part.
   */
  lemma SplitTwoFields(a: string, b: string, sep: char)
    requires sep !in a && sep !in b
    ensures Split(a + [sep] + b, sep) == [a, b]
  {
    SplitNoSep(a, sep);
    SplitAppendSep(a, sep);
    SplitAppendPlain(a + [sep], b, sep);
    assert [] + b == b;
  }

  lemma SplitTwoFieldsInverse(s: string, sep: char)
    requires |Split(s, sep)| == 2
    ensures var f := Split(s, sep); s == f[0] + [sep] + f[1] && sep !in f[0] && sep !in f[1]
  {
    SplitLength(s, sep);
    SplitFieldsSepFree(s, sep);
    SplitJoin(s, sep);
    var f := Split(s, sep);
    assert f[..1] == [f[0]];
  }

  // ---------------------------------------------------------------------
  // strconv.Atoi
  // ---------------------------------------------------------------------

  predicate IsDigit(c: char) { '0' <= c <= '9' }

  /** A non-empty run of ASCII decimal digits. */
  predicate IsDigits(d: string) {
    |d| > 0 && forall i :: 0 <= i < |d| ==> IsDigit(d[i])
  }

  /** The text Atoi accepts: an optional `+` or `-`, then one or more digits. */
  ghost predicate IsIntLiteral(s: string) {
    exists sign: string, d: string :: (sign == "" || sign == "+" || sign == "-") && IsDigits(d) && s == sign + d
  }

  /** Value of a run of decimal digits, most significant first. */
  function DigitsValue(d: string): nat
    requires forall i :: 0 <= i < |d| ==> IsDigit(d[i])
  {
    if d == [] then 0
    else
      var c := d[|d| - 1];
      assert IsDigit(c);
      DigitsValue(d[..|d| - 1]) * 10 + (c as int - '0' as int)
  }

  /**
   * Go's `strconv.Atoi(s)`: `Some(n)` where Go returns `(n, nil)`, `None`
   * where it returns a syntax error (empty text, a lone sign, any
   * character other than a digit after the optional sign).
   */
  function Atoi(s: string): (r: Option<int>)
    ensures r.Some? ==> |s| > 0 && (r.value < 0 ==> s[0] == '-') && (s[0] == '-' ==> r.value <= 0)
    ensures r.Some? && s[0] != '-' && s[0] != '+' ==> |s| > 0 && IsDigit(s[0])
  {
    var neg := |s| > 0 && s[0] == '-';
    var digits := if |s| > 0 && (s[0] == '+' || s[0] == '-') then s[1..] else s;
    if !IsDigits(digits) then None
    else if neg then Some(0 - DigitsValue(digits))
    else Some(DigitsValue(digits))
  }

  /** Atoi succeeds exactly on the text `IsIntLiteral` describes. */
  lemma AtoiAcceptsIntLiterals(s: string)
    ensures Atoi(s).Some? <==> IsIntLiteral(s)
  {
    if Atoi(s).Some? {
      if |s| > 0 && (s[0] == '+' || s[0] == '-') {
        assert s == [s[0]] + s[1..];
      } else {
        assert s == "" + s;
      }
    }
    if IsIntLiteral(s) {
      var sign: string, d: string :| (sign == "" || sign == "+" || sign == "-") && IsDigits(d) && s == sign + d;
      if sign == "" {
        assert s == d;
        assert IsDigit(d[0]);
      } else {
        assert s[1..] == d;
      }
    }
  }

  /** Decimal digits of a natural number, without leading zeros. */
  function NatDigits(n: nat): (d: string)
    ensures IsDigits(d)
  {
    if n < 10 then ['0' + n as char]
    else NatDigits(n / 10) + ['0' + (n % 10) as char]
  }

  /** Go's `strconv.Itoa` / `fmt.Sprint` of an int. */
  function Itoa(n: int): (text: string)
    ensures |text| > 0 && (text[0] == '-' <==> n < 0)
  {
    if n < 0 then ['-'] + NatDigits(-n) else NatDigits(n)
  }

  lemma {:induction false} NatDigitsValue(n: nat)
    ensures DigitsValue(NatDigits(n)) == n
  {
    if n >= 10 {
      NatDigitsValue(n / 10);
      var d := NatDigits(n);
      assert d[..|d| - 1] == NatDigits(n / 10);
    }
  }

  /** Atoi reads back every integer Itoa writes. */
  lemma AtoiItoa(n: int)
    ensures Atoi(Itoa(n)) == Some(n)
  {
    var d := NatDigits(if n < 0 then -n else n);
    NatDigitsValue(if n < 0 then -n else n);
    if n < 0 {
      assert Itoa(n)[1..] == d;
    }
  }

  lemma DigitsValueZeroPrefix(d: string)
    requires IsDigits(d)
    ensures DigitsValue(['0'] + d) == DigitsValue(d)
    decreases |d|
  {
    var z := ['0'] + d;
    assert z[..|z| - 1] == ['0'] + d[..|d| - 1];
    if |d| > 1 {
      DigitsValueZeroPrefix(d[..|d| - 1]);
    } else {
      assert z[..|z| - 1] == ['0'];
      assert ['0'][..0] == [];
    }
  }
}
