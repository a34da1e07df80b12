/** Text conversions the source relies on: Rust's `to_string` and `parse` for unsigned
    integers and booleans, Redis's strict integer reading, and `find` / `split` / join on
    strings. Strings are sequences of characters; byte offsets and character offsets agree
    because every string the model cuts is ASCII at the point where it is cut. */
module Text {
  import opened Common

  predicate IsDigit(c: char) {
    '0' <= c <= '9'
  }

  predicate AllDigits(s: string) {
    forall i :: 0 <= i < |s| ==> IsDigit(s[i])
  }

  function DigitChar(d: nat): (c: char)
    requires d < 10
    ensures IsDigit(c) && c as int - '0' as int == d
  {
    (d + '0' as int) as char
  }

  function DigitValue(c: char): (d: nat)
    requires IsDigit(c)
    ensures d < 10
  {
    c as int - '0' as int
  }

  /** Decimal rendering of a natural number (Rust's `to_string` on an unsigned integer):
      digits only, and no leading zero unless the number is zero. */
  function NatToString(n: nat): (s: string)
    ensures |s| >= 1 && AllDigits(s)
    ensures s[0] == '0' <==> n == 0
    decreases n
  {
    if n < 10 then [DigitChar(n)] else NatToString(n / 10) + [DigitChar(n % 10)]
  }

  /** The value of a string of decimal digits, most significant first. */
  function DigitsValue(s: string): nat
    requires AllDigits(s)
    decreases |s|
  {
    if s == [] then 0 else DigitsValue(s[..|s| - 1]) * 10 + DigitValue(s[|s| - 1])
  }

  /** `str::parse` for an unsigned Rust integer type whose values lie below `bound`:
      an optional leading '+', then at least one ASCII digit; an overflow is an error. */
  function ParseUnsigned(s: string, bound: nat): (r: Option<nat>)
    ensures r.Some? ==> r.value < bound
  {
    var digits := if |s| > 0 && s[0] == '+' then s[1..] else s;
    if |digits| > 0 && AllDigits(digits) && DigitsValue(digits) < bound
    then Some(DigitsValue(digits))
    else None
  }

  /** `parse(...).unwrap_or_default()` for an unsigned integer type. */
  function ParseOrZero(s: string, bound: nat): (n: nat)
    ensures n < bound || n == 0
  {
    match ParseUnsigned(s, bound)
    case Some(v) => v
    case None => 0
  }

  /** Redis's reading of a hash field as a 64-bit integer (HINCRBY), restricted to
      non-negative values: digits only, no sign, no leading zero. */
  function ParseCanonical(s: string): (r: Option<nat>)
    ensures r.Some? ==> r.value < U64_SIGNED_BOUND
  {
    if |s| > 0 && AllDigits(s) && (s[0] != '0' || |s| == 1) && DigitsValue(s) < U64_SIGNED_BOUND
    then Some(DigitsValue(s))
    else None
  }

  /** `str::parse::<bool>()`: exactly "true" or "false". */
  function ParseBool(s: string): Option<bool> {
    if s == "true" then Some(true) else if s == "false" then Some(false) else None
  }

  /** `bool::to_string`. */
  function BoolToString(b: bool): string {
    if b then "true" else "false"
  }

  lemma {:induction false} DigitsValueOfNatToString(n: nat)
    ensures DigitsValue(NatToString(n)) == n
    decreases n
  {
    if n >= 10 {
      var s := NatToString(n);
      assert s[..|s| - 1] == NatToString(n / 10);
      DigitsValueOfNatToString(n / 10);
    }
  }

  /** Parsing what `to_string` rendered gives the number back whenever it fits the type. */
  lemma ParseNatToString(n: nat, bound: nat)
    requires n < bound
    ensures ParseUnsigned(NatToString(n), bound) == Some(n)
    ensures ParseOrZero(NatToString(n), bound) == n
  {
    DigitsValueOfNatToString(n);
    assert IsDigit(NatToString(n)[0]);
  }

  /** A rendered number that does not fit the type parses as an error. */
  lemma ParseNatToStringOverflow(n: nat, bound: nat)
    requires n >= bound
    ensures ParseUnsigned(NatToString(n), bound) == None
  {
    DigitsValueOfNatToString(n);
    assert IsDigit(NatToString(n)[0]);
  }

  lemma ParseCanonicalNatToString(n: nat)
    requires n < U64_SIGNED_BOUND
    ensures ParseCanonical(NatToString(n)) == Some(n)
  {
    DigitsValueOfNatToString(n);
  }

  lemma NatToStringInjective(m: nat, n: nat)
    requires NatToString(m) == NatToString(n)
    ensures m == n
  {
    DigitsValueOfNatToString(m);
    DigitsValueOfNatToString(n);
  }

  /** A string holding a '.' (a fractional number) never parses as an unsigned integer. */
  lemma ParseRejectsPoint(s: string, bound: nat)
    requires '.' in s
    ensures ParseUnsigned(s, bound) == None
  {
    var k :| 0 <= k < |s| && s[k] == '.';
    var digits := if |s| > 0 && s[0] == '+' then s[1..] else s;
    if |s| > 0 && s[0] == '+' {
      assert k > 0 && digits[k - 1] == '.';
    } else {
      assert digits[k] == '.';
    }
  }

  /** Index of the first occurrence of `c` in `s` (Rust's `find` on a character). */
  function FindChar(s: string, c: char): (r: Option<nat>)
    ensures r.Some? ==> r.value < |s| && s[r.value] == c && c !in s[..r.value]
    ensures r.None? <==> c !in s
    decreases |s|
  {
    if s == [] then None
    else if s[0] == c then Some(0)
    else match FindChar(s[1..], c)
      case None => None
      case Some(i) =>
        assert s[..i + 1] == [s[0]] + s[1..][..i];
        Some(i + 1)
  }

  lemma {:induction false} FindCharAfterPrefix(p: string, c: char, t: string)
    requires c !in p
    ensures FindChar(p + [c] + t, c) == Some(|p|)
    decreases |p|
  {
    var s := p + [c] + t;
    if p != [] {
      assert s[0] == p[0];
      assert s[1..] == p[1..] + [c] + t;
      FindCharAfterPrefix(p[1..], c, t);
    }
  }

  /** `str::split` on a single character: the pieces between separators, empty pieces kept. */
  function Split(s: string, sep: char): (parts: seq<string>)
    ensures |parts| >= 1
    decreases |s|
  {
    if s == [] then [""]
    else
      var rest := Split(s[1..], sep);
      if s[0] == sep then [""] + rest else [[s[0]] + rest[0]] + rest[1..]
  }

  /** The pieces joined with a separator between consecutive pieces. */
  function Join(parts: seq<string>, sep: char): string
    decreases |parts|
  {
    if |parts| == 0 then ""
    else if |parts| == 1 then parts[0]
    else parts[0] + [sep] + Join(parts[1..], sep)
  }

  /** Splitting a string with no separator gives the string itself as the only piece. */
  lemma {:induction false} SplitNoSeparator(s: string, sep: char)
    requires sep !in s
    ensures Split(s, sep) == [s]
    decreases |s|
  {
    if s != [] {
      assert s[0] != sep && sep !in s[1..];
      SplitNoSeparator(s[1..], sep);
      assert s == [s[0]] + s[1..];
    }
  }

  lemma SplitCons(c: char, t: string, sep: char)
    ensures Split([c] + t, sep) ==
      if c == sep then [""] + Split(t, sep) else [[c] + Split(t, sep)[0]] + Split(t, sep)[1..]
  {
    assert ([c] + t)[0] == c && ([c] + t)[1..] == t;
  }

  /** Splitting at a separator splits the two sides independently. */
  lemma {:induction false} SplitConcat(a: string, sep: char, b: string)
    ensures Split(a + [sep] + b, sep) == Split(a, sep) + Split(b, sep)
    decreases |a|
  {
    if a == [] {
      assert a + [sep] + b == [sep] + b;
      SplitCons(sep, b, sep);
    } else {
      SplitConcat(a[1..], sep, b);
      SplitConcatStep(a[0], a[1..], sep, b);
      assert a == [a[0]] + a[1..];
    }
  }

  lemma SplitConcatStep(c: char, a: string, sep: char, b: string)
    requires Split(a + [sep] + b, sep) == Split(a, sep) + Split(b, sep)
    ensures Split([c] + a + [sep] + b, sep) == Split([c] + a, sep) + Split(b, sep)
  {
    var t := a + [sep] + b;
    assert [c] + a + [sep] + b == [c] + t;
    SplitCons(c, t, sep);
    SplitCons(c, a, sep);
    ConsPieces(c, sep, Split(a, sep), Split(b, sep));
  }

  /** Putting a character in front of pieces followed by more pieces, as `Split` does. */
  lemma ConsPieces(c: char, sep: char, r: seq<string>, q: seq<string>)
    requires |r| >= 1
    ensures (if c == sep then [""] + (r + q) else [[c] + (r + q)[0]] + (r + q)[1..]) ==
            (if c == sep then [""] + r else [[c] + r[0]] + r[1..]) + q
  {
    assert (r + q)[0] == r[0] && (r + q)[1..] == r[1..] + q;
  }

  lemma SplitAfterPrefix(p: string, sep: char, t: string)
    requires sep !in p
    ensures Split(p + [sep] + t, sep) == [p] + Split(t, sep)
  {
    SplitConcat(p, sep, t);
    SplitNoSeparator(p, sep);
  }

  /** No piece of a split holds the separator. */
  lemma {:induction false} SplitPiecesPlain(s: string, sep: char)
    ensures forall i :: 0 <= i < |Split(s, sep)| ==> sep !in Split(s, sep)[i]
    decreases |s|
  {
    if s != [] {
      SplitPiecesPlain(s[1..], sep);
      var r := Split(s[1..], sep);
      if s[0] != sep {
        assert sep !in r[0];
        assert sep !in [s[0]] + r[0];
      }
    }
  }

  /** Splitting a join gives the pieces back when no piece holds the separator. */
  lemma {:induction false} SplitJoin(parts: seq<string>, sep: char)
    requires |parts| >= 1
    requires forall i :: 0 <= i < |parts| ==> sep !in parts[i]
    ensures Split(Join(parts, sep), sep) == parts
    decreases |parts|
  {
    if |parts| == 1 {
      SplitNoSeparator(parts[0], sep);
    } else {
      SplitAfterPrefix(parts[0], sep, Join(parts[1..], sep));
      SplitJoin(parts[1..], sep);
      assert parts == [parts[0]] + parts[1..];
    }
  }

  /** Joining the pieces of a split gives the string back. */
  lemma {:induction false} JoinSplit(s: string, sep: char)
    ensures Join(Split(s, sep), sep) == s
    decreases |s|
  {
    if s != [] {
      JoinSplit(s[1..], sep);
      var r := Split(s[1..], sep);
      if s[0] == sep {
        assert ([""] + r)[1..] == r;
        assert s == [sep] + s[1..];
      } else if |r| == 1 {
        assert s == [s[0]] + s[1..];
      } else {
        var p := [[s[0]] + r[0]] + r[1..];
        assert p[1..] == r[1..];
        assert Join(r, sep) == r[0] + [sep] + Join(r[1..], sep);
        assert s == [s[0]] + s[1..];
      }
    }
  }

  /** Number of occurrences of `c` in `s`. */
  function CountChar(s: string, c: char): nat
    decreases |s|
  {
    if s == [] then 0 else (if s[0] == c then 1 else 0) + CountChar(s[1..], c)
  }

  /** `split` yields one piece more than there are separators. */
  lemma {:induction false} SplitCount(s: string, sep: char)
    ensures |Split(s, sep)| == CountChar(s, sep) + 1
    decreases |s|
  {
    if s != [] {
      SplitCount(s[1..], sep);
    }
  }

  /** Redis's glob-style matching (as used by SCAN MATCH), for patterns made of literal
      characters, `*` (any run of characters) and `?` (any one character). */
  predicate Glob(pattern: string, key: string)
    decreases |pattern| + |key|
  {
    if pattern == [] then key == []
    else if pattern[0] == '*' then Glob(pattern[1..], key) || (key != [] && Glob(pattern, key[1..]))
    else if pattern[0] == '?' then key != [] && Glob(pattern[1..], key[1..])
    else key != [] && key[0] == pattern[0] && Glob(pattern[1..], key[1..])
  }

  /** The characters that are special in a Redis glob pattern. */
  predicate Literal(t: string) {
    forall i :: 0 <= i < |t| ==> t[i] !in "*?[\\"
  }

  predicate EndsWith(s: string, t: string) {
    |t| <= |s| && s[|s| - |t|..] == t
  }

  /** A pattern without special characters matches exactly itself. */
  lemma {:induction false} GlobLiteral(t: string, key: string)
    requires Literal(t)
    ensures Glob(t, key) <==> key == t
    decreases |t|
  {
    if t != [] {
      assert t[0] !in "*?[\\";
      assert Literal(t[1..]) by {
        forall i | 0 <= i < |t[1..]| ensures t[1..][i] !in "*?[\\" {
          assert t[1..][i] == t[i + 1];
        }
      }
      if key != [] {
        GlobLiteral(t[1..], key[1..]);
        assert key == t <==> key[0] == t[0] && key[1..] == t[1..] by {
          if key[0] == t[0] && key[1..] == t[1..] {
            assert key == [key[0]] + key[1..] && t == [t[0]] + t[1..];
          }
        }
      }
    }
  }

  /** A pattern `*` followed by literal text matches exactly the strings ending with that text. */
  lemma {:induction false} GlobStarSuffix(t: string, key: string)
    requires Literal(t)
    ensures Glob("*" + t, key) <==> EndsWith(key, t)
    decreases |key|
  {
    var p := "*" + t;
    assert p[0] == '*' && p[1..] == t;
    GlobLiteral(t, key);
    if key != [] {
      GlobStarSuffix(t, key[1..]);
      if |t| < |key| {
        assert key[1..][|key[1..]| - |t|..] == key[|key| - |t|..];
      }
    }
  }
}
