/** String helpers shared by every renderer: ASCII case mapping (the part of JavaScript's
    toLowerCase/toUpperCase the model keeps), joining, quote doubling, trimming and the decimal
    text of integers. */
module Text {

  predicate IsAsciiUpper(c: char) { 'A' <= c <= 'Z' }
  predicate IsAsciiLower(c: char) { 'a' <= c <= 'z' }
  predicate IsAsciiLetter(c: char) { IsAsciiUpper(c) || IsAsciiLower(c) }
  predicate IsDigit(c: char) { '0' <= c <= '9' }

  function LowerChar(c: char): char
  {
    if IsAsciiUpper(c) then (c as int + 32) as char else c
  }

  function UpperChar(c: char): char
  {
    if IsAsciiLower(c) then (c as int - 32) as char else c
  }

  /** `s.toLowerCase()`, restricted to ASCII letters. */
  function Lower(s: string): (r: string)
    ensures |r| == |s|
    ensures forall i :: 0 <= i < |s| ==> r[i] == LowerChar(s[i])
  {
    seq(|s|, i requires 0 <= i < |s| => LowerChar(s[i]))
  }

  /** `s.toUpperCase()`, restricted to ASCII letters. */
  function Upper(s: string): (r: string)
    ensures |r| == |s|
    ensures forall i :: 0 <= i < |s| ==> r[i] == UpperChar(s[i])
  {
    seq(|s|, i requires 0 <= i < |s| => UpperChar(s[i]))
  }

  /** Case folding only moves ASCII letters, so no other character is produced or removed by it. */
  lemma LowerKeepsOthers(s: string, c: char)
    requires !IsAsciiLetter(c)
    ensures c in Lower(s) <==> c in s
  {
    if c in s {
      var i :| 0 <= i < |s| && s[i] == c;
      assert Lower(s)[i] == c;
    }
    if c in Lower(s) {
      var i :| 0 <= i < |s| && Lower(s)[i] == c;
      assert s[i] == c;
    }
  }

  /** `xs.join(sep)`. */
  function Join(xs: seq<string>, sep: string): string
  {
    if |xs| == 0 then "" else if |xs| == 1 then xs[0] else xs[0] + sep + Join(xs[1..], sep)
  }

  lemma {:induction false} JoinAppend(xs: seq<string>, x: string, sep: string)
    requires xs != []
    ensures Join(xs + [x], sep) == Join(xs, sep) + sep + x
  {
    if |xs| == 1 {
      assert (xs + [x])[1..] == [x];
    } else {
      assert (xs + [x])[1..] == xs[1..] + [x];
      JoinAppend(xs[1..], x, sep);
    }
  }

  /** A join of non-empty parts opens with the first part's first character and closes with the
      last part's last character. */
  lemma {:induction false} JoinEnds(xs: seq<string>, sep: string)
    requires xs != [] && forall k :: 0 <= k < |xs| ==> xs[k] != []
    ensures var j := Join(xs, sep);
      j != [] && j[0] == xs[0][0] && j[|j| - 1] == xs[|xs| - 1][|xs[|xs| - 1]| - 1]
  {
    if |xs| > 1 {
      JoinEnds(xs[1..], sep);
      var rest := Join(xs[1..], sep);
      assert Join(xs, sep) == xs[0] + (sep + rest);
    }
  }

  /** Every part between the same prefix and suffix. */
  function Wrapped(xs: seq<string>, prefix: string, suffix: string): (r: seq<string>)
    ensures |r| == |xs| && forall k :: 0 <= k < |xs| ==> r[k] == prefix + xs[k] + suffix
  {
    seq(|xs|, k requires 0 <= k < |xs| => prefix + xs[k] + suffix)
  }

  /** Writing the prefix and suffix around the whole join, and both into the separator, wraps
      every part: `pre + xs.join(suf + sep + pre) + suf`. */
  lemma {:induction false} JoinWrapped(xs: seq<string>, prefix: string, suffix: string, sep: string)
    requires xs != []
    ensures prefix + Join(xs, suffix + sep + prefix) + suffix == Join(Wrapped(xs, prefix, suffix), sep)
  {
    if |xs| > 1 {
      JoinWrapped(xs[1..], prefix, suffix, sep);
      assert Wrapped(xs, prefix, suffix)[1..] == Wrapped(xs[1..], prefix, suffix);
      var rest := Join(xs[1..], suffix + sep + prefix);
      assert prefix + Join(xs, suffix + sep + prefix) + suffix ==
             (prefix + xs[0] + suffix) + sep + (prefix + rest + suffix);
    }
  }

  /** `s.replaceAll("'", "''")`: every single quote doubled. */
  function DoubleQuotes(s: string): string
  {
    if s == [] then [] else (if s[0] == '\'' then "''" else [s[0]]) + DoubleQuotes(s[1..])
  }

  /** Reads a quote-doubled literal body back: `''` stands for one quote. */
  function UndoubleQuotes(s: string): string
  {
    if s == [] then []
    else if |s| >= 2 && s[0] == '\'' && s[1] == '\'' then "'" + UndoubleQuotes(s[2..])
    else [s[0]] + UndoubleQuotes(s[1..])
  }

  /** The escaping loses nothing: the text inside a literal reads back as the original. */
  lemma {:induction false} UndoubleDoubleQuotes(s: string)
    ensures UndoubleQuotes(DoubleQuotes(s)) == s
  {
    if s != [] {
      var rest := DoubleQuotes(s[1..]);
      UndoubleDoubleQuotes(s[1..]);
      if s[0] == '\'' {
        assert DoubleQuotes(s) == "''" + rest;
        assert ("''" + rest)[2..] == rest;
      } else {
        assert DoubleQuotes(s) == [s[0]] + rest;
        assert ([s[0]] + rest)[1..] == rest;
      }
    }
  }

  /** Every quote the escaping produces has a partner: quotes come in adjacent pairs, so none can
      close the surrounding literal. */
  ghost predicate QuotesPaired(t: string)
  {
    t == [] ||
    (t[0] == '\'' && |t| >= 2 && t[1] == '\'' && QuotesPaired(t[2..])) ||
    (t[0] != '\'' && QuotesPaired(t[1..]))
  }

  lemma {:induction false} DoubleQuotesPaired(s: string)
    ensures QuotesPaired(DoubleQuotes(s))
  {
    if s != [] {
      var rest := DoubleQuotes(s[1..]);
      DoubleQuotesPaired(s[1..]);
      if s[0] == '\'' {
        assert ("''" + rest)[2..] == rest;
      } else {
        assert ([s[0]] + rest)[1..] == rest;
      }
    }
  }

  /** Whitespace and line terminators as String.prototype.trim removes them. */
  predicate IsSpace(c: char)
  {
    c == ' ' || c == '\t' || c == '\n' || c == '\r' || c == '\U{000B}' || c == '\U{000C}' ||
    c == '\U{00A0}' || c == '\U{1680}' || ('\U{2000}' <= c <= '\U{200A}') ||
    c == '\U{2028}' || c == '\U{2029}' || c == '\U{202F}' || c == '\U{205F}' ||
    c == '\U{3000}' || c == '\U{FEFF}'
  }

  function TrimStart(s: string): (r: string)
    ensures |r| <= |s| && r == s[|s| - |r|..]
    ensures |r| == 0 || !IsSpace(r[0])
    ensures forall k :: 0 <= k < |s| - |r| ==> IsSpace(s[k])
  {
    if |s| > 0 && IsSpace(s[0]) then TrimStart(s[1..]) else s
  }

  function TrimEnd(s: string): (r: string)
    ensures |r| <= |s| && r == s[..|r|]
    ensures |r| == 0 || !IsSpace(r[|r| - 1])
    ensures forall k :: |r| <= k < |s| ==> IsSpace(s[k])
  {
    if |s| > 0 && IsSpace(s[|s| - 1]) then TrimEnd(s[..|s| - 1]) else s
  }

  /** `trim(s)`: whitespace stripped from both ends. */
  function Trim(s: string): string
  {
    TrimEnd(TrimStart(s))
  }

  /** Text with no whitespace at either end is its own trim. */
  lemma TrimOfTrimmed(s: string)
    requires |s| == 0 || (!IsSpace(s[0]) && !IsSpace(s[|s| - 1]))
    ensures Trim(s) == s
  {
  }

  /** Trimming removes only whitespace at the ends and leaves none there. */
  lemma TrimShape(s: string)
    ensures var r := Trim(s);
      (|r| == 0 || (!IsSpace(r[0]) && !IsSpace(r[|r| - 1]))) &&
      exists i :: OccursAt(s, r, i)
  {
    var t := TrimStart(s);
    var r := TrimEnd(t);
    var i := |s| - |t|;
    assert r == s[i..i + |r|] by {
      assert t == s[i..];
      assert r == t[..|r|];
    }
    assert OccursAt(s, r, i);
    if |r| > 0 {
      assert r[0] == t[0];
    }
  }

  lemma TrimIdempotent(s: string)
    ensures Trim(Trim(s)) == Trim(s)
  {
    TrimShape(s);
    TrimOfTrimmed(Trim(s));
  }

  /** A prefix that starts and ends with non-whitespace survives trimming. */
  lemma TrimKeepsPrefix(s: string, p: string)
    requires StartsWith(s, p) && p != [] && !IsSpace(p[0]) && !IsSpace(p[|p| - 1])
    ensures StartsWith(Trim(s), p)
  {
    assert s[0] == p[0];
    assert TrimStart(s) == s;
    assert s[|p| - 1] == p[|p| - 1];
    var r := TrimEnd(s);
    assert |r| >= |p|;
    assert r[..|p|] == s[..|p|];
  }

  function DigitChar(d: nat): (c: char)
    requires d < 10
    ensures IsDigit(c)
  {
    ('0' as int + d) as char
  }

  /** The decimal text of a non-negative integer, as `Number.prototype.toString` writes it. */
  function NatToString(n: nat): (r: string)
    ensures |r| >= 1
    ensures forall i :: 0 <= i < |r| ==> IsDigit(r[i])
    ensures |r| > 1 ==> r[0] != '0'
  {
    if n < 10 then [DigitChar(n)] else NatToString(n / 10) + [DigitChar(n % 10)]
  }

  /** Only zero is written "0". */
  lemma NatToStringZero(n: nat)
    ensures NatToString(n) == "0" <==> n == 0
  {
    if n >= 10 {
      assert |NatToString(n)| > 1;
    }
  }

  /** The value of a string of decimal digits. */
  function DigitsValue(s: string): nat
    requires forall i :: 0 <= i < |s| ==> IsDigit(s[i])
  {
    if s == [] then 0
    else
      assert IsDigit(s[|s| - 1]);
      DigitsValue(s[..|s| - 1]) * 10 + (s[|s| - 1] as int - '0' as int)
  }

  /** Decimal text reads back as the number written. */
  lemma {:induction false} NatToStringValue(n: nat)
    ensures DigitsValue(NatToString(n)) == n
  {
    if n >= 10 {
      var s := NatToString(n);
      assert s[..|s| - 1] == NatToString(n / 10);
      NatToStringValue(n / 10);
    }
  }

  /** Leading zeros do not change the value of a digit string. */
  lemma {:induction false} DigitsValueLeadingZeros(k: nat, s: string)
    requires forall i :: 0 <= i < |s| ==> IsDigit(s[i])
    ensures forall i :: 0 <= i < |Repeat('0', k) + s| ==> IsDigit((Repeat('0', k) + s)[i])
    ensures DigitsValue(Repeat('0', k) + s) == DigitsValue(s)
    decreases |s|, k
  {
    var z := Repeat('0', k);
    assert forall i :: 0 <= i < |z + s| ==> IsDigit((z + s)[i]);
    if s != [] {
      assert (z + s)[..|z + s| - 1] == z + s[..|s| - 1];
      DigitsValueLeadingZeros(k, s[..|s| - 1]);
    } else if k > 0 {
      assert z + s == Repeat('0', k - 1) + "0";
      DigitsValueLeadingZeros(k - 1, "");
      assert (Repeat('0', k - 1) + "0")[..k - 1] == Repeat('0', k - 1) + "";
    }
  }

  function IntToString(i: int): (r: string)
    ensures r != [] && IsDigit(r[|r| - 1])
  {
    if i < 0 then "-" + NatToString(-i) else NatToString(i)
  }

  /** Reads back the text of an integer: an optional `-`, then decimal digits. */
  function IntValue(s: string): int
    requires s != [] && forall i :: 1 <= i < |s| ==> IsDigit(s[i])
    requires s[0] == '-' || IsDigit(s[0])
  {
    if s[0] == '-' then 0 - DigitsValue(s[1..]) as int else DigitsValue(s)
  }

  lemma IntToStringValue(i: int)
    ensures var s := IntToString(i);
      s != [] && (forall k :: 1 <= k < |s| ==> IsDigit(s[k])) && (s[0] == '-' || IsDigit(s[0])) &&
      IntValue(s) == i
  {
    if i < 0 {
      NatToStringValue(-i);
      assert IntToString(i)[1..] == NatToString(-i);
    } else {
      NatToStringValue(i);
    }
  }

  function Repeat(c: char, n: nat): (r: string)
    ensures |r| == n && forall k :: 0 <= k < n ==> r[k] == c
  {
    if n == 0 then [] else [c] + Repeat(c, n - 1)
  }

  /** `s.padStart(n, c)` for a one-character pad. */
  function PadStart(s: string, n: nat, c: char): string
  {
    if |s| >= n then s else Repeat(c, n - |s|) + s
  }

  /** A natural number padded with zeros never reads as all zeros unless it is zero. */
  lemma PadStartZeros(x: nat, n: nat)
    requires n >= 1
    ensures PadStart(NatToString(x), n, '0') == Repeat('0', n) <==> x == 0
  {
    var s := NatToString(x);
    NatToStringZero(x);
    if x == 0 {
      assert s == "0";
      if n > 1 {
        assert Repeat('0', n - 1) + "0" == Repeat('0', n);
      }
    } else if |s| == 1 {
      if n == 1 {
        assert s != Repeat('0', n);
      } else {
        var p := PadStart(s, n, '0');
        assert p[|p| - 1] == s[0] != '0';
      }
    } else {
      var p := PadStart(s, n, '0');
      assert p == s || p[n - |s|] == s[0];
      assert p[|p| - |s|] == s[0] != '0';
    }
  }

  function StartsWith(s: string, prefix: string): bool
  {
    |prefix| <= |s| && s[..|prefix|] == prefix
  }

  function EndsWith(s: string, suffix: string): bool
  {
    |suffix| <= |s| && s[|s| - |suffix|..] == suffix
  }

  lemma StartsWithConcat(a: string, b: string)
    ensures StartsWith(a + b, a)
  {
    assert (a + b)[..|a|] == a;
  }

  lemma EndsWithConcat(a: string, b: string)
    ensures EndsWith(a + b, b)
  {
    assert (a + b)[|a|..] == b;
  }

  /** A prefix followed by the next character of the text is a prefix. */
  lemma StartsWithExtend(s: string, p: string, c: char)
    requires StartsWith(s, p) && |p| < |s| && s[|p|] == c
    ensures StartsWith(s, p + [c])
  {
    assert s[..|p| + 1] == s[..|p|] + [s[|p|]];
  }

  /** A text that differs from `p` at one of its first positions does not start with `p`. */
  lemma NotStartsWithAt(s: string, p: string, j: nat)
    requires j < |p| && j < |s| && s[j] != p[j]
    ensures !StartsWith(s, p)
  {
    if |p| <= |s| {
      assert s[..|p|][j] == s[j];
    }
  }

  /** A text that differs from `p` at one position of its tail does not end with `p`. */
  lemma NotEndsWithAt(s: string, p: string, j: nat)
    requires j < |p| <= |s| && s[|s| - |p| + j] != p[j]
    ensures !EndsWith(s, p)
  {
    assert s[|s| - |p|..][j] == s[|s| - |p| + j];
  }

  /** `sub` occurs in `s` at index `i`. */
  predicate OccursAt(s: string, sub: string, i: int)
  {
    0 <= i && i + |sub| <= |s| && s[i..i + |sub|] == sub
  }

  /** `s.includes(sub)`. */
  function Contains(s: string, sub: string): bool
    decreases |s|
  {
    if |sub| > |s| then false
    else if s[..|sub|] == sub then true
    else Contains(s[1..], sub)
  }

  lemma {:induction false} ContainsIff(s: string, sub: string)
    ensures Contains(s, sub) <==> exists i :: OccursAt(s, sub, i)
    decreases |s|
  {
    if |sub| > |s| {
    } else if s[..|sub|] == sub {
      assert OccursAt(s, sub, 0);
    } else {
      ContainsIff(s[1..], sub);
      if Contains(s[1..], sub) {
        var j :| OccursAt(s[1..], sub, j);
        assert s[1..][j..j + |sub|] == s[j + 1..j + 1 + |sub|];
        assert OccursAt(s, sub, j + 1);
      }
      if exists i :: OccursAt(s, sub, i) {
        var i :| OccursAt(s, sub, i);
        assert i != 0;
        assert s[1..][i - 1..i - 1 + |sub|] == s[i..i + |sub|];
        assert OccursAt(s[1..], sub, i - 1);
      }
    }
  }
}
