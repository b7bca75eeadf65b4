/**
 Text building blocks of the SQL dump: the quoting of character-string
 literals (an embedded quote is written twice, as section 5.3 of ISO/IEC
 9075-2 prescribes for a <character string literal>), a reader for such a
 literal, and the decimal rendering of integers as Python's `str` and
 `format(n, ",")` produce it.
 */
module SqlText {
  import opened Canonical

  const Quote: char := '\''

  lemma AppendAssoc(a: string, b: string, c: string)
    ensures (a + b) + c == a + (b + c)
  {
  }

  /** Number of single quotes in `s`. */
  function QuoteCount(s: string): nat
  {
    if |s| == 0 then 0 else (if s[0] == Quote then 1 else 0) + QuoteCount(s[1..])
  }

  /** `s.replace("'", "''")`: every single quote written twice. */
  function Escape(s: string): (r: string)
    ensures |r| == |s| + QuoteCount(s)
  {
    if |s| == 0 then ""
    else if s[0] == Quote then [Quote, Quote] + Escape(s[1..])
    else [s[0]] + Escape(s[1..])
  }

  /** Reads doubled quotes back as one quote; the inverse of `Escape`. */
  function Unescape(s: string): string
  {
    if |s| == 0 then ""
    else if |s| >= 2 && s[0] == Quote && s[1] == Quote then [Quote] + Unescape(s[2..])
    else [s[0]] + Unescape(s[1..])
  }

  lemma {:induction false} UnescapeEscape(s: string)
    ensures Unescape(Escape(s)) == s
  {
    if |s| == 0 {
    } else if s[0] == Quote {
      UnescapeEscape(s[1..]);
      assert Escape(s) == [Quote, Quote] + Escape(s[1..]);
      assert ([Quote, Quote] + Escape(s[1..]))[2..] == Escape(s[1..]);
    } else {
      UnescapeEscape(s[1..]);
      assert Escape(s) == [s[0]] + Escape(s[1..]);
      assert ([s[0]] + Escape(s[1..]))[1..] == Escape(s[1..]);
    }
  }

  /** Inside an escaped text, quotes come in adjacent pairs only. */
  predicate QuotesPaired(r: string)
  {
    if |r| == 0 then true
    else if r[0] == Quote then |r| >= 2 && r[1] == Quote && QuotesPaired(r[2..])
    else QuotesPaired(r[1..])
  }

  lemma {:induction false} EscapePairsQuotes(s: string)
    ensures QuotesPaired(Escape(s))
  {
    if |s| == 0 {
    } else if s[0] == Quote {
      EscapePairsQuotes(s[1..]);
      assert ([Quote, Quote] + Escape(s[1..]))[2..] == Escape(s[1..]);
    } else {
      EscapePairsQuotes(s[1..]);
      assert ([s[0]] + Escape(s[1..]))[1..] == Escape(s[1..]);
    }
  }

  /**
   Reads the body of a quoted literal whose opening quote has been consumed:
   a doubled quote stands for one quote, a single quote ends the literal.
   Returns the literal's value and the text after the closing quote.
   */
  function ScanQuoted(s: string): Option<(string, string)>
  {
    if |s| == 0 then None
    else if s[0] == Quote then
      if |s| >= 2 && s[1] == Quote then
        match ScanQuoted(s[2..])
        case None => None
        case Some(p) => Some(([Quote] + p.0, p.1))
      else Some(("", s[1..]))
    else
      match ScanQuoted(s[1..])
      case None => None
      case Some(p) => Some(([s[0]] + p.0, p.1))
  }

  /** A doubled quote reads as one quote of the value. */
  lemma ScanQuotedPair(r: string)
    ensures ScanQuoted([Quote, Quote] + r) ==
              (match ScanQuoted(r) case None => None case Some(p) => Some(([Quote] + p.0, p.1)))
  {
    var w := [Quote, Quote] + r;
    assert w[0] == Quote && w[1] == Quote && w[2..] == r;
  }

  /** Any other character is copied into the value. */
  lemma ScanQuotedChar(c: char, r: string)
    requires c != Quote
    ensures ScanQuoted([c] + r) ==
              (match ScanQuoted(r) case None => None case Some(p) => Some(([c] + p.0, p.1)))
  {
    var w := [c] + r;
    assert w[0] == c && w[1..] == r;
  }

  /**
   A quoted, escaped value reads back as exactly that value, and the reader
   stops at the closing quote, whatever text follows (unless it starts with a
   quote, which would extend the literal).
   */
  lemma {:induction false} ScanEscaped(s: string, tail: string)
    requires |tail| == 0 || tail[0] != Quote
    ensures ScanQuoted(Escape(s) + [Quote] + tail) == Some((s, tail))
  {
    if |s| == 0 {
      assert Escape(s) + [Quote] + tail == [Quote] + tail;
    } else {
      var e := Escape(s[1..]);
      var rest := e + [Quote] + tail;
      ScanEscaped(s[1..], tail);
      var lead := if s[0] == Quote then [Quote, Quote] else [s[0]];
      assert Escape(s) == lead + e;
      AppendAssoc(lead + e, [Quote], tail);
      AppendAssoc(lead, e, [Quote] + tail);
      AppendAssoc(e, [Quote], tail);
      assert Escape(s) + [Quote] + tail == lead + rest;
      if s[0] == Quote {
        ScanQuotedPair(rest);
      } else {
        ScanQuotedChar(s[0], rest);
      }
      assert [s[0]] + s[1..] == s;
    }
  }

  /** The digit character for 0..9. */
  function Digit(d: int): (c: char)
    requires 0 <= d <= 9
    ensures '0' <= c <= '9'
    ensures c as int - '0' as int == d
  {
    (d + '0' as int) as char
  }

  predicate AllDigits(s: string)
  {
    forall i :: 0 <= i < |s| ==> '0' <= s[i] <= '9'
  }

  /** The number a digit string denotes. */
  function DigitsValue(s: string): nat
    requires AllDigits(s)
  {
    if |s| == 0 then 0 else DigitsValue(s[..|s| - 1]) * 10 + (s[|s| - 1] as int - '0' as int)
  }

  /** Python's `str(n)` for a natural number: no leading zeros, at least one digit. */
  function NatText(n: nat): (r: string)
    ensures |r| >= 1 && AllDigits(r)
    ensures |r| > 1 ==> r[0] != '0'
    ensures DigitsValue(r) == n
  {
    if n < 10 then [Digit(n)]
    else
      var p := NatText(n / 10);
      var r := p + [Digit(n % 10)];
      assert r[..|r| - 1] == p;
      r
  }

  /** Python's `str(i)` for any integer. */
  function IntText(i: int): (r: string)
    ensures i >= 0 ==> AllDigits(r) && |r| >= 1 && DigitsValue(r) == i && (|r| > 1 ==> r[0] != '0')
    ensures i < 0 ==> |r| >= 2 && r[0] == '-' && AllDigits(r[1..]) && DigitsValue(r[1..]) == -i
                      && (|r| > 2 ==> r[1] != '0')
  {
    if i < 0 then
      var t := NatText(-i);
      assert ("-" + t)[1..] == t;
      "-" + t
    else NatText(i)
  }

  /** Division by ten is determined by the last digit. */
  lemma DivMod10(x: nat, a: nat, b: nat)
    requires x == 10 * a + b && b < 10
    ensures x / 10 == a && x % 10 == b
  {
  }

  /** Exactly three digits, with leading zeros: the groups after a thousands separator. */
  function Pad3(k: nat): (r: string)
    requires k < 1000
    ensures |r| == 3 && AllDigits(r)
    ensures DigitsValue(r) == k
  {
    var r := [Digit(k / 10 / 10), Digit(k / 10 % 10), Digit(k % 10)];
    assert r[..2][..1] == [Digit(k / 10 / 10)] && r[..2][..1][..0] == [];
    assert DigitsValue(r[..2][..1]) == k / 10 / 10;
    assert DigitsValue(r[..2]) == k / 10 / 10 * 10 + k / 10 % 10 == k / 10;
    assert DigitsValue(r) == k / 10 * 10 + k % 10;
    r
  }

  /** Python's `format(n, ",")`: decimal digits with a comma between groups of three. */
  function Grouped(n: nat): string
  {
    if n < 1000 then NatText(n) else Grouped(n / 1000) + "," + Pad3(n % 1000)
  }

  function StripCommas(s: string): (r: string)
  {
    if |s| == 0 then "" else (if s[0] == ',' then "" else [s[0]]) + StripCommas(s[1..])
  }

  lemma {:induction false} StripCommasAppend(a: string, b: string)
    ensures StripCommas(a + b) == StripCommas(a) + StripCommas(b)
  {
    if |a| == 0 {
      assert a + b == b;
    } else {
      var ab := a + b;
      assert ab[0] == a[0];
      assert ab[1..] == a[1..] + b;
      StripCommasAppend(a[1..], b);
      var h := if a[0] == ',' then "" else [a[0]];
      calc {
        StripCommas(ab);
        h + StripCommas(ab[1..]);
        h + (StripCommas(a[1..]) + StripCommas(b));
        (h + StripCommas(a[1..])) + StripCommas(b);
      }
    }
  }

  lemma {:induction false} StripCommasDigits(s: string)
    requires AllDigits(s)
    ensures StripCommas(s) == s
  {
    if |s| > 0 {
      StripCommasDigits(s[1..]);
      assert [s[0]] + s[1..] == s;
    }
  }

  /** The decimal text of n is its text for n / 1000 followed by the last three digits. */
  lemma NatTextSplit(n: nat)
    requires n >= 1000
    ensures NatText(n) == NatText(n / 1000) + Pad3(n % 1000)
  {
    var q, k := n / 1000, n % 1000;
    var h, t, u := k / 10 / 10, k / 10 % 10, k % 10;
    DivMod10(n, 100 * q + 10 * h + t, u);
    DivMod10(n / 10, 10 * q + h, t);
    DivMod10(n / 10 / 10, q, h);
    var a, x, y, z := NatText(q), [Digit(h)], [Digit(t)], [Digit(u)];
    assert NatText(n / 10 / 10) == a + x;
    assert NatText(n / 10) == (a + x) + y;
    assert NatText(n) == ((a + x) + y) + z;
    AppendAssoc(a + x, y, z);
    AppendAssoc(a, x, y + z);
    assert x + (y + z) == Pad3(k);
  }

  /** Deleting the separators from the grouped form gives the plain decimal form. */
  lemma {:induction false} GroupedDigits(n: nat)
    ensures StripCommas(Grouped(n)) == NatText(n)
  {
    if n < 1000 {
      StripCommasDigits(NatText(n));
    } else {
      GroupedDigits(n / 1000);
      StripCommasAppend(Grouped(n / 1000) + ",", Pad3(n % 1000));
      StripCommasAppend(Grouped(n / 1000), ",");
      StripCommasDigits(Pad3(n % 1000));
      NatTextSplit(n);
    }
  }

  /** Below a thousand the decimal text has at most three digits. */
  lemma {:induction false} NatTextShort(n: nat)
    requires n < 1000
    ensures |NatText(n)| <= 3
  {
    if n >= 10 {
      NatTextShort(n / 10);
      if n / 10 >= 10 {
        assert n / 10 / 10 < 10;
      }
    }
  }

  lemma {:induction false} GroupedNonEmpty(n: nat)
    ensures |Grouped(n)| >= 1
  {
    if n >= 1000 {
      GroupedNonEmpty(n / 1000);
    }
  }

  /** Commas exactly before each group of three characters counted from the right, and nowhere else. */
  predicate CommasPlaced(g: string)
  {
    forall i :: 0 <= i < |g| ==> (g[i] == ',' <==> i > 0 && (|g| - i) % 4 == 0)
  }

  /** One to three digits carry no separator. */
  lemma ShortDigitsPlaced(g: string)
    requires AllDigits(g) && |g| <= 3
    ensures CommasPlaced(g)
  {
    forall i | 0 <= i < |g|
      ensures g[i] == ',' <==> i > 0 && (|g| - i) % 4 == 0
    {
      assert '0' <= g[i] <= '9';
      assert 1 <= |g| - i <= 3;
    }
  }

  /** Appending a separator and a group of three digits keeps the separators in place. */
  lemma GroupPlaced(a: string, p: string)
    requires CommasPlaced(a) && |a| >= 1
    requires AllDigits(p) && |p| == 3
    ensures CommasPlaced(a + "," + p)
  {
    var g := a + "," + p;
    forall i | 0 <= i < |g|
      ensures g[i] == ',' <==> i > 0 && (|g| - i) % 4 == 0
    {
      if i < |a| {
        assert g[i] == a[i];
        var x := |a| - i;
        assert |g| - i == x + 4;
        assert (x + 4) % 4 == x % 4;
      } else if i == |a| {
        assert g[i] == ',' && |g| - i == 4;
      } else {
        assert g[i] == p[i - |a| - 1];
        assert '0' <= p[i - |a| - 1] <= '9';
        assert 1 <= |g| - i <= 3;
      }
    }
  }

  /**
   The separators sit exactly where `format(n, ",")` puts them: before each
   group of three digits counted from the right, and nowhere else.
   */
  lemma {:induction false} GroupedCommas(n: nat)
    ensures CommasPlaced(Grouped(n))
  {
    if n < 1000 {
      NatTextShort(n);
      ShortDigitsPlaced(NatText(n));
    } else {
      GroupedCommas(n / 1000);
      GroupedNonEmpty(n / 1000);
      GroupPlaced(Grouped(n / 1000), Pad3(n % 1000));
    }
  }
}
