/**
 * The P&L column cleanup of the loader: the text of each value loses every `$`
 * and then every `,` (two literal, non-regex replacements) before it is
 * converted to a number.
 */
module PnlText {
  import opened Wrappers

  /** Python's `s.replace(c, '')`: every occurrence of `c`, wherever it is, removed. */
  function RemoveAll(s: string, c: char): (r: string)
    ensures c !in r
    ensures forall x | x in r :: x in s
  {
    if s == [] then [] else Keep(s[0], c) + RemoveAll(s[1..], c)
  }

  function Keep(ch: char, c: char): string
  {
    if ch == c then [] else [ch]
  }

  predicate Stripped(ch: char)
  {
    ch == '$' || ch == ','
  }

  /** The cleanup of one P&L text: `$` removed, then `,` removed. */
  function CleanPnl(s: string): (r: string)
    ensures '$' !in r && ',' !in r
  {
    RemoveAll(RemoveAll(s, '$'), ',')
  }

  lemma {:induction false} RemoveAllConcat(a: string, b: string, c: char)
    ensures RemoveAll(a + b, c) == RemoveAll(a, c) + RemoveAll(b, c)
  {
    if a == [] {
      assert a + b == b;
    } else {
      var ab := a + b;
      assert ab[0] == a[0] && ab[1..] == a[1..] + b;
      RemoveAllConcat(a[1..], b, c);
      calc {
        RemoveAll(ab, c);
        Keep(a[0], c) + RemoveAll(a[1..] + b, c);
        Keep(a[0], c) + (RemoveAll(a[1..], c) + RemoveAll(b, c));
        (Keep(a[0], c) + RemoveAll(a[1..], c)) + RemoveAll(b, c);
      }
    }
  }

  lemma {:induction false} RemoveAllAbsent(s: string, c: char)
    requires c !in s
    ensures RemoveAll(s, c) == s
  {
    if s != [] {
      RemoveAllAbsent(s[1..], c);
      assert s == [s[0]] + s[1..];
    }
  }

  /** The cleanup works character by character ... */
  lemma CleanPnlConcat(a: string, b: string)
    ensures CleanPnl(a + b) == CleanPnl(a) + CleanPnl(b)
  {
    RemoveAllConcat(a, b, '$');
    RemoveAllConcat(RemoveAll(a, '$'), RemoveAll(b, '$'), ',');
  }

  /** ... dropping each `$` and `,` and keeping every other character. */
  lemma CleanPnlChar(ch: char)
    ensures CleanPnl([ch]) == if Stripped(ch) then [] else [ch]
  {
    assert [ch][1..] == [];
    assert RemoveAll([ch], '$') == Keep(ch, '$');
    if ch != '$' {
      assert RemoveAll([ch], ',') == Keep(ch, ',');
    }
  }

  /** A text without `$` and `,` is left as it is. */
  lemma CleanPnlUnchanged(s: string)
    requires '$' !in s && ',' !in s
    ensures CleanPnl(s) == s
  {
    RemoveAllAbsent(s, '$');
    RemoveAllAbsent(s, ',');
  }

  /** Cleaning twice is cleaning once. */
  lemma CleanPnlIdempotent(s: string)
    ensures CleanPnl(CleanPnl(s)) == CleanPnl(s)
  {
    CleanPnlUnchanged(CleanPnl(s));
  }

  /** Every character other than `$` and `,` occurs as often as before. */
  lemma {:induction false} CleanPnlKeepsOthers(s: string, x: char)
    requires !Stripped(x)
    ensures multiset(CleanPnl(s))[x] == multiset(s)[x]
  {
    if s != [] {
      assert s == [s[0]] + s[1..];
      CleanPnlConcat([s[0]], s[1..]);
      CleanPnlChar(s[0]);
      CleanPnlKeepsOthers(s[1..], x);
    }
  }

  // Dollar amounts as a spreadsheet writes them: "-$1,234.56".

  predicate IsDigit(ch: char) { '0' <= ch <= '9' }

  predicate AllDigits(s: string) { forall i :: 0 <= i < |s| ==> IsDigit(s[i]) }

  function Digit(d: nat): char
    requires d < 10
  {
    '0' + d as char
  }

  /** The decimal digits of `n`, without leading zeros. */
  function NatDigits(n: nat): (r: string)
    ensures |r| >= 1 && AllDigits(r)
  {
    if n < 10 then [Digit(n)] else NatDigits(n / 10) + [Digit(n % 10)]
  }

  /** The number the decimal digits `s` denote. */
  function DigitsValue(s: string): nat
    requires AllDigits(s)
  {
    if s == [] then 0 else DigitsValue(s[..|s| - 1]) * 10 + (s[|s| - 1] - '0') as nat
  }

  lemma {:induction false} DigitsRoundTrip(n: nat)
    ensures DigitsValue(NatDigits(n)) == n
  {
    if n >= 10 {
      DigitsRoundTrip(n / 10);
      var s := NatDigits(n);
      assert s[..|s| - 1] == NatDigits(n / 10);
    }
  }

  /** Digits with a `,` before every group of three counted from the right. */
  function GroupThousands(d: string): string
  {
    if |d| <= 3 then d else GroupThousands(d[..|d| - 3]) + "," + d[|d| - 3..]
  }

  function TwoDigits(n: nat): string
    requires n < 100
  {
    [Digit(n / 10), Digit(n % 10)]
  }

  /** An amount of cents as currency text: sign, `$`, grouped units, two decimals. */
  function Dollars(cents: int): string
  {
    var m := if cents < 0 then -cents else cents;
    (if cents < 0 then "-" else "") + "$" + GroupThousands(NatDigits(m / 100)) + "." + TwoDigits(m % 100)
  }

  /** The same amount as a plain decimal number. */
  function PlainDecimal(cents: int): string
  {
    var m := if cents < 0 then -cents else cents;
    (if cents < 0 then "-" else "") + NatDigits(m / 100) + "." + TwoDigits(m % 100)
  }

  /** The value in cents of a plain decimal `-?digits.dd`, as float() reads it. */
  function DecimalCents(s: string): Option<int>
  {
    if |s| >= 1 && s[0] == '-' then
      match UnsignedCents(s[1..])
      case Some(v) => Some(-v)
      case None => None
    else UnsignedCents(s)
  }

  function UnsignedCents(s: string): Option<int>
  {
    if |s| >= 4 && s[|s| - 3] == '.' && AllDigits(s[..|s| - 3]) && AllDigits(s[|s| - 2..]) then
      Some(DigitsValue(s[..|s| - 3]) * 100 + DigitsValue(s[|s| - 2..]))
    else None
  }

  /** Digits pass the cleanup unchanged. */
  lemma DigitsUnchanged(d: string)
    requires AllDigits(d)
    ensures CleanPnl(d) == d
  {
    assert '$' !in d && ',' !in d by {
      forall i | 0 <= i < |d| ensures d[i] != '$' && d[i] != ',' { assert IsDigit(d[i]); }
    }
    CleanPnlUnchanged(d);
  }

  /** A separating `,` before a group of digits disappears in the cleanup. */
  lemma CleanComma(g: string, lo: string)
    requires AllDigits(lo)
    ensures CleanPnl(g + "," + lo) == CleanPnl(g) + lo
  {
    CleanPnlConcat(g + ",", lo);
    CleanPnlConcat(g, ",");
    CleanPnlChar(',');
    DigitsUnchanged(lo);
  }

  lemma {:induction false} CleanGroupThousands(d: string)
    requires AllDigits(d)
    ensures CleanPnl(GroupThousands(d)) == d
  {
    if |d| <= 3 {
      DigitsUnchanged(d);
    } else {
      var hi, lo := d[..|d| - 3], d[|d| - 3..];
      assert AllDigits(hi) && AllDigits(lo) by {
        forall i | 0 <= i < |hi| ensures IsDigit(hi[i]) { assert hi[i] == d[i]; }
        forall i | 0 <= i < |lo| ensures IsDigit(lo[i]) { assert lo[i] == d[|d| - 3 + i]; }
      }
      CleanGroupThousands(hi);
      CleanComma(GroupThousands(hi), lo);
      assert hi + lo == d;
    }
  }

  lemma CleanSignDollar(sign: string)
    requires sign == "" || sign == "-"
    ensures CleanPnl(sign + "$") == sign
  {
    CleanPnlConcat(sign, "$");
    CleanPnlChar('$');
    CleanPnlUnchanged(sign);
  }

  /** Cleaning currency text leaves the plain decimal number ... */
  lemma CleanDollars(cents: int)
    ensures CleanPnl(Dollars(cents)) == PlainDecimal(cents)
  {
    var m := if cents < 0 then -cents else cents;
    var sign := if cents < 0 then "-" else "";
    var units, frac := NatDigits(m / 100), "." + TwoDigits(m % 100);
    var head, grouped := sign + "$", GroupThousands(units);
    assert Dollars(cents) == head + grouped + frac;
    assert PlainDecimal(cents) == sign + units + frac;
    CleanPnlConcat(head + grouped, frac);
    CleanPnlConcat(head, grouped);
    CleanSignDollar(sign);
    CleanGroupThousands(units);
    assert '$' !in frac && ',' !in frac;
    CleanPnlUnchanged(frac);
  }

  lemma TwoDigitsValue(n: nat)
    requires n < 100
    ensures DigitsValue(TwoDigits(n)) == n
  {
    var s := TwoDigits(n);
    assert s[..1] == [Digit(n / 10)];
    assert s[..1][..0] == [];
    assert DigitsValue(s[..1]) == n / 10;
    assert DigitsValue(s) == DigitsValue(s[..1]) * 10 + n % 10;
  }

  /** ... which reads back as the amount it was written from. */
  /** The unsigned decimal text of `m` cents reads back as `m`. */
  lemma UnsignedRoundTrip(m: nat)
    ensures UnsignedCents(NatDigits(m / 100) + "." + TwoDigits(m % 100)) == Some(m)
  {
    var units, two := NatDigits(m / 100), TwoDigits(m % 100);
    var plain := units + "." + two;
    assert plain[..|plain| - 3] == units;
    assert plain[|plain| - 2..] == two;
    assert plain[|plain| - 3] == '.';
    DigitsRoundTrip(m / 100);
    TwoDigitsValue(m % 100);
  }

  lemma PlainDecimalRoundTrip(cents: int)
    ensures DecimalCents(PlainDecimal(cents)) == Some(cents)
  {
    var m := if cents < 0 then -cents else cents;
    var plain := NatDigits(m / 100) + "." + TwoDigits(m % 100);
    UnsignedRoundTrip(m);
    if cents < 0 {
      assert PlainDecimal(cents) == "-" + plain;
      assert ("-" + plain)[1..] == plain;
    } else {
      assert PlainDecimal(cents) == plain;
    }
  }

  /** Currency text, cleaned and read as a number, is the amount it was written from. */
  lemma CleanDollarsRoundTrip(cents: int)
    ensures DecimalCents(CleanPnl(Dollars(cents))) == Some(cents)
  {
    CleanDollars(cents);
    PlainDecimalRoundTrip(cents);
  }
}
