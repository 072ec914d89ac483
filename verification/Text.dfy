/** Fixed-width numerals and the small parsers built from them. */
module Text {
  import opened Wrappers

  function Pow(base: nat, exponent: nat): nat {
    if exponent == 0 then 1 else base * Pow(base, exponent - 1)
  }

  predicate AreDigits(ds: seq<nat>, base: nat) {
    forall i :: 0 <= i < |ds| ==> ds[i] < base
  }

  /** The last `width` digits of `n`, most significant first. */
  function Digits(n: nat, base: nat, width: nat): (ds: seq<nat>)
    requires base >= 2
    ensures |ds| == width && AreDigits(ds, base)
    decreases width, n
  {
    if width == 0 then [] else Digits(n / base, base, width - 1) + [n % base]
  }

  function Value(ds: seq<nat>, base: nat): nat {
    if ds == [] then 0 else Value(ds[..|ds| - 1], base) * base + ds[|ds| - 1]
  }

  lemma ProductsOrder(a: nat, b: nat, factor: nat)
    ensures a <= b ==> a * factor <= b * factor
  {
    if a <= b {
      assert b * factor == a * factor + (b - a) * factor;
    }
  }

  lemma QuotientIsUnique(n: nat, divisor: nat, q: nat, r: nat)
    requires r < divisor && n == q * divisor + r
    ensures n / divisor == q
  {
    ProductsOrder(n / divisor + 1, q, divisor);
    ProductsOrder(q + 1, n / divisor, divisor);
  }

  lemma QuotientIsSmaller(n: nat, base: nat, bound: nat)
    requires base >= 2 && n < base * bound
    ensures n / base < bound && n / base * base + n % base == n
  {
    ProductsOrder(bound, n / base, base);
  }

  lemma ValueOfOneMore(ds: seq<nat>, d: nat, base: nat)
    ensures Value(ds + [d], base) == Value(ds, base) * base + d
  {
    assert (ds + [d])[..|ds|] == ds;
  }

  lemma DigitsUnfold(n: nat, base: nat, width: nat) returns (high: nat, low: nat)
    requires base >= 2 && width > 0 && n < Pow(base, width)
    ensures high < Pow(base, width - 1) && n == high * base + low
    ensures Digits(n, base, width) == Digits(high, base, width - 1) + [low]
  {
    high, low := n / base, n % base;
    QuotientIsSmaller(n, base, Pow(base, width - 1));
  }

  lemma {:induction false} ValueOfDigits(n: nat, base: nat, width: nat)
    requires base >= 2 && n < Pow(base, width)
    ensures Value(Digits(n, base, width), base) == n
    decreases width
  {
    if width > 0 {
      var high, low := DigitsUnfold(n, base, width);
      ValueOfDigits(high, base, width - 1);
      ValueOfOneMore(Digits(high, base, width - 1), low, base);
    }
  }

  const NUMERALS := "0123456789abcdef"

  function Numeral(d: nat): char
    requires d < 16
  {
    NUMERALS[d]
  }

  /** Hexadecimal digits are read in either case. */
  function DigitValue(c: char, base: nat): Option<nat>
    requires base <= 16
  {
    var d :=
      if '0' <= c <= '9' then c as nat - '0' as nat
      else if 'a' <= c <= 'f' then c as nat - 'a' as nat + 10
      else if 'A' <= c <= 'F' then c as nat - 'A' as nat + 10
      else 16;
    if d < base then Some(d) else None
  }

  lemma NumeralIsRead(d: nat, base: nat)
    requires d < base <= 16
    ensures DigitValue(Numeral(d), base) == Some(d)
  {
  }

  function Numerals(ds: seq<nat>): (text: string)
    requires AreDigits(ds, 16)
    ensures |text| == |ds| && forall i :: 0 <= i < |ds| ==> text[i] == Numeral(ds[i])
  {
    seq(|ds|, i requires 0 <= i < |ds| => Numeral(ds[i]))
  }

  /** Reads exactly `width` digits off the front. */
  function ReadDigits(text: string, base: nat, width: nat): Option<(seq<nat>, string)>
    requires base <= 16
    decreases |text|
  {
    if width == 0 then Some(([], text))
    else if text == [] then None
    else
      match DigitValue(text[0], base)
      case None => None
      case Some(d) =>
        match ReadDigits(text[1..], base, width - 1)
        case None => None
        case Some((ds, rest)) => Some(([d] + ds, rest))
  }

  lemma {:induction false} ReadsNumerals(ds: seq<nat>, base: nat, rest: string)
    requires base <= 16 && AreDigits(ds, base)
    ensures ReadDigits(Numerals(ds) + rest, base, |ds|) == Some((ds, rest))
    decreases |ds|
  {
    if ds == [] {
      assert Numerals(ds) + rest == rest;
    } else {
      var text := Numerals(ds) + rest;
      assert Numerals(ds)[1..] == Numerals(ds[1..]);
      assert text[1..] == Numerals(ds[1..]) + rest;
      assert text[0] == Numeral(ds[0]);
      NumeralIsRead(ds[0], base);
      ReadsNumerals(ds[1..], base, rest);
      assert [ds[0]] + ds[1..] == ds;
    }
  }

  /** Decimal text of fixed width. */
  function Decimal(n: nat, width: nat): (text: string)
    ensures |text| == width
  {
    Numerals(Digits(n, 10, width))
  }

  function ReadDecimal(text: string, width: nat): Option<(nat, string)> {
    match ReadDigits(text, 10, width)
    case None => None
    case Some((ds, rest)) => Some((Value(ds, 10), rest))
  }

  lemma ReadsDecimal(n: nat, width: nat, rest: string)
    requires n < Pow(10, width)
    ensures ReadDecimal(Decimal(n, width) + rest, width) == Some((n, rest))
  {
    ReadsNumerals(Digits(n, 10, width), 10, rest);
    ValueOfDigits(n, 10, width);
  }

  function ReadChar(text: string, c: char): Option<string> {
    if text != [] && text[0] == c then Some(text[1..]) else None
  }

  lemma ReadsChar(c: char, rest: string)
    ensures ReadChar([c] + rest, c) == Some(rest)
  {
    assert ([c] + rest)[1..] == rest;
  }

  /** `strings.Split` for a one-character separator. */
  function Split(text: string, separator: char): (parts: seq<string>)
    ensures parts != []
  {
    if text == [] then [[]]
    else
      var parts := Split(text[1..], separator);
      if text[0] == separator then [[]] + parts
      else [[text[0]] + parts[0]] + parts[1..]
  }

  lemma {:induction false} SplitWithout(text: string, separator: char)
    requires separator !in text
    ensures Split(text, separator) == [text]
  {
    if text != [] {
      SplitWithout(text[1..], separator);
      assert text == [text[0]] + text[1..];
    }
  }

  /** Two texts free of the separator, joined by it, split back into the two. */
  lemma {:induction false} SplitJoined(a: string, b: string, separator: char)
    requires separator !in a && separator !in b
    ensures Split(a + [separator] + b, separator) == [a, b]
    decreases |a|
  {
    var text := a + [separator] + b;
    if a == [] {
      assert text[1..] == b;
      SplitWithout(b, separator);
    } else {
      assert text[1..] == a[1..] + [separator] + b;
      SplitJoined(a[1..], b, separator);
      assert a == [a[0]] + a[1..];
    }
  }

  /** Go's `unicode.IsSpace`. */
  predicate IsSpace(c: char) {
    || '\t' <= c <= '\r'
    || c == ' ' || c == '\U{85}' || c == '\U{A0}' || c == '\U{1680}'
    || '\U{2000}' <= c <= '\U{200A}'
    || c == '\U{2028}' || c == '\U{2029}' || c == '\U{202F}' || c == '\U{205F}' || c == '\U{3000}'
  }

  /** The characters with Unicode's White_Space property. */
  const WHITE_SPACE :=
    "\t\n\U{0B}\U{0C}\r \U{85}\U{A0}\U{1680}"
    + "\U{2000}\U{2001}\U{2002}\U{2003}\U{2004}\U{2005}\U{2006}\U{2007}\U{2008}\U{2009}\U{200A}"
    + "\U{2028}\U{2029}\U{202F}\U{205F}\U{3000}"

  lemma SpacesAreWhiteSpace(c: char)
    ensures IsSpace(c) <==> c in WHITE_SPACE
  {
    var all := WHITE_SPACE;
    assert |all| == 25;
    if IsSpace(c) {
      assert all[0] == '\t' && all[1] == '\n' && all[2] == '\U{0B}' && all[3] == '\U{0C}' && all[4] == '\r';
      assert all[9] == '\U{2000}' && all[10] == '\U{2001}' && all[11] == '\U{2002}' && all[12] == '\U{2003}';
    }
  }

  /** `strings.TrimSpace(text) == ""` */
  predicate IsAllSpace(text: string) {
    forall i :: 0 <= i < |text| ==> IsSpace(text[i])
  }
}
