/** The opaque page cursor (internal/orders/handler.go:310-346). */
module Cursor {
  import opened Wrappers
  import opened Numbers
  import opened Ids
  import opened Clock
  import opened Text
  import Base64Url

  datatype Cursor = Cursor(createdAt: Timestamp, id: Uuid)

  // ---- Times: section 5.6 of RFC 3339, fraction trimmed ----

  function TrimZeros(ds: seq<nat>): seq<nat> {
    if ds != [] && ds[|ds| - 1] == 0 then TrimZeros(ds[..|ds| - 1]) else ds
  }

  function Zeros(n: nat): (ds: seq<nat>)
    ensures |ds| == n
  {
    seq(n, i => 0)
  }

  lemma {:induction false} TrimmedRest(ds: seq<nat>)
    ensures |TrimZeros(ds)| <= |ds|
    ensures ds == TrimZeros(ds) + Zeros(|ds| - |TrimZeros(ds)|)
    ensures AreDigits(ds, 10) ==> AreDigits(TrimZeros(ds), 10)
  {
    if ds != [] && ds[|ds| - 1] == 0 {
      TrimmedRest(ds[..|ds| - 1]);
      assert ds == ds[..|ds| - 1] + [0];
    }
  }

  function FormatFraction(nanos: nat): string {
    if nanos == 0 then ""
    else
      var ds := TrimZeros(Digits(nanos, 10, 9));
      TrimmedRest(Digits(nanos, 10, 9));
      "." + Numerals(ds)
  }

  /** `t.UTC().Format(time.RFC3339Nano)` */
  function FormatTime(t: Timestamp): string {
    Decimal(t.year, 4) + ("-" + FormatMonthOn(t))
  }

  function FormatMonthOn(t: Timestamp): string {
    Decimal(t.month, 2) + ("-" + (Decimal(t.day, 2) + ("T" + FormatClock(t))))
  }

  function FormatClock(t: Timestamp): string {
    Decimal(t.hour, 2) + (":" + (Decimal(t.minute, 2) + (":" + (Decimal(t.second, 2) + (FormatFraction(t.nanos) + "Z")))))
  }

  /** All decimal digits at the front. */
  function ReadRun(text: string): (seq<nat>, string) {
    if text == "" then ([], "")
    else
      match DigitValue(text[0], 10)
      case None => ([], text)
      case Some(d) =>
        var (ds, rest) := ReadRun(text[1..]);
        ([d] + ds, rest)
  }

  /** Nanoseconds from a fraction's digits; digits beyond the ninth are dropped. */
  function NanosOf(ds: seq<nat>): nat {
    Value(if |ds| >= 9 then ds[..9] else ds + Zeros(9 - |ds|), 10)
  }

  function ReadFraction(text: string): (nat, string) {
    if |text| >= 2 && text[0] == '.' && DigitValue(text[1], 10).Some? then
      var (ds, rest) := ReadRun(text[1..]);
      (NanosOf(ds), rest)
    else (0, text)
  }

  /** `time.Parse(time.RFC3339Nano, text)` for times written with `Z`. */
  function ParseTime(text: string): Option<Timestamp> {
    var (year, rest) :- ReadDecimal(text, 4);
    var rest :- ReadChar(rest, '-');
    var (month, rest) :- ReadDecimal(rest, 2);
    var rest :- ReadChar(rest, '-');
    var (day, rest) :- ReadDecimal(rest, 2);
    var rest :- ReadChar(rest, 'T');
    var (hour, rest) :- ReadDecimal(rest, 2);
    var rest :- ReadChar(rest, ':');
    var (minute, rest) :- ReadDecimal(rest, 2);
    var rest :- ReadChar(rest, ':');
    var (second, rest) :- ReadDecimal(rest, 2);
    var (nanos, rest) := ReadFraction(rest);
    var t := Time(year, month, day, hour, minute, second, nanos);
    if rest == "Z" && IsTimestamp(t) then Some(t) else None
  }

  lemma {:induction false} ReadsRun(ds: seq<nat>, rest: string)
    requires AreDigits(ds, 10)
    requires rest != "" && DigitValue(rest[0], 10).None?
    ensures ReadRun(Numerals(ds) + rest) == (ds, rest)
  {
    var text := Numerals(ds) + rest;
    if ds == [] {
      assert text == rest;
    } else {
      NumeralIsRead(ds[0], 10);
      assert Numerals(ds)[1..] == Numerals(ds[1..]);
      assert text[1..] == Numerals(ds[1..]) + rest;
      ReadsRun(ds[1..], rest);
      assert [ds[0]] + ds[1..] == ds;
    }
  }

  lemma {:induction false} ValueOfZeros(n: nat)
    ensures Value(Zeros(n), 10) == 0
  {
    if n > 0 {
      assert Zeros(n)[..n - 1] == Zeros(n - 1);
      ValueOfZeros(n - 1);
    }
  }

  lemma TrimmedNanos(nanos: nat)
    requires 0 < nanos < 1_000_000_000
    ensures var ds := TrimZeros(Digits(nanos, 10, 9));
            ds != [] && AreDigits(ds, 10) && NanosOf(ds) == nanos
  {
    var all := Digits(nanos, 10, 9);
    var ds := TrimZeros(all);
    TrimmedRest(all);
    assert Pow(10, 9) == 1_000_000_000;
    ValueOfDigits(nanos, 10, 9);
    ValueOfZeros(9);
    var none: seq<nat> := [];
    assert none + Zeros(9) == Zeros(9);
    assert all == if |ds| >= 9 then ds[..9] else ds + Zeros(9 - |ds|);
  }

  lemma ReadsFractionDigits(ds: seq<nat>)
    requires ds != [] && AreDigits(ds, 10)
    ensures ReadFraction("." + Numerals(ds) + "Z") == (NanosOf(ds), "Z")
  {
    var text := "." + Numerals(ds) + "Z";
    assert text[1..] == Numerals(ds) + "Z";
    assert text[1] == Numeral(ds[0]);
    NumeralIsRead(ds[0], 10);
    ReadsRun(ds, "Z");
  }

  lemma ReadsFraction(nanos: nat)
    requires nanos < 1_000_000_000
    ensures ReadFraction(FormatFraction(nanos) + "Z") == (nanos, "Z")
  {
    if nanos != 0 {
      TrimmedNanos(nanos);
      ReadsFractionDigits(TrimZeros(Digits(nanos, 10, 9)));
    } else {
      assert FormatFraction(nanos) + "Z" == "Z";
    }
  }

  lemma ReadsTwoDigits(n: nat, rest: string)
    requires n < 100
    ensures ReadDecimal(Decimal(n, 2) + rest, 2) == Some((n, rest))
  {
    assert Pow(10, 2) == 100;
    ReadsDecimal(n, 2, rest);
  }

  /** A time whose fraction is read back is read back. */
  lemma ReadsTime(t: Timestamp, fraction: string)
    requires ReadFraction(fraction + "Z") == (t.nanos, "Z")
    ensures ParseTime(Decimal(t.year, 4) + ("-" + (Decimal(t.month, 2) + ("-" + (Decimal(t.day, 2) + ("T" +
                      (Decimal(t.hour, 2) + (":" + (Decimal(t.minute, 2) + (":" + (Decimal(t.second, 2) +
                      (fraction + "Z"))))))))))))
            == Some(t)
  {
    var afterSecond := fraction + "Z";
    var afterMinute := Decimal(t.second, 2) + afterSecond;
    var afterHour := Decimal(t.minute, 2) + (":" + afterMinute);
    var afterDay := Decimal(t.hour, 2) + (":" + afterHour);
    var afterMonth := Decimal(t.day, 2) + ("T" + afterDay);
    var afterYear := Decimal(t.month, 2) + ("-" + afterMonth);
    assert Pow(10, 4) == 10000;
    ReadsDecimal(t.year, 4, "-" + afterYear);
    ReadsChar('-', afterYear);
    ReadsTwoDigits(t.month, "-" + afterMonth);
    ReadsChar('-', afterMonth);
    ReadsTwoDigits(t.day, "T" + afterDay);
    ReadsChar('T', afterDay);
    ReadsTwoDigits(t.hour, ":" + afterHour);
    ReadsChar(':', afterHour);
    ReadsTwoDigits(t.minute, ":" + afterMinute);
    ReadsChar(':', afterMinute);
    ReadsTwoDigits(t.second, afterSecond);
  }

  lemma TimeRoundTrip(t: Timestamp)
    ensures ParseTime(FormatTime(t)) == Some(t)
  {
    ReadsFraction(t.nanos);
    ReadsTime(t, FormatFraction(t.nanos));
  }

  lemma {:induction false} NothingLeftToTrim(ds: seq<nat>)
    ensures TrimZeros(ds) != [] ==> TrimZeros(ds)[|TrimZeros(ds)| - 1] != 0
  {
    if ds != [] && ds[|ds| - 1] == 0 {
      NothingLeftToTrim(ds[..|ds| - 1]);
    }
  }

  /** No fraction is printed for a whole second, and otherwise none that ends in zero. */
  lemma FractionIsTrimmed(nanos: nat)
    requires nanos < 1_000_000_000
    ensures FormatFraction(nanos) == "" <==> nanos == 0
    ensures nanos > 0 ==> |FormatFraction(nanos)| >= 2 && FormatFraction(nanos)[|FormatFraction(nanos)| - 1] != '0'
  {
    if nanos > 0 {
      var all := Digits(nanos, 10, 9);
      TrimmedNanos(nanos);
      TrimmedRest(all);
      NothingLeftToTrim(all);
      assert forall d :: 0 < d < 10 ==> Numeral(d) != '0';
    }
  }

  // ---- UUIDs: section 4 of RFC 9562 ----

  /** Thirty-two digits in groups of 8, 4, 4, 4 and 12. */
  function Hyphenated(ds: seq<nat>): string
    requires |ds| == 32 && AreDigits(ds, 16)
  {
    Numerals(ds[..8]) + ("-" + (Numerals(ds[8..12]) + ("-" + (Numerals(ds[12..16]) + ("-" +
    (Numerals(ds[16..20]) + ("-" + Numerals(ds[20..]))))))))
  }

  /** `id.String()` */
  function FormatUuid(id: Uuid): string {
    Hyphenated(Digits(id, 16, 32))
  }

  function ParseHyphenated(text: string): Option<nat> {
    var (a, rest) :- ReadDigits(text, 16, 8);
    var rest :- ReadChar(rest, '-');
    var (b, rest) :- ReadDigits(rest, 16, 4);
    var rest :- ReadChar(rest, '-');
    var (c, rest) :- ReadDigits(rest, 16, 4);
    var rest :- ReadChar(rest, '-');
    var (d, rest) :- ReadDigits(rest, 16, 4);
    var rest :- ReadChar(rest, '-');
    var (e, rest) :- ReadDigits(rest, 16, 12);
    Some(Value(a + b + c + d + e, 16))
  }

  /** `uuid.Parse(text)` for the 36-character form. */
  function ParseUuid(text: string): Option<Uuid> {
    if |text| != 36 then None
    else
      var n :- ParseHyphenated(text);
      if n < UUID_LIMIT then Some(n) else None
  }

  lemma SixteenToThe32()
    ensures Pow(16, 32) == UUID_LIMIT
  {
    assert Pow(16, 8) == 0x1_0000_0000;
    assert Pow(16, 16) == 0x1_0000_0000_0000_0000;
    assert Pow(16, 24) == 0x1_0000_0000_0000_0000_0000_0000;
  }

  lemma HyphenatedIsRead(ds: seq<nat>)
    requires |ds| == 32 && AreDigits(ds, 16)
    ensures |Hyphenated(ds)| == 36
    ensures ParseHyphenated(Hyphenated(ds)) == Some(Value(ds, 16))
  {
    var afterD := Numerals(ds[20..]);
    var afterC := Numerals(ds[16..20]) + ("-" + afterD);
    var afterB := Numerals(ds[12..16]) + ("-" + afterC);
    var afterA := Numerals(ds[8..12]) + ("-" + afterB);
    ReadsNumerals(ds[..8], 16, "-" + afterA);
    ReadsChar('-', afterA);
    ReadsNumerals(ds[8..12], 16, "-" + afterB);
    ReadsChar('-', afterB);
    ReadsNumerals(ds[12..16], 16, "-" + afterC);
    ReadsChar('-', afterC);
    ReadsNumerals(ds[16..20], 16, "-" + afterD);
    ReadsChar('-', afterD);
    ReadsNumerals(ds[20..], 16, "");
    assert afterD + "" == afterD;
    assert ds[..8] + ds[8..12] + ds[12..16] + ds[16..20] + ds[20..] == ds;
  }

  lemma UuidRoundTrip(id: Uuid)
    ensures ParseUuid(FormatUuid(id)) == Some(id)
  {
    SixteenToThe32();
    ValueOfDigits(id, 16, 32);
    HyphenatedIsRead(Digits(id, 16, 32));
  }

  // ---- The cursor ----

  /** Cursor text is ASCII and free of the separator. */
  predicate Plain(text: string) {
    forall i :: 0 <= i < |text| ==> text[i] < '\U{80}' && text[i] != '|'
  }

  lemma NumeralsArePlain(ds: seq<nat>)
    requires AreDigits(ds, 16)
    ensures Plain(Numerals(ds))
  {
    forall d: nat | d < 16 ensures Plain([Numeral(d)]) {
    }
    forall i | 0 <= i < |ds| ensures Plain([Numerals(ds)[i]]) {
    }
  }

  lemma DecimalIsPlain(n: nat, width: nat)
    ensures Plain(Decimal(n, width))
  {
    NumeralsArePlain(Digits(n, 10, width));
  }

  lemma FractionIsPlain(nanos: nat)
    ensures Plain(FormatFraction(nanos))
  {
    TrimmedRest(Digits(nanos, 10, 9));
    NumeralsArePlain(TrimZeros(Digits(nanos, 10, 9)));
  }

  lemma ClockIsPlain(t: Timestamp)
    ensures Plain(FormatClock(t))
  {
    DecimalIsPlain(t.hour, 2);
    DecimalIsPlain(t.minute, 2);
    DecimalIsPlain(t.second, 2);
    FractionIsPlain(t.nanos);
    assert Plain(FormatFraction(t.nanos) + "Z");
  }

  lemma TimeIsPlain(t: Timestamp)
    ensures Plain(FormatTime(t))
  {
    DecimalIsPlain(t.year, 4);
    DecimalIsPlain(t.month, 2);
    DecimalIsPlain(t.day, 2);
    ClockIsPlain(t);
    assert Plain(FormatMonthOn(t));
  }

  lemma UuidIsPlain(id: Uuid)
    ensures Plain(FormatUuid(id))
  {
    var ds := Digits(id, 16, 32);
    NumeralsArePlain(ds[..8]);
    NumeralsArePlain(ds[8..12]);
    NumeralsArePlain(ds[12..16]);
    NumeralsArePlain(ds[16..20]);
    NumeralsArePlain(ds[20..]);
  }

  /** One byte per character, as in Go, for text below U+0100. */
  function ToBytes(text: string): (bs: seq<Byte>)
    requires forall i :: 0 <= i < |text| ==> text[i] < '\U{100}'
    ensures |bs| == |text|
  {
    seq(|text|, i requires 0 <= i < |text| => text[i] as nat)
  }

  function FromBytes(bs: seq<Byte>): (text: string)
    ensures |text| == |bs|
  {
    seq(|bs|, i requires 0 <= i < |bs| => bs[i] as char)
  }

  function EncodeCursor(createdAt: Timestamp, id: Uuid): string {
    TimeIsPlain(createdAt);
    UuidIsPlain(id);
    Base64Url.Encode(ToBytes(FormatTime(createdAt) + "|" + FormatUuid(id)))
  }

  /** A blank cursor asks for the first page; a malformed one is an error. */
  function ParseCursor(raw: string): Result<Option<Cursor>, ()> {
    if IsAllSpace(raw) then Ok(None)
    else
      match Base64Url.Decode(raw)
      case None => Err(())
      case Some(decoded) =>
        var parts := Split(FromBytes(decoded), '|');
        if |parts| != 2 then Err(())
        else
          match (ParseTime(parts[0]), ParseUuid(parts[1]))
          case (Some(createdAt), Some(id)) => Ok(Some(Cursor(createdAt, id)))
          case _ => Err(())
  }

  lemma EncodedIsNotBlank(bs: seq<Byte>)
    requires bs != []
    ensures !IsAllSpace(Base64Url.Encode(bs))
  {
    var vs := Base64Url.Groups(bs);
    assert Base64Url.Encode(bs)[0] == Base64Url.Symbol(vs[0]);
  }

  /** Every cursor the server hands out is read back as the time and id it was made from. */
  lemma CursorRoundTrip(createdAt: Timestamp, id: Uuid)
    ensures ParseCursor(EncodeCursor(createdAt, id)) == Ok(Some(Cursor(createdAt, id)))
  {
    var time, uuid := FormatTime(createdAt), FormatUuid(id);
    TimeIsPlain(createdAt);
    UuidIsPlain(id);
    var text := time + "|" + uuid;
    EncodedIsNotBlank(ToBytes(text));
    Base64Url.DecodeEncode(ToBytes(text));
    assert FromBytes(ToBytes(text)) == text;
    SplitJoined(time, uuid, '|');
    TimeRoundTrip(createdAt);
    UuidRoundTrip(id);
  }
}
