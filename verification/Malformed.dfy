/**
 * What the modelled cursor reader refuses: everything but texts of the form that the server writes
 * (internal/orders/handler.go:310-342). Go's time and UUID parsers also take forms that it never writes.
 */
module Malformed {
  import opened Wrappers
  import opened Numbers
  import opened Ids
  import opened Clock
  import opened Text
  import opened Cursor
  import opened Base64Url

  // ---- Numerals ----

  function LowerChar(c: char): char {
    if 'A' <= c <= 'F' then c - 'A' + 'a' else c
  }

  /** Hexadecimal capitals as small letters. */
  function Lower(text: string): (lower: string)
    ensures |lower| == |text|
  {
    seq(|text|, i requires 0 <= i < |text| => LowerChar(text[i]))
  }

  lemma OnlyADigitIsRead(c: char, base: nat)
    requires base <= 16 && DigitValue(c, base).Some?
    ensures DigitValue(c, base).value < base
    ensures LowerChar(c) == Numeral(DigitValue(c, base).value) && (base <= 10 ==> c == Numeral(DigitValue(c, base).value))
  {
  }

  lemma NumeralsOfOneMore(d: nat, ds: seq<nat>)
    requires d < 16 && AreDigits(ds, 16)
    ensures AreDigits([d] + ds, 16) && Numerals([d] + ds) == [Numeral(d)] + Numerals(ds)
  {
  }

  lemma LowerOfOneMore(c: char, text: string)
    ensures Lower([c] + text) == [LowerChar(c)] + Lower(text)
  {
  }

  /** Whatever is read as digits is those digits, up to the case of letters. */
  lemma {:induction false} OnlyDigitsAreRead(text: string, base: nat, width: nat)
    requires base <= 16 && ReadDigits(text, base, width).Some?
    ensures var (ds, rest) := ReadDigits(text, base, width).value;
            && |ds| == width <= |text| && AreDigits(ds, base) && rest == text[width..]
            && Lower(text[..width]) == Numerals(ds) && (base <= 10 ==> text[..width] == Numerals(ds))
    decreases width
  {
    if width > 0 {
      OnlyDigitsAreRead(text[1..], base, width - 1);
      OnlyADigitIsRead(text[0], base);
      var ds := ReadDigits(text[1..], base, width - 1).value.0;
      NumeralsOfOneMore(DigitValue(text[0], base).value, ds);
      LowerOfOneMore(text[0], text[1..][..width - 1]);
      assert text[..width] == [text[0]] + text[1..][..width - 1];
      assert text[1..][width - 1..] == text[width..];
    }
  }

  /** A number has only one fixed-width numeral. */
  lemma {:induction false} DigitsOfValue(ds: seq<nat>, base: nat)
    requires base >= 2 && AreDigits(ds, base)
    ensures Digits(Value(ds, base), base, |ds|) == ds
    decreases |ds|
  {
    if ds != [] {
      var n := |ds| - 1;
      var high, low := Value(ds[..n], base), ds[n];
      DigitsOfValue(ds[..n], base);
      LastDigit(high, low, base);
      assert ds == ds[..n] + [low];
    }
  }

  lemma LastDigit(high: nat, low: nat, base: nat)
    requires low < base
    ensures (high * base + low) / base == high && (high * base + low) % base == low
  {
    QuotientIsUnique(high * base + low, base, high, low);
  }

  lemma OnlyDecimalsAreRead(text: string, width: nat)
    requires ReadDecimal(text, width).Some?
    ensures var (n, rest) := ReadDecimal(text, width).value;
            text == Decimal(n, width) + rest
  {
    OnlyDigitsAreRead(text, 10, width);
    var (ds, rest) := ReadDigits(text, 10, width).value;
    DigitsOfValue(ds, 10);
    assert text == text[..width] + text[width..];
  }

  lemma OnlyThatCharIsRead(text: string, c: char)
    requires ReadChar(text, c).Some?
    ensures text == [c] + ReadChar(text, c).value
  {
  }

  // ---- Times ----

  /** Nothing, or a point and at least one digit. */
  ghost predicate IsFraction(text: string, nanos: nat) {
    || (text == "" && nanos == 0)
    || (exists ds, nine :: ds != [] && AreDigits(ds, 10) && text == "." + Numerals(ds) && IsNine(ds, nine, nanos))
  }

  /** The first nine digits, filled up with zeros, are the nanoseconds. */
  predicate IsNine(ds: seq<nat>, nine: seq<nat>, nanos: nat) {
    && |nine| == 9 && (forall i :: 0 <= i < 9 ==> nine[i] == if i < |ds| then ds[i] else 0)
    && nanos == Value(nine, 10)
  }

  function Nine(ds: seq<nat>): (nine: seq<nat>)
    ensures IsNine(ds, nine, NanosOf(ds))
  {
    if |ds| >= 9 then ds[..9] else ds + Zeros(9 - |ds|)
  }

  lemma FractionIsRead(fraction: string, nanos: nat)
    requires IsFraction(fraction, nanos)
    ensures ReadFraction(fraction + "Z") == (nanos, "Z")
  {
    if fraction != "" {
      var ds, nine :| ds != [] && AreDigits(ds, 10) && fraction == "." + Numerals(ds) && IsNine(ds, nine, nanos);
      assert nine == Nine(ds);
      ReadsFractionDigits(ds);
    } else {
      assert fraction + "Z" == "Z";
    }
  }

  lemma {:induction false} OnlyARunIsRead(text: string)
    ensures var (ds, rest) := ReadRun(text); AreDigits(ds, 10) && text == Numerals(ds) + rest
  {
    if text != "" && DigitValue(text[0], 10).Some? {
      OnlyARunIsRead(text[1..]);
      OnlyADigitIsRead(text[0], 10);
      NumeralsOfOneMore(DigitValue(text[0], 10).value, ReadRun(text[1..]).0);
      assert text == [text[0]] + text[1..];
    }
  }

  lemma OnlyFractionsAreRead(text: string)
    requires ReadFraction(text).1 == "Z"
    ensures exists fraction :: text == fraction + "Z" && IsFraction(fraction, ReadFraction(text).0)
  {
    if |text| >= 2 && text[0] == '.' && DigitValue(text[1], 10).Some? {
      OnlyARunIsRead(text[1..]);
      var (ds, rest) := ReadRun(text[1..]);
      assert ds != [];
      var fraction := "." + Numerals(ds);
      assert IsNine(ds, Nine(ds), NanosOf(ds));
      assert IsFraction(fraction, NanosOf(ds));
      assert text == fraction + "Z";
    } else {
      assert text == "" + "Z" && IsFraction("", 0);
    }
  }

  /** A date and time of day in full, then a fraction, then the letter Z. */
  ghost predicate IsTimeText(text: string, t: Timestamp, fraction: string) {
    && IsFraction(fraction, t.nanos)
    && text == Decimal(t.year, 4) + ("-" + (Decimal(t.month, 2) + ("-" + (Decimal(t.day, 2) + ("T" +
               (Decimal(t.hour, 2) + (":" + (Decimal(t.minute, 2) + (":" + (Decimal(t.second, 2) +
               (fraction + "Z")))))))))))
  }

  /** Every such text is read as its time. */
  lemma TimeTextIsRead(text: string, t: Timestamp, fraction: string)
    requires IsTimeText(text, t, fraction)
    ensures ParseTime(text) == Some(t)
  {
    FractionIsRead(fraction, t.nanos);
    ReadsTime(t, fraction);
  }

  /** Any other text is refused. */
  lemma OnlyTimesAreRead(text: string)
    requires ParseTime(text).Some?
    ensures exists fraction :: IsTimeText(text, ParseTime(text).value, fraction)
  {
    var t := ParseTime(text).value;
    OnlyDecimalsAreRead(text, 4);
    var (year, a) := ReadDecimal(text, 4).value;
    OnlyThatCharIsRead(a, '-');
    var b := ReadChar(a, '-').value;
    OnlyDecimalsAreRead(b, 2);
    var (month, c) := ReadDecimal(b, 2).value;
    OnlyThatCharIsRead(c, '-');
    var d := ReadChar(c, '-').value;
    OnlyDecimalsAreRead(d, 2);
    var (day, e) := ReadDecimal(d, 2).value;
    OnlyThatCharIsRead(e, 'T');
    var f := ReadChar(e, 'T').value;
    OnlyDecimalsAreRead(f, 2);
    var (hour, g) := ReadDecimal(f, 2).value;
    OnlyThatCharIsRead(g, ':');
    var h := ReadChar(g, ':').value;
    OnlyDecimalsAreRead(h, 2);
    var (minute, i) := ReadDecimal(h, 2).value;
    OnlyThatCharIsRead(i, ':');
    var j := ReadChar(i, ':').value;
    OnlyDecimalsAreRead(j, 2);
    var (second, k) := ReadDecimal(j, 2).value;
    OnlyFractionsAreRead(k);
    var fraction :| k == fraction + "Z" && IsFraction(fraction, ReadFraction(k).0);
    assert IsTimeText(text, t, fraction);
  }

  // ---- UUIDs ----

  /** One group of digits and the hyphen after it. */
  lemma OnlyAGroupIsRead(text: string, width: nat)
    requires ReadDigits(text, 16, width).Some? && ReadChar(ReadDigits(text, 16, width).value.1, '-').Some?
    ensures var (ds, rest) := ReadDigits(text, 16, width).value;
            && |ds| == width < |text| && AreDigits(ds, 16) && Lower(text[..width]) == Numerals(ds)
            && text[width] == '-' && ReadChar(rest, '-').value == text[width + 1..]
  {
    OnlyDigitsAreRead(text, 16, width);
  }

  predicate AreGroups(a: seq<nat>, b: seq<nat>, c: seq<nat>, d: seq<nat>, e: seq<nat>) {
    && |a| == 8 && |b| == |c| == |d| == 4 && |e| == 12
    && AreDigits(a, 16) && AreDigits(b, 16) && AreDigits(c, 16) && AreDigits(d, 16) && AreDigits(e, 16)
  }

  function GroupsText(a: seq<nat>, b: seq<nat>, c: seq<nat>, d: seq<nat>, e: seq<nat>): string
    requires AreGroups(a, b, c, d, e)
  {
    Numerals(a) + ("-" + (Numerals(b) + ("-" + (Numerals(c) + ("-" + (Numerals(d) + ("-" + Numerals(e))))))))
  }

  lemma GroupsTogether(a: seq<nat>, b: seq<nat>, c: seq<nat>, d: seq<nat>, e: seq<nat>)
    requires AreGroups(a, b, c, d, e)
    ensures var ds := a + b + c + d + e;
            |ds| == 32 && AreDigits(ds, 16) && Hyphenated(ds) == GroupsText(a, b, c, d, e)
  {
    var ds := a + b + c + d + e;
    assert ds[..8] == a && ds[8..12] == b && ds[12..16] == c && ds[16..20] == d && ds[20..] == e;
  }

  /** The five groups that are read stand at their places in the text. */
  lemma OnlyGroupsAreRead(text: string) returns (a: seq<nat>, b: seq<nat>, c: seq<nat>, d: seq<nat>, e: seq<nat>)
    requires ParseHyphenated(text).Some? && |text| == 36
    ensures AreGroups(a, b, c, d, e) && ParseHyphenated(text) == Some(Value(a + b + c + d + e, 16))
    ensures text[8] == '-' && text[13] == '-' && text[18] == '-' && text[23] == '-'
    ensures Lower(text[..8]) == Numerals(a) && Lower(text[9..][..4]) == Numerals(b)
    ensures Lower(text[14..][..4]) == Numerals(c) && Lower(text[19..][..4]) == Numerals(d)
    ensures Lower(text[24..]) == Numerals(e)
  {
    OnlyAGroupIsRead(text, 8);
    a := ReadDigits(text, 16, 8).value.0;
    b := ReadDigits(text[9..], 16, 4).value.0;
    OnlyAGroupIsRead(text[9..], 4);
    assert text[9..][5..] == text[14..] && text[9..][4] == text[13];
    c := ReadDigits(text[14..], 16, 4).value.0;
    OnlyAGroupIsRead(text[14..], 4);
    assert text[14..][5..] == text[19..] && text[14..][4] == text[18];
    d := ReadDigits(text[19..], 16, 4).value.0;
    OnlyAGroupIsRead(text[19..], 4);
    assert text[19..][5..] == text[24..] && text[19..][4] == text[23];
    e := ReadDigits(text[24..], 16, 12).value.0;
    OnlyDigitsAreRead(text[24..], 16, 12);
    assert text[24..][..12] == text[24..];
  }

  lemma OnlyHyphenatedIsRead(text: string)
    requires ParseHyphenated(text).Some? && |text| == 36
    ensures exists ds :: IsReadAs(text, ds)
  {
    var a, b, c, d, e := OnlyGroupsAreRead(text);
    GroupsTogether(a, b, c, d, e);
    LowerInParts(text);
    assert IsReadAs(text, a + b + c + d + e);
  }

  ghost predicate IsReadAs(text: string, ds: seq<nat>) {
    && |ds| == 32 && AreDigits(ds, 16)
    && Lower(text) == Hyphenated(ds) && ParseHyphenated(text) == Some(Value(ds, 16))
  }

  lemma LowerInParts(text: string)
    requires |text| == 36
    requires text[8] == '-' && text[13] == '-' && text[18] == '-' && text[23] == '-'
    ensures Lower(text) == Lower(text[..8]) + ("-" + (Lower(text[9..][..4]) + ("-" + (Lower(text[14..][..4]) + ("-" +
                           (Lower(text[19..][..4]) + ("-" + Lower(text[24..]))))))))
  {
  }

  /** Only the 36-character form of the UUID is read, in either case. */
  lemma OnlyUuidsAreRead(text: string)
    requires ParseUuid(text).Some?
    ensures Lower(text) == FormatUuid(ParseUuid(text).value)
  {
    OnlyHyphenatedIsRead(text);
    var ds :| IsReadAs(text, ds);
    DigitsOfValue(ds, 16);
  }

  lemma LowerIsReadAlike(c: char, base: nat)
    requires base <= 16
    ensures DigitValue(LowerChar(c), base) == DigitValue(c, base)
    ensures LowerChar(c) == '-' <==> c == '-'
  {
  }

  lemma {:induction false} LowerDigitsAreReadAlike(text: string, width: nat)
    ensures match ReadDigits(text, 16, width)
            case None => ReadDigits(Lower(text), 16, width).None?
            case Some((ds, rest)) => ReadDigits(Lower(text), 16, width) == Some((ds, Lower(rest)))
    decreases width
  {
    if width == 0 {
    } else if text != "" {
      LowerIsReadAlike(text[0], 16);
      LowerDigitsAreReadAlike(text[1..], width - 1);
      assert Lower(text)[1..] == Lower(text[1..]);
    }
  }

  lemma LowerCharIsReadAlike(text: string)
    ensures match ReadChar(text, '-')
            case None => ReadChar(Lower(text), '-').None?
            case Some(rest) => ReadChar(Lower(text), '-') == Some(Lower(rest))
  {
    if text != "" {
      LowerIsReadAlike(text[0], 16);
      assert Lower(text)[1..] == Lower(text[1..]);
    }
  }

  lemma LowerGroupIsReadAlike(text: string, width: nat)
    ensures match ReadDigits(text, 16, width)
            case None => ReadDigits(Lower(text), 16, width).None?
            case Some((ds, rest)) =>
              && ReadDigits(Lower(text), 16, width) == Some((ds, Lower(rest)))
              && match ReadChar(rest, '-')
                 case None => ReadChar(Lower(rest), '-').None?
                 case Some(after) => ReadChar(Lower(rest), '-') == Some(Lower(after))
  {
    LowerDigitsAreReadAlike(text, width);
    if ReadDigits(text, 16, width).Some? {
      LowerCharIsReadAlike(ReadDigits(text, 16, width).value.1);
    }
  }

  lemma LowerHyphenatedIsReadAlike(text: string)
    requires ParseHyphenated(Lower(text)).Some?
    ensures ParseHyphenated(text) == ParseHyphenated(Lower(text))
  {
    LowerGroupIsReadAlike(text, 8);
    var a := ReadChar(ReadDigits(text, 16, 8).value.1, '-').value;
    LowerGroupIsReadAlike(a, 4);
    var b := ReadChar(ReadDigits(a, 16, 4).value.1, '-').value;
    LowerGroupIsReadAlike(b, 4);
    var c := ReadChar(ReadDigits(b, 16, 4).value.1, '-').value;
    LowerGroupIsReadAlike(c, 4);
    var d := ReadChar(ReadDigits(c, 16, 4).value.1, '-').value;
    LowerGroupIsReadAlike(d, 12);
  }

  /** Every text that is an id's up to the case of letters is read as that id. */
  lemma UuidTextIsRead(text: string, id: Uuid)
    requires Lower(text) == FormatUuid(id)
    ensures ParseUuid(text) == Some(id)
  {
    UuidRoundTrip(id);
    LowerHyphenatedIsReadAlike(text);
  }

  // ---- The parts ----

  /** The parts joined by the separator. */
  function Glued(parts: seq<string>, separator: char): string
    requires parts != []
  {
    if |parts| == 1 then parts[0] else parts[0] + [separator] + Glued(parts[1..], separator)
  }

  /** Splitting cuts at every separator and nowhere else. */
  lemma {:induction false} SplitIsGlued(text: string, separator: char)
    ensures Glued(Split(text, separator), separator) == text
    ensures forall i :: 0 <= i < |Split(text, separator)| ==> separator !in Split(text, separator)[i]
  {
    if text != [] {
      SplitIsGlued(text[1..], separator);
      var parts, all := Split(text[1..], separator), Split(text, separator);
      if text[0] == separator {
        assert all[1..] == parts;
      } else {
        assert all[1..] == parts[1..];
        assert text == [text[0]] + text[1..];
      }
    }
  }

  // ---- The encoding ----

  const CAPITALS: set<char> :=
    {'A', 'B', 'C', 'D', 'E', 'F', 'G', 'H', 'I', 'J', 'K', 'L', 'M',
     'N', 'O', 'P', 'Q', 'R', 'S', 'T', 'U', 'V', 'W', 'X', 'Y', 'Z'}

  const SMALL_LETTERS: set<char> :=
    {'a', 'b', 'c', 'd', 'e', 'f', 'g', 'h', 'i', 'j', 'k', 'l', 'm',
     'n', 'o', 'p', 'q', 'r', 's', 't', 'u', 'v', 'w', 'x', 'y', 'z'}

  const OTHER_SYMBOLS: set<char> := {'0', '1', '2', '3', '4', '5', '6', '7', '8', '9', '-', '_'}

  predicate InAlphabet(c: char) {
    c in CAPITALS || c in SMALL_LETTERS || c in OTHER_SYMBOLS
  }

  /** These sixty-four characters and no others are read. */
  lemma SymbolsAreTheAlphabet(c: char)
    ensures SymbolValue(c).Some? <==> InAlphabet(c)
  {
    assert c in CAPITALS <==> 'A' <= c <= 'Z';
    assert c in SMALL_LETTERS <==> 'a' <= c <= 'z';
    assert c in OTHER_SYMBOLS <==> '0' <= c <= '9' || c == '-' || c == '_';
  }

  /** What is decoded is an encoding, up to line breaks and the unused low bits of its last symbol. */
  lemma {:induction false} OnlySymbolsAreRead(text: string)
    ensures Values(text).Some? <==> forall i :: 0 <= i < |text| ==> SymbolValue(text[i]).Some?
    ensures Values(text).Some? ==> forall i :: 0 <= i < |text| ==> text[i] == Symbol(Values(text).value[i])
  {
    if text != "" {
      OnlySymbolsAreRead(text[1..]);
      assert text == [text[0]] + text[1..];
    }
  }

  lemma {:induction false} LonelySymbolIsRefused(vs: seq<nat>)
    requires forall i :: 0 <= i < |vs| ==> vs[i] < 64
    ensures BytesOf(vs).None? <==> |vs| % 4 == 1
    decreases |vs|
  {
    if |vs| >= 4 {
      LonelySymbolIsRefused(vs[4..]);
    }
  }

  /** Text with any other character, or with one symbol too many, is refused. */
  lemma OnlyEncodingsAreDecoded(text: string)
    ensures var symbols := WithoutLineBreaks(text);
            Decode(text).Some? <==>
            (forall i :: 0 <= i < |symbols| ==> InAlphabet(symbols[i])) && |symbols| % 4 != 1
  {
    var symbols := WithoutLineBreaks(text);
    forall i | 0 <= i < |symbols| ensures SymbolValue(symbols[i]).Some? <==> InAlphabet(symbols[i]) {
      SymbolsAreTheAlphabet(symbols[i]);
    }
    OnlySymbolsAreRead(symbols);
    if Values(symbols).Some? {
      LonelySymbolIsRefused(Values(symbols).value);
    }
  }

  /** Of single characters, the carriage return and the line feed are dropped and no others. */
  lemma OnlyLineBreaksAreDropped(c: char)
    ensures WithoutLineBreaks([c]) == if c == '\r' || c == '\n' then "" else [c]
  {
    assert [c][1..] == "";
  }

  lemma FirstCharFirst(text: string)
    requires text != ""
    ensures WithoutLineBreaks(text) == WithoutLineBreaks([text[0]]) + WithoutLineBreaks(text[1..])
  {
    OnlyLineBreaksAreDropped(text[0]);
  }

  lemma Regrouped(a: string, b: string, c: string)
    ensures a + (b + c) == (a + b) + c
  {
  }

  /** And of a text, those characters. */
  lemma {:induction false} LineBreaksOfConcat(a: string, b: string)
    ensures WithoutLineBreaks(a + b) == WithoutLineBreaks(a) + WithoutLineBreaks(b)
    decreases |a|
  {
    if a == "" {
      assert a + b == b;
    } else {
      LineBreaksOfConcat(a[1..], b);
      assert (a + b)[1..] == a[1..] + b;
      Regrouped(WithoutLineBreaks([a[0]]), WithoutLineBreaks(a[1..]), WithoutLineBreaks(b));
      FirstCharFirst(a);
      FirstCharFirst(a + b);
    }
  }

  // ---- The cursor ----

  /** White space alone asks for the first page. */
  lemma BlankAsksForTheFirstPage(raw: string)
    ensures ParseCursor(raw) == Ok(None) <==> forall i :: 0 <= i < |raw| ==> raw[i] in WHITE_SPACE
  {
    forall i | 0 <= i < |raw| ensures IsSpace(raw[i]) <==> raw[i] in WHITE_SPACE {
      SpacesAreWhiteSpace(raw[i]);
    }
  }

  /** Every text that decodes to a time and an id is accepted as that cursor. */
  lemma CursorTextIsRead(raw: string, cursor: Cursor, time: string, id: string, fraction: string)
    requires !IsAllSpace(raw) && Decode(raw).Some?
    requires IsCursorText(FromBytes(Decode(raw).value), cursor, time, id, fraction)
    ensures ParseCursor(raw) == Ok(Some(cursor))
  {
    SplitJoined(time, id, '|');
    TimeTextIsRead(time, cursor.createdAt, fraction);
    UuidTextIsRead(id, cursor.id);
  }


  /** The text is a time and an id with the separator between them. */
  ghost predicate IsCursorText(text: string, cursor: Cursor, time: string, id: string, fraction: string) {
    && text == time + ['|'] + id && '|' !in time && '|' !in id
    && IsTimeText(time, cursor.createdAt, fraction) && Lower(id) == FormatUuid(cursor.id)
  }

  /** A cursor is accepted only if it decodes to such a text; everything else is refused. */
  lemma OnlyCursorsAreRead(raw: string)
    requires ParseCursor(raw).Ok? && ParseCursor(raw).value.Some?
    ensures Decode(raw).Some?
    ensures exists time, id, fraction ::
              IsCursorText(FromBytes(Decode(raw).value), ParseCursor(raw).value.value, time, id, fraction)
  {
    var text := FromBytes(Decode(raw).value);
    var parts := Split(text, '|');
    SplitIsGlued(text, '|');
    assert Glued(parts[1..], '|') == parts[1];
    OnlyTimesAreRead(parts[0]);
    OnlyUuidsAreRead(parts[1]);
    var fraction :| IsTimeText(parts[0], ParseTime(parts[0]).value, fraction);
    assert IsCursorText(text, ParseCursor(raw).value.value, parts[0], parts[1], fraction);
  }
}
