/** Unpadded base64url (sections 5 and 3.2 of RFC 4648) as Go's `base64.RawURLEncoding` reads and writes it. */
module Base64Url {
  import opened Wrappers
  import opened Numbers

  /** A-Z a-z 0-9 - _ */
  function Symbol(d: nat): char
    requires d < 64
  {
    if d < 26 then 'A' + d as char
    else if d < 52 then 'a' + (d - 26) as char
    else if d < 62 then '0' + (d - 52) as char
    else if d == 62 then '-'
    else '_'
  }

  function SymbolValue(c: char): (r: Option<nat>)
    ensures r.Some? ==> r.value < 64
  {
    if 'A' <= c <= 'Z' then Some(c as nat - 'A' as nat)
    else if 'a' <= c <= 'z' then Some(c as nat - 'a' as nat + 26)
    else if '0' <= c <= '9' then Some(c as nat - '0' as nat + 52)
    else if c == '-' then Some(62)
    else if c == '_' then Some(63)
    else None
  }

  lemma SymbolIsRead(d: nat)
    requires d < 64
    ensures SymbolValue(Symbol(d)) == Some(d)
  {
  }

  /** Three bytes make four six-bit groups; the last one or two bytes make two or three. */
  function Groups(bs: seq<Byte>): (vs: seq<nat>)
    ensures forall i :: 0 <= i < |vs| ==> vs[i] < 64
  {
    if bs == [] then []
    else if |bs| == 1 then [bs[0] / 4, bs[0] % 4 * 16]
    else if |bs| == 2 then [bs[0] / 4, bs[0] % 4 * 16 + bs[1] / 16, bs[1] % 16 * 4]
    else [bs[0] / 4, bs[0] % 4 * 16 + bs[1] / 16, bs[1] % 16 * 4 + bs[2] / 64, bs[2] % 64] + Groups(bs[3..])
  }

  function Symbols(vs: seq<nat>): (text: string)
    requires forall i :: 0 <= i < |vs| ==> vs[i] < 64
    ensures |text| == |vs|
  {
    seq(|vs|, i requires 0 <= i < |vs| => Symbol(vs[i]))
  }

  function Encode(bs: seq<Byte>): string {
    Symbols(Groups(bs))
  }

  /** The decoder ignores line breaks. */
  function WithoutLineBreaks(text: string): string {
    if text == "" then ""
    else (if text[0] == '\r' || text[0] == '\n' then "" else [text[0]]) + WithoutLineBreaks(text[1..])
  }

  function Values(text: string): (r: Option<seq<nat>>)
    ensures r.Some? ==> |r.value| == |text| && forall i :: 0 <= i < |text| ==> r.value[i] < 64
  {
    if text == "" then Some([])
    else
      match (SymbolValue(text[0]), Values(text[1..]))
      case (Some(v), Some(vs)) => Some([v] + vs)
      case _ => None
  }

  /** Left-over low bits of the last symbol are ignored; a single left-over symbol is an error. */
  function BytesOf(vs: seq<nat>): Option<seq<Byte>>
    requires forall i :: 0 <= i < |vs| ==> vs[i] < 64
  {
    if vs == [] then Some([])
    else if |vs| == 1 then None
    else if |vs| == 2 then Some([vs[0] * 4 + vs[1] / 16])
    else if |vs| == 3 then Some([vs[0] * 4 + vs[1] / 16, vs[1] % 16 * 16 + vs[2] / 4])
    else
      match BytesOf(vs[4..])
      case None => None
      case Some(rest) =>
        Some([vs[0] * 4 + vs[1] / 16, vs[1] % 16 * 16 + vs[2] / 4, vs[2] % 4 * 64 + vs[3]] + rest)
  }

  function Decode(text: string): Option<seq<Byte>> {
    match Values(WithoutLineBreaks(text))
    case None => None
    case Some(vs) => BytesOf(vs)
  }

  lemma {:induction false} SymbolsAreRead(vs: seq<nat>)
    requires forall i :: 0 <= i < |vs| ==> vs[i] < 64
    ensures WithoutLineBreaks(Symbols(vs)) == Symbols(vs)
    ensures Values(Symbols(vs)) == Some(vs)
  {
    if vs != [] {
      var text := Symbols(vs);
      assert text[1..] == Symbols(vs[1..]);
      SymbolIsRead(vs[0]);
      SymbolsAreRead(vs[1..]);
      assert vs == [vs[0]] + vs[1..] && text == [text[0]] + text[1..];
    }
  }

  lemma {:induction false} GroupsAreRead(bs: seq<Byte>)
    ensures BytesOf(Groups(bs)) == Some(bs)
  {
    if |bs| >= 3 {
      GroupsAreRead(bs[3..]);
      var vs := Groups(bs);
      assert vs[4..] == Groups(bs[3..]);
      assert bs == [bs[0], bs[1], bs[2]] + bs[3..];
    } else if |bs| == 1 {
      assert bs == [bs[0]];
    } else if |bs| == 2 {
      assert bs == [bs[0], bs[1]];
    }
  }

  /** Decoding undoes encoding, for every byte string. */
  lemma DecodeEncode(bs: seq<Byte>)
    ensures Decode(Encode(bs)) == Some(bs)
  {
    SymbolsAreRead(Groups(bs));
    GroupsAreRead(bs);
  }
}
