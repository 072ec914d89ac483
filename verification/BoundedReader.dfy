/** The size-limited response reader (internal/auth/jwt.go:201-228). */
module BoundedReader {
  import opened Wrappers
  import opened Numbers

  datatype ReadError = EOF | TooLarge | Broken

  /** Any reader of `data`: it may return fewer bytes than asked for, report the end together with the
      last bytes or later, or break at any time. */
  class Source {
    const data: seq<Byte>
    var pos: nat
    /** Calls of Read so far, how much the last one asked for, and its error. */
    ghost var calls: nat
    ghost var asked: nat
    ghost var last: Option<ReadError>

    ghost predicate Valid()
      reads this
    {
      pos <= |data|
    }

    constructor (data: seq<Byte>)
      ensures Valid() && this.data == data && pos == 0
    {
      this.data := data;
      pos := 0;
      calls := 0;
      asked := 0;
      last := None;
    }

    /** Reads into `p[..upto]`. */
    method Read(p: array<Byte>, upto: nat) returns (n: nat, err: Option<ReadError>)
      requires Valid() && upto <= p.Length
      modifies this, p
      ensures Valid() && n <= upto && pos == old(pos) + n
      ensures calls == old(calls) + 1 && asked == upto && last == err
      ensures p[..n] == data[old(pos)..pos]
      ensures forall i :: upto <= i < p.Length ==> p[i] == old(p[i])
      ensures err == Some(EOF) ==> pos == |data|
      ensures err != Some(TooLarge)
    {
      n :| n <= upto && pos + n <= |data|;
      calls := calls + 1;
      asked := upto;
      var from := pos;
      for i := 0 to n
        invariant pos == from && calls == old(calls) + 1 && asked == upto && n <= upto <= p.Length && from + n <= |data|
        invariant forall j :: 0 <= j < i ==> p[j] == data[from + j]
        invariant forall j :: upto <= j < p.Length ==> p[j] == old(p[j])
      {
        p[i] := data[from + i];
      }
      pos := from + n;
      var atEnd, broken: bool := *, *;
      err := if broken then Some(Broken) else if atEnd && pos == |data| then Some(EOF) else None;
      last := err;
    }
  }

  class MaxBytesReader {
    const source: Source
    var remaining: int
    ghost const limit: nat
    ghost var delivered: seq<Byte>
    /** Some call has reported TooLarge. */
    ghost var overrun: bool

    /** What was handed out is the front of the data, `remaining` counts down from the limit, and until an
        overrun the source stands right behind what was handed out. */
    ghost predicate Valid()
      reads this, source
    {
      && source.Valid()
      && |delivered| <= limit && remaining == limit - |delivered|
      && |delivered| <= |source.data| && delivered == source.data[..|delivered|]
      && (!overrun ==> source.pos == |delivered|)
      && (overrun ==> remaining == 0 && limit < source.pos)
    }

    constructor (source: Source, limit: nat)
      requires source.Valid() && source.pos == 0
      ensures Valid() && this.source == source && this.limit == limit && delivered == [] && !overrun
    {
      this.source := source;
      this.limit := limit;
      remaining := limit;
      delivered := [];
      overrun := false;
    }

    method Read(p: array<Byte>) returns (n: nat, err: Option<ReadError>)
      requires Valid()
      modifies this, source, p
      ensures Valid() && n <= p.Length
      ensures source.calls == old(source.calls) + 1 && source.pos >= old(source.pos)
      ensures source.asked == if old(remaining) == 0 then 1 else Min(p.Length, old(remaining) + 1)
      ensures n == Min(source.pos - old(source.pos), old(remaining))
      ensures err == if source.pos - old(source.pos) > old(remaining) then Some(TooLarge) else source.last
      ensures delivered == old(delivered) + p[..n]
      ensures forall i :: Min(p.Length, old(remaining) + 1) <= i < p.Length ==> p[i] == old(p[i])
      ensures overrun == (old(overrun) || err == Some(TooLarge))
      ensures err == Some(TooLarge) ==> limit < |source.data| && delivered == source.data[..limit]
      ensures err == Some(EOF) && !overrun ==> delivered == source.data
    {
      if remaining <= 0 {
        var extra := new Byte[1];
        n, err := source.Read(extra, 1);
        if n > 0 {
          overrun := true;
          return 0, Some(TooLarge);
        }
        return 0, err;
      }
      var upto := p.Length;
      if p.Length > remaining + 1 {
        upto := remaining + 1;
      }
      n, err := source.Read(p, upto);
      FrontGrows(source.data, |delivered|, n, Min(n, remaining));
      if n > remaining {
        n := remaining;
        remaining := 0;
        delivered := delivered + p[..n];
        overrun := true;
        return n, Some(TooLarge);
      }
      remaining := remaining - n;
      delivered := delivered + p[..n];
    }
  }

  /** Bytes read right behind a front, cut at `k`, make a longer front. */
  lemma FrontGrows(data: seq<Byte>, start: nat, n: nat, k: nat)
    requires start + n <= |data| && k <= n
    ensures data[..start] + data[start..start + n][..k] == data[..start + k]
  {
  }

  /** Any consumer: reads with buffers of the given sizes up to the first error. It gets all that the source
      hands out, up to the limit, and stops only at an error or after one read for each buffer. */
  method ReadUntilError(source: Source, limit: nat, sizes: seq<nat>) returns (got: seq<Byte>, err: Option<ReadError>)
    requires source.Valid() && source.pos == 0
    modifies source
    ensures source.Valid() && got == source.data[..Min(source.pos, limit)]
    ensures err == Some(EOF) ==> |source.data| <= limit && got == source.data
    ensures err == Some(TooLarge) <==> limit < source.pos
    ensures err.Some? && err != Some(TooLarge) ==> err == source.last
    ensures source.calls <= old(source.calls) + |sizes|
    ensures err.None? ==> source.calls == old(source.calls) + |sizes|
  {
    var reader := new MaxBytesReader(source, limit);
    got := [];
    err := None;
    for i := 0 to |sizes|
      invariant reader.Valid() && reader.source == source && reader.limit == limit && fresh(reader)
      invariant err.None? && !reader.overrun && got == reader.delivered
      invariant source.calls == old(source.calls) + i
    {
      var p := new Byte[sizes[i]];
      var n;
      n, err := reader.Read(p);
      got := got + p[..n];
      if err.Some? {
        return;
      }
    }
  }
}
