/** How the client of Lab 8 cuts a file into numbered parts, and how the parts give the file back. */
module UdpParts {
  import opened Octets
  import Arithmetic

  /** One datagram: the part number, the "last part" flag and the payload. */
  datatype Datagram = Datagram(chunkNo: int, last: bool, payload: seq<Byte>)

  function Zeros(n: nat): (z: seq<Byte>)
    ensures |z| == n && forall i :: 0 <= i < n ==> z[i] == 0
  {
    seq(n, _ => 0)
  }

  /** The number of parts of n bytes, n / size + 1: as many full parts as there are, and a short one, which may be empty. */
  function Pieces(n: nat, size: nat): (c: nat)
    requires size > 0
    ensures c >= 1
  {
    if n < size then 1 else Pieces(n - size, size) + 1
  }

  /** The number of bytes in k full parts, k * size. */
  function Full(k: nat, size: nat): nat {
    if k == 0 then 0 else Full(k - 1, size) + size
  }

  function PartCount(data: seq<Byte>, size: nat): (c: nat)
    requires size > 0
    ensures c >= 1
  {
    Pieces(|data|, size)
  }

  lemma {:induction false} FullIsProduct(k: nat, size: nat)
    ensures Full(k, size) == k * size
  {
    if k > 0 {
      FullIsProduct(k - 1, size);
      assert k * size == (k - 1) * size + size;
    }
  }

  /** Part k is full exactly when there is one more part behind it. */
  lemma {:induction false} FullParts(n: nat, size: nat, k: nat)
    requires size > 0
    ensures k < Pieces(n, size) <==> Full(k, size) <= n
  {
    if k > 0 && n >= size { FullParts(n - size, size, k - 1); }
  }

  lemma PiecesIsQuotient(n: nat, size: nat)
    requires size > 0
    ensures Pieces(n, size) == n / size + 1
  {
    var c := Pieces(n, size);
    FullParts(n, size, c - 1);
    FullParts(n, size, c);
    FullIsProduct(c - 1, size);
    FullIsProduct(c, size);
    Arithmetic.Quotient(c - 1, n - Full(c - 1, size), size);
  }

  function Smaller(a: nat, b: nat): nat { if a < b then a else b }

  /** Where part k ends in the file. */
  function PartEnd(data: seq<Byte>, size: nat, k: nat): nat {
    Smaller(Full(k, size), |data|)
  }

  /** The payload of part k: the bytes of the file, then zeros up to the payload size. */
  function Payload(data: seq<Byte>, size: nat, k: nat): seq<Byte>
    requires size > 0 && 1 <= k <= PartCount(data, size)
  {
    PartBounds(data, size, k);
    var body := data[Full(k - 1, size)..PartEnd(data, size, k)];
    body + Zeros(size - |body|)
  }

  function Part(data: seq<Byte>, size: nat, k: nat): Datagram
    requires size > 0 && 1 <= k <= PartCount(data, size)
  {
    Datagram(k, k == PartCount(data, size), Payload(data, size, k))
  }

  lemma PartBounds(data: seq<Byte>, size: nat, k: nat)
    requires size > 0 && 1 <= k <= PartCount(data, size)
    ensures Full(k - 1, size) <= PartEnd(data, size, k) <= Full(k, size) == Full(k - 1, size) + size
    ensures if k < PartCount(data, size) then PartEnd(data, size, k) == Full(k, size)
            else PartEnd(data, size, k) == |data| < Full(k, size)
  {
    FullParts(|data|, size, k - 1);
    FullParts(|data|, size, k);
  }

  /** All payloads of parts 1..k, one after the other. */
  function Joined(parts: seq<Datagram>): seq<Byte> {
    if parts == [] then [] else Joined(parts[..|parts| - 1]) + parts[|parts| - 1].payload
  }

  /** Parts 1..k of a file. */
  function Parts(data: seq<Byte>, size: nat, k: nat): (ps: seq<Datagram>)
    requires size > 0 && k <= PartCount(data, size)
    ensures |ps| == k
    ensures forall i :: 0 <= i < k ==> ps[i] == Part(data, size, i + 1)
  {
    seq(k, i requires 0 <= i < k => Part(data, size, i + 1))
  }

  /** What the first k parts carry: the bytes of the file up to where part k ends, padded with zeros when the file is shorter. */
  function Carried(data: seq<Byte>, size: nat, k: nat): seq<Byte>
    requires PartEnd(data, size, k) <= Full(k, size)
  {
    data[..PartEnd(data, size, k)] + Zeros(Full(k, size) - PartEnd(data, size, k))
  }

  lemma {:induction false} JoinedParts(data: seq<Byte>, size: nat, k: nat)
    requires size > 0 && k <= PartCount(data, size)
    ensures PartEnd(data, size, k) <= Full(k, size)
    ensures Joined(Parts(data, size, k)) == Carried(data, size, k)
  {
    if k == 0 {
      JoinedNone(data, size);
    } else {
      JoinedParts(data, size, k - 1);
      JoinedNext(data, size, k);
      CarriedNext(data, size, k);
    }
  }

  lemma CarriedNext(data: seq<Byte>, size: nat, k: nat)
    requires size > 0 && 1 <= k <= PartCount(data, size)
    ensures PartEnd(data, size, k - 1) == Full(k - 1, size) && PartEnd(data, size, k) <= Full(k, size)
    ensures Carried(data, size, k - 1) + Payload(data, size, k) == Carried(data, size, k)
  {
    PartBounds(data, size, k);
    var start, end := Full(k - 1, size), PartEnd(data, size, k);
    assert PartEnd(data, size, k - 1) == start;
    PadAfter(data, start, end, Full(k, size) - end, Carried(data, size, k - 1), Payload(data, size, k));
  }

  lemma JoinedNone(data: seq<Byte>, size: nat)
    requires size > 0
    ensures PartEnd(data, size, 0) == 0 && Joined(Parts(data, size, 0)) == Carried(data, size, 0)
  {
  }

  lemma JoinedNext(data: seq<Byte>, size: nat, k: nat)
    requires size > 0 && 1 <= k <= PartCount(data, size)
    ensures Joined(Parts(data, size, k)) == Joined(Parts(data, size, k - 1)) + Payload(data, size, k)
  {
    var parts := Parts(data, size, k);
    assert parts[..k - 1] == Parts(data, size, k - 1);
  }

  lemma PadAfter(data: seq<Byte>, start: nat, end: nat, pad: nat, before: seq<Byte>, payload: seq<Byte>)
    requires start <= end <= |data|
    requires before == data[..start] + Zeros(0) && payload == data[start..end] + Zeros(pad)
    ensures before + payload == data[..end] + Zeros(pad)
  {
    assert data[..start] + data[start..end] == data[..end];
  }

  /** A sequence without the zeros it ends in. */
  function Stripped(s: seq<Byte>): seq<Byte> {
    if s != [] && s[|s| - 1] == 0 then Stripped(s[..|s| - 1]) else s
  }

  ghost predicate EndsInZero(s: seq<Byte>) {
    s != [] && s[|s| - 1] == 0
  }

  lemma {:induction false} StrippedPadding(s: seq<Byte>, n: nat)
    ensures Stripped(s + Zeros(n)) == Stripped(s)
  {
    if n == 0 {
      assert s + Zeros(0) == s;
    } else {
      assert (s + Zeros(n))[..|s| + n - 1] == s + Zeros(n - 1);
      StrippedPadding(s, n - 1);
    }
  }

  lemma {:induction false} StrippedShorter(s: seq<Byte>)
    ensures |Stripped(s)| <= |s|
  {
    if EndsInZero(s) { StrippedShorter(s[..|s| - 1]); }
  }

  /** Joining all parts gives the file followed by at least one and at most `size` zeros. */
  lemma AllParts(data: seq<Byte>, size: nat)
    requires size > 0
    ensures
      var padding := Full(PartCount(data, size), size) - |data|;
      && 0 < padding <= size
      && Joined(Parts(data, size, PartCount(data, size))) == data + Zeros(padding)
  {
    var k := PartCount(data, size);
    PartBounds(data, size, k);
    JoinedParts(data, size, k);
    assert data[..|data|] == data;
  }

  /** Dropping the trailing zeros gives the file back exactly when the file does not itself end in a zero byte. */
  lemma Reassembly(data: seq<Byte>, size: nat)
    requires size > 0
    ensures Stripped(Joined(Parts(data, size, PartCount(data, size)))) == data <==> !EndsInZero(data)
  {
    AllParts(data, size);
    StrippedPadding(data, Full(PartCount(data, size), size) - |data|);
    if EndsInZero(data) { StrippedShorter(data[..|data| - 1]); }
  }

  /** Exactly the final part is flagged last. */
  lemma OnlyFinalPartIsLast(data: seq<Byte>, size: nat, k: nat)
    requires size > 0 && 1 <= k <= PartCount(data, size)
    ensures Part(data, size, k).last <==> PartEnd(data, size, k) < Full(k, size)
    ensures |Part(data, size, k).payload| == size
  {
    PartBounds(data, size, k);
  }

  /** All parts of a file: as many as its length asks for, numbered from 1, the final one flagged last,
      and together the file and some zeros. */
  lemma AllTogether(data: seq<Byte>, size: nat)
    requires size > 0
    ensures
      var parts := Parts(data, size, PartCount(data, size));
      && |parts| == PartCount(data, size)
      && (forall i :: 0 <= i < |parts| ==> parts[i].chunkNo == i + 1 && (parts[i].last <==> i == |parts| - 1))
      && data <= Joined(parts) && |data| < |Joined(parts)| <= |data| + size
      && (forall i :: |data| <= i < |Joined(parts)| ==> Joined(parts)[i] == 0)
  {
    AllParts(data, size);
  }
}
