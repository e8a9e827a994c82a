/** The dealer's commitment as bytes: a base point, a little-endian 32-bit count, and that many point
    shares. Points and scalars are encoded by the group library, which appears as a `Codec`. */
module CommitmentCodec {

  type Byte = b: int | 0 <= b < 256
  type Bytes = seq<Byte>

  datatype Option<T> = None | Some(value: T)

  // Fixed-size encodings of points (P) and scalars (S).
  datatype Codec<!P, !S> = Codec(
    elementSize: nat, encodePoint: P -> Bytes, decodePoint: Bytes -> Option<P>,
    scalarSize: nat, encodeScalar: S -> Bytes, decodeScalar: Bytes -> Option<S>)
  {
    function ShareSize(): nat {
      scalarSize + elementSize
    }
  }

  ghost predicate Lawful<P(!new), S(!new)>(c: Codec<P, S>) {
    && c.elementSize > 0
    && (forall x :: |c.encodePoint(x)| == c.elementSize && c.decodePoint(c.encodePoint(x)) == Some(x))
    && (forall s :: |c.encodeScalar(s)| == c.scalarSize && c.decodeScalar(c.encodeScalar(s)) == Some(s))
  }

  // Each value has one encoding.
  ghost predicate Canonical<P, S>(c: Codec<P, S>) {
    && (forall b :: |b| == c.elementSize && c.decodePoint(b).Some? ==> c.encodePoint(c.decodePoint(b).value) == b)
    && (forall b :: |b| == c.scalarSize && c.decodeScalar(b).Some? ==> c.encodeScalar(c.decodeScalar(b).value) == b)
  }

  datatype PointShare<P, S> = PointShare(id: S, point: P)

  // ---- 32-bit little-endian counts

  const Word: int := 0x1_0000_0000

  function PutUint32(x: nat): (b: Bytes)
    ensures |b| == 4 && Uint32(b) == x % Word
  {
    var w := x % Word;
    var u := w / 256;
    var v := u / 256;
    [w % 256, u % 256, v % 256, v / 256]
  }

  function Uint32(b: Bytes): (x: nat)
    requires |b| == 4
    ensures x < Word
  {
    var b0: int, b1: int, b2: int, b3: int := b[0], b[1], b[2], b[3];
    b0 + 256 * (b1 + 256 * (b2 + 256 * b3))
  }

  lemma Digit(low: Byte, high: int)
    ensures (low + 256 * high) % 256 == low && (low + 256 * high) / 256 == high
  {
  }

  lemma PutUint32Inverse(b: Bytes)
    requires |b| == 4
    ensures PutUint32(Uint32(b)) == b
  {
    var x, h1, h2 := Uint32(b), Tail2(b[1], b[2], b[3]), Tail1(b[2], b[3]);
    Digit(b[0], h1);
    Digit(b[1], h2);
    Digit(b[2], b[3]);
    Digits(x, h1, h2, b[3]);
  }

  function Tail1(b2: int, b3: int): int { b2 + 256 * b3 }

  function Tail2(b1: int, b2: int, b3: int): int { b1 + 256 * Tail1(b2, b3) }

  lemma Digits(x: nat, h1: int, h2: int, h3: int)
    requires x < Word && x / 256 == h1 && h1 / 256 == h2 && h2 / 256 == h3
    ensures x % Word == x && h1 >= 0 && h2 >= 0 && 0 <= h3 < 256
    ensures PutUint32(x) == [x % 256, h1 % 256, h2 % 256, h3]
  {
  }

  // ---- encoding

  function MarshalShare<P, S>(c: Codec<P, S>, s: PointShare<P, S>): Bytes {
    c.encodeScalar(s.id) + c.encodePoint(s.point)
  }

  function Concat(parts: seq<Bytes>): Bytes {
    if parts == [] then [] else Concat(parts[..|parts| - 1]) + parts[|parts| - 1]
  }

  function MarshalShares<P, S>(c: Codec<P, S>, commits: seq<PointShare<P, S>>): (parts: seq<Bytes>)
  {
    seq(|commits|, i requires 0 <= i < |commits| => MarshalShare(c, commits[i]))
  }

  function Encoding<P, S>(c: Codec<P, S>, base: P, commits: seq<PointShare<P, S>>): Bytes {
    c.encodePoint(base) + PutUint32(|commits|) + Concat(MarshalShares(c, commits))
  }

  method MarshalCommitment<P, S>(c: Codec<P, S>, base: P, commits: seq<PointShare<P, S>>) returns (data: Bytes)
    ensures data == Encoding(c, base, commits)
  {
    var commitsBytes: seq<Bytes> := [];
    for i := 0 to |commits|
      invariant commitsBytes == MarshalShares(c, commits)[..i]
    {
      commitsBytes := commitsBytes + [MarshalShare(c, commits[i])];
    }
    assert commitsBytes == MarshalShares(c, commits);
    data := WriteCommitment(c.encodePoint(base), commitsBytes);
  }

  method WriteCommitment(base: Bytes, commits: seq<Bytes>) returns (buf: Bytes)
    ensures buf == base + PutUint32(|commits|) + Concat(commits)
  {
    buf := base;
    buf := buf + PutUint32(|commits|);
    for i := 0 to |commits|
      invariant buf == base + PutUint32(|commits|) + Concat(commits[..i])
    {
      assert commits[..i + 1][..i] == commits[..i];
      buf := buf + commits[i];
    }
    assert commits[..|commits|] == commits;
  }

  // ---- decoding

  function UnmarshalShare<P, S>(c: Codec<P, S>, data: Bytes): Option<PointShare<P, S>> {
    if |data| != c.ShareSize() then None
    else
      match c.decodeScalar(data[..c.scalarSize])
      case None => None
      case Some(id) =>
        match c.decodePoint(data[c.scalarSize..])
        case None => None
        case Some(point) => Some(PointShare(id, point))
  }

  // `num` shares one after another.
  function ParseShares<P, S>(c: Codec<P, S>, data: Bytes, num: nat): (r: Option<seq<PointShare<P, S>>>)
    ensures r.Some? ==> |r.value| == num
  {
    if num == 0 then (if data == [] then Some([]) else None)
    else if |data| < c.ShareSize() then None
    else
      match UnmarshalShare(c, data[..c.ShareSize()])
      case None => None
      case Some(share) => Prepend([share], ParseShares(c, data[c.ShareSize()..], num - 1))
  }

  lemma {:induction false} ParsedLength<P, S>(c: Codec<P, S>, data: Bytes, num: nat)
    requires ParseShares(c, data, num).Some?
    ensures |data| == num * c.ShareSize()
  {
    if num > 0 {
      ParsedLength(c, data[c.ShareSize()..], num - 1);
      Rows(num, c.ShareSize());
    }
  }

  function Prepend<T>(front: seq<T>, rest: Option<seq<T>>): Option<seq<T>> {
    if rest.Some? then Some(front + rest.value) else None
  }

  method UnmarshalPointShares<P, S>(c: Codec<P, S>, data: Bytes, num: nat) returns (r: Option<seq<PointShare<P, S>>>)
    ensures r == ParseShares(c, data, num)
  {
    var size := c.ShareSize();
    if |data| != num * size {
      if ParseShares(c, data, num).Some? {
        ParsedLength(c, data, num);
      }
      return None;
    }
    var shares: seq<PointShare<P, S>> := [];
    var dataIn := data;
    PrependNothing(ParseShares(c, data, num));
    for i := 0 to num
      invariant |dataIn| == (num - i) * size
      invariant ParseShares(c, data, num) == Prepend(shares, ParseShares(c, dataIn, num - i))
    {
      Rows(num - i, size);
      var share := UnmarshalShare(c, dataIn[..size]);
      if share.None? {
        return None;
      }
      PrependTwice(shares, share.value, ParseShares(c, dataIn[size..], num - i - 1));
      shares := shares + [share.value];
      dataIn := dataIn[size..];
    }
    assert shares + [] == shares;
    r := Some(shares);
  }

  lemma Rows(n: int, size: nat)
    requires n > 0
    ensures n * size == (n - 1) * size + size && n * size >= size
  {
  }

  lemma PrependNothing<T>(rest: Option<seq<T>>)
    ensures Prepend([], rest) == rest
  {
    if rest.Some? {
      assert [] + rest.value == rest.value;
    }
  }

  lemma PrependTwice<T>(front: seq<T>, x: T, rest: Option<seq<T>>)
    ensures Prepend(front, Prepend([x], rest)) == Prepend(front + [x], rest)
  {
    if rest.Some? {
      assert front + ([x] + rest.value) == front + [x] + rest.value;
    }
  }

  function UnmarshalBase<P, S>(c: Codec<P, S>, data: Bytes): Option<(P, Bytes)> {
    if |data| < c.elementSize then None
    else
      match c.decodePoint(data[..c.elementSize])
      case None => None
      case Some(base) => Some((base, data[c.elementSize..]))
  }

  function UnmarshalCommitLen(data: Bytes): Option<(nat, Bytes)> {
    if |data| < 4 then None else Some((Uint32(data[..4]), data[4..]))
  }

  function Decoding<P, S>(c: Codec<P, S>, data: Bytes): Option<(P, seq<PointShare<P, S>>)> {
    match UnmarshalBase(c, data)
    case None => None
    case Some((base, rest)) =>
      match UnmarshalCommitLen(rest)
      case None => None
      case Some((num, body)) =>
        match ParseShares(c, body, num)
        case None => None
        case Some(commits) => Some((base, commits))
  }

  method UnmarshalCommitment<P, S>(c: Codec<P, S>, data: Bytes) returns (r: Option<(P, seq<PointShare<P, S>>)>)
    ensures r == Decoding(c, data)
  {
    var base := UnmarshalBase(c, data);
    if base.None? {
      return None;
    }
    var len := UnmarshalCommitLen(base.value.1);
    if len.None? {
      return None;
    }
    var shares := UnmarshalPointShares(c, len.value.1, len.value.0);
    if shares.None? {
      return None;
    }
    r := Some((base.value.0, shares.value));
  }

  // ---- round trip

  lemma ShareRoundTrip<P(!new), S(!new)>(c: Codec<P, S>, s: PointShare<P, S>)
    requires Lawful(c)
    ensures |MarshalShare(c, s)| == c.ShareSize() && UnmarshalShare(c, MarshalShare(c, s)) == Some(s)
  {
    var data := MarshalShare(c, s);
    assert data[..c.scalarSize] == c.encodeScalar(s.id) && data[c.scalarSize..] == c.encodePoint(s.point);
  }

  lemma {:induction false} ConcatFront(first: Bytes, parts: seq<Bytes>)
    ensures Concat([first] + parts) == first + Concat(parts)
  {
    if parts == [] {
      assert ([first] + parts)[..0] == [];
    } else {
      var k := |parts| - 1;
      var all, front, last := [first] + parts, parts[..k], parts[k];
      ConcatFront(first, front);
      assert all[..|parts|] == [first] + front && all[|parts|] == last;
      assert Concat(all) == Concat([first] + front) + last;
      assert first + Concat(front) + last == first + (Concat(front) + last);
    }
  }

  // All shares, encoded.
  function Body<P, S>(c: Codec<P, S>, commits: seq<PointShare<P, S>>): Bytes {
    Concat(MarshalShares(c, commits))
  }

  lemma BodyFront<P, S>(c: Codec<P, S>, commits: seq<PointShare<P, S>>)
    requires commits != []
    ensures Body(c, commits) == MarshalShare(c, commits[0]) + Body(c, commits[1..])
  {
    ConcatFront(MarshalShare(c, commits[0]), MarshalShares(c, commits[1..]));
    assert MarshalShares(c, commits) == [MarshalShare(c, commits[0])] + MarshalShares(c, commits[1..]);
  }

  lemma BodyEmpty<P, S>(c: Codec<P, S>)
    ensures Body(c, []) == []
  {
    assert MarshalShares(c, []) == [];
  }

  lemma BodyCons<P, S>(c: Codec<P, S>, share: PointShare<P, S>, rest: seq<PointShare<P, S>>, head: Bytes, tail: Bytes)
    requires MarshalShare(c, share) == head && Body(c, rest) == tail
    ensures Body(c, [share] + rest) == head + tail
  {
    var all := [share] + rest;
    assert all[0] == share && all[1..] == rest;
    BodyFront(c, all);
  }

  lemma {:induction false} BodyRoundTrip<P(!new), S(!new)>(c: Codec<P, S>, commits: seq<PointShare<P, S>>)
    requires Lawful(c)
    ensures ParseShares(c, Body(c, commits), |commits|) == Some(commits)
  {
    if commits == [] {
      BodyEmpty(c);
    } else {
      var first, rest := MarshalShare(c, commits[0]), Body(c, commits[1..]);
      BodyFront(c, commits);
      ShareRoundTrip(c, commits[0]);
      BodyRoundTrip(c, commits[1..]);
      assert (first + rest)[..c.ShareSize()] == first && (first + rest)[c.ShareSize()..] == rest;
      assert [commits[0]] + commits[1..] == commits;
    }
  }

  // The three parts of an encoding, as the decoder takes them apart.
  lemma DecodeParts<P(!new), S(!new)>(c: Codec<P, S>, base: P, num: nat, body: Bytes)
    requires Lawful(c)
    ensures var r := ParseShares(c, body, num % Word);
            Decoding(c, c.encodePoint(base) + PutUint32(num) + body) ==
            if r.Some? then Some((base, r.value)) else None
  {
    var data := c.encodePoint(base) + PutUint32(num) + body;
    assert data[..c.elementSize] == c.encodePoint(base);
    var rest := data[c.elementSize..];
    assert rest[..4] == PutUint32(num) && rest[4..] == body;
  }

  /** Decoding an encoding gives back the base and the list exactly when the count fits in 32 bits, and is
      refused otherwise. */
  lemma RoundTrip<P(!new), S(!new)>(c: Codec<P, S>, base: P, commits: seq<PointShare<P, S>>)
    requires Lawful(c)
    ensures Decoding(c, Encoding(c, base, commits)) == if |commits| < Word then Some((base, commits)) else None
  {
    var n := |commits|;
    BodyRoundTrip(c, commits);
    CountParts(c, base, commits, n % Word);
    if n >= Word {
      Truncated(c, Body(c, commits), n, n % Word);
    }
  }

  lemma CountParts<P(!new), S(!new)>(c: Codec<P, S>, base: P, commits: seq<PointShare<P, S>>, m: nat)
    requires Lawful(c) && m == |commits| % Word
    ensures var r := ParseShares(c, Body(c, commits), m);
            Decoding(c, Encoding(c, base, commits)) == if r.Some? then Some((base, r.value)) else None
  {
    DecodeParts(c, base, |commits|, Body(c, commits));
  }

  // The same bytes cannot hold two different numbers of shares.
  lemma Truncated<P, S>(c: Codec<P, S>, body: Bytes, n: nat, m: nat)
    requires c.elementSize > 0 && n != m && ParseShares(c, body, n).Some?
    ensures ParseShares(c, body, m).None?
  {
    if ParseShares(c, body, m).Some? {
      ParsedLength(c, body, n);
      ParsedLength(c, body, m);
      Different(n, m, c.ShareSize());
    }
  }

  lemma Different(a: nat, b: nat, size: nat)
    requires a != b && size > 0
    ensures a * size != b * size
  {
    assert (a - b) * size != 0;
  }

  // A byte string is accepted only if its length matches the count it embeds.
  lemma AcceptedLength<P, S>(c: Codec<P, S>, data: Bytes)
    requires Decoding(c, data).Some?
    ensures var e := c.elementSize;
            && |data| >= e + 4
            && |Decoding(c, data).value.1| == Uint32(data[e..e + 4])
            && |data| == e + 4 + Uint32(data[e..e + 4]) * c.ShareSize()
  {
    var e := c.elementSize;
    assert data[e..][..4] == data[e..e + 4];
    ParsedLength(c, data[e..][4..], Uint32(data[e..][..4]));
  }

  lemma ShareCanonical<P(!new), S(!new)>(c: Codec<P, S>, data: Bytes)
    requires Canonical(c) && UnmarshalShare(c, data).Some?
    ensures MarshalShare(c, UnmarshalShare(c, data).value) == data
  {
    assert data == data[..c.scalarSize] + data[c.scalarSize..];
  }

  lemma ParsedCons<P, S>(c: Codec<P, S>, data: Bytes, num: nat)
    returns (head: Bytes, tail: Bytes, share: PointShare<P, S>, rest: seq<PointShare<P, S>>)
    requires num > 0 && ParseShares(c, data, num).Some?
    ensures data == head + tail && ParseShares(c, data, num) == Some([share] + rest)
    ensures UnmarshalShare(c, head) == Some(share) && ParseShares(c, tail, num - 1) == Some(rest)
  {
    var size := c.ShareSize();
    head, tail := data[..size], data[size..];
    share, rest := UnmarshalShare(c, head).value, ParseShares(c, tail, num - 1).value;
  }

  lemma {:induction false} BodyCanonical<P(!new), S(!new)>(c: Codec<P, S>, data: Bytes, num: nat)
    requires Canonical(c) && ParseShares(c, data, num).Some?
    ensures Body(c, ParseShares(c, data, num).value) == data
  {
    if num == 0 {
      BodyEmpty(c);
    } else {
      var head, tail, share, rest := ParsedCons(c, data, num);
      ShareCanonical(c, head);
      BodyCanonical(c, tail, num - 1);
      BodyCons(c, share, rest, head, tail);
    }
  }

  lemma Reassemble(data: Bytes, e: nat, a: Bytes, b: Bytes, d: Bytes)
    requires e + 4 <= |data| && a == data[..e] && b == data[e..][..4] && d == data[e..][4..]
    ensures data == a + b + d
  {
  }

  lemma AcceptedIsEncoding<P(!new), S(!new)>(c: Codec<P, S>, data: Bytes)
    requires Canonical(c) && Decoding(c, data).Some?
    ensures var (base, commits) := Decoding(c, data).value; |commits| < Word && data == Encoding(c, base, commits)
  {
    var e := c.elementSize;
    AcceptedLength(c, data);
    var rest := data[e..];
    var num, body := Uint32(rest[..4]), rest[4..];
    BodyCanonical(c, body, num);
    PutUint32Inverse(rest[..4]);
    Reassemble(data, e, data[..e], rest[..4], body);
  }

  /** With one encoding per point and scalar, the accepted byte strings are exactly the encodings. */
  lemma AcceptedExactly<P(!new), S(!new)>(c: Codec<P, S>, data: Bytes, base: P, commits: seq<PointShare<P, S>>)
    requires Lawful(c) && Canonical(c)
    ensures Decoding(c, data) == Some((base, commits)) <==> |commits| < Word && data == Encoding(c, base, commits)
  {
    RoundTrip(c, base, commits);
    if Decoding(c, data) == Some((base, commits)) {
      AcceptedIsEncoding(c, data);
    }
  }

  // ---- the layout, byte by byte

  ghost predicate AllOfSize(parts: seq<Bytes>, size: nat) {
    forall i :: 0 <= i < |parts| ==> |parts[i]| == size
  }

  lemma {:induction false} PartAt(parts: seq<Bytes>, size: nat, k: nat)
    requires AllOfSize(parts, size) && k < |parts|
    ensures 0 <= k * size <= k * size + size <= |Concat(parts)| == |parts| * size
    ensures Concat(parts)[k * size..k * size + size] == parts[k]
  {
    var n := |parts| - 1;
    ConcatLength(parts[..n], size);
    Rows(n + 1, size);
    if k < n {
      PartAt(parts[..n], size, k);
      assert Concat(parts)[..n * size] == Concat(parts[..n]);
    } else {
      assert k * size == n * size;
    }
  }

  lemma {:induction false} ConcatLength(parts: seq<Bytes>, size: nat)
    requires AllOfSize(parts, size)
    ensures |Concat(parts)| == |parts| * size
  {
    if parts != [] {
      var n := |parts| - 1;
      ConcatLength(parts[..n], size);
      Rows(n + 1, size);
    }
  }

  lemma CountBytes(x: nat)
    ensures PutUint32(x)[0] == x % 256 && PutUint32(x)[1] == x / 256 % 256
    ensures PutUint32(x)[2] == x / 256 / 256 % 256 && PutUint32(x)[3] == x / 256 / 256 / 256 % 256
  {
    var w := x % Word;
    var q := x / Word;
    assert x == w + 256 * (16777216 * q);
    assert x / 256 == w / 256 + 16777216 * q && x % 256 == w % 256;
    assert x / 256 / 256 == w / 256 / 256 + 65536 * q;
    assert x / 256 / 256 / 256 == w / 256 / 256 / 256 + 256 * q;
  }

  lemma Sliced(a: Bytes, b: Bytes, c: Bytes, i: nat, j: nat)
    requires i <= j <= |c|
    ensures (a + b + c)[..|a|] == a && (a + b + c)[|a|..|a| + |b|] == b
    ensures (a + b + c)[|a| + |b| + i..|a| + |b| + j] == c[i..j]
  {
  }

  lemma ShareLayout<P, S>(c: Codec<P, S>, s: PointShare<P, S>, data: Bytes, o: nat)
    requires |c.encodeScalar(s.id)| == c.scalarSize && |c.encodePoint(s.point)| == c.elementSize
    requires o + c.ShareSize() <= |data| && data[o..o + c.ShareSize()] == MarshalShare(c, s)
    ensures data[o..o + c.scalarSize] == c.encodeScalar(s.id)
    ensures data[o + c.scalarSize..o + c.ShareSize()] == c.encodePoint(s.point)
  {
    var m := data[o..o + c.ShareSize()];
    assert data[o..o + c.scalarSize] == m[..c.scalarSize] && data[o + c.scalarSize..o + c.ShareSize()] == m[c.scalarSize..];
  }

  /** Where everything lies: the base first, then the count with its lowest byte first, then the shares one
      after another, each an id and a point; and nothing else. */
  lemma Layout<P(!new), S(!new)>(c: Codec<P, S>, base: P, commits: seq<PointShare<P, S>>, k: nat)
    requires Lawful(c) && k < |commits|
    ensures var data, e, n, o := Encoding(c, base, commits), c.elementSize, |commits|, c.elementSize + 4 + k * c.ShareSize();
            && |data| == e + 4 + n * c.ShareSize() && 0 <= e + 4 <= o && o + c.ShareSize() <= |data|
            && data[..e] == c.encodePoint(base)
            && data[e..e + 4] == [n % 256, n / 256 % 256, n / 256 / 256 % 256, n / 256 / 256 / 256 % 256]
            && data[o..o + c.scalarSize] == c.encodeScalar(commits[k].id)
            && data[o + c.scalarSize..o + c.ShareSize()] == c.encodePoint(commits[k].point)
  {
    var parts, size := MarshalShares(c, commits), c.ShareSize();
    assert AllOfSize(parts, size);
    PartAt(parts, size, k);
    CountBytes(|commits|);
    var a, b, body := c.encodePoint(base), PutUint32(|commits|), Concat(parts);
    Sliced(a, b, body, k * size, k * size + size);
    ShareLayout(c, commits[k], a + b + body, |a| + |b| + k * size);
  }
}
