/**
 `frb_generated.rs`, the building blocks of the wire codec: integers, bool, strings, ids, times,
 options and vectors.

 An encoder takes the bytes that follow and puts the encoding in front of them; a reader answers
 the value with the unread bytes, or none where the source panics.
 */
module SseCodec {
  import opened Wrappers

  const TWO_31 := 0x8000_0000
  const TWO_32 := 0x1_0000_0000
  const TWO_63 := 0x8000_0000_0000_0000
  const TWO_64 := 0x1_0000_0000_0000_0000
  const VEC_MAX := TWO_31 - 1

  type u32 = n: int | 0 <= n < TWO_32
  type u64 = n: int | 0 <= n < TWO_64
  type i32 = n: int | -TWO_31 <= n < TWO_31
  type i64 = n: int | -TWO_63 <= n < TWO_63

  type Bytes = seq<byte>

  datatype Read<+T> = Read(value: T, rest: Bytes)

  /** The read gives this value and stops here if the value fits, and does not give it otherwise. */
  ghost predicate Exact<T>(r: Option<Read<T>>, value: T, rest: Bytes, fits: bool) {
    && (fits ==> r == Some(Read(value, rest)))
    && (r.Some? && r.value.value == value ==> fits)
  }

  // ---- integers -----------------------------------------------------------------------------

  function Pow256(k: nat): nat {
    if k == 0 then 1 else 256 * Pow256(k - 1)
  }

  function EncLe(n: nat, k: nat, tail: Bytes): Bytes {
    if k == 0 then tail else [n % 256] + EncLe(n / 256, k - 1, tail)
  }

  function DecLe(bytes: Bytes, k: nat): (r: Option<Read<nat>>)
    ensures r.Some? ==> r.value.value < Pow256(k) && |bytes| == k + |r.value.rest|
  {
    if k == 0 then Some(Read(0, bytes))
    else if bytes == [] then None
    else
      var high :- DecLe(bytes[1..], k - 1);
      Some(Read(bytes[0] + 256 * high.value, high.rest))
  }

  lemma {:induction false} LeAppend(n: nat, k: nat, s: Bytes, t: Bytes)
    ensures EncLe(n, k, s + t) == EncLe(n, k, s) + t
  {
    if k > 0 {
      LeAppend(n / 256, k - 1, s, t);
    }
  }

  lemma {:induction false} LeRound(n: nat, k: nat, s: Bytes)
    requires n < Pow256(k)
    ensures DecLe(EncLe(n, k, s), k) == Some(Read(n, s))
  {
    if k > 0 {
      var high := n / 256;
      assert n == n % 256 + 256 * high;
      LeRound(high, k - 1, s);
      var e := EncLe(n, k, s);
      assert e[0] == n % 256 && e[1..] == EncLe(high, k - 1, s);
    }
  }

  lemma LeCodec(n: nat, k: nat, s: Bytes, t: Bytes)
    requires n < Pow256(k)
    ensures EncLe(n, k, s + t) == EncLe(n, k, s) + t
    ensures DecLe(EncLe(n, k, s), k) == Some(Read(n, s))
  {
    LeAppend(n, k, s, t);
    LeRound(n, k, s);
  }

  lemma Pow256Values()
    ensures Pow256(4) == TWO_32 && Pow256(8) == TWO_64
  {
    assert Pow256(2) == 0x1_0000;
    assert Pow256(3) == 0x100_0000;
    assert Pow256(5) == 256 * Pow256(4);
    assert Pow256(6) == 256 * Pow256(5);
    assert Pow256(7) == 256 * Pow256(6);
  }

  function EncU8(n: byte, tail: Bytes): Bytes {
    [n] + tail
  }

  function DecU8(bytes: Bytes): Option<Read<byte>> {
    if bytes == [] then None else Some(Read(bytes[0], bytes[1..]))
  }

  function EncU32(n: u32, tail: Bytes): Bytes {
    EncLe(n, 4, tail)
  }

  function DecU32(bytes: Bytes): Option<Read<u32>> {
    Pow256Values();
    var n :- DecLe(bytes, 4);
    Some(Read(n.value, n.rest))
  }

  function EncU64(n: u64, tail: Bytes): Bytes {
    EncLe(n, 8, tail)
  }

  function DecU64(bytes: Bytes): Option<Read<u64>> {
    Pow256Values();
    var n :- DecLe(bytes, 8);
    Some(Read(n.value, n.rest))
  }

  /** The lowest byte comes first. */
  lemma U32Bytes(n: u32, tail: Bytes)
    ensures EncU32(n, tail) == [n % 0x100, n / 0x100 % 0x100, n / 0x1_0000 % 0x100, n / 0x100_0000] + tail
  {
    var n1 := n / 0x100;
    var n2 := n1 / 0x100;
    var n3 := n2 / 0x100;
    assert n2 == n / 0x1_0000 && n3 == n / 0x100_0000;
    calc {
      EncLe(n, 4, tail);
      [n % 0x100] + EncLe(n1, 3, tail);
      [n % 0x100] + ([n1 % 0x100] + EncLe(n2, 2, tail));
      [n % 0x100] + ([n1 % 0x100] + ([n2 % 0x100] + EncLe(n3, 1, tail)));
      { assert EncLe(n3, 1, tail) == [n3 % 0x100] + EncLe(n3 / 0x100, 0, tail); }
      [n % 0x100] + ([n1 % 0x100] + ([n2 % 0x100] + ([n3 % 0x100] + tail)));
      [n % 0x100, n1 % 0x100, n2 % 0x100, n3 % 0x100] + tail;
    }
  }

  /** Two's complement. */
  function EncI32(n: i32, tail: Bytes): Bytes {
    EncLe(if n < 0 then n + TWO_32 else n, 4, tail)
  }

  function DecI32(bytes: Bytes): Option<Read<i32>> {
    Pow256Values();
    var n :- DecLe(bytes, 4);
    Some(Read(if n.value >= TWO_31 then n.value - TWO_32 else n.value, n.rest))
  }

  function EncI64(n: i64, tail: Bytes): Bytes {
    EncLe(if n < 0 then n + TWO_64 else n, 8, tail)
  }

  function DecI64(bytes: Bytes): Option<Read<i64>> {
    Pow256Values();
    var n :- DecLe(bytes, 8);
    Some(Read(if n.value >= TWO_63 then n.value - TWO_64 else n.value, n.rest))
  }

  function EncBool(b: bool, tail: Bytes): Bytes {
    EncU8(if b then 1 else 0, tail)
  }

  function DecBool(bytes: Bytes): Option<Read<bool>> {
    var n :- DecU8(bytes);
    Some(Read(n.value != 0, n.rest))
  }

  lemma U8Codec(n: byte, s: Bytes, t: Bytes) returns (e: Bytes)
    ensures e == EncU8(n, s) && EncU8(n, s + t) == e + t && DecU8(e) == Some(Read(n, s))
  {
    e := EncU8(n, s);
    assert e[1..] == s;
  }

  lemma BoolCodec(b: bool, s: Bytes, t: Bytes) returns (e: Bytes)
    ensures e == EncBool(b, s) && EncBool(b, s + t) == e + t && DecBool(e) == Some(Read(b, s))
  {
    e := U8Codec(if b then 1 else 0, s, t);
  }

  lemma U32Codec(n: u32, s: Bytes, t: Bytes) returns (e: Bytes)
    ensures e == EncU32(n, s) && EncU32(n, s + t) == e + t && DecU32(e) == Some(Read(n, s))
  {
    Pow256Values();
    LeCodec(n, 4, s, t);
    e := EncU32(n, s);
  }

  lemma U64Codec(n: u64, s: Bytes, t: Bytes) returns (e: Bytes)
    ensures e == EncU64(n, s) && EncU64(n, s + t) == e + t && DecU64(e) == Some(Read(n, s))
  {
    Pow256Values();
    LeCodec(n, 8, s, t);
    e := EncU64(n, s);
  }

  lemma I32Codec(n: i32, s: Bytes, t: Bytes) returns (e: Bytes)
    ensures e == EncI32(n, s) && EncI32(n, s + t) == e + t && DecI32(e) == Some(Read(n, s))
  {
    Pow256Values();
    LeCodec(if n < 0 then n + TWO_32 else n, 4, s, t);
    e := EncI32(n, s);
  }

  lemma I64Codec(n: i64, s: Bytes, t: Bytes) returns (e: Bytes)
    ensures e == EncI64(n, s) && EncI64(n, s + t) == e + t && DecI64(e) == Some(Read(n, s))
  {
    Pow256Values();
    LeCodec(if n < 0 then n + TWO_64 else n, 8, s, t);
    e := EncI64(n, s);
  }

  // ---- a codec as a whole -------------------------------------------------------------------

  function Same<T>(v: T): T {
    v
  }

  ghost predicate Always<T>(v: T) {
    true
  }

  /** An encoder only puts bytes in front. */
  ghost predicate Appends<T(!new)>(enc: (T, Bytes) -> Bytes) {
    forall v, s, t :: enc(v, s + t) == enc(v, s) + t
  }

  /** This value, encoded in front of `s`, is read back up to `norm`, exactly when it fits. */
  ghost predicate LawAt<T>(enc: (T, Bytes) -> Bytes, dec: Bytes -> Option<Read<T>>, norm: T -> T, fits: T -> bool,
                           v: T, s: Bytes, t: Bytes) {
    enc(v, s + t) == enc(v, s) + t && Exact(dec(enc(v, s)), norm(v), s, fits(v))
  }

  ghost predicate Lawful<T(!new)>(enc: (T, Bytes) -> Bytes, dec: Bytes -> Option<Read<T>>, norm: T -> T, fits: T -> bool) {
    forall v, s, t :: LawAt(enc, dec, norm, fits, v, s, t)
  }

  lemma LawfulAppends<T(!new)>(enc: (T, Bytes) -> Bytes, dec: Bytes -> Option<Read<T>>, norm: T -> T, fits: T -> bool)
    requires Lawful(enc, dec, norm, fits)
    ensures Appends(enc)
  {
    forall v, s, t ensures enc(v, s + t) == enc(v, s) + t {
      assert LawAt(enc, dec, norm, fits, v, s, t);
    }
  }

  // ---- options ------------------------------------------------------------------------------

  function EncOption<T>(enc: (T, Bytes) -> Bytes, v: Option<T>, tail: Bytes): Bytes {
    EncBool(v.Some?, if v.Some? then enc(v.value, tail) else tail)
  }

  function DecOption<T>(dec: Bytes -> Option<Read<T>>, bytes: Bytes): Option<Read<Option<T>>> {
    var some :- DecBool(bytes);
    if some.value then
      var v :- dec(some.rest);
      Some(Read(Some(v.value), v.rest))
    else Some(Read(None, some.rest))
  }

  function MapOption<T>(f: T -> T, v: Option<T>): Option<T> {
    if v.Some? then Some(f(v.value)) else None
  }

  ghost predicate OptionFits<T>(fits: T -> bool, v: Option<T>) {
    v.Some? ==> fits(v.value)
  }

  lemma OptionCodec<T(!new)>(enc: (T, Bytes) -> Bytes, dec: Bytes -> Option<Read<T>>, norm: T -> T, fits: T -> bool,
                             v: Option<T>, s: Bytes, t: Bytes) returns (e: Bytes)
    requires Lawful(enc, dec, norm, fits)
    ensures e == EncOption(enc, v, s) && EncOption(enc, v, s + t) == e + t
    ensures Exact(DecOption(dec, e), MapOption(norm, v), s, OptionFits(fits, v))
    ensures norm == Same ==> MapOption(norm, v) == v
  {
    assert v.Some? ==> LawAt(enc, dec, norm, fits, v.value, s, t);
    e := BoolCodec(v.Some?, if v.Some? then enc(v.value, s) else s, t);
  }

  // ---- vectors ------------------------------------------------------------------------------

  /** A length cast to 32 bits. */
  function AsI32(len: nat): (n: i32)
    ensures n == len <==> len <= VEC_MAX
    ensures n <= len
  {
    var low := len % TWO_32;
    if low >= TWO_31 then low - TWO_32 else low
  }

  function EncItems<T>(enc: (T, Bytes) -> Bytes, vs: seq<T>, tail: Bytes): Bytes
    decreases |vs|
  {
    if vs == [] then tail else EncItems(enc, vs[..|vs| - 1], enc(vs[|vs| - 1], tail))
  }

  function EncVec<T>(enc: (T, Bytes) -> Bytes, vs: seq<T>, tail: Bytes): Bytes {
    EncI32(AsI32(|vs|), EncItems(enc, vs, tail))
  }

  function DecItems<T>(dec: Bytes -> Option<Read<T>>, bytes: Bytes, n: nat): (r: Option<Read<seq<T>>>)
    ensures r.Some? ==> |r.value.value| == n
    decreases n
  {
    if n == 0 then Some(Read([], bytes))
    else
      var earlier :- DecItems(dec, bytes, n - 1);
      var last :- dec(earlier.rest);
      Some(Read(earlier.value + [last.value], last.rest))
  }

  /** A negative length reads as no items. */
  function DecVec<T>(dec: Bytes -> Option<Read<T>>, bytes: Bytes): Option<Read<seq<T>>> {
    var len :- DecI32(bytes);
    DecItems(dec, len.rest, if len.value < 0 then 0 else len.value)
  }

  function Mapped<T>(f: T -> T, vs: seq<T>): seq<T> {
    seq(|vs|, i requires 0 <= i < |vs| => f(vs[i]))
  }

  ghost predicate AllFit<T>(fits: T -> bool, vs: seq<T>) {
    forall i | 0 <= i < |vs| :: fits(vs[i])
  }

  ghost predicate VecFits<T>(fits: T -> bool, vs: seq<T>) {
    |vs| <= VEC_MAX && AllFit(fits, vs)
  }

  lemma {:induction false} ItemsAppend<T(!new)>(enc: (T, Bytes) -> Bytes, vs: seq<T>, s: Bytes, t: Bytes)
    requires Appends(enc)
    ensures EncItems(enc, vs, s + t) == EncItems(enc, vs, s) + t
    decreases |vs|
  {
    if vs != [] {
      ItemsAppend(enc, vs[..|vs| - 1], enc(vs[|vs| - 1], s), t);
    }
  }

  lemma {:induction false} ItemsCodec<T(!new)>(enc: (T, Bytes) -> Bytes, dec: Bytes -> Option<Read<T>>, norm: T -> T,
                                               fits: T -> bool, vs: seq<T>, s: Bytes)
    requires Lawful(enc, dec, norm, fits)
    ensures Exact(DecItems(dec, EncItems(enc, vs, s), |vs|), Mapped(norm, vs), s, AllFit(fits, vs))
    decreases |vs|
  {
    if vs == [] {
      assert Mapped(norm, vs) == [];
    } else {
      var k := |vs| - 1;
      ItemsCodec(enc, dec, norm, fits, vs[..k], enc(vs[k], s));
      assert LawAt(enc, dec, norm, fits, vs[k], s, []);
      SnocExact(dec, norm, fits, vs, EncItems(enc, vs, s), enc(vs[k], s), s);
    }
  }

  lemma {:induction false} SnocExact<T>(dec: Bytes -> Option<Read<T>>, norm: T -> T, fits: T -> bool,
                                        vs: seq<T>, bytes: Bytes, mid: Bytes, rest: Bytes)
    requires vs != []
    requires var k := |vs| - 1;
             Exact(DecItems(dec, bytes, k), Mapped(norm, vs[..k]), mid, AllFit(fits, vs[..k]))
             && Exact(dec(mid), norm(vs[k]), rest, fits(vs[k]))
    ensures Exact(DecItems(dec, bytes, |vs|), Mapped(norm, vs), rest, AllFit(fits, vs))
  {
    var k := |vs| - 1;
    assert Mapped(norm, vs)[..k] == Mapped(norm, vs[..k]);
    assert AllFit(fits, vs) <==> AllFit(fits, vs[..k]) && fits(vs[k]);
    var r, first := DecItems(dec, bytes, |vs|), DecItems(dec, bytes, k);
    if r.Some? {
      assert r.value.value[..k] == first.value.value;
    }
    assert Mapped(norm, vs) == Mapped(norm, vs[..k]) + [norm(vs[k])];
  }

  /** A vector round-trips exactly when its length fits 31 bits and its elements round-trip. */
  lemma {:induction false} VecCodec<T(!new)>(enc: (T, Bytes) -> Bytes, dec: Bytes -> Option<Read<T>>, norm: T -> T,
                                             fits: T -> bool, vs: seq<T>, s: Bytes, t: Bytes) returns (e: Bytes)
    requires Lawful(enc, dec, norm, fits)
    ensures e == EncVec(enc, vs, s) && EncVec(enc, vs, s + t) == e + t
    ensures Exact(DecVec(dec, e), Mapped(norm, vs), s, VecFits(fits, vs))
    ensures norm == Same ==> Mapped(norm, vs) == vs
  {
    LawfulAppends(enc, dec, norm, fits);
    ItemsAppend(enc, vs, s, t);
    ItemsCodec(enc, dec, norm, fits, vs, s);
    e := I32Codec(AsI32(|vs|), EncItems(enc, vs, s), t);
  }

  /**
   A vector that is too long, up to 2^32 - 1 items, comes back empty: its length has turned negative.
   Its items are left unread, and stand where the next value is expected.
   */
  lemma LongVecComesBackEmpty<T(!new)>(enc: (T, Bytes) -> Bytes, dec: Bytes -> Option<Read<T>>, vs: seq<T>, s: Bytes)
    requires TWO_31 <= |vs| < TWO_32
    ensures DecVec(dec, EncVec(enc, vs, s)) == Some(Read([], EncItems(enc, vs, s)))
  {
    var e := I32Codec(AsI32(|vs|), EncItems(enc, vs, s), []);
  }

  // ---- strings and ids ----------------------------------------------------------------------

  predicate Tail(b: byte) {
    0x80 <= b <= 0xBF
  }

  /** The byte length of the character in front, 0 if it is not well formed (section 4 of RFC 3629). */
  function CharLen(s: Bytes): (n: nat)
    ensures n <= |s|
  {
    if |s| >= 1 && s[0] <= 0x7F then 1
    else if |s| >= 2 && 0xC2 <= s[0] <= 0xDF && Tail(s[1]) then 2
    else if |s| >= 3 && Tail(s[2])
            && ((s[0] == 0xE0 && 0xA0 <= s[1] <= 0xBF) || (0xE1 <= s[0] <= 0xEC && Tail(s[1]))
                || (s[0] == 0xED && 0x80 <= s[1] <= 0x9F) || (0xEE <= s[0] <= 0xEF && Tail(s[1]))) then 3
    else if |s| >= 4 && Tail(s[2]) && Tail(s[3])
            && ((s[0] == 0xF0 && 0x90 <= s[1] <= 0xBF) || (0xF1 <= s[0] <= 0xF3 && Tail(s[1]))
                || (s[0] == 0xF4 && 0x80 <= s[1] <= 0x8F)) then 4
    else 0
  }

  predicate Utf8(s: Bytes) {
    s == [] || (CharLen(s) > 0 && Utf8(s[CharLen(s)..]))
  }

  /** A Unicode scalar value: any code point but the surrogates. */
  predicate Scalar(c: int) {
    0 <= c <= 0xD7FF || 0xE000 <= c <= 0x10FFFF
  }

  /** The bytes of a scalar value, six bits to a continuation byte (section 3 of RFC 3629). */
  function EncScalar(c: int): Bytes
    requires Scalar(c)
  {
    if c <= 0x7F then [c]
    else if c <= 0x7FF then [0xC0 + c / 0x40, 0x80 + c % 0x40]
    else if c <= 0xFFFF then [0xE0 + c / 0x1000, 0x80 + c / 0x40 % 0x40, 0x80 + c % 0x40]
    else [0xF0 + c / 0x4_0000, 0x80 + c / 0x1000 % 0x40, 0x80 + c / 0x40 % 0x40, 0x80 + c % 0x40]
  }

  ghost predicate Scalars(cs: seq<int>) {
    forall i | 0 <= i < |cs| :: Scalar(cs[i])
  }

  function EncScalars(cs: seq<int>): Bytes
    requires Scalars(cs)
  {
    if cs == [] then [] else EncScalar(cs[0]) + EncScalars(cs[1..])
  }

  function Join(high: int, low: int): int {
    high * 0x40 + low
  }

  /** The scalar value that the front of well-formed bytes encodes. */
  function FrontScalar(s: Bytes): int {
    match CharLen(s)
    case 1 => s[0]
    case 2 => Join((s[0] as int) - 0xC0, (s[1] as int) - 0x80)
    case 3 => Join(Join((s[0] as int) - 0xE0, (s[1] as int) - 0x80), (s[2] as int) - 0x80)
    case 4 => Join(Join(Join((s[0] as int) - 0xF0, (s[1] as int) - 0x80), (s[2] as int) - 0x80), (s[3] as int) - 0x80)
    case _ => 0
  }

  lemma JoinSplits(high: int, low: int)
    requires high >= 0 && 0 <= low < 0x40
    ensures Join(high, low) / 0x40 == high && Join(high, low) % 0x40 == low
  {
  }

  lemma EncTwo(a: int, b: int)
    requires 2 <= a < 0x20 && 0 <= b < 0x40
    ensures Scalar(Join(a, b)) && EncScalar(Join(a, b)) == [0xC0 + a, 0x80 + b]
  {
    JoinSplits(a, b);
  }

  lemma EncThree(a: int, b: int, c: int)
    requires 0 <= a < 0x10 && 0 <= b < 0x40 && 0 <= c < 0x40 && (a == 0 ==> b >= 0x20) && (a == 0xD ==> b < 0x20)
    ensures Scalar(Join(Join(a, b), c)) && EncScalar(Join(Join(a, b), c)) == [0xE0 + a, 0x80 + b, 0x80 + c]
  {
    var high := Join(a, b);
    JoinSplits(a, b);
    JoinSplits(high, c);
    assert Join(high, c) / 0x1000 == high / 0x40;
  }

  lemma EncFour(a: int, b: int, c: int, d: int)
    requires 0 <= a <= 4 && 0 <= b < 0x40 && 0 <= c < 0x40 && 0 <= d < 0x40
    requires (a == 0 ==> b >= 0x10) && (a == 4 ==> b < 0x10)
    ensures var n := Join(Join(Join(a, b), c), d);
            Scalar(n) && EncScalar(n) == [0xF0 + a, 0x80 + b, 0x80 + c, 0x80 + d]
  {
    var top := Join(a, b);
    var high := Join(top, c);
    JoinSplits(a, b);
    JoinSplits(top, c);
    JoinSplits(high, d);
    assert Join(high, d) / 0x1000 == high / 0x40 && Join(high, d) / 0x4_0000 == top / 0x40;
  }

  lemma FrontIsScalar(s: Bytes)
    requires CharLen(s) > 0
    ensures Scalar(FrontScalar(s)) && EncScalar(FrontScalar(s)) == s[..CharLen(s)]
  {
    hide EncScalar, Join, Scalar;
    match CharLen(s)
    case 1 => OneByte(s[0]);
    case 2 => EncTwo((s[0] as int) - 0xC0, (s[1] as int) - 0x80);
    case 3 => EncThree((s[0] as int) - 0xE0, (s[1] as int) - 0x80, (s[2] as int) - 0x80);
    case 4 => EncFour((s[0] as int) - 0xF0, (s[1] as int) - 0x80, (s[2] as int) - 0x80, (s[3] as int) - 0x80);
  }

  lemma OneByte(a: int)
    requires 0 <= a <= 0x7F
    ensures Scalar(a) && EncScalar(a) == [a]
  {
  }

  lemma ScalarIsChar(c: int, rest: Bytes)
    requires Scalar(c)
    ensures CharLen(EncScalar(c) + rest) == |EncScalar(c)| > 0
  {
    if 0x7FF < c <= 0xFFFF {
      ThreeByteChar(c, rest);
    } else if 0xFFFF < c {
      FourByteChar(c, rest);
    }
  }

  lemma ThreeByteChar(c: int, rest: Bytes)
    requires 0x7FF < c <= 0xFFFF && Scalar(c)
    ensures CharLen(EncScalar(c) + rest) == |EncScalar(c)| == 3
  {
    var s, high := EncScalar(c) + rest, c / 0x1000;
    assert s[0] == 0xE0 + high && s[1] == 0x80 + (c / 0x40) % 0x40 && s[2] == 0x80 + c % 0x40;
    assert (c / 0x40) / 0x40 == high;
  }

  lemma FourByteChar(c: int, rest: Bytes)
    requires 0xFFFF < c && Scalar(c)
    ensures CharLen(EncScalar(c) + rest) == |EncScalar(c)| == 4
  {
    var s, high := EncScalar(c) + rest, c / 0x40000;
    assert s[0] == 0xF0 + high && s[1] == 0x80 + (c / 0x1000) % 0x40;
    assert (c / 0x1000) / 0x40 == high;
  }

  /** The bytes of a string are exactly the encodings of sequences of scalar values. */
  lemma {:induction false} Utf8IsScalars(s: Bytes)
    ensures Utf8(s) <==> exists cs :: Scalars(cs) && EncScalars(cs) == s
  {
    if Utf8(s) {
      var cs := DecScalars(s);
      assert Scalars(cs) && EncScalars(cs) == s;
    }
    if cs :| Scalars(cs) && EncScalars(cs) == s {
      ScalarsAreUtf8(cs);
    }
  }

  lemma {:induction false} DecScalars(s: Bytes) returns (cs: seq<int>)
    requires Utf8(s)
    ensures Scalars(cs) && EncScalars(cs) == s
  {
    hide EncScalar, FrontScalar, Scalar;
    cs := [];
    if s != [] {
      var n := CharLen(s);
      FrontIsScalar(s);
      var rest := DecScalars(s[n..]);
      cs := [FrontScalar(s)] + rest;
      assert cs[1..] == rest;
    }
  }

  lemma {:induction false} ScalarsAreUtf8(cs: seq<int>)
    requires Scalars(cs)
    ensures Utf8(EncScalars(cs))
  {
    hide EncScalar, CharLen, Scalar;
    if cs != [] {
      var front, rest := EncScalar(cs[0]), EncScalars(cs[1..]);
      ScalarIsChar(cs[0], rest);
      ScalarsAreUtf8(cs[1..]);
      assert (front + rest)[|front|..] == rest;
    }
  }

  type Text = s: Bytes | Utf8(s)

  type Uuid = s: Bytes | |s| == 16 witness seq(16, _ => 0)

  function EncText(s: Text, tail: Bytes): Bytes {
    EncVec(EncU8, s, tail)
  }

  function DecText(bytes: Bytes): Option<Read<Text>> {
    var s :- DecVec(DecU8, bytes);
    if Utf8(s.value) then Some(Read(s.value, s.rest)) else None
  }

  predicate TextFits(s: Text) {
    |s| <= VEC_MAX
  }

  function EncUuid(u: Uuid, tail: Bytes): Bytes {
    EncVec(EncU8, u, tail)
  }

  function DecUuid(bytes: Bytes): Option<Read<Uuid>> {
    var s :- DecVec(DecU8, bytes);
    if |s.value| == 16 then Some(Read(s.value, s.rest)) else None
  }

  /** A byte vector round-trips exactly when it has at most 2^31 - 1 elements. */
  lemma BytesCodec(bs: Bytes, s: Bytes, t: Bytes) returns (e: Bytes)
    ensures e == EncVec(EncU8, bs, s) && EncVec(EncU8, bs, s + t) == e + t
    ensures Exact(DecVec(DecU8, e), bs, s, |bs| <= VEC_MAX)
  {
    forall n: byte, s: Bytes, t: Bytes
      ensures LawAt(EncU8, DecU8, Same, Always, n, s, t)
    {
      var _ := U8Codec(n, s, t);
    }
    e := VecCodec(EncU8, DecU8, Same, Always, bs, s, t);
  }

  lemma TextCodec(v: Text, s: Bytes, t: Bytes) returns (e: Bytes)
    ensures e == EncText(v, s) && EncText(v, s + t) == e + t && Exact(DecText(e), v, s, TextFits(v))
  {
    e := BytesCodec(v, s, t);
  }

  lemma UuidCodec(v: Uuid, s: Bytes, t: Bytes) returns (e: Bytes)
    ensures e == EncUuid(v, s) && EncUuid(v, s + t) == e + t && DecUuid(e) == Some(Read(v, s))
  {
    e := BytesCodec(v, s, t);
  }

  // ---- times --------------------------------------------------------------------------------

  const MIN_SECS: int := -8334601228800
  const MAX_SECS: int := 8210266876799

  /** An instant: nanoseconds of a second, or up to twice as many inside a leap second. */
  datatype Instant = Instant(secs: int, nanos: nat)

  predicate ValidInstant(t: Instant) {
    MIN_SECS <= t.secs <= MAX_SECS && t.nanos < (if t.secs % 60 == 59 then 2_000_000_000 else 1_000_000_000)
  }

  type Time = t: Instant | ValidInstant(t) witness Instant(0, 0)

  function Micros(t: Time): i64 {
    t.secs * 1_000_000 + t.nanos / 1_000
  }

  function FromMicros(m: i64): Option<Time> {
    var secs := m / 1_000_000;
    if MIN_SECS <= secs <= MAX_SECS then Some(Instant(secs, m % 1_000_000 * 1_000)) else None
  }

  /** The instant to the microsecond; a leap second folds onto the second after it. */
  function Truncated(t: Time): Instant {
    if t.nanos < 1_000_000_000 then Instant(t.secs, t.nanos / 1_000 * 1_000)
    else Instant(t.secs + 1, (t.nanos - 1_000_000_000) / 1_000 * 1_000)
  }

  /** All but a leap second at the end of representable time. */
  predicate TimeFits(t: Time) {
    t.nanos < 1_000_000_000 || t.secs < MAX_SECS
  }

  /** What the receiver should see; only meaningful for a time that fits. */
  function NormTime(t: Time): Time {
    if TimeFits(t) then Truncated(t) else t
  }

  function EncTime(t: Time, tail: Bytes): Bytes {
    EncI64(Micros(t), tail)
  }

  function DecTime(bytes: Bytes): Option<Read<Time>> {
    var m :- DecI64(bytes);
    var t :- FromMicros(m.value);
    Some(Read(t, m.rest))
  }

  lemma MicrosRound(t: Time)
    ensures FromMicros(Micros(t)) == if TimeFits(t) then Some(Truncated(t)) else None
  {
  }

  lemma TimeCodec(v: Time, s: Bytes, t: Bytes) returns (e: Bytes)
    ensures e == EncTime(v, s) && EncTime(v, s + t) == e + t && Exact(DecTime(e), NormTime(v), s, TimeFits(v))
  {
    e := I64Codec(Micros(v), s, t);
    MicrosRound(v);
  }

  /** Truncating loses less than a microsecond, and nothing the second time. */
  lemma TruncatedOnce(t: Time)
    requires TimeFits(t)
    ensures NormTime(NormTime(t)) == NormTime(t)
    ensures var lost := (t.secs - NormTime(t).secs) * 1_000_000_000 + t.nanos - NormTime(t).nanos;
            0 <= lost < 1_000
  {
  }
}
