/** PBKDF2 with its reused buffers, refined to section 5.2 of RFC 8018. The pseudorandom
    function is abstract: any function with results of one fixed length. */
module Pbkdf2 {
  import opened Arithmetic

  type byte = bv8

  type Prf = seq<byte> -> seq<byte>

  ghost predicate FixedLength(prf: Prf, hashLen: nat) {
    hashLen > 0 && forall s: seq<byte> :: |prf(s)| == hashLen
  }

  // ---------- section 5.2 of RFC 8018

  function Xor(a: seq<byte>, b: seq<byte>): (r: seq<byte>)
    requires |a| == |b|
    ensures |r| == |a| && forall i :: 0 <= i < |a| ==> r[i] == a[i] ^ b[i]
  {
    seq(|a|, i requires 0 <= i < |a| => a[i] ^ b[i])
  }

  function Byte(n: nat): byte {
    (n % 256) as bv8
  }

  /** INT(i): four octets, most significant first. */
  function Int(i: nat): seq<byte> {
    [Byte(i / 0x100_0000), Byte(i / 0x1_0000), Byte(i / 0x100), Byte(i)]
  }

  /** Four octets that, the most significant first, make up i modulo 2^32. */
  lemma IntIs(i: nat) returns (a: nat, b: nat, c: nat, d: nat)
    ensures a < 256 && b < 256 && c < 256 && d < 256 && Int(i) == [a as byte, b as byte, c as byte, d as byte]
    ensures ((a * 256 + b) * 256 + c) * 256 + d == i % 0x1_0000_0000
  {
    a, b, c, d := i / 0x100_0000 % 256, i / 0x1_0000 % 256, i / 0x100 % 256, i % 256;
    Octets(i);
  }

  lemma Octets(i: nat)
    ensures var a, b, c, d := i / 0x100_0000 % 256, i / 0x1_0000 % 256, i / 0x100 % 256, i % 256;
      ((a * 256 + b) * 256 + c) * 256 + d == i % 0x1_0000_0000
  {
    var p, d := i / 256, i % 256;
    var q, c := p / 256, p % 256;
    var r, b := q / 256, q % 256;
    var s, a := r / 256, r % 256;
    Quotient(i, 0x1_0000, q, 256 * c + d);
    Quotient(i, 0x100_0000, r, (b * 256 + c) * 256 + d);
    Quotient(i, 0x1_0000_0000, s, ((a * 256 + b) * 256 + c) * 256 + d);
  }

  lemma Quotient(i: nat, d: nat, q: nat, r: nat)
    requires r < d && i == d * q + r
    ensures i / d == q && i % d == r
  {
    var p := i / d;
    assert d * (q - p) == i % d - r;
    if q - p >= 1 { MulMono(1, q - p, d); assert false; }
    if p - q >= 1 { MulMono(1, p - q, d); assert false; }
  }

  /** U_c of block i. */
  ghost function U(prf: Prf, salt: seq<byte>, i: nat, c: nat): seq<byte>
    requires c >= 1
  {
    if c == 1 then prf(salt + Int(i)) else prf(U(prf, salt, i, c - 1))
  }

  /** F(P, S, c, i) = U_1 ^ U_2 ^ ... ^ U_c. */
  ghost function F(prf: Prf, hashLen: nat, salt: seq<byte>, c: nat, i: nat): (t: seq<byte>)
    requires c >= 1 && FixedLength(prf, hashLen)
    ensures |t| == hashLen
  {
    if c == 1 then U(prf, salt, i, 1) else Xor(F(prf, hashLen, salt, c - 1, i), U(prf, salt, i, c))
  }

  /** T_1 || T_2 || ... || T_l. */
  ghost function Blocks(prf: Prf, hashLen: nat, salt: seq<byte>, c: nat, l: nat): (ts: seq<byte>)
    requires c >= 1 && FixedLength(prf, hashLen)
    ensures |ts| == l * hashLen
  {
    if l == 0 then [] else Blocks(prf, hashLen, salt, c, l - 1) + F(prf, hashLen, salt, c, l)
  }

  ghost function DerivedKey(prf: Prf, hashLen: nat, salt: seq<byte>, c: nat, keyLen: nat): (dk: seq<byte>)
    requires c >= 1 && FixedLength(prf, hashLen)
    ensures |dk| == keyLen
  {
    CeilDivCovers(keyLen, hashLen);
    Blocks(prf, hashLen, salt, c, CeilDiv(keyLen, hashLen))[..keyLen]
  }

  // ---------- the key octet by octet

  /** x and its further hashes, c in all, combined at place k. */
  ghost function Combined(prf: Prf, hashLen: nat, x: seq<byte>, c: nat, k: nat): byte
    requires c >= 1 && |x| == hashLen && k < hashLen && FixedLength(prf, hashLen)
    decreases c
  {
    if c == 1 then x[k] else x[k] ^ Combined(prf, hashLen, prf(x), c - 1, k)
  }

  /** The n-th hash after x. */
  ghost function Again(prf: Prf, x: seq<byte>, n: nat): seq<byte>
    decreases n
  {
    if n == 0 then x else Again(prf, prf(x), n - 1)
  }

  lemma {:induction false} AgainLast(prf: Prf, x: seq<byte>, n: nat)
    ensures Again(prf, x, n + 1) == prf(Again(prf, x, n))
    decreases n
  {
    if n > 0 {
      AgainLast(prf, prf(x), n - 1);
    }
  }

  lemma {:induction false} UIsAgain(prf: Prf, salt: seq<byte>, i: nat, c: nat)
    requires c >= 1
    ensures U(prf, salt, i, c) == Again(prf, prf(salt + Int(i)), c - 1)
  {
    if c > 1 {
      UIsAgain(prf, salt, i, c - 1);
      AgainLast(prf, prf(salt + Int(i)), c - 2);
    }
  }

  lemma {:induction false} CombinedLast(prf: Prf, hashLen: nat, x: seq<byte>, c: nat, k: nat)
    requires c >= 1 && |x| == hashLen && k < hashLen && FixedLength(prf, hashLen)
    ensures |Again(prf, x, c)| == hashLen
    ensures Combined(prf, hashLen, x, c + 1, k) == Combined(prf, hashLen, x, c, k) ^ Again(prf, x, c)[k]
    decreases c
  {
    if c > 1 {
      CombinedLast(prf, hashLen, prf(x), c - 1, k);
    }
  }

  lemma {:induction false} FAt(prf: Prf, hashLen: nat, salt: seq<byte>, c: nat, i: nat, k: nat)
    requires c >= 1 && FixedLength(prf, hashLen) && k < hashLen
    ensures F(prf, hashLen, salt, c, i)[k] == Combined(prf, hashLen, prf(salt + Int(i)), c, k)
  {
    if c > 1 {
      FAt(prf, hashLen, salt, c - 1, i, k);
      UIsAgain(prf, salt, i, c);
      CombinedLast(prf, hashLen, prf(salt + Int(i)), c - 1, k);
    }
  }

  lemma {:induction false} BlocksAt(prf: Prf, hashLen: nat, salt: seq<byte>, c: nat, l: nat, b: nat, k: nat)
    requires c >= 1 && FixedLength(prf, hashLen) && b < l && k < hashLen
    ensures b * hashLen + k < l * hashLen
    ensures Blocks(prf, hashLen, salt, c, l)[b * hashLen + k] == F(prf, hashLen, salt, c, b + 1)[k]
  {
    hide *;
    Fits(b + 1, l, hashLen);
    BlocksLast(prf, hashLen, salt, c, l);
    if b < l - 1 {
      Fits(b + 1, l - 1, hashLen);
      BlocksAt(prf, hashLen, salt, c, l - 1, b, k);
    }
  }

  lemma BlocksLast(prf: Prf, hashLen: nat, salt: seq<byte>, c: nat, l: nat)
    requires c >= 1 && FixedLength(prf, hashLen) && l > 0
    ensures Blocks(prf, hashLen, salt, c, l) == Blocks(prf, hashLen, salt, c, l - 1) + F(prf, hashLen, salt, c, l)
  {
  }

  /** Every octet of the key: at place k of the b-th block, counted from zero, it combines the c hashes
      that begin with that of the salt and the four octets of b + 1. */
  lemma KeyAt(prf: Prf, hashLen: nat, salt: seq<byte>, c: nat, keyLen: nat, b: nat, k: nat)
    requires c >= 1 && FixedLength(prf, hashLen) && k < hashLen && b * hashLen + k < keyLen
    ensures DerivedKey(prf, hashLen, salt, c, keyLen)[b * hashLen + k]
         == Combined(prf, hashLen, prf(salt + Int(b + 1)), c, k)
  {
    hide *;
    var l, p := CeilDiv(keyLen, hashLen), b * hashLen + k;
    KeyIs(prf, hashLen, salt, c, keyLen);
    InBlocks(b, l, hashLen, p, keyLen);
    BlocksAt(prf, hashLen, salt, c, l, b, k);
    FAt(prf, hashLen, salt, c, b + 1, k);
    PrefixAt(Blocks(prf, hashLen, salt, c, l), keyLen, p);
  }

  lemma KeyIs(prf: Prf, hashLen: nat, salt: seq<byte>, c: nat, keyLen: nat)
    requires c >= 1 && FixedLength(prf, hashLen)
    ensures var ts := Blocks(prf, hashLen, salt, c, CeilDiv(keyLen, hashLen));
      |ts| >= keyLen && DerivedKey(prf, hashLen, salt, c, keyLen) == ts[..keyLen]
    ensures hashLen > 0 && keyLen <= CeilDiv(keyLen, hashLen) * hashLen
  {
    CeilDivCovers(keyLen, hashLen);
  }

  lemma PrefixAt<T>(s: seq<T>, n: nat, p: nat)
    requires p < n <= |s|
    ensures s[..n][p] == s[p]
  {
  }

  lemma InBlocks(b: nat, l: nat, hashLen: nat, p: nat, keyLen: nat)
    requires b * hashLen <= p < keyLen <= l * hashLen
    ensures b < l
  {
    if b >= l {
      MulMono(l, b, hashLen);
      assert false;
    }
  }

  lemma MulMono(a: nat, b: nat, c: nat)
    requires a <= b
    ensures a * c <= b * c
  {
  }

  // ---------- slices

  /** A Go slice: a window into an array with room to grow up to its capacity. */
  datatype Slice = Slice(arr: array<byte>, off: nat, len: nat, cap: nat) {
    ghost predicate Valid() { len <= cap && off + cap <= arr.Length }

    ghost function Bytes(): seq<byte>
      requires Valid()
      reads arr
    {
      arr[off..off + len]
    }
  }

  method Make(len: nat, cap: nat) returns (s: Slice)
    requires len <= cap
    ensures s.Valid() && s.len == len && s.cap == cap && s.off == 0 && fresh(s.arr) && s.arr.Length == cap
  {
    var arr := new byte[cap];
    s := Slice(arr, 0, len, cap);
  }

  /** append(s, data...): in place if there is room, into a new array otherwise. */
  method Append(s: Slice, data: seq<byte>) returns (r: Slice)
    requires s.Valid()
    modifies s.arr
    ensures r.Valid() && r.len == s.len + |data|
    ensures s.len + |data| <= s.cap ==>
      && r == s.(len := s.len + |data|)
      && s.arr[..] == old(s.arr[..s.off + s.len]) + data + old(s.arr[s.off + s.len + |data|..])
    ensures s.len + |data| > s.cap ==> fresh(r.arr) && s.arr[..] == old(s.arr[..])
    ensures r.Bytes() == old(s.Bytes()) + data
  {
    var end := s.off + s.len;
    if s.len + |data| <= s.cap {
      forall i | 0 <= i < |data| {
        s.arr[end + i] := data[i];
      }
      r := s.(len := s.len + |data|);
      assert s.arr[..] == old(s.arr[..end]) + data + old(s.arr[end + |data|..]);
    } else {
      var bytes := s.arr[s.off..end] + data;
      var arr := new byte[|bytes|](i requires 0 <= i < |bytes| => bytes[i]);
      r := Slice(arr, 0, |bytes|, |bytes|);
      assert arr[..] == bytes;
    }
  }

  // ---------- the keyed hash

  /** hmac.New(h, password): what has been written since the last reset is hashed by Sum. */
  class Hash {
    const prf: Prf
    var written: seq<byte>

    constructor (prf: Prf)
      ensures this.prf == prf && written == []
    {
      this.prf := prf;
      written := [];
    }

    method Reset()
      modifies this
      ensures written == []
    {
      written := [];
    }

    method Write(data: seq<byte>)
      modifies this
      ensures written == old(written) + data
    {
      written := written + data;
    }

    /** Appends the hash of what was written to s. */
    method Sum(s: Slice) returns (r: Slice)
      requires s.Valid()
      modifies s.arr
      ensures r.Valid() && r.len == s.len + |prf(written)|
      ensures s.len + |prf(written)| <= s.cap ==>
        && r == s.(len := s.len + |prf(written)|)
        && s.arr[..] == old(s.arr[..s.off + s.len]) + prf(written) + old(s.arr[s.off + s.len + |prf(written)|..])
      ensures s.len + |prf(written)| > s.cap ==> fresh(r.arr) && s.arr[..] == old(s.arr[..])
      ensures r.Bytes() == old(s.Bytes()) + prf(written)
    {
      r := Append(s, prf(written));
    }
  }

  // ---------- PBKDF2

  /** The code does one round for any iteration count below 2. */
  function Rounds(iter: int): nat {
    if iter < 1 then 1 else iter
  }

  /** T[x] ^= U[x] for every x, where T is the window of arr that starts at t. */
  method XorInto(arr: array<byte>, t: nat, u: array<byte>)
    requires t + u.Length <= arr.Length && arr != u
    modifies arr
    ensures arr[t..t + u.Length] == Xor(old(arr[t..t + u.Length]), u[..])
    ensures arr[..t] == old(arr[..t]) && arr[t + u.Length..] == old(arr[t + u.Length..])
  {
    ghost var before := arr[..];
    var x := 0;
    while x < u.Length
      invariant x <= u.Length
      invariant forall k :: 0 <= k < arr.Length ==> arr[k] == if t <= k < t + x then before[k] ^ u[k - t] else before[k]
    {
      arr[t + x] := arr[t + x] ^ u[x];
      x := x + 1;
    }
  }

  /** The whole array behind u, which prf.Sum(U[:0]) overwrites. */
  ghost predicate FillsItsArray(u: Slice, hashLen: nat) {
    u.off == 0 && u.len == u.cap == u.arr.Length == hashLen
  }

  /** U_n = PRF(U_(n-1)), written over U_(n-1). */
  method NextU(hash: Hash, u: Slice, hashLen: nat)
    requires FixedLength(hash.prf, hashLen) && FillsItsArray(u, hashLen)
    modifies hash, u.arr
    ensures u.arr[..] == hash.prf(old(u.arr[..]))
  {
    hash.Reset();
    hash.Write(u.arr[..]);
    assert hash.written == u.arr[..];
    var empty := u.(len := 0);
    var next := hash.Sum(empty);
  }

  /** U_n of one block, n = 2, ..., iter, each hashed into the one buffer u and added into
      T, the window of arr that starts at t. */
  method Iterate(hash: Hash, arr: array<byte>, t: nat, u: Slice, hashLen: nat, iter: int, ghost salt: seq<byte>,
    ghost block: nat)
    requires FixedLength(hash.prf, hashLen) && FillsItsArray(u, hashLen)
    requires arr != u.arr && t + hashLen <= arr.Length
    requires u.arr[..] == arr[t..t + hashLen] == U(hash.prf, salt, block, 1)
    modifies hash, arr, u.arr
    ensures arr[t..t + hashLen] == F(hash.prf, hashLen, salt, Rounds(iter), block)
    ensures arr[..t] == old(arr[..t]) && arr[t + hashLen..] == old(arr[t + hashLen..])
  {
    hide FixedLength, Xor;
    var n := 2;
    while n <= iter
      invariant 2 <= n <= Rounds(iter) + 1
      invariant u.arr[..] == U(hash.prf, salt, block, n - 1)
      invariant arr[t..t + hashLen] == F(hash.prf, hashLen, salt, n - 1, block)
      invariant arr[..t] == old(arr[..t]) && arr[t + hashLen..] == old(arr[t + hashLen..])
    {
      NextU(hash, u, hashLen);
      XorInto(arr, t, u.arr);
      n := n + 1;
    }
  }

  /** copy(U, T) with T the window of arr that starts at t. */
  method CopyTail(arr: array<byte>, t: nat, u: Slice, hashLen: nat)
    requires t + hashLen <= arr.Length && FillsItsArray(u, hashLen) && u.arr != arr
    modifies u.arr
    ensures u.arr[..] == arr[t..t + hashLen]
  {
    forall x | 0 <= x < hashLen {
      u.arr[x] := arr[t + x];
    }
  }

  /** U_1 of one block, appended to dk in place. */
  method FirstU(hash: Hash, dk: Slice, hashLen: nat, salt: seq<byte>, block: nat) returns (longer: Slice)
    requires FixedLength(hash.prf, hashLen)
    requires dk.Valid() && dk.off == 0 && dk.len + hashLen <= dk.cap
    modifies hash, dk.arr
    ensures longer == dk.(len := dk.len + hashLen)
    ensures dk.arr[..dk.len] == old(dk.Bytes()) && dk.arr[dk.len..dk.len + hashLen] == U(hash.prf, salt, block, 1)
  {
    hash.Reset();
    hash.Write(salt);
    var buf := [Byte(block / 0x100_0000), Byte(block / 0x1_0000), Byte(block / 0x100), Byte(block)];
    hash.Write(buf);
    assert hash.written == salt + Int(block);
    longer := hash.Sum(dk);
  }

  /** One block: T_block is appended to dk, in place. */
  method Block(hash: Hash, dk: Slice, u: Slice, hashLen: nat, salt: seq<byte>, iter: int, block: nat)
    returns (longer: Slice)
    requires FixedLength(hash.prf, hashLen) && FillsItsArray(u, hashLen)
    requires dk.Valid() && dk.off == 0 && dk.len + hashLen <= dk.cap && dk.arr != u.arr
    modifies hash, dk.arr, u.arr
    ensures longer == dk.(len := dk.len + hashLen)
    ensures longer.Bytes() == old(dk.Bytes()) + F(hash.prf, hashLen, salt, Rounds(iter), block)
  {
    hide FixedLength, U, F;
    longer := FirstU(hash, dk, hashLen, salt, block);
    CopyTail(longer.arr, dk.len, u, hashLen);
    Iterate(hash, longer.arr, dk.len, u, hashLen, iter, salt, block);
    assert longer.Bytes() == longer.arr[..dk.len] + longer.arr[dk.len..dk.len + hashLen];
  }

  /** The key of section 5.2, for every salt, iteration count and key length; dk never moves
      to another array. */
  method PBKDF2(prf: Prf, salt: seq<byte>, iter: int, keyLen: nat, hashLen: nat) returns (key: seq<byte>)
    requires FixedLength(prf, hashLen)
    ensures key == DerivedKey(prf, hashLen, salt, if iter >= 1 then iter else 1, keyLen)
  {
    var numBlocks := (keyLen + hashLen - 1) / hashLen;
    KeyIs(prf, hashLen, salt, Rounds(iter), keyLen);
    RoundsIs(iter);
    hide *;
    var dk := AllBlocks(prf, salt, iter, hashLen, numBlocks);
    key := dk.arr[..keyLen];
    assert key == dk.arr[..numBlocks * hashLen][..keyLen];
  }

  /** The loop over the blocks. */
  method AllBlocks(prf: Prf, salt: seq<byte>, iter: int, hashLen: nat, numBlocks: nat) returns (dk: Slice)
    requires FixedLength(prf, hashLen)
    ensures numBlocks * hashLen <= dk.arr.Length
    ensures dk.arr[..numBlocks * hashLen] == Blocks(prf, hashLen, salt, Rounds(iter), numBlocks)
  {
    var hash := new Hash(prf);
    RoundsIs(iter);
    hide FixedLength, F, Rounds;
    dk := Make(0, numBlocks * hashLen);
    ghost var home := dk.arr;
    var u := Make(hashLen, hashLen);
    var block := 1;
    while block <= numBlocks
      invariant 1 <= block <= numBlocks + 1
      invariant dk == Slice(home, 0, (block - 1) * hashLen, numBlocks * hashLen) && dk.Valid()
      invariant dk.Bytes() == Blocks(prf, hashLen, salt, Rounds(iter), block - 1)
      invariant FillsItsArray(u, hashLen)
    {
      Fits(block, numBlocks, hashLen);
      dk := Block(hash, dk, u, hashLen, salt, iter, block);
      block := block + 1;
    }
  }

  lemma RoundsIs(iter: int)
    ensures Rounds(iter) == if iter >= 1 then iter else 1
  {
  }

  lemma Fits(block: nat, numBlocks: nat, hashLen: nat)
    requires 1 <= block <= numBlocks
    ensures (block - 1) * hashLen + hashLen == block * hashLen <= numBlocks * hashLen
  {
  }
}
