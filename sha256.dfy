/**
 * SHA-256 as FIPS 180-4 defines it (section 5.1.1 padding, section 6.2.2
 * computation). `crypto.subtle.digest("SHA-256", …)` and the HMAC inside
 * PBKDF2 and HKDF are this function.
 */
module Sha256 {
  import opened JsValues

  type Word = bv32

  /** The round constant K_t (section 4.2.2), read from the row of eight that holds it. */
  function RoundConstant(t: nat): Word
    requires t < 64
  {
    var row: seq<Word> :=
      if t < 8 then [0x428a2f98, 0x71374491, 0xb5c0fbcf, 0xe9b5dba5, 0x3956c25b, 0x59f111f1, 0x923f82a4, 0xab1c5ed5]
      else if t < 16 then [0xd807aa98, 0x12835b01, 0x243185be, 0x550c7dc3, 0x72be5d74, 0x80deb1fe, 0x9bdc06a7, 0xc19bf174]
      else if t < 24 then [0xe49b69c1, 0xefbe4786, 0x0fc19dc6, 0x240ca1cc, 0x2de92c6f, 0x4a7484aa, 0x5cb0a9dc, 0x76f988da]
      else if t < 32 then [0x983e5152, 0xa831c66d, 0xb00327c8, 0xbf597fc7, 0xc6e00bf3, 0xd5a79147, 0x06ca6351, 0x14292967]
      else if t < 40 then [0x27b70a85, 0x2e1b2138, 0x4d2c6dfc, 0x53380d13, 0x650a7354, 0x766a0abb, 0x81c2c92e, 0x92722c85]
      else if t < 48 then [0xa2bfe8a1, 0xa81a664b, 0xc24b8b70, 0xc76c51a3, 0xd192e819, 0xd6990624, 0xf40e3585, 0x106aa070]
      else if t < 56 then [0x19a4c116, 0x1e376c08, 0x2748774c, 0x34b0bcb5, 0x391c0cb3, 0x4ed8aa4a, 0x5b9cca4f, 0x682e6ff3]
      else [0x748f82ee, 0x78a5636f, 0x84c87814, 0x8cc70208, 0x90befffa, 0xa4506ceb, 0xbef9a3f7, 0xc67178f2];
    row[t % 8]
  }

  const InitialHash: seq<Word> := [
    0x6a09e667, 0xbb67ae85, 0x3c6ef372, 0xa54ff53a, 0x510e527f, 0x9b05688c, 0x1f83d9ab, 0x5be0cd19
  ]

  /** The digest length in bytes. */
  const DigestLength := 32

  function Ch(x: Word, y: Word, z: Word): Word { (x & y) ^ (!x & z) }
  function Maj(x: Word, y: Word, z: Word): Word { (x & y) ^ (x & z) ^ (y & z) }
  function BigSigma0(x: Word): Word { x.RotateRight(2) ^ x.RotateRight(13) ^ x.RotateRight(22) }
  function BigSigma1(x: Word): Word { x.RotateRight(6) ^ x.RotateRight(11) ^ x.RotateRight(25) }
  function SmallSigma0(x: Word): Word { x.RotateRight(7) ^ x.RotateRight(18) ^ (x >> 3) }
  function SmallSigma1(x: Word): Word { x.RotateRight(17) ^ x.RotateRight(19) ^ (x >> 10) }

  /** `n` as `count` big-endian bytes, modulo 256^count. */
  function BigEndian(n: nat, count: nat): (b: Bytes)
    ensures |b| == count
  {
    if count == 0 then [] else BigEndian(n / 256, count - 1) + [n % 256]
  }

  function Zeros(n: nat): (z: Bytes)
    ensures |z| == n && forall i :: 0 <= i < n ==> z[i] == 0
  {
    seq(n, _ => 0)
  }

  /** The message, a 1 bit, zeros, and the 64-bit bit length (section 5.1.1). */
  function Pad(m: Bytes): (p: Bytes)
    ensures |p| == 64 * (|p| / 64) && |p| > |m|
  {
    var zeros := (119 - |m| % 64) % 64;
    m + [0x80] + Zeros(zeros) + BigEndian(|m| * 8, 8)
  }

  function WordAt(b: Bytes, i: nat): Word
    requires i + 4 <= |b|
  {
    ((b[i] as int) * 0x100_0000 + (b[i + 1] as int) * 0x1_0000 + (b[i + 2] as int) * 0x100 + b[i + 3] as int) as bv32
  }

  /** The 64-word message schedule of one 64-byte block (section 6.2.2 step 1). */
  function Schedule(w: seq<Word>): (r: seq<Word>)
    requires 16 <= |w| <= 64
    ensures |r| == 64
    decreases 64 - |w|
  {
    if |w| == 64 then w
    else
      var t := |w|;
      Schedule(w + [SmallSigma1(w[t - 2]) + w[t - 7] + SmallSigma0(w[t - 15]) + w[t - 16]])
  }

  /** Rounds `t` to 63 of the compression function (section 6.2.2 step 3). */
  function Rounds(v: seq<Word>, w: seq<Word>, t: nat): (r: seq<Word>)
    requires |v| == 8 && |w| == 64 && t <= 64
    ensures |r| == 8
    decreases 64 - t
  {
    if t == 64 then v
    else Rounds(Round(v, RoundConstant(t), w[t]), w, t + 1)
  }

  /** One round: the working variables after mixing in the round constant and schedule word. */
  function Round(v: seq<Word>, k: Word, w: Word): (r: seq<Word>)
    requires |v| == 8
    ensures |r| == 8
  {
    var t1 := v[7] + BigSigma1(v[4]) + Ch(v[4], v[5], v[6]) + k + w;
    var t2 := BigSigma0(v[0]) + Maj(v[0], v[1], v[2]);
    [t1 + t2, v[0], v[1], v[2], v[3] + t1, v[4], v[5], v[6]]
  }

  /** The big-endian words of a byte string whose length is a multiple of four. */
  function Words(b: Bytes): (w: seq<Word>)
    requires |b| % 4 == 0
    ensures |w| == |b| / 4
    decreases |b|
  {
    if b == [] then [] else [WordAt(b, 0)] + Words(b[4..])
  }

  function AddWords(x: seq<Word>, y: seq<Word>): (r: seq<Word>)
    requires |x| == |y|
    ensures |r| == |x|
  {
    if x == [] then [] else [x[0] + y[0]] + AddWords(x[1..], y[1..])
  }

  function Compress(h: seq<Word>, block: Bytes): (r: seq<Word>)
    requires |h| == 8 && |block| == 64
    ensures |r| == 8
  {
    AddWords(h, Rounds(h, Schedule(Words(block)), 0))
  }

  /** `n` > 0 blocks have a first block, and what follows it is `n - 1` blocks. */
  lemma BlockCount(k: nat, n: nat)
    requires k == 64 * n && n > 0
    ensures k >= 64 && k - 64 == 64 * (n - 1)
  {
  }

  /** Compresses the `n` 64-byte blocks of `p` into the chaining value `h`. */
  function HashBlocks(h: seq<Word>, p: Bytes, n: nat): (r: seq<Word>)
    requires |h| == 8 && |p| == 64 * n
    ensures |r| == 8
    decreases n
  {
    if n == 0 then h
    else
      BlockCount(|p|, n);
      HashBlocks(Compress(h, p[..64]), p[64..], n - 1)
  }

  function WordBytes(x: Word): (b: Bytes)
    ensures |b| == 4
  {
    BigEndian(x as int, 4)
  }

  /** SHA-256 of a byte string. */
  function Digest(m: Bytes): (d: Bytes)
    ensures |d| == DigestLength
  {
    var h := var p := Pad(m);
    HashBlocks(InitialHash, p, |p| / 64);
    WordBytes(h[0]) + WordBytes(h[1]) + WordBytes(h[2]) + WordBytes(h[3])
      + WordBytes(h[4]) + WordBytes(h[5]) + WordBytes(h[6]) + WordBytes(h[7])
  }
}
