/** Digests, the text a block hash is taken over, and the genesis block. */
module Hashing {
  import Keys
  import opened Records

  predicate IsHexDigit(c: char) {
    '0' <= c <= '9' || 'A' <= c <= 'F'
  }

  /** A SHA-256 value as `HexEncoder` prints it. */
  predicate IsDigest(s: string) {
    |s| == 64 && forall i :: 0 <= i < |s| ==> IsHexDigit(s[i])
  }

  /** SHA-256 and the Merkle root of a list of transaction hashes, both left uninterpreted. */
  datatype Crypto = Crypto(sha: string -> string, root: seq<string> -> string) {
    ghost predicate Valid() {
      && (forall text :: IsDigest(sha(text)))
      && (forall leaves :: IsDigest(root(leaves)))
    }
  }

  function Digit(d: nat): char
    requires d < 10
  {
    "0123456789"[d]
  }

  /** An unsigned integer as `fmt` prints it. */
  function Decimal(n: nat): (s: string)
    ensures |s| > 0
  {
    if n < 10 then [Digit(n)] else Decimal(n / 10) + [Digit(n % 10)]
  }

  lemma {:induction false} DecimalInjective(a: nat, b: nat)
    requires Decimal(a) == Decimal(b)
    ensures a == b
  {
    var s, t := Decimal(a), Decimal(b);
    assert s[|s| - 1] == Digit(a % 10) && t[|t| - 1] == Digit(b % 10);
    if a >= 10 && b >= 10 {
      assert s[..|s| - 1] == Decimal(a / 10) && t[..|t| - 1] == Decimal(b / 10);
      DecimalInjective(a / 10, b / 10);
    }
  }

  function Preimage(previousHash: string, merkleRoot: string, timestamp: nat, nonce: nat): string {
    previousHash + merkleRoot + Decimal(timestamp) + Decimal(nonce)
  }

  lemma PreimageParts(p: string, r: string, t: nat, n: nat)
    requires |p| == |r| == 64
    ensures var s, w := Preimage(p, r, t, n), 128 + |Decimal(t)|;
            && w <= |s|
            && s[..64] == p
            && s[64..128] == r
            && s[128..w] == Decimal(t)
            && s[w..] == Decimal(n)
  {
  }

  /** Equal texts agree on link and root; on timestamp and nonce exactly when the timestamps are equally wide. */
  lemma PreimageInjective(p: string, r: string, t: nat, n: nat, p': string, r': string, t': nat, n': nat)
    requires |p| == |p'| == |r| == |r'| == 64
    requires Preimage(p, r, t, n) == Preimage(p', r', t', n')
    ensures p == p' && r == r'
    ensures t == t' && n == n' <==> |Decimal(t)| == |Decimal(t')|
  {
    PreimageParts(p, r, t, n);
    PreimageParts(p', r', t', n');
    if |Decimal(t)| == |Decimal(t')| {
      DecimalInjective(t, t');
      DecimalInjective(n, n');
    }
  }

  lemma DecimalNext(n: nat, s: string)
    requires n >= 10 && Decimal(n / 10) == s
    ensures Decimal(n) == s + [Digit(n % 10)]
  {
  }

  lemma Regroup(a: string, b: string, c: string, d: string)
    ensures a + b + (c + d) == a + (b + c) + d
  {
  }

  /** A leading digit of the nonce can as well be the last digit of the timestamp. */
  lemma AmbiguousPreimage(p: string, r: string, timestamp: nat, digit: nat, nonce: nat)
    requires timestamp > 0 && 0 < digit < 10 && nonce < 10
    ensures Preimage(p, r, timestamp, 10 * digit + nonce) == Preimage(p, r, 10 * timestamp + digit, nonce)
  {
    var t, d, n := Decimal(timestamp), [Digit(digit)], [Digit(nonce)];
    assert Decimal(digit) == d && Decimal(nonce) == n;
    DecimalNext(10 * timestamp + digit, t);
    DecimalNext(10 * digit + nonce, d);
    Regroup(p + r, t, d, n);
  }

  const GENESIS_TIMESTAMP: nat := 1668542625

  /** What `fmt` makes of the genesis block's link, root, timestamp and nonce. */
  const GENESIS_TEXT := "0016685426250"

  function Genesis(crypto: Crypto): Block {
    Block(BlockHeader(crypto.sha(GENESIS_TEXT), "0", "0", "0", GENESIS_TIMESTAMP, 0), [])
  }

  lemma GenesisTextIsFormatted()
    ensures GENESIS_TEXT == "0" + "0" + Decimal(GENESIS_TIMESTAMP) + Decimal(0)
  {
    assert Decimal(1) == "1";
    DecimalNext(16, "1");
    DecimalNext(166, "16");
    DecimalNext(1668, "166");
    DecimalNext(16685, "1668");
    DecimalNext(166854, "16685");
    DecimalNext(1668542, "166854");
    DecimalNext(16685426, "1668542");
    DecimalNext(166854262, "16685426");
    DecimalNext(1668542625, "166854262");
  }

  /** The hash of genesis is the digest of its own link, root, timestamp and nonce, as for any block. */
  lemma GenesisIsHashed(crypto: Crypto)
    ensures var h := Genesis(crypto).header;
            && h.hash == crypto.sha(Preimage(h.previousHash, h.merkleRoot, h.timestamp, h.nonce))
            && h.previousHash == h.merkleRoot == h.minedBy == "0"
            && h.timestamp == 1668542625
            && h.nonce == 0
  {
    GenesisTextIsFormatted();
  }

  /** The genesis text is none of the texts a mined block is hashed over. */
  lemma GenesisPreimageDiffers(p: string, r: string, t: nat, n: nat)
    requires |p| == |r| == 64
    ensures Preimage(p, r, t, n) != GENESIS_TEXT
  {
  }

  // ---- digests as numbers ----

  function HexValue(c: char): (v: nat)
    requires IsHexDigit(c)
    ensures v < 16
  {
    if c <= '9' then (c - '0') as nat else (c - 'A') as nat + 10
  }

  function Value(s: string): nat
    requires forall i :: 0 <= i < |s| ==> IsHexDigit(s[i])
  {
    if |s| == 0 then 0 else 16 * Value(s[..|s| - 1]) + HexValue(s[|s| - 1])
  }

  function Pow16(n: nat): (p: nat)
    ensures p > 0
  {
    if n == 0 then 1 else 16 * Pow16(n - 1)
  }

  /** Equally long strings compare by all but the last character first. */
  lemma {:induction false} LessByInit(a: string, b: string)
    requires |a| == |b| > 0
    ensures var n := |a| - 1;
            Keys.Less(a, b) <==> Keys.Less(a[..n], b[..n]) || (a[..n] == b[..n] && a[n] < b[n])
  {
    var n := |a| - 1;
    if n > 0 {
      assert a[..n] == [a[0]] + a[1..][..n - 1] && b[..n] == [b[0]] + b[1..][..n - 1];
      assert a[1..][n - 1] == a[n] && b[1..][n - 1] == b[n];
      assert a[..n][1..] == a[1..][..n - 1] && b[..n][1..] == b[1..][..n - 1];
      if a[0] == b[0] { LessByInit(a[1..], b[1..]); }
    }
  }

  /** Byte order on equally long upper-case digests is numeric order. */
  lemma {:induction false} LessIsNumeric(a: string, b: string)
    requires |a| == |b|
    requires forall i :: 0 <= i < |a| ==> IsHexDigit(a[i]) && IsHexDigit(b[i])
    ensures Keys.Less(a, b) <==> Value(a) < Value(b)
    decreases |a|
  {
    if |a| > 0 {
      var n := |a| - 1;
      LessByInit(a, b);
      LessIsNumeric(a[..n], b[..n]);
      LessIsNumeric(b[..n], a[..n]);
      Keys.LessTotal(a[..n], b[..n]);
      assert a[n] < b[n] <==> HexValue(a[n]) < HexValue(b[n]);
    }
  }

  lemma {:induction false} LeadingZeros(s: string)
    requires "0000" <= s
    requires forall i :: 0 <= i < |s| ==> IsHexDigit(s[i])
    ensures Value(s) < Pow16(|s| - 4)
  {
    if |s| == 4 {
      assert "0"[..0] == "" && "00"[..1] == "0" && "000"[..2] == "00" && "0000"[..3] == "000" && s == "0000";
      assert Value("0") == 0;
      assert Value("00") == 0;
      assert Value("000") == 0;
    } else {
      LeadingZeros(s[..|s| - 1]);
    }
  }

  lemma ProofOfWorkBound(s: string)
    requires IsDigest(s) && "0000" <= s
    ensures Value(s) < Pow16(60)
  {
    LeadingZeros(s);
  }
}
