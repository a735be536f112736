/** Connection identifiers and the shard each one lives in (transport/ws/ws.go). */
module ConnectionIds {

  const WORD: nat := 0x1_0000_0000_0000_0000   // uint64 wraps here
  const SHARDS: nat := 32
  const RADIX: nat := 36
  const DIGITS: string := "0123456789abcdefghijklmnopqrstuvwxyz"

  /** strconv.FormatUint(n, 36) */
  function Format(n: nat): (s: string)
    ensures |s| > 0
    decreases n
  {
    if n < RADIX then [DIGITS[n]] else Format(n / RADIX) + [DIGITS[n % RADIX]]
  }

  function DigitValue(c: char): nat {
    if '0' <= c <= '9' then (c - '0') as nat
    else if 'a' <= c <= 'z' then (c - 'a') as nat + 10
    else 0
  }

  function Parse(s: string): nat
    decreases |s|
  {
    if s == [] then 0 else Parse(s[..|s| - 1]) * RADIX + DigitValue(s[|s| - 1])
  }

  lemma DigitRoundTrip(d: nat)
    requires d < RADIX
    ensures DigitValue(DIGITS[d]) == d
  {
  }

  lemma {:induction false} ParseFormat(n: nat)
    ensures Parse(Format(n)) == n
    decreases n
  {
    if n < RADIX {
      DigitRoundTrip(n);
      assert Parse([]) == 0;
      assert [DIGITS[n]][..0] == [];
    } else {
      DigitRoundTrip(n % RADIX);
      ParseFormat(n / RADIX);
      assert Format(n)[..|Format(n)| - 1] == Format(n / RADIX);
    }
  }

  /** Digits above nine are the letters, and 36 is the first number of two digits. */
  lemma KnownNumbers()
    ensures Format(9) == "9" && Format(10) == "a" && Format(35) == "z" && Format(36) == "10"
  {
    assert Format(36) == Format(1) + ['0'];
  }

  /** Different numbers print differently. */
  lemma FormatInjective(m: nat, n: nat)
    requires Format(m) == Format(n)
    ensures m == n
  {
    ParseFormat(m);
    ParseFormat(n);
  }

  /** One byte of 32-bit FNV-1a. */
  function Hashed(hash: bv32, c: char): bv32 { (hash ^ ((c as int % 256) as bv32)) * 16777619 }

  /** 32-bit FNV-1a over the bytes of an ASCII identifier. */
  function Fnv32a(s: string): bv32
    decreases |s|
  {
    if s == [] then 2166136261 else Hashed(Fnv32a(s[..|s| - 1]), s[|s| - 1])
  }

  /** Test vectors of FNV-1a. */
  lemma KnownHashes()
    ensures Fnv32a("") == 0x811c9dc5 && Fnv32a("a") == 0xe40c292c
  {
    assert "a"[..0] == "";
    assert Hashed(0x811c9dc5, 'a') == 0xe40c292c;
  }

  type Shard = i: nat | i < SHARDS

  function Bucket(hash: bv32): Shard { (hash as int) % SHARDS }

  function ShardIndex(id: string): Shard { Bucket(Fnv32a(id)) }

  /** connectionShard: the hash is taken byte by byte. */
  method ConnectionShard(id: string) returns (i: Shard)
    ensures i == ShardIndex(id)
  {
    var hash := Fnv32a([]);
    for k := 0 to |id|
      invariant hash == Fnv32a(id[..k])
    {
      assert id[..k + 1][..k] == id[..k];
      hash := Hashed(hash, id[k]);
    }
    assert id[..|id|] == id;
    i := Bucket(hash);
  }
}
