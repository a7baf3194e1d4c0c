/** How a profile becomes a file name, and why two profiles never share one. */
module Names {
  import opened Types

  type Byte = b: int | 0 <= b < 256

  const NUL: char := '\0'
  const DIGITS: string := "0123456789abcdef"

  /** `hex.EncodeToString`. */
  function Hex(bytes: seq<Byte>): string {
    if bytes == [] then ""
    else [DIGITS[bytes[0] / 16], DIGITS[bytes[0] % 16]] + Hex(bytes[1..])
  }

  function Message(p: Profile): string {
    p.issuer + [NUL] + p.clientID
  }

  /** `profileKey`, for a given hash function. */
  function ProfileKey(hash: string -> seq<Byte>, p: Profile): string {
    Hex(hash(Message(p)))
  }

  function JsonName(key: string): string { key + ".json" }

  function LockName(key: string): string { key + ".lock" }

  function TempName(suffix: string): string { ".tmp-" + suffix }

  // ---------- Injectivity ----------

  ghost predicate CollisionFree(hash: string -> seq<Byte>) {
    forall m, n :: hash(m) == hash(n) ==> m == n
  }

  lemma DigitsDiffer(i: int, j: int)
    requires 0 <= i < 16 && 0 <= j < 16 && DIGITS[i] == DIGITS[j]
    ensures i == j
  {
  }

  lemma {:induction false} HexInjective(x: seq<Byte>, y: seq<Byte>)
    requires Hex(x) == Hex(y)
    ensures x == y
  {
    if x == [] || y == [] {
      assert |x| > 0 ==> |Hex(x)| > 0;
      assert |y| > 0 ==> |Hex(y)| > 0;
    } else {
      assert Hex(x)[0] == DIGITS[x[0] / 16] && Hex(x)[1] == DIGITS[x[0] % 16] && Hex(x)[2..] == Hex(x[1..]);
      assert Hex(y)[0] == DIGITS[y[0] / 16] && Hex(y)[1] == DIGITS[y[0] % 16] && Hex(y)[2..] == Hex(y[1..]);
      DigitsDiffer(x[0] / 16, y[0] / 16);
      DigitsDiffer(x[0] % 16, y[0] % 16);
      HexInjective(x[1..], y[1..]);
      assert x == [x[0]] + x[1..] && y == [y[0]] + y[1..];
    }
  }

  lemma {:induction false} HexDigits(x: seq<Byte>)
    ensures forall i :: 0 <= i < |Hex(x)| ==> Hex(x)[i] in DIGITS
  {
    if x != [] {
      HexDigits(x[1..]);
    }
  }

  /** Every byte becomes its two hexadecimal digits, the high one first. */
  lemma {:induction false} HexAt(x: seq<Byte>, i: nat)
    requires i < |x|
    ensures |Hex(x)| == 2 * |x|
    ensures Hex(x)[2 * i] == "0123456789abcdef"[x[i] / 16] && Hex(x)[2 * i + 1] == "0123456789abcdef"[x[i] % 16]
  {
    if |x| > 1 {
      HexAt(x[1..], if i > 0 then i - 1 else 0);
    }
  }

  /** The separator makes the hashed message ambiguous only for issuers that contain it. */
  lemma MessageInjective(p: Profile, q: Profile)
    requires NUL !in p.issuer && NUL !in q.issuer && Message(p) == Message(q)
    ensures p == q
  {
    var m := Message(p);
    assert m[|p.issuer|] == NUL && m[|q.issuer|] == NUL;
    assert forall i :: 0 <= i < |p.issuer| ==> m[i] == p.issuer[i];
    assert forall i :: 0 <= i < |q.issuer| ==> m[i] == q.issuer[i];
    assert |p.issuer| == |q.issuer|;
    assert p.issuer == m[..|p.issuer|] == q.issuer;
    assert p.clientID == m[|p.issuer| + 1..] == q.clientID;
  }

  /** An issuer that contains NUL shares its key with another profile, whatever the hash. */
  lemma NulIssuersCollide(hash: string -> seq<Byte>, a: string, b: string, c: string)
    ensures Profile(a + [NUL] + b, c) != Profile(a, b + [NUL] + c)
    ensures ProfileKey(hash, Profile(a + [NUL] + b, c)) == ProfileKey(hash, Profile(a, b + [NUL] + c))
  {
    assert Message(Profile(a + [NUL] + b, c)) == Message(Profile(a, b + [NUL] + c));
    assert |a + [NUL] + b| > |a|;
  }

  lemma KeyInjective(hash: string -> seq<Byte>, p: Profile, q: Profile)
    requires CollisionFree(hash) && NUL !in p.issuer && NUL !in q.issuer && ProfileKey(hash, p) == ProfileKey(hash, q)
    ensures p == q
  {
    HexInjective(hash(Message(p)), hash(Message(q)));
    MessageInjective(p, q);
  }

  lemma SuffixInjective(x: string, y: string, suffix: string)
    requires x + suffix == y + suffix
    ensures x == y
  {
    assert |x| == |y|;
    assert x == (x + suffix)[..|x|] == y;
  }

  /** Two profiles share neither their entry file nor their lock file, and no
      temporary file is ever one of them. */
  lemma FilesDiffer(hash: string -> seq<Byte>, p: Profile, q: Profile, suffix: string)
    requires CollisionFree(hash) && NUL !in p.issuer && NUL !in q.issuer
    ensures p != q ==> JsonName(ProfileKey(hash, p)) != JsonName(ProfileKey(hash, q))
    ensures p != q ==> LockName(ProfileKey(hash, p)) != LockName(ProfileKey(hash, q))
    ensures JsonName(ProfileKey(hash, p)) != LockName(ProfileKey(hash, q))
    ensures TempName(suffix) != JsonName(ProfileKey(hash, p)) && TempName(suffix) != LockName(ProfileKey(hash, p))
  {
    var k, l := ProfileKey(hash, p), ProfileKey(hash, q);
    if JsonName(k) == JsonName(l) {
      SuffixInjective(k, l, ".json");
      KeyInjective(hash, p, q);
    }
    if LockName(k) == LockName(l) {
      SuffixInjective(k, l, ".lock");
      KeyInjective(hash, p, q);
    }
    assert JsonName(k)[|k| + 4] == 'n' && LockName(l)[|l| + 4] == 'k';
    NotTemporary(hash, p, suffix);
  }

  lemma NotTemporary(hash: string -> seq<Byte>, p: Profile, suffix: string)
    ensures TempName(suffix) != JsonName(ProfileKey(hash, p)) && TempName(suffix) != LockName(ProfileKey(hash, p))
  {
    var k := ProfileKey(hash, p);
    HexDigits(hash(Message(p)));
    assert TempName(suffix)[0] == '.' && TempName(suffix)[1] == 't';
    if k == "" {
      assert JsonName(k)[1] == 'j' && LockName(k)[1] == 'l';
    } else {
      assert JsonName(k)[0] == k[0] && LockName(k)[0] == k[0] && k[0] in DIGITS;
    }
  }
}
