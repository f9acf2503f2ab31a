/** How a raw identifier becomes a table key: keep the ASCII letters and digits, then hash. */
module Identity {
  import opened Prelude

  newtype Byte = b: int | 0 <= b < 256

  type Bytes = seq<Byte>

  const DIGEST_LENGTH: nat := 64

  /** A hexadecimal SHA-256 digest, as the tables store it. */
  type Digest = s: string | |s| == DIGEST_LENGTH witness seq(DIGEST_LENGTH, _ => '0')

  /**
   The process configuration. The hash is an unknown function of the sanitised bytes;
   unitsPerDollar is CREDIT_UNITS_PER_DOLLAR after parsing, None when it does not parse.
   */
  datatype Config = Config(sha: Bytes -> Digest, initialFreeCredit: int, unitsPerDollar: Option<int>)

  predicate IsAlnum(c: Byte) {
    (97 <= c <= 122) || (65 <= c <= 90) || (48 <= c <= 57)
  }

  /** The letters and digits of s, in order. */
  function Alnum(s: Bytes): Bytes {
    if s == [] then []
    else
      var front, c := s[..|s| - 1], s[|s| - 1];
      if IsAlnum(c) then Alnum(front) + [c] else Alnum(front)
  }

  function Key(cfg: Config, raw: Bytes): Digest {
    cfg.sha(Alnum(raw))
  }

  method HashExternalID(cfg: Config, s: Bytes) returns (key: Digest)
    ensures key == Key(cfg, s)
  {
    var b: Bytes := [];
    for i := 0 to |s|
      invariant b == Alnum(s[..i])
    {
      assert s[..i + 1][..i] == s[..i];
      var c := s[i];
      if (97 <= c <= 122) || (65 <= c <= 90) || (48 <= c <= 57) {
        b := b + [c];
      }
    }
    assert s[..|s|] == s;
    key := cfg.sha(b);
  }

  /** The bytes that are kept, as characters. */
  lemma KeptCharacters(c: Byte)
    ensures var ch := c as char;
      IsAlnum(c) <==> ('a' <= ch <= 'z') || ('A' <= ch <= 'Z') || ('0' <= ch <= '9')
    ensures Alnum([c]) == if IsAlnum(c) then [c] else []
  {
    assert [c][..0] == [];
  }

  /** Sanitising keeps every letter and digit as often as it occurs, and nothing else. */
  lemma {:induction false} AlnumKeeps(s: Bytes, c: Byte)
    ensures var ch := c as char;
      multiset(Alnum(s))[c]
      == if ('a' <= ch <= 'z') || ('A' <= ch <= 'Z') || ('0' <= ch <= '9') then multiset(s)[c] else 0
  {
    KeptCharacters(c);
    if s != [] {
      AlnumKeeps(s[..|s| - 1], c);
      assert s == s[..|s| - 1] + [s[|s| - 1]];
    }
  }

  /** Sanitising works byte by byte, so it keeps the order of what it keeps. */
  lemma {:induction false} AlnumConcat(s: Bytes, t: Bytes)
    ensures Alnum(s + t) == Alnum(s) + Alnum(t)
  {
    if t == [] {
      assert s + t == s;
    } else {
      AlnumConcat(s, t[..|t| - 1]);
      assert (s + t)[..|s + t| - 1] == s + t[..|t| - 1];
    }
  }

  lemma {:induction false} AlnumFixed(s: Bytes)
    requires forall c :: c in s ==> IsAlnum(c)
    ensures Alnum(s) == s
  {
    if s != [] {
      AlnumFixed(s[..|s| - 1]);
    }
  }

  lemma {:induction false} AlnumDrops(s: Bytes)
    requires forall c :: c in s ==> !IsAlnum(c)
    ensures Alnum(s) == []
  {
    if s != [] {
      AlnumDrops(s[..|s| - 1]);
    }
  }

  /** Sanitising twice is sanitising once, so an id and its sanitised form name the same row. */
  lemma {:induction false} AlnumIdempotent(s: Bytes)
    ensures Alnum(Alnum(s)) == Alnum(s)
  {
    forall c | c in Alnum(s)
      ensures IsAlnum(c)
    {
      AlnumKeeps(s, c);
      KeptCharacters(c);
    }
    AlnumFixed(Alnum(s));
  }

  /** The hash maps distinct sanitised forms of these ids to distinct digests. */
  ghost predicate CollisionFree(cfg: Config, ids: set<Bytes>) {
    forall a, b :: a in ids && b in ids && cfg.sha(Alnum(a)) == cfg.sha(Alnum(b)) ==> Alnum(a) == Alnum(b)
  }

  /** Among ids without a hash collision, two share a row exactly when their letters and digits agree;
      punctuation inserted anywhere never changes the row. */
  lemma {:induction false} SameRow(cfg: Config, ids: set<Bytes>, a: Bytes, b: Bytes, noise: Bytes)
    requires a in ids && b in ids && CollisionFree(cfg, ids)
    requires forall c :: c in noise ==> !('a' <= c as char <= 'z') && !('A' <= c as char <= 'Z') && !('0' <= c as char <= '9')
    ensures Key(cfg, a) == Key(cfg, b) <==> Alnum(a) == Alnum(b)
    ensures forall k :: 0 <= k <= |a| ==> Key(cfg, a[..k] + noise + a[k..]) == Key(cfg, a)
  {
    forall c | c in noise
      ensures !IsAlnum(c)
    {
      KeptCharacters(c);
    }
    forall k | 0 <= k <= |a|
      ensures Alnum(a[..k] + noise + a[k..]) == Alnum(a)
    {
      AlnumConcat(a[..k] + noise, a[k..]);
      AlnumConcat(a[..k], noise);
      AlnumDrops(noise);
      AlnumConcat(a[..k], a[k..]);
      assert a[..k] + a[k..] == a;
    }
  }
}
