/** `ensureUrlHasScheme` and the short-code generator with its module-level counter. */
module Utils {

  /**
   * ASCII lower-casing. The `i` flag also folds some non-ASCII letters among themselves, but none
   * of them folds to an ASCII letter, so for an ASCII pattern such as `https?://` this is exact.
   */
  function LowerAscii(c: char): char {
    if 'A' <= c <= 'Z' then (c as int + 32) as char else c
  }

  /** `s` begins with `prefix` (written in lower case), ignoring ASCII case. */
  predicate StartsWithIgnoringCase(s: string, prefix: string) {
    |prefix| <= |s| && forall i :: 0 <= i < |prefix| ==> LowerAscii(s[i]) == prefix[i]
  }

  /** The test `/^https?:\/\//i`. */
  predicate HasHttpScheme(s: string) {
    StartsWithIgnoringCase(s, "http://") || StartsWithIgnoringCase(s, "https://")
  }

  /** Prefixes `https://` unless the url already starts with `http://` or `https://`, in any case. */
  function EnsureUrlHasScheme(url: string): (r: string)
    ensures HasHttpScheme(r)
    ensures HasHttpScheme(url) ==> r == url
    ensures !HasHttpScheme(url) ==> r == "https://" + url
  {
    if !HasHttpScheme(url) then
      var r := "https://" + url;
      assert forall i :: 0 <= i < 8 ==> r[i] == "https://"[i];
      r
    else url
  }

  lemma EnsureUrlHasSchemeIdempotent(url: string)
    ensures EnsureUrlHasScheme(EnsureUrlHasScheme(url)) == EnsureUrlHasScheme(url)
  {
  }

  /** The counter wraps modulo 2^31. */
  const Modulus: int := 0x8000_0000

  /** One step of `counter = (counter + 1) % 2 ** 31`. */
  function NextCounter(c: int): (n: int)
    requires 0 <= c < Modulus
    ensures 0 <= n < Modulus
    ensures n == c + 1 || (c == Modulus - 1 && n == 0)
  {
    (c + 1) % Modulus
  }

  /** The counter after `k` calls of `getSqid`, starting from `c`. */
  function Advance(c: int, k: nat): (n: int)
    requires 0 <= c < Modulus
    ensures 0 <= n < Modulus
  {
    if k == 0 then c else NextCounter(Advance(c, k - 1))
  }

  /** `k` more calls after `i` calls start from where the first `i` left the counter. */
  lemma {:induction false} AdvanceAdd(c: int, i: nat, k: nat)
    requires 0 <= c < Modulus
    ensures Advance(c, i + k) == Advance(Advance(c, i), k)
  {
    if k > 0 {
      AdvanceAdd(c, i, k - 1);
    }
  }

  /** Fewer than 2^31 calls wrap the counter at most once. */
  lemma {:induction false} AdvanceWrapsOnce(c: int, k: nat)
    requires 0 <= c < Modulus && k < Modulus
    ensures Advance(c, k) == if c + k < Modulus then c + k else c + k - Modulus
  {
    if k > 0 {
      AdvanceWrapsOnce(c, k - 1);
    }
  }

  /** Any 2^31 consecutive calls of `getSqid` see pairwise distinct counter values. */
  lemma CountersDistinct(c: int, i: nat, j: nat)
    requires 0 <= c < Modulus
    requires i < j < i + Modulus
    ensures Advance(c, i) != Advance(c, j)
  {
    AdvanceAdd(c, i, j - i);
    AdvanceWrapsOnce(Advance(c, i), j - i);
  }

  /**
   * The module-level state of `getSqid`: the counter, and the Sqids encoding of a list of
   * numbers, which is opaque to this model.
   */
  class SqidGenerator {
    var counter: int
    const encode: seq<int> -> string

    ghost predicate Valid()
      reads this
    {
      0 <= counter < Modulus
    }

    constructor (encode: seq<int> -> string)
      ensures Valid() && counter == 0 && this.encode == encode
    {
      counter := 0;
      this.encode := encode;
    }

    /** Advances the counter, then encodes the pair (now, counter). */
    method GetSqid(now: int) returns (sqid: string)
      requires Valid()
      modifies this`counter
      ensures Valid()
      ensures counter == NextCounter(old(counter))
      ensures sqid == encode([now, counter])
    {
      counter := (counter + 1) % Modulus;
      sqid := encode([now, counter]);
    }
  }
}
