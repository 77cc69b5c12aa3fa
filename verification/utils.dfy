/** pkg/utils.go: session tokens drawn from a 52-letter alphabet and the
    SHA-512 password hash. The random source and the hash are not modelled
    internally: a draw is a nondeterministic choice in range and the hash is a
    function handed in by the caller. */
module Utils {

  /** letterRunes: "abc…z" followed by "ABC…Z". */
  function LetterRunes(): string {
    seq(26, i requires 0 <= i < 26 => ('a' as int + i) as char) +
    seq(26, i requires 0 <= i < 26 => ('A' as int + i) as char)
  }

  predicate IsAsciiLetter(c: char) {
    'a' <= c <= 'z' || 'A' <= c <= 'Z'
  }

  /** The alphabet has 52 distinct symbols, exactly the ASCII letters. */
  lemma AlphabetIsAsciiLetters()
    ensures |LetterRunes()| == 52
    ensures forall c :: c in LetterRunes() <==> IsAsciiLetter(c)
    ensures forall i, j :: 0 <= i < j < |LetterRunes()| ==> LetterRunes()[i] != LetterRunes()[j]
  {
    forall c | IsAsciiLetter(c) ensures c in LetterRunes() {
      if 'a' <= c <= 'z' {
        assert LetterRunes()[c as int - 'a' as int] == c;
      } else {
        assert LetterRunes()[26 + c as int - 'A' as int] == c;
      }
    }
  }

  /** A string of n symbols of the token alphabet. */
  predicate IsToken(s: string, n: nat) {
    |s| == n && forall i :: 0 <= i < |s| ==> s[i] in LetterRunes()
  }

  /** Length of session identifiers: RandStringRunes(32). */
  const SidLength: nat := 32

  /** RandStringRunes(n): n symbols, each letterRunes[rand.Intn(52)]. The random
      index is any value the generator may return. */
  method RandStringRunes(n: nat) returns (s: string)
    ensures |s| == n
    ensures forall i :: 0 <= i < |s| ==> IsAsciiLetter(s[i])
    ensures IsToken(s, n)
  {
    AlphabetIsAsciiLetters();
    var symbols: string := [];
    while |symbols| < n
      invariant |symbols| <= n
      invariant forall i :: 0 <= i < |symbols| ==> symbols[i] in LetterRunes()
    {
      var k :| 0 <= k < |LetterRunes()|;
      symbols := symbols + [LetterRunes()[k]];
    }
    s := symbols;
  }

  newtype byte = b: int | 0 <= b < 256

  /** Length of a SHA-512 digest in bytes (section 6.4 of FIPS 180-4: 512 bits). */
  const DigestLength: nat := 64

  type Digest = d: seq<byte> | |d| == DigestLength witness seq(64, _ => 0)

  /** sha512.Sum512 on the bytes of a password; its internals are left out. */
  type Sha512 = string -> Digest

  /** HashPassword: the 64-byte digest of the password as a byte slice. */
  function HashPassword(sha: Sha512, password: string): (h: seq<byte>)
    ensures |h| == DigestLength
  {
    sha(password)
  }
}
