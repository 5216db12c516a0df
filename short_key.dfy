/**
 * The short-key generator. The secure random source is replaced by the
 * sequence of indices it would have drawn, one per character, each below
 * the size of the alphabet.
 */
module ShortKey {

  /** Number of characters in a generated key. */
  const SHORT_KEY_LENGTH: nat := 6

  /** The 62-symbol alphabet keys are drawn from, in the source's order:
      upper case, lower case, then digits (written as three pieces so that
      the verifier can index into it). */
  const ALPHANUMERIC_CHARS: string :=
    "ABCDEFGHIJKLMNOPQRSTUVWXYZ" + "abcdefghijklmnopqrstuvwxyz" + "0123456789"

  predicate IsAlphanumericChar(c: char)
  {
    'A' <= c <= 'Z' || 'a' <= c <= 'z' || '0' <= c <= '9'
  }

  /** Every character of `s` is one of the alphabet's symbols. */
  predicate IsAlphanumeric(s: string)
  {
    forall i :: 0 <= i < |s| ==> IsAlphanumericChar(s[i])
  }

  /** A well-formed output of the random source for one key: exactly
      SHORT_KEY_LENGTH draws, each a valid index into the alphabet. */
  predicate ValidDraws(draws: seq<int>)
  {
    |draws| == SHORT_KEY_LENGTH && AreIndices(draws)
  }

  predicate AreIndices(draws: seq<int>)
  {
    forall i :: 0 <= i < |draws| ==> 0 <= draws[i] < |ALPHANUMERIC_CHARS|
  }

  /** The code point at each position of the alphabet. */
  lemma AlphabetLayout(i: int)
    requires 0 <= i < |ALPHANUMERIC_CHARS|
    ensures ALPHANUMERIC_CHARS[i] as int ==
      if i < 26 then 'A' as int + i
      else if i < 52 then 'a' as int + (i - 26)
      else '0' as int + (i - 52)
  {
  }

  /** The symbol at position `i` of the alphabet is alphanumeric and sits
      at its own index. */
  lemma AlphabetAt(i: int)
    requires 0 <= i < |ALPHANUMERIC_CHARS|
    ensures IsAlphanumericChar(ALPHANUMERIC_CHARS[i])
    ensures IndexOf(ALPHANUMERIC_CHARS[i]) == i
  {
    AlphabetLayout(i);
  }

  /** Position of an alphanumeric character in the alphabet: the inverse of
      indexing into it. */
  function IndexOf(c: char): (i: int)
    requires IsAlphanumericChar(c)
    ensures 0 <= i < |ALPHANUMERIC_CHARS|
  {
    if 'A' <= c <= 'Z' then c as int - 'A' as int
    else if 'a' <= c <= 'z' then 26 + (c as int - 'a' as int)
    else 52 + (c as int - '0' as int)
  }

  lemma CharAtIndexOf(c: char)
    requires IsAlphanumericChar(c)
    ensures ALPHANUMERIC_CHARS[IndexOf(c)] == c
  {
    AlphabetLayout(IndexOf(c));
  }

  /** A character is one of ALPHANUMERIC_CHARS exactly when it is a letter or a digit. */
  lemma InAlphabetIff(c: char)
    ensures c in ALPHANUMERIC_CHARS <==> IsAlphanumericChar(c)
  {
    if c in ALPHANUMERIC_CHARS {
      var i :| 0 <= i < |ALPHANUMERIC_CHARS| && ALPHANUMERIC_CHARS[i] == c;
      AlphabetAt(i);
    }
    if IsAlphanumericChar(c) {
      CharAtIndexOf(c);
    }
  }

  /** The key a sequence of draws produces: character k is the alphabet
      symbol at the k-th drawn index. */
  function KeyOf(draws: seq<int>): (key: string)
    requires AreIndices(draws)
    ensures |key| == |draws|
    ensures forall k :: 0 <= k < |key| ==> key[k] == ALPHANUMERIC_CHARS[draws[k]]
  {
    seq(|draws|, k requires 0 <= k < |draws| => ALPHANUMERIC_CHARS[draws[k]])
  }

  /** The draws that produce an alphanumeric key: the inverse of KeyOf. */
  function DrawsOf(key: string): (draws: seq<int>)
    requires IsAlphanumeric(key)
    ensures |draws| == |key| && AreIndices(draws)
  {
    seq(|key|, k requires 0 <= k < |key| => IndexOf(key[k]))
  }

  /** Every key KeyOf yields is alphanumeric. */
  lemma KeyOfIsAlphanumeric(draws: seq<int>)
    requires AreIndices(draws)
    ensures IsAlphanumeric(KeyOf(draws))
  {
    var key := KeyOf(draws);
    forall k | 0 <= k < |key| ensures IsAlphanumericChar(key[k]) {
      AlphabetAt(draws[k]);
    }
  }

  /** Distinct draws give distinct keys: the draws can be read back. */
  lemma DrawsOfKeyOf(draws: seq<int>)
    requires AreIndices(draws)
    ensures IsAlphanumeric(KeyOf(draws)) && DrawsOf(KeyOf(draws)) == draws
  {
    KeyOfIsAlphanumeric(draws);
    var back := DrawsOf(KeyOf(draws));
    forall k | 0 <= k < |draws| ensures back[k] == draws[k] {
      AlphabetAt(draws[k]);
    }
  }

  /** Every alphanumeric key is produced by some draws, so a uniform source
      makes every key of length SHORT_KEY_LENGTH equally likely. */
  lemma KeyOfDrawsOf(key: string)
    requires IsAlphanumeric(key)
    ensures KeyOf(DrawsOf(key)) == key
  {
    var again := KeyOf(DrawsOf(key));
    forall k | 0 <= k < |key| ensures again[k] == key[k] {
      CharAtIndexOf(key[k]);
    }
  }
}
