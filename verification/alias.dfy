/** Random alias generation. The process-wide PCG generator is an oracle:
    raws(k) is the k-th raw value it produces, and the position of the next
    unused value is threaded through explicitly. */
module Alias {

  const Alphabet: string := "qwertyuiopasdfghjklzxcvbnm1234567890"

  /** rand.IntN(n): a value in [0, n) drawn from one raw generator output. */
  function IntN(raw: nat, n: nat): (k: nat)
    requires n > 0
    ensures k < n
  {
    raw % n
  }

  /** The alphabet character picked by one raw generator output. */
  function Pick(raw: nat): char {
    Alphabet[IntN(raw, |Alphabet|)]
  }

  /** The alias of length l drawn from positions pos, pos+1, ..., pos+l-1. */
  function AliasFrom(raws: nat -> nat, pos: nat, l: nat): string {
    if l == 0 then "" else AliasFrom(raws, pos, l - 1) + [Pick(raws(pos + l - 1))]
  }

  /** The alias has length l and its k-th character is the one picked by the
      k-th draw. */
  lemma {:induction false} AliasFromAt(raws: nat -> nat, pos: nat, l: nat)
    ensures |AliasFrom(raws, pos, l)| == l
    ensures forall k :: 0 <= k < l ==> AliasFrom(raws, pos, l)[k] == Pick(raws(pos + k))
  {
    if l > 0 {
      AliasFromAt(raws, pos, l - 1);
    }
  }

  /** Every character of s is one of the alphabet's. */
  predicate InAlphabet(s: string) {
    forall k :: 0 <= k < |s| ==> s[k] in Alphabet
  }

  /** Every character of a generated alias belongs to the alphabet. */
  lemma AliasFromInAlphabet(raws: nat -> nat, pos: nat, l: nat)
    ensures InAlphabet(AliasFrom(raws, pos, l))
  {
    AliasFromAt(raws, pos, l);
  }

  /** generateAlias(l): appends l characters, each chosen by one draw from the
      shared generator, and leaves the generator l draws further on. */
  method GenerateAlias(raws: nat -> nat, pos: nat, l: nat) returns (alias: string, next: nat)
    ensures alias == AliasFrom(raws, pos, l)
    ensures next == pos + l
    ensures |alias| == l
    ensures forall k :: 0 <= k < l ==> alias[k] == Alphabet[IntN(raws(pos + k), |Alphabet|)]
  {
    var res := "";
    for i := 0 to l
      invariant res == AliasFrom(raws, pos, i)
    {
      res := res + [Alphabet[IntN(raws(pos + i), |Alphabet|)]];
    }
    alias := res;
    next := pos + l;
    AliasFromAt(raws, pos, l);
  }
}
