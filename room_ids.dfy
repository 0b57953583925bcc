/**
 * Room codes: `generateRoomId` draws six characters from a 32-symbol
 * alphabet without the look-alikes I, O, 0 and 1, and the create and join
 * handlers upper-case a code the user typed.
 */
module RoomIds {

  const Alphabet: string := "ABCDEFGHJKLMNPQRSTUVWXYZ23456789"
  const IdLength: nat := 6

  /** An upper-case letter or a digit other than the look-alikes I, O, 0 and 1. */
  predicate Unambiguous(c: char) {
    ('A' <= c <= 'Z' || '2' <= c <= '9') && c != 'I' && c != 'O' && c != '0' && c != '1'
  }

  /** The alphabet has 32 symbols, each of them unambiguous. */
  lemma AlphabetUnambiguous()
    ensures |Alphabet| == 32
    ensures forall i :: 0 <= i < |Alphabet| ==> Unambiguous(Alphabet[i])
  {
  }

  /** The alphabet position picked by one `Math.random()` draw in [0, 1). */
  function Pick(draw: real): (k: int)
    requires 0.0 <= draw < 1.0
    ensures 0 <= k < |Alphabet|
  {
    var k := (draw * |Alphabet| as real).Floor;
    assert k as real <= draw * 32.0 < 32.0;
    k
  }

  predicate ValidDraws(draws: seq<real>) {
    |draws| == IdLength && forall i :: 0 <= i < |draws| ==> 0.0 <= draws[i] < 1.0
  }

  /** The code built from six draws, one character per draw. */
  function IdFromDraws(draws: seq<real>): (id: string)
    requires ValidDraws(draws)
  {
    seq(IdLength, i requires 0 <= i < IdLength => Alphabet[Pick(draws[i])])
  }

  /** Every code built from draws has six characters of the alphabet. */
  lemma IdShape(draws: seq<real>)
    requires ValidDraws(draws)
    ensures |IdFromDraws(draws)| == IdLength
    ensures forall i :: 0 <= i < IdLength ==> IdFromDraws(draws)[i] in Alphabet
    ensures forall i :: 0 <= i < IdLength ==> Unambiguous(IdFromDraws(draws)[i])
  {
    AlphabetUnambiguous();
  }

  /** `generateRoomId()` (server.js:41-48); `draws` are the six `Math.random()` results. */
  method GenerateRoomId(draws: seq<real>) returns (id: string)
    requires ValidDraws(draws)
    ensures |id| == IdLength
    ensures forall i :: 0 <= i < |id| ==> id[i] in Alphabet && Unambiguous(id[i])
    ensures id == IdFromDraws(draws)
  {
    AlphabetUnambiguous();
    id := "";
    for i := 0 to IdLength
      invariant |id| == i
      invariant forall j :: 0 <= j < i ==> id[j] == Alphabet[Pick(draws[j])]
    {
      id := id + [Alphabet[Pick(draws[i])]];
    }
  }

  function UpperChar(c: char): char {
    if 'a' <= c <= 'z' then (c as int - 'a' as int + 'A' as int) as char else c
  }

  /** `toUpperCase()` on the ASCII letters of a code. */
  function Upper(s: string): (r: string)
    ensures |r| == |s|
    ensures forall i :: 0 <= i < |s| ==> !('a' <= r[i] <= 'z')
    ensures forall i :: 0 <= i < |s| && 'a' <= s[i] <= 'z' ==>
      'A' <= r[i] <= 'Z' && r[i] as int - 'A' as int == s[i] as int - 'a' as int
    ensures forall i :: 0 <= i < |s| && !('a' <= s[i] <= 'z') ==> r[i] == s[i]
  {
    seq(|s|, i requires 0 <= i < |s| => UpperChar(s[i]))
  }

  /** Upper-casing twice is upper-casing once. */
  lemma UpperIdempotent(s: string)
    ensures Upper(Upper(s)) == Upper(s)
  {
  }

  /** Generated codes are already upper case, so upper-casing leaves them unchanged. */
  lemma GeneratedIdIsUpper(draws: seq<real>)
    requires ValidDraws(draws)
    ensures Upper(IdFromDraws(draws)) == IdFromDraws(draws)
  {
    var id := IdFromDraws(draws);
    forall i | 0 <= i < |id| ensures Upper(id)[i] == id[i] {
      assert id[i] in Alphabet;
    }
  }
}
