/** The shape of the codes `promo` issues (bot.py:88): six characters drawn
    with replacement from the upper-case letters and the decimal digits. */
module Promo {
  import Decimal

  /** `string.ascii_uppercase + string.digits`. */
  const Alphabet: string := "ABCDEFGHIJKLMNOPQRSTUVWXYZ0123456789"

  /** `k=6` in the call to `random.choices`. */
  const CodeLength: nat := 6

  /** The character at position `i` of the alphabet, by its code point. */
  function AlphabetChar(i: int): char
    requires 0 <= i < 36
  {
    if i < 26 then (65 + i) as char else (48 + i - 26) as char
  }

  lemma AlphabetPositions(i: int)
    requires 0 <= i < |Alphabet|
    ensures Alphabet[i] == AlphabetChar(i)
  {
  }

  predicate IsCodeChar(c: char)
  {
    'A' <= c <= 'Z' || Decimal.IsDigit(c)
  }

  /** A well-formed promo code. */
  predicate ValidCode(s: string)
  {
    |s| == CodeLength && forall i :: 0 <= i < |s| ==> IsCodeChar(s[i])
  }

  /** The position of a code character in the alphabet. */
  function IndexOf(c: char): (i: nat)
    requires IsCodeChar(c)
    ensures i < |Alphabet| && Alphabet[i] == c
  {
    var i := if 'A' <= c <= 'Z' then c as int - 'A' as int else c as int - '0' as int + 26;
    AlphabetPositions(i);
    i
  }

  /** A character can be drawn exactly when it is a code character. */
  lemma AlphabetMembers(c: char)
    ensures c in Alphabet <==> IsCodeChar(c)
  {
    if c in Alphabet {
      var i :| 0 <= i < |Alphabet| && Alphabet[i] == c;
      AlphabetPositions(i);
      assert IsCodeChar(c);
    }
    if IsCodeChar(c) {
      var i := IndexOf(c);
      assert Alphabet[i] == c;
    }
  }

  /** The code spelled by a sequence of draws, each an index into the alphabet. */
  function CodeFromPicks(picks: seq<nat>): (code: string)
    requires forall i :: 0 <= i < |picks| ==> picks[i] < |Alphabet|
    ensures |code| == |picks|
    ensures forall i :: 0 <= i < |code| ==> IsCodeChar(code[i])
  {
    var code := seq(|picks|, i requires 0 <= i < |picks| => Alphabet[picks[i]]);
    assert forall i :: 0 <= i < |picks| ==> code[i] == AlphabetChar(picks[i]) by {
      forall i | 0 <= i < |picks| ensures code[i] == AlphabetChar(picks[i]) {
        AlphabetPositions(picks[i]);
      }
    }
    code
  }

  /** The draws that spell a given code. */
  function PicksOf(code: string): (picks: seq<nat>)
    requires forall i :: 0 <= i < |code| ==> IsCodeChar(code[i])
    ensures |picks| == |code|
    ensures forall i :: 0 <= i < |picks| ==> picks[i] < |Alphabet|
  {
    seq(|code|, i requires 0 <= i < |code| => IndexOf(code[i]))
  }

  /** Six draws always spell a valid code. */
  lemma PicksMakeValidCode(picks: seq<nat>)
    requires |picks| == CodeLength && forall i :: 0 <= i < |picks| ==> picks[i] < |Alphabet|
    ensures ValidCode(CodeFromPicks(picks))
  {
  }

  /** Every valid code can come out of six draws: the generator reaches the
      whole code space. */
  lemma CodeFromPicksOnto(code: string)
    requires ValidCode(code)
    ensures CodeFromPicks(PicksOf(code)) == code
  {
    var c := CodeFromPicks(PicksOf(code));
    assert forall i :: 0 <= i < |code| ==> c[i] == code[i];
  }

  /** The draws are recovered from the code they spell, so no two draw
      sequences give the same code. */
  lemma PicksOfCodeFromPicks(picks: seq<nat>)
    requires forall i :: 0 <= i < |picks| ==> picks[i] < |Alphabet|
    ensures PicksOf(CodeFromPicks(picks)) == picks
  {
    var p := PicksOf(CodeFromPicks(picks));
    forall i | 0 <= i < |picks| ensures p[i] == picks[i] {
      AlphabetPositions(picks[i]);
    }
  }

  /** The code of bot.py:88: six draws with replacement from `A-Z0-9`,
      joined in order. The random source is an arbitrary choice of index per
      draw; `picks` records the draws made, so the code is their spelling. */
  method GenerateCode() returns (code: string, ghost picks: seq<nat>)
    ensures ValidCode(code)
    ensures |picks| == CodeLength && forall i :: 0 <= i < |picks| ==> picks[i] < |Alphabet|
    ensures code == CodeFromPicks(picks)
  {
    code, picks := "", [];
    while |code| < CodeLength
      invariant |code| == |picks| <= CodeLength
      invariant forall i :: 0 <= i < |picks| ==> picks[i] < |Alphabet|
      invariant forall i :: 0 <= i < |code| ==> code[i] == Alphabet[picks[i]]
      invariant forall i :: 0 <= i < |code| ==> IsCodeChar(code[i])
    {
      var k :| 0 <= k < |Alphabet|;
      AlphabetPositions(k);
      code, picks := code + [Alphabet[k]], picks + [k];
    }
  }
}
