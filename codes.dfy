/** Room codes: shareable six-symbol identifiers over capital letters and digits,
    the random draws they are spelt from, and the ASCII upper-casing applied to
    codes typed in by receivers. */
module RoomCodes {

  /** Number of symbols in a room code. */
  const CodeLength: nat := 6

  /** The population of each pick: the capital letters followed by the digits. */
  const Alphabet: string := "ABCDEFGHIJKLMNOPQRSTUVWXYZ0123456789"

  /** One pick of the random draw: a position in Alphabet. */
  type Symbol = k: nat | k < 36

  /** A random draw of CodeLength picks with replacement. */
  type Draw = d: seq<Symbol> | |d| == CodeLength witness [0, 0, 0, 0, 0, 0]

  predicate IsCodeChar(ch: char) {
    'A' <= ch <= 'Z' || '0' <= ch <= '9'
  }

  /** The shape every code handed out by the generator has. */
  predicate IsRoomCode(s: string) {
    |s| == CodeLength && forall i :: 0 <= i < |s| ==> IsCodeChar(s[i])
  }

  /** The character at position k of Alphabet, by arithmetic. */
  function SymbolChar(k: Symbol): char {
    if k < 26 then ('A' as int + k) as char else ('0' as int + (k - 26)) as char
  }

  lemma AlphabetAt(k: Symbol)
    ensures Alphabet[k] == SymbolChar(k) && IsCodeChar(Alphabet[k])
  {
  }

  /** Joins the picked characters into a code. */
  function Spell(d: Draw): (code: string)
    ensures IsRoomCode(code)
    ensures forall i :: 0 <= i < CodeLength ==> code[i] == Alphabet[d[i]]
  {
    var code := seq(CodeLength, i requires 0 <= i < CodeLength => Alphabet[d[i]]);
    forall i | 0 <= i < CodeLength ensures IsCodeChar(code[i]) {
      AlphabetAt(d[i]);
    }
    code
  }

  /** Different draws give different codes. */
  lemma SpellInjective(d1: Draw, d2: Draw)
    ensures Spell(d1) == Spell(d2) ==> d1 == d2
  {
    if Spell(d1) == Spell(d2) {
      forall i | 0 <= i < CodeLength ensures d1[i] == d2[i] {
        AlphabetAt(d1[i]);
        AlphabetAt(d2[i]);
        assert Spell(d1)[i] == Spell(d2)[i];
      }
    }
  }

  /** Every well-formed code is the spelling of some draw, so the draws
      reach every code. */
  lemma SpellOnto(code: string)
    requires IsRoomCode(code)
    ensures exists d: Draw :: Spell(d) == code
  {
    var d: Draw := seq(CodeLength, i requires 0 <= i < CodeLength =>
      var ch := code[i];
      (if 'A' <= ch <= 'Z' then ch as int - 'A' as int else 26 + ch as int - '0' as int) as Symbol);
    forall i | 0 <= i < CodeLength ensures Spell(d)[i] == code[i] {
      AlphabetAt(d[i]);
    }
    assert Spell(d) == code;
  }

  predicate IsLower(ch: char) {
    'a' <= ch <= 'z'
  }

  /** ASCII upper-casing of one character. */
  function UpperChar(ch: char): (u: char)
    ensures IsLower(ch) ==> 'A' <= u <= 'Z' && u as int + 32 == ch as int
    ensures !IsLower(ch) ==> u == ch
  {
    if IsLower(ch) then (ch as int - 32) as char else ch
  }

  /** ASCII upper-casing of a string. */
  function Upper(s: string): (u: string)
    ensures |u| == |s|
    ensures forall i :: 0 <= i < |s| ==> !IsLower(u[i])
    ensures forall i :: 0 <= i < |s| && !IsLower(s[i]) ==> u[i] == s[i]
    ensures forall i :: 0 <= i < |s| && IsLower(s[i]) ==> u[i] as int + 32 == s[i] as int
  {
    seq(|s|, i requires 0 <= i < |s| => UpperChar(s[i]))
  }

  /** Upper-casing twice is upper-casing once. */
  lemma UpperIdempotent(s: string)
    ensures Upper(Upper(s)) == Upper(s)
  {
  }

  /** Upper-casing leaves a well-formed room code as it is. */
  lemma UpperOfRoomCode(code: string)
    requires IsRoomCode(code)
    ensures Upper(code) == code
  {
  }

  /** A string upper-cases to a room code exactly when it is that code with
      any of its letters written in lower case: the matching receivers get. */
  lemma UpperMatchesRoomCode(s: string, code: string)
    requires IsRoomCode(code)
    ensures Upper(s) == code <==>
      |s| == |code| &&
      forall i :: 0 <= i < |s| ==> s[i] == code[i] || ('A' <= code[i] <= 'Z' && s[i] as int == code[i] as int + 32)
  {
  }
}
