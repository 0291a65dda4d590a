/**
 * The 7-character class code students type to join a class.
 */
module ClassCodeGenerator {

  const CHARACTERS: string := "ABCDEFGHIJKLMNOPQRSTUVWXYZ23456789"
  const LENGTH: nat := 7

  /** The alphabet has 34 symbols and leaves out '0' and '1'. */
  lemma AlphabetFacts()
    ensures |CHARACTERS| == 34
    ensures '0' !in CHARACTERS && '1' !in CHARACTERS
  {
  }

  /** The answers of SecureRandom.nextInt(34) that one code consumes: seven of them, each in [0, 34). */
  type Draws = d: seq<int> | |d| == LENGTH && forall k :: 0 <= k < |d| ==> 0 <= d[k] < 34
    witness [0, 0, 0, 0, 0, 0, 0]

  /**
   * The code a sequence of draws produces. The buffer is filled by a
   * count-down loop, so the first draw picks the last character and the
   * last draw the first.
   */
  function ClassCode(draws: Draws): (code: string)
    ensures |code| == LENGTH
    ensures forall j :: 0 <= j < |code| ==> code[j] in CHARACTERS && code[j] != '0' && code[j] != '1'
  {
    AlphabetFacts();
    seq(LENGTH, j requires 0 <= j < LENGTH => CHARACTERS[draws[LENGTH - 1 - j]])
  }

  /**
   * generateClassId: fills a 7-character buffer from its last position
   * down, one draw per position.
   */
  method GenerateClassId(draws: Draws) returns (code: string)
    ensures code == ClassCode(draws)
  {
    var count := LENGTH;
    var start, end := 0, |CHARACTERS|;
    var buffer := new char[count];
    var gap := end - start;
    var drawn := 0;
    while count != 0
      invariant 0 <= count <= LENGTH && drawn == LENGTH - count
      invariant forall j :: count <= j < LENGTH ==> buffer[j] == CHARACTERS[draws[LENGTH - 1 - j]]
    {
      count := count - 1;
      var ch := CHARACTERS[draws[drawn] + start];
      buffer[count] := ch;
      drawn := drawn + 1;
    }
    code := buffer[..];
  }
}
