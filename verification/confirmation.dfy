/** The interactive confirmation: the typed response, lowercased, must be "yes". */
module Confirmation {

  /** ASCII lowercasing of one character: the result is never an upper-case
      letter, exactly the upper-case letters change, and each becomes the
      lower-case letter at the same place in the alphabet. */
  function LowerChar(c: char): (r: char)
    ensures !('A' <= r <= 'Z')
    ensures 'A' <= c <= 'Z' <==> 'a' <= r <= 'z' && r != c
    ensures !('A' <= c <= 'Z') ==> r == c
    ensures 'A' <= c <= 'Z' ==> r as int - 'a' as int == c as int - 'A' as int
  {
    if 'A' <= c <= 'Z' then (c as int + 32) as char else c
  }

  /** `s.lower()` restricted to ASCII letters. */
  function Lower(s: string): (r: string)
    ensures |r| == |s|
    ensures forall i :: 0 <= i < |s| ==> r[i] == LowerChar(s[i])
  {
    if s == [] then [] else [LowerChar(s[0])] + Lower(s[1..])
  }

  /** The response the command accepts as a confirmation: exactly the eight
      spellings of "yes" in any mix of cases; anything longer, shorter or
      different (" yes", "y", "yes!") cancels. */
  function Confirms(response: string): (r: bool)
    ensures r <==>
      |response| == 3
      && (response[0] == 'y' || response[0] == 'Y')
      && (response[1] == 'e' || response[1] == 'E')
      && (response[2] == 's' || response[2] == 'S')
  {
    LowersToYesExactly(response);
    Lower(response) == "yes"
  }

  lemma LowersToYesExactly(response: string)
    ensures Lower(response) == "yes" <==>
      |response| == 3
      && (response[0] == 'y' || response[0] == 'Y')
      && (response[1] == 'e' || response[1] == 'E')
      && (response[2] == 's' || response[2] == 'S')
  {
    if |response| == 3 {
      var l := Lower(response);
      LowersTo(response[0], 'y', 'Y');
      LowersTo(response[1], 'e', 'E');
      LowersTo(response[2], 's', 'S');
      assert l == "yes" <==> l[0] == 'y' && l[1] == 'e' && l[2] == 's';
    }
  }

  /** The characters that lowercase to the lower-case letter `lower` are it and
      its upper-case partner `upper`. */
  lemma LowersTo(c: char, lower: char, upper: char)
    requires 'a' <= lower <= 'z' && upper as int == lower as int - 32
    ensures LowerChar(c) == lower <==> c == lower || c == upper
  {
  }
}
