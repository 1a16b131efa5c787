/** Searching a text for a character. */
module TextSearch {

  /** The position of the first `c` at or after `start`, or the length of the text. */
  function Find(text: string, c: char, start: nat): (pos: nat)
    requires start <= |text|
    ensures start <= pos <= |text|
    ensures forall i | start <= i < pos :: text[i] != c
    ensures pos < |text| ==> text[pos] == c
    decreases |text| - start
  {
    if start == |text| || text[start] == c then start else Find(text, c, start + 1)
  }
}
