/** String helpers of lib/removeLastCharacter.js. */
module Strings {

  /**
   * `str.slice(0, str.length - 1)`: the string without its final character;
   * the empty string stays empty.
   */
  function RemoveLastCharacter(s: string): (r: string)
    ensures r <= s
    ensures s == [] ==> r == []
    ensures s != [] ==> |r| == |s| - 1 && r + [s[|s| - 1]] == s
  {
    if s == [] then [] else s[..|s| - 1]
  }

  /** `list.join('')`: the strings of `parts` one after another. */
  function Concat(parts: seq<string>): string {
    if parts == [] then "" else parts[0] + Concat(parts[1..])
  }

  /** Joining two lists one after the other joins their joins. */
  lemma {:induction false} ConcatAppend(a: seq<string>, b: seq<string>)
    ensures Concat(a + b) == Concat(a) + Concat(b)
  {
    if a == [] {
      assert a + b == b;
    } else {
      assert (a + b)[1..] == a[1..] + b;
      ConcatAppend(a[1..], b);
    }
  }

  /** `list.join(sep)`. */
  function Join(parts: seq<string>, sep: string): string {
    if parts == [] then ""
    else if |parts| == 1 then parts[0]
    else parts[0] + sep + Join(parts[1..], sep)
  }
}
