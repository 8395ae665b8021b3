/** lib/trimRegex.js: a constraint's string form made into a bare matcher fragment. */
module TrimRegex {
  import Strings

  /** `str.slice(1)`: the string without its first character; the empty string stays empty. */
  function RemoveFirstCharacter(s: string): (r: string)
    ensures s == [] ==> r == []
    ensures s != [] ==> [s[0]] + r == s
  {
    if s == [] then [] else s[1..]
  }

  /** `str.charAt(0) === c` (`charAt` of an empty string is "", equal to no character). */
  predicate StartsWith(s: string, c: char) {
    |s| > 0 && s[0] == c
  }

  /** `str.charAt(str.length - 1) === c`. */
  predicate EndsWith(s: string, c: char) {
    |s| > 0 && s[|s| - 1] == c
  }

  /** `r` is `s` with `k` characters dropped in front and at most two at the end. */
  predicate Window(s: string, r: string, k: nat) {
    k <= |s| && r <= s[k..] && |s| - k - |r| <= 2
  }

  /** The two leading steps: a leading '/' and then a leading '^' go, each at most once. */
  function TrimFront(regex: string): string {
    var afterSlash := if StartsWith(regex, '/') then RemoveFirstCharacter(regex) else regex;
    if StartsWith(afterSlash, '^') then RemoveFirstCharacter(afterSlash) else afterSlash
  }

  /** The two trailing steps: a trailing '/' and then a trailing '$' go, each at most once. */
  function TrimBack(s: string): string {
    var beforeSlash := if EndsWith(s, '/') then Strings.RemoveLastCharacter(s) else s;
    if EndsWith(beforeSlash, '$') then Strings.RemoveLastCharacter(beforeSlash) else beforeSlash
  }

  /** Strips, each at most once and in this order, a leading '/', a leading '^', a trailing '/' and a trailing '$'. */
  function Trimmed(regex: string): string {
    TrimBack(TrimFront(regex))
  }

  /** `trimRegex(regex)`: the four conditional reassignments of the local string, in source order. */
  method TrimRegex(regex: string) returns (regexString: string)
    ensures regexString == Trimmed(regex)
  {
    regexString := regex;
    if StartsWith(regexString, '/') {
      regexString := RemoveFirstCharacter(regexString);
    }
    if StartsWith(regexString, '^') {
      regexString := RemoveFirstCharacter(regexString);
    }
    if EndsWith(regexString, '/') {
      regexString := Strings.RemoveLastCharacter(regexString);
    }
    if EndsWith(regexString, '$') {
      regexString := Strings.RemoveLastCharacter(regexString);
    }
  }

  /** The front steps leave a suffix of the input, with at most two characters gone. */
  lemma TrimFrontSuffix(regex: string)
    ensures |regex| - 2 <= |TrimFront(regex)| <= |regex|
    ensures TrimFront(regex) == regex[|regex| - |TrimFront(regex)|..]
  {
    var afterSlash := if StartsWith(regex, '/') then RemoveFirstCharacter(regex) else regex;
    assert afterSlash == regex[|regex| - |afterSlash|..];
  }

  /** The back steps leave a prefix of their input, with at most two characters gone. */
  lemma TrimBackPrefix(s: string)
    ensures TrimBack(s) <= s && |s| - 2 <= |TrimBack(s)|
  {
  }

  /**
   * The result is a contiguous piece of the input with zero, one or two
   * characters gone from the front and at most two from the end.
   */
  lemma TrimRegexWindow(regex: string)
    ensures var r := Trimmed(regex);
      Window(regex, r, 0) || Window(regex, r, 1) || Window(regex, r, 2)
  {
    TrimFrontSuffix(regex);
    TrimBackPrefix(TrimFront(regex));
    assert Window(regex, Trimmed(regex), |regex| - |TrimFront(regex)|);
  }

  /** At most four characters go, as the two front and two back steps each drop at most one. */
  lemma TrimRegexLength(regex: string)
    ensures |regex| - 4 <= |Trimmed(regex)| <= |regex|
  {
    TrimRegexWindow(regex);
  }

  /** The input comes back unchanged exactly when it neither starts with '/' or '^' nor ends with '/' or '$'. */
  lemma TrimRegexUnchanged(regex: string)
    ensures Trimmed(regex) == regex <==>
            !(StartsWith(regex, '/') || StartsWith(regex, '^') || EndsWith(regex, '/') || EndsWith(regex, '$'))
  {
    var afterSlash := if StartsWith(regex, '/') then RemoveFirstCharacter(regex) else regex;
    var afterCaret := TrimFront(regex);
    var beforeSlash := if EndsWith(afterCaret, '/') then Strings.RemoveLastCharacter(afterCaret) else afterCaret;
    var r := Trimmed(regex);
    assert |r| <= |beforeSlash| <= |afterCaret| <= |afterSlash| <= |regex|;
    if r == regex {
      assert afterSlash == regex && afterCaret == regex && beforeSlash == regex;
    }
  }

  /** The string form of an anchored regular-expression literal `/^f$/`. */
  function AnchoredLiteral(fragment: string): string {
    "/^" + fragment + "$/"
  }

  /** Trimming the string form of `/^f$/` gives back exactly `f`, whatever `f` is. */
  lemma TrimAnchoredLiteral(fragment: string)
    ensures Trimmed(AnchoredLiteral(fragment)) == fragment
  {
    var s := AnchoredLiteral(fragment);
    assert s[1..] == "^" + fragment + "$/";
    assert s[1..][1..] == fragment + "$/";
    var t := fragment + "$/";
    assert t[..|t| - 1] == fragment + "$";
  }

  /** The constraint of test/laravelToExpress.js:42 loses its delimiters and anchors. */
  lemma TrimExample()
    ensures Trimmed("/^[a-zA-Z]*$/") == "[a-zA-Z]*"
  {
    assert "/^[a-zA-Z]*$/" == AnchoredLiteral("[a-zA-Z]*");
    TrimAnchoredLiteral("[a-zA-Z]*");
  }
}
