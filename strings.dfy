/** The parts of Go's `strings` package the dispatcher relies on. */
module Strings {

  /** `s` starts with `prefix`: it is `prefix` followed by the rest of `s`. */
  predicate HasPrefix(s: string, prefix: string)
    ensures HasPrefix(s, prefix) <==> |prefix| <= |s| && s == prefix + s[|prefix|..]
  {
    |prefix| <= |s| && s[..|prefix|] == prefix
  }

  /** `s` ends with `suffix`: it is the rest of `s` followed by `suffix`. */
  predicate HasSuffix(s: string, suffix: string)
    ensures HasSuffix(s, suffix) <==> |suffix| <= |s| && s == s[..|s| - |suffix|] + suffix
  {
    |suffix| <= |s| && s[|s| - |suffix|..] == suffix
  }

  const KelvinSign: char := '\U{212A}'
  const CapitalIWithDot: char := '\U{130}'

  /** Go's `unicode.ToLower` on the characters whose lower case is an ASCII
      letter: 'A'..'Z', the Kelvin sign (lowered to 'k') and the capital I with
      dot above (lowered to 'i'). Every other character is kept as it is. */
  function LowerChar(c: char): (d: char)
    ensures 'A' <= c <= 'Z' ==> d as int == c as int + 32
    ensures d != c ==> 'A' <= c <= 'Z' || c == KelvinSign || c == CapitalIWithDot
    ensures c == KelvinSign ==> d == 'k'
    ensures c == CapitalIWithDot ==> d == 'i'
    ensures !('A' <= d <= 'Z')
  {
    if 'A' <= c <= 'Z' then (c as int + 32) as char
    else if c == KelvinSign then 'k'
    else if c == CapitalIWithDot then 'i'
    else c
  }

  /** Go's `strings.ToLower`, character by character. */
  function ToLower(s: string): (r: string)
    ensures |r| == |s|
    ensures forall i :: 0 <= i < |s| ==> r[i] == LowerChar(s[i])
  {
    seq(|s|, i requires 0 <= i < |s| => LowerChar(s[i]))
  }

  /** A suffix test on the lower-cased string compares the last characters of
      `s` one by one, each lowered. */
  lemma SuffixIgnoringCase(s: string, suffix: string)
    ensures HasSuffix(ToLower(s), suffix) <==>
      |suffix| <= |s| &&
      forall i :: 0 <= i < |suffix| ==> LowerChar(s[|s| - |suffix| + i]) == suffix[i]
  {
    var t := ToLower(s);
    if |suffix| <= |s| {
      var tail := t[|s| - |suffix|..];
      assert forall i :: 0 <= i < |suffix| ==> tail[i] == LowerChar(s[|s| - |suffix| + i]);
      assert HasSuffix(t, suffix) <==> tail == suffix;
    }
  }
}
