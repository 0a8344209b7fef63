module Strings {

  /** Text before the first slash can be told from what follows it. */
  lemma FirstSlash(a: string, x: string, b: string, y: string)
    requires '/' !in a && '/' !in b && a + "/" + x == b + "/" + y
    ensures a == b && x == y
  {
    var s, t := a + "/" + x, b + "/" + y;
    assert s[|a|] == '/' && t[|b|] == '/';
    assert |a| == |b|;
    assert s[..|a|] == a && t[..|b|] == b && s[|a| + 1..] == x && t[|b| + 1..] == y;
  }

  /** ... and a text without slash from one with a slash. */
  lemma NoSlash(a: string, b: string, y: string)
    requires '/' !in a
    ensures a != b + "/" + y
  {
    assert (b + "/" + y)[|b|] == '/';
  }
}
