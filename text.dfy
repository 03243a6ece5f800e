/** The two string operations the moderation adapter relies on:
    `str.lower()` and the substring test `needle in hay`. */
module Text {

  predicate IsUpper(c: char) {
    'A' <= c <= 'Z'
  }

  /** Lower-cases one character. Only the ASCII letters A-Z are mapped; see README. */
  function LowerChar(c: char): (d: char)
    ensures !IsUpper(d)
    ensures IsUpper(c) ==> d as int == c as int + 32
    ensures !IsUpper(c) ==> d == c
  {
    if IsUpper(c) then (c as int + 32) as char else c
  }

  /** `s.lower()`: the same length, every character lower-cased. */
  function Lower(s: string): (r: string)
    ensures |r| == |s|
    ensures forall i :: 0 <= i < |s| ==> r[i] == LowerChar(s[i])
  {
    seq(|s|, i requires 0 <= i < |s| => LowerChar(s[i]))
  }

  /** Lower-casing twice is lower-casing once. */
  lemma LowerIdempotent(s: string)
    ensures Lower(Lower(s)) == Lower(s)
  {
  }

  /** `needle in hay`: some position of `hay` starts with `needle`. */
  function Contains(hay: string, needle: string): (b: bool)
    ensures b <==> exists i :: 0 <= i <= |hay| && needle <= hay[i..]
    decreases |hay|
  {
    if needle <= hay then
      assert hay[0..] == hay;
      true
    else if hay == [] then false
    else
      assert forall j :: 1 <= j <= |hay| ==> hay[1..][j - 1..] == hay[j..];
      Contains(hay[1..], needle)
  }

  /** A text that contains `prefix + rest` also contains `prefix`: the reason
      why a shorter code shadows every longer code that starts with it. */
  lemma ContainsPrefix(hay: string, prefix: string, rest: string)
    requires Contains(hay, prefix + rest)
    ensures Contains(hay, prefix)
  {
    var i :| 0 <= i <= |hay| && prefix + rest <= hay[i..];
    assert prefix <= hay[i..];
  }
}
