/** String helpers standing in for the .NET string operations the dumpers use. */
module Text {

  /** `s.EndsWith(suffix)`, taken as an ordinal (character by character)
      comparison; every string ends with "". */
  predicate EndsWith(s: string, suffix: string)
  {
    |suffix| <= |s| && s[|s| - |suffix|..] == suffix
  }

  /** `StringBuilder.Append(c, n)`: `n` copies of `c`. */
  function Repeat(c: char, n: nat): (r: string)
    ensures |r| == n
    ensures forall i :: 0 <= i < |r| ==> r[i] == c
  {
    if n == 0 then [] else [c] + Repeat(c, n - 1)
  }

  /** Deletes every character of `s` that lies in `cs`, keeping the others in order. */
  function RemoveAll(s: string, cs: set<char>): (r: string)
    ensures |r| <= |s|
    ensures forall i :: 0 <= i < |r| ==> r[i] !in cs
  {
    if s == [] then []
    else (if s[0] in cs then [] else [s[0]]) + RemoveAll(s[1..], cs)
  }

  /** `s.Replace(c.ToString(), "")`: deletes every occurrence of `c`. */
  function RemoveChar(s: string, c: char): (r: string)
  {
    RemoveAll(s, {c})
  }

  /** RemoveAll distributes over concatenation: what is kept of `a` comes before what is kept of `b`. */
  lemma {:induction false} RemoveAllAppend(a: string, b: string, cs: set<char>)
    ensures RemoveAll(a + b, cs) == RemoveAll(a, cs) + RemoveAll(b, cs)
  {
    if a != [] {
      assert (a + b)[1..] == a[1..] + b;
      RemoveAllAppend(a[1..], b, cs);
    } else {
      assert a + b == b;
    }
  }

  /** A character outside `cs` survives, one inside it is deleted. */
  lemma RemoveAllSingle(c: char, cs: set<char>)
    ensures RemoveAll([c], cs) == if c in cs then [] else [c]
  {
    assert [c][1..] == [];
  }

  /** Deleting the characters of `a` and then those of `b` deletes those of `a + b`. */
  lemma {:induction false} RemoveAllTwice(s: string, a: set<char>, b: set<char>)
    ensures RemoveAll(RemoveAll(s, a), b) == RemoveAll(s, a + b)
  {
    if s != [] {
      var head := if s[0] in a then [] else [s[0]];
      RemoveAllAppend(head, RemoveAll(s[1..], a), b);
      RemoveAllTwice(s[1..], a, b);
      if s[0] !in a {
        RemoveAllSingle(s[0], b);
      }
    }
  }

  /** `s.Replace(a, b)` for two characters. */
  function ReplaceChar(s: string, a: char, b: char): (r: string)
    ensures |r| == |s|
    ensures forall i :: 0 <= i < |s| ==> r[i] == (if s[i] == a then b else s[i])
  {
    if s == [] then [] else [if s[0] == a then b else s[0]] + ReplaceChar(s[1..], a, b)
  }

  /** `s.IndexOf(c)`: the first position of `c`, or -1. */
  function IndexOf(s: string, c: char): (r: int)
    ensures -1 <= r < |s|
    ensures r == -1 <==> c !in s
    ensures 0 <= r ==> s[r] == c && c !in s[..r]
  {
    if s == [] then -1
    else if s[0] == c then 0
    else
      var k := IndexOf(s[1..], c);
      assert s[1..][..k + 1] == s[1..k + 2];
      if k == -1 then -1 else k + 1
  }

  predicate IsAsciiUpper(c: char) { 'A' <= c <= 'Z' }

  /** Lower-cases the first character when it is an ASCII capital; the rest is kept. */
  function ToLowerFirst(s: string): (r: string)
    ensures |r| == |s|
    ensures 0 < |s| ==> r[1..] == s[1..]
    ensures 0 < |s| ==> !IsAsciiUpper(r[0])
    ensures 0 < |s| && !IsAsciiUpper(s[0]) ==> r == s
    ensures 0 < |s| && IsAsciiUpper(s[0]) ==> 'a' <= r[0] <= 'z' && r[0] as int - 'a' as int == s[0] as int - 'A' as int
  {
    if s != [] && IsAsciiUpper(s[0]) then [(s[0] as int + 32) as char] + s[1..] else s
  }
}
