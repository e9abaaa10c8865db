/** The handful of .NET string and path routines the loader relies on:
    ordinal case-insensitive equality, character search, substrings and
    Path.GetFileNameWithoutExtension. */
module Text {

  /** Ordinal upper-casing of one character (ASCII letters only). */
  function UpperAscii(c: char): (u: char)
    ensures 'a' <= c <= 'z' ==> u as int == c as int - 32
    ensures !('a' <= c <= 'z') ==> u == c
  {
    if 'a' <= c <= 'z' then (c as int - 32) as char else c
  }

  /** string.Equals(a, b, StringComparison.OrdinalIgnoreCase). */
  predicate EqualsIgnoreCase(a: string, b: string)
  {
    |a| == |b| && forall i :: 0 <= i < |a| ==> UpperAscii(a[i]) == UpperAscii(b[i])
  }

  /** Comparing ignoring case is an equivalence: names that compare equal to
      a common name compare equal to each other. */
  lemma EqualsIgnoreCaseTransitive(a: string, b: string, c: string)
    requires EqualsIgnoreCase(a, b) && EqualsIgnoreCase(b, c)
    ensures EqualsIgnoreCase(a, c) && EqualsIgnoreCase(c, a)
  {
  }

  /** s.IndexOf(c): the first position of c in s, or -1 if there is none. */
  function IndexOf(s: string, c: char): (k: int)
    ensures -1 <= k < |s|
    ensures k == -1 <==> c !in s
    ensures k >= 0 ==> s[k] == c && c !in s[..k]
  {
    if s == [] then -1
    else if s[0] == c then 0
    else
      var k := IndexOf(s[1..], c);
      assert s[1..][..if k < 0 then 0 else k] == s[1..if k < 0 then 1 else k + 1];
      if k < 0 then -1 else k + 1
  }

  /** The last position in s holding one of the characters cs, or -1; this is
      s.LastIndexOf(c) for cs == {c}. */
  function LastIndexOfAny(s: string, cs: set<char>): (k: int)
    ensures -1 <= k < |s|
    ensures k >= 0 ==> s[k] in cs
    ensures forall i :: k < i < |s| ==> s[i] !in cs
  {
    if s == [] then -1
    else if s[|s| - 1] in cs then |s| - 1
    else LastIndexOfAny(s[..|s| - 1], cs)
  }

  /** The characters Windows accepts as directory separators. */
  const Separators: set<char> := {'\\', '/'}

  /** Path.GetFileName: the part of the path after its last separator. */
  function FileName(path: string): (r: string)
    ensures |r| <= |path| && path[|path| - |r|..] == r
    ensures forall i :: 0 <= i < |r| ==> r[i] !in Separators
    ensures |r| < |path| ==> path[|path| - |r| - 1] in Separators
  {
    var k := LastIndexOfAny(path, Separators);
    path[k + 1..]
  }

  /** Path.GetFileNameWithoutExtension: the file name with its last '.' and
      everything after it removed (a name without '.' is kept whole). */
  function FileNameWithoutExtension(path: string): (r: string)
    ensures var f := FileName(path);
      |r| <= |f| && f[..|r|] == r &&
      (|r| == |f| ==> '.' !in f) &&
      (|r| < |f| ==> f[|r|] == '.' && '.' !in f[|r| + 1..])
  {
    var f := FileName(path);
    var dot := LastIndexOfAny(f, {'.'});
    if dot < 0 then f else f[..dot]
  }
}
