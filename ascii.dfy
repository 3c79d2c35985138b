/** ASCII case mapping and Python's `str.capitalize`, restricted to ASCII:
    the first character is upper-cased and every other one lower-cased;
    characters that are not ASCII letters are left as they are. */
module Ascii {

  predicate IsUpper(c: char) { 'A' <= c <= 'Z' }

  predicate IsLower(c: char) { 'a' <= c <= 'z' }

  /** A non-empty name made of upper-case ASCII letters only, the form of
      every enumeration member name in the card model. */
  predicate IsUpperName(s: string) {
    |s| > 0 && forall i :: 0 <= i < |s| ==> IsUpper(s[i])
  }

  /** A string in which the character `c` does not occur. */
  predicate Avoids(s: string, c: char) {
    forall i :: 0 <= i < |s| ==> s[i] != c
  }

  function ToUpper(c: char): (u: char)
    ensures IsLower(c) ==> IsUpper(u)
    ensures !IsLower(c) ==> u == c
  {
    if IsLower(c) then (c as int - 32) as char else c
  }

  function ToLower(c: char): (l: char)
    ensures IsUpper(c) ==> IsLower(l) && ToUpper(l) == c
    ensures !IsUpper(c) ==> l == c
  {
    if IsUpper(c) then (c as int + 32) as char else c
  }

  /** Every character of `s` lower-cased (Python's `str.lower` on ASCII). */
  function LowerAll(s: string): (r: string)
    ensures |r| == |s|
    ensures forall i :: 0 <= i < |s| ==> r[i] == ToLower(s[i])
  {
    if s == [] then [] else [ToLower(s[0])] + LowerAll(s[1..])
  }

  /** Python's `str.capitalize` on ASCII text. */
  function Capitalize(s: string): (r: string)
    ensures |r| == |s|
    ensures |s| > 0 ==> r[0] == ToUpper(s[0])
    ensures forall i :: 1 <= i < |s| ==> r[i] == ToLower(s[i])
  {
    if s == [] then [] else [ToUpper(s[0])] + LowerAll(s[1..])
  }

  /** The contract of `Capitalize` determines its result: any string that
      meets it is the capitalized form. */
  lemma CapitalizeIs(s: string, t: string)
    requires |t| == |s|
    requires |s| > 0 ==> t[0] == ToUpper(s[0])
    requires forall i :: 1 <= i < |s| ==> t[i] == ToLower(s[i])
    ensures Capitalize(s) == t
  {
  }

  /** On an upper-case name, `capitalize` keeps the first letter and turns
      every later letter into its lower-case form. */
  lemma CapitalizeUpperName(s: string)
    requires IsUpperName(s)
    ensures |Capitalize(s)| == |s| && Capitalize(s)[0] == s[0]
    ensures forall i :: 1 <= i < |s| ==>
      IsLower(Capitalize(s)[i]) && ToUpper(Capitalize(s)[i]) == s[i]
  {
  }

  /** Two upper-case names with the same capitalized form are the same name,
      so capitalizing loses no information about a member name. */
  lemma CapitalizeInjective(a: string, b: string)
    requires IsUpperName(a) && IsUpperName(b)
    requires Capitalize(a) == Capitalize(b)
    ensures a == b
  {
    CapitalizeUpperName(a);
    CapitalizeUpperName(b);
    forall i | 0 <= i < |a|
      ensures a[i] == b[i]
    {
      if i > 0 {
        assert ToUpper(Capitalize(a)[i]) == a[i];
        assert ToUpper(Capitalize(b)[i]) == b[i];
      }
    }
  }

  /** Capitalizing an upper-case name introduces no character outside the
      ASCII letters, so it avoids every such character. */
  lemma CapitalizeAvoids(s: string, c: char)
    requires IsUpperName(s) && !IsUpper(c) && !IsLower(c)
    ensures Avoids(Capitalize(s), c)
  {
    CapitalizeUpperName(s);
  }

  /** If `x + rest == y + rest'`, neither `x` nor `y` contains `c`, and both
      `rest` and `rest'` start with `c`, then the split is the same on both
      sides: `c` marks where the first part ends. */
  lemma SplitAtSeparator(x: string, rest: string, y: string, rest': string, c: char)
    requires Avoids(x, c) && Avoids(y, c)
    requires |rest| > 0 && rest[0] == c && |rest'| > 0 && rest'[0] == c
    requires x + rest == y + rest'
    ensures x == y && rest == rest'
  {
    assert x == (x + rest)[..|x|];
    assert y == (y + rest')[..|y|];
    assert rest == (x + rest)[|x|..];
    assert rest' == (y + rest')[|y|..];
  }

  /** Two strings joined by the same separator, the first part in each free
      of the separator's first character, come apart the same way. */
  lemma JoinInjective(x: string, u: string, y: string, v: string, sep: string)
    requires |sep| > 0 && Avoids(x, sep[0]) && Avoids(y, sep[0])
    requires x + sep + u == y + sep + v
    ensures x == y && u == v
  {
    assert x + sep + u == x + (sep + u);
    assert y + sep + v == y + (sep + v);
    SplitAtSeparator(x, sep + u, y, sep + v, sep[0]);
    assert u == (sep + u)[|sep|..];
    assert v == (sep + v)[|sep|..];
  }

  /** The same, with a common prefix and suffix around the joined parts. */
  lemma FramedJoinInjective(pre: string, x: string, u: string, y: string, v: string, sep: string, post: string)
    requires |sep| > 0 && Avoids(x, sep[0]) && Avoids(y, sep[0])
    requires pre + x + sep + u + post == pre + y + sep + v + post
    ensures x == y && u == v
  {
    var l, r := pre + x + sep + u + post, pre + y + sep + v + post;
    assert x + sep + u == l[|pre|..|l| - |post|];
    assert y + sep + v == r[|pre|..|r| - |post|];
    JoinInjective(x, u, y, v, sep);
  }
}
