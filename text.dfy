/** The two string helpers the scalar rules rely on: Go's strings.TrimSpace
    (exactly, over the characters unicode.IsSpace accepts) and strings.ToLower
    (on ASCII letters only). */
module Text {

  /** unicode.IsSpace: the ASCII blanks '\t', '\n', '\v', '\f', '\r', ' ',
      then U+0085, U+00A0 and the other White_Space characters of Unicode. */
  predicate IsSpace(c: char)
  {
    || c == ' '
    || '\t' <= c <= '\r'
    || c == '\U{85}'
    || c == '\U{A0}'
    || c == '\U{1680}'
    || '\U{2000}' <= c <= '\U{200A}'
    || c == '\U{2028}'
    || c == '\U{2029}'
    || c == '\U{202F}'
    || c == '\U{205F}'
    || c == '\U{3000}'
  }

  predicate AllSpace(s: string)
  {
    forall i :: 0 <= i < |s| ==> IsSpace(s[i])
  }

  predicate IsUpperAscii(c: char)
  {
    'A' <= c <= 'Z'
  }

  /** Drops the leading white space: the result is the suffix of `s` that
      starts at its first non-space character. */
  function TrimLeft(s: string): (r: string)
    ensures |r| <= |s| && r == s[|s| - |r|..]
    ensures AllSpace(s[..|s| - |r|])
    ensures r == [] || !IsSpace(r[0])
  {
    if s != [] && IsSpace(s[0]) then
      var rest := s[1..];
      var r := TrimLeft(rest);
      assert rest[|rest| - |r|..] == s[|s| - |r|..];
      assert s[..|s| - |r|] == [s[0]] + rest[..|rest| - |r|];
      AllSpaceConcat([s[0]], rest[..|rest| - |r|]);
      r
    else
      s
  }

  /** Drops the trailing white space: the result is the prefix of `s` that
      ends at its last non-space character. */
  function TrimRight(s: string): (r: string)
    ensures |r| <= |s| && r == s[..|r|]
    ensures AllSpace(s[|r|..])
    ensures r == [] || !IsSpace(r[|r| - 1])
  {
    if s != [] && IsSpace(s[|s| - 1]) then
      var front := s[..|s| - 1];
      var r := TrimRight(front);
      assert front[..|r|] == s[..|r|];
      assert s[|r|..] == front[|r|..] + [s[|s| - 1]];
      AllSpaceConcat(front[|r|..], [s[|s| - 1]]);
      r
    else
      s
  }

  /** `t` is `s` with its leading and trailing white space cut off: a slice
      of `s` that is surrounded by white space only and neither starts nor
      ends with white space itself. */
  ghost predicate IsTrimOf(t: string, s: string)
  {
    && (t == [] || (!IsSpace(t[0]) && !IsSpace(t[|t| - 1])))
    && exists i :: 0 <= i <= |s| - |t| && t == s[i..i + |t|]
                   && AllSpace(s[..i]) && AllSpace(s[i + |t|..])
  }

  /** strings.TrimSpace: the slice of `s` between its leading and trailing
      white space; empty exactly when `s` holds nothing but white space. */
  function TrimSpace(s: string): (r: string)
    ensures IsTrimOf(r, s)
    ensures r == [] <==> AllSpace(s)
  {
    var t := TrimLeft(s);
    var r := TrimRight(t);
    TrimSpaceSlice(s, t, r);
    r
  }

  lemma TrimSpaceSlice(s: string, t: string, r: string)
    requires |t| <= |s| && t == s[|s| - |t|..] && AllSpace(s[..|s| - |t|])
    requires t == [] || !IsSpace(t[0])
    requires |r| <= |t| && r == t[..|r|] && AllSpace(t[|r|..])
    requires r == [] || !IsSpace(r[|r| - 1])
    ensures r == [] <==> AllSpace(s)
    ensures IsTrimOf(r, s)
  {
    var i := |s| - |t|;
    assert s[i..i + |r|] == t[..|r|];
    assert s[i + |r|..] == t[|r|..];
    if r == [] {
      assert s == s[..i] + t;
      AllSpaceConcat(s[..i], t);
    } else {
      assert r[0] == t[0];
    }
  }

  /** The trim of a string is unique, so IsTrimOf characterises TrimSpace. */
  lemma TrimUnique(t: string, s: string)
    requires IsTrimOf(t, s)
    ensures t == TrimSpace(s)
  {
    TrimsAgree(t, TrimSpace(s), s);
  }

  lemma TrimsAgree(t: string, u: string, s: string)
    requires IsTrimOf(t, s) && IsTrimOf(u, s)
    ensures t == u
  {
    var i :| 0 <= i <= |s| - |t| && t == s[i..i + |t|]
             && AllSpace(s[..i]) && AllSpace(s[i + |t|..]);
    var j :| 0 <= j <= |s| - |u| && u == s[j..j + |u|]
             && AllSpace(s[..j]) && AllSpace(s[j + |u|..]);
    SameSlice(s, t, i, u, j);
  }

  /** Two slices of `s`, each non-space at both ends and surrounded by white
      space only, are the same slice. */
  lemma SameSlice(s: string, t: string, i: nat, u: string, j: nat)
    requires t == [] || (!IsSpace(t[0]) && !IsSpace(t[|t| - 1]))
    requires u == [] || (!IsSpace(u[0]) && !IsSpace(u[|u| - 1]))
    requires i + |t| <= |s| && t == s[i..i + |t|] && AllSpace(s[..i]) && AllSpace(s[i + |t|..])
    requires j + |u| <= |s| && u == s[j..j + |u|] && AllSpace(s[..j]) && AllSpace(s[j + |u|..])
    ensures t == u
  {
    if t == [] {
      EmptyTrim(s, i);
      SpaceSlice(s, u, j);
    } else if u == [] {
      EmptyTrim(s, j);
      SpaceSlice(s, t, i);
    } else {
      assert s[i] == t[0] && s[j] == u[0];
      assert s[i + |t| - 1] == t[|t| - 1] && s[j + |u| - 1] == u[|u| - 1];
      NotInSpacePrefix(s, i, j);
      NotInSpacePrefix(s, j, i);
      NotInSpaceSuffix(s, i + |t| - 1, j + |u|);
      NotInSpaceSuffix(s, j + |u| - 1, i + |t|);
    }
  }

  lemma EmptyTrim(s: string, i: nat)
    requires i <= |s| && AllSpace(s[..i]) && AllSpace(s[i..])
    ensures AllSpace(s)
  {
    assert s == s[..i] + s[i..];
    AllSpaceConcat(s[..i], s[i..]);
  }

  lemma SpaceSlice(s: string, u: string, j: nat)
    requires j + |u| <= |s| && u == s[j..j + |u|] && AllSpace(s)
    ensures AllSpace(u)
  {
  }

  lemma NotInSpacePrefix(s: string, i: nat, j: nat)
    requires i < |s| && !IsSpace(s[i]) && j <= |s| && AllSpace(s[..j])
    ensures j <= i
  {
  }

  lemma NotInSpaceSuffix(s: string, k: nat, e: nat)
    requires k < |s| && !IsSpace(s[k]) && e <= |s| && AllSpace(s[e..])
    ensures k < e
  {
  }

  lemma AllSpaceConcat(a: string, b: string)
    requires AllSpace(a) && AllSpace(b)
    ensures AllSpace(a + b)
  {
    forall k | 0 <= k < |a + b| ensures IsSpace((a + b)[k]) {
      if k < |a| { assert (a + b)[k] == a[k]; }
      else { assert (a + b)[k] == b[k - |a|]; }
    }
  }

  function LowerChar(c: char): (d: char)
    ensures IsUpperAscii(c) ==> d as int == c as int + 32
    ensures !IsUpperAscii(c) ==> d == c
    ensures !IsUpperAscii(d)
    ensures IsSpace(d) == IsSpace(c)
  {
    if IsUpperAscii(c) then (c as int - 'A' as int + 'a' as int) as char else c
  }

  /** strings.ToLower on the ASCII letters: every 'A'..'Z' becomes its lower
      case letter and nothing else changes. */
  function ToLower(s: string): (r: string)
    ensures |r| == |s|
    ensures forall i :: 0 <= i < |r| ==> !IsUpperAscii(r[i])
    ensures forall i :: 0 <= i < |r| ==> IsSpace(r[i]) == IsSpace(s[i])
    ensures forall i :: 0 <= i < |r| ==> IsUpperAscii(s[i]) || r[i] == s[i]
    ensures forall i :: 0 <= i < |r| && IsUpperAscii(s[i]) ==> r[i] as int == s[i] as int + 32
  {
    seq(|s|, i requires 0 <= i < |s| => LowerChar(s[i]))
  }
}
