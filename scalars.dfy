/** The four scalar rules of main.go: each takes the string payload of an
    `S`, `N`, `BOOL` or `NULL` node and yields a native value or
    InvalidValueError. The library parsers they call are parameters. */
module Scalars {
  import opened Values
  import opened Text

  /** truthyBooleanValues and falsyBooleanValues, entry for entry. */
  const TruthyBooleanValues: seq<string> := ["1", "t", "T", "true", "TRUE", "True"]
  const FalsyBooleanValues: seq<string> := ["0", "f", "F", "false", "FALSE", "False"]

  /** The tokens that can still match after lower-casing. */
  const TruthyTokens: set<string> := {"1", "t", "true"}
  const FalsyTokens: set<string> := {"0", "f", "false"}

  /** The token the boolean and null rules look up:
      strings.TrimSpace(strings.ToLower(s)). */
  function Normalize(s: string): (r: string)
    ensures IsTrimOf(r, ToLower(s))
    ensures forall i :: 0 <= i < |r| ==> !IsUpperAscii(r[i])
    ensures r == [] <==> AllSpace(s)
  {
    var lower := ToLower(s);
    var r := TrimSpace(lower);
    LowerTrimmed(s, lower, r);
    r
  }

  lemma LowerTrimmed(s: string, lower: string, r: string)
    requires lower == ToLower(s) && IsTrimOf(r, lower)
    requires r == [] <==> AllSpace(lower)
    ensures forall i :: 0 <= i < |r| ==> !IsUpperAscii(r[i])
    ensures r == [] <==> AllSpace(s)
  {
    var i :| 0 <= i <= |lower| - |r| && r == lower[i..i + |r|]
             && AllSpace(lower[..i]) && AllSpace(lower[i + |r|..]);
    assert forall k :: 0 <= k < |r| ==> r[k] == lower[i + k];
    assert AllSpace(lower) <==> AllSpace(s);
  }

  /** transformString: white space is trimmed; an empty remainder is
      invalid; an RFC 3339 date-time becomes its Unix seconds; anything else
      stays the trimmed string. */
  function TransformString(parseRfc3339: string -> Option<Int64>, s: string): (r: Outcome)
    ensures r == Invalid <==> AllSpace(s)
    ensures r.Ok? ==> r.value.VInt? || r.value.VString?
    ensures r.Ok? && r.value.VString? ==>
              var t := r.value.str;
              t != [] && IsTrimOf(t, s) && parseRfc3339(t) == None
    ensures r.Ok? && r.value.VInt? ==> parseRfc3339(TrimSpace(s)) == Some(r.value.unix)
    ensures !AllSpace(s) && parseRfc3339(TrimSpace(s)).Some? ==> r.Ok? && r.value.VInt?
  {
    var t := TrimSpace(s);
    if t == "" then Invalid
    else
      match parseRfc3339(t)
      case Some(u) => Ok(VInt(u))
      case None => Ok(VString(t))
  }

  /** transformNumber: the trimmed payload must parse as a float64. */
  function TransformNumber(parseFloat: string -> Option<Float>, s: string): (r: Outcome)
    ensures r.Ok? <==> parseFloat(TrimSpace(s)).Some?
    ensures r.Ok? ==> r.value == VFloat(parseFloat(TrimSpace(s)).value)
  {
    match parseFloat(TrimSpace(s))
    case Some(n) => Ok(VFloat(n))
    case None => Invalid
  }

  /** transformBool: a truthy token gives true, a falsy one false, anything
      else is invalid. Only the lower-case table entries can ever match. */
  function TransformBool(s: string): (r: Outcome)
    ensures r == Ok(VBool(true)) <==> Normalize(s) in TruthyTokens
    ensures r == Ok(VBool(false)) <==> Normalize(s) in FalsyTokens
    ensures r == Invalid <==> Normalize(s) !in TruthyTokens + FalsyTokens
  {
    var token := Normalize(s);
    NormalizedMembership(s);
    TablesDisjoint();
    if token in TruthyBooleanValues then Ok(VBool(true))
    else if token in FalsyBooleanValues then Ok(VBool(false))
    else Invalid
  }

  /** transformNull: only a truthy token gives null; every other token,
      falsy ones included, is invalid. */
  function TransformNull(s: string): (r: Outcome)
    ensures r == Ok(VNull) <==> Normalize(s) in TruthyTokens
    ensures r == Ok(VNull) || r == Invalid
  {
    var token := Normalize(s);
    NormalizedMembership(s);
    if token in TruthyBooleanValues then Ok(VNull) else Invalid
  }

  /** After lower-casing, membership in the Go tables is membership in the
      lower-case token sets: "T", "TRUE", "True", "F", "FALSE" and "False"
      can never be matched. */
  lemma NormalizedMembership(s: string)
    ensures Normalize(s) in TruthyBooleanValues <==> Normalize(s) in TruthyTokens
    ensures Normalize(s) in FalsyBooleanValues <==> Normalize(s) in FalsyTokens
  {
    LowerCaseMembership(Normalize(s));
  }

  lemma LowerCaseMembership(n: string)
    requires forall i :: 0 <= i < |n| ==> !IsUpperAscii(n[i])
    ensures n in TruthyBooleanValues <==> n in TruthyTokens
    ensures n in FalsyBooleanValues <==> n in FalsyTokens
  {
    if |n| > 0 {
      assert !IsUpperAscii(n[0]);
    }
  }

  /** The two tables share no token, so the boolean rule never has to choose. */
  lemma TablesDisjoint()
    ensures forall t :: t in FalsyBooleanValues ==> t !in TruthyBooleanValues
  {
  }

  /** No lower-case token is both truthy and falsy. */
  lemma TokensDisjoint()
    ensures TruthyTokens !! FalsyTokens
  {
  }

  /** The null rule accepts exactly the payloads the boolean rule reads as
      true; a payload the boolean rule reads as false is invalid as NULL. */
  lemma NullAgreesWithTruthyBool(s: string)
    ensures TransformNull(s).Ok? <==> TransformBool(s) == Ok(VBool(true))
    ensures TransformBool(s) == Ok(VBool(false)) ==> TransformNull(s) == Invalid
  {
  }
}
