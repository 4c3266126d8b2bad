/** Concrete documents and the results the converter gives for them. The
    library parsers and the visit order stay parameters; each example only
    assumes what the library would answer for the strings it looks at. */
module Examples {
  import opened Values
  import opened Text
  import opened Scalars
  import opened Transform
  import opened Properties

  /** A string that neither starts nor ends with white space is its own trim. */
  lemma TrimmedAlready(s: string)
    requires s != [] && !IsSpace(s[0]) && !IsSpace(s[|s| - 1])
    ensures TrimSpace(s) == s
  {
    assert s[..0] == [] && s[|s|..] == [] && s[0..|s|] == s;
    TrimUnique(s, s);
  }

  lemma NormalizesTo(s: string, t: string)
    requires ToLower(s) == t && t != [] && !IsSpace(t[0]) && !IsSpace(t[|t| - 1])
    ensures Normalize(s) == t
  {
    TrimmedAlready(t);
  }

  /** Lower-casing leaves a string without capitals unchanged. */
  lemma LowerUnchanged(s: string)
    requires forall i :: 0 <= i < |s| ==> !IsUpperAscii(s[i])
    ensures ToLower(s) == s
  {
  }

  // The token examples below take the string as a parameter fixed by their
  // `requires`: a literal argument makes the verifier evaluate the whole
  // rule on it eagerly, which is slow and unstable.

  /** Upper-case spellings of the tokens are accepted. */
  lemma BoolUpperCase(s: string)
    requires s == "TRUE"
    ensures TransformBool(s) == Ok(VBool(true))
  {
    var t := "true";
    assert ToLower(s) == t by {
      forall i | 0 <= i < |s| ensures ToLower(s)[i] == t[i] {
        assert s[i] == "TRUE"[i];
      }
    }
    NormalizesTo(s, t);
  }

  /** "true" is null. */
  lemma NullTrue(s: string)
    requires s == "true"
    ensures TransformNull(s) == Ok(VNull)
  {
    LowerUnchanged(s);
    NormalizesTo(s, s);
  }

  /** "false" is false as BOOL but invalid as NULL. */
  lemma NullFalse(s: string)
    requires s == "false"
    ensures TransformBool(s) == Ok(VBool(false))
    ensures TransformNull(s) == Invalid
  {
    LowerUnchanged(s);
    NormalizesTo(s, s);
    TokensDisjoint();
  }

  lemma StringIsTrimmed(parseRfc3339: string -> Option<Int64>)
    requires parseRfc3339("hi") == None
    ensures TransformString(parseRfc3339, "  hi  ") == Ok(VString("hi"))
  {
    var s := "  hi  ";
    assert s[2..4] == "hi" && s[..2] == "  " && s[4..] == "  ";
    assert IsTrimOf("hi", s);
    TrimUnique("hi", s);
  }

  /** `{"S": str}`, for a `str` without surrounding white space that is not
      a date-time, is the string itself. */
  lemma StringElement(rt: Runtime, node: map<string, Json>, str: string)
    requires str != [] && !IsSpace(str[0]) && !IsSpace(str[|str| - 1])
    requires rt.parseRfc3339(str) == None
    requires node == map["S" := JString(str)] && VisitsAll(rt, node)
    ensures TransformedValue(rt, node) == Ok(VString(str))
  {
    SingleTag(rt, "S", JString(str));
    TrimmedAlready(str);
  }

  /** `{"N": num}` is invalid when the trimmed `num` does not parse. */
  lemma BadNumberElement(rt: Runtime, node: map<string, Json>, num: string)
    requires rt.parseFloat(TrimSpace(num)) == None
    requires node == map["N" := JString(num)] && VisitsAll(rt, node)
    ensures TransformedValue(rt, node) == Invalid
  {
    var payload := JString(num);
    assert TransformNumber(rt.parseFloat, num) == Invalid;
    SingleTag(rt, "N", payload);
    assert Dispatch(rt, "N", payload) == Invalid;
  }

  /** `{"NULL": token}` is null for a truthy token. */
  lemma NullElement(rt: Runtime, node: map<string, Json>, token: string)
    requires Normalize(token) in TruthyTokens
    requires node == map["NULL" := JString(token)] && VisitsAll(rt, node)
    ensures TransformedValue(rt, node) == Ok(VNull)
  {
    SingleTag(rt, "NULL", JString(token));
    assert Dispatch(rt, "NULL", JString(token)) == TransformNull(token);
  }

  /** `[{"S": str}, {"N": num}, {"NULL": token}]` becomes `[str]`: the number
      that does not parse and the null are both dropped. */
  lemma ListDropsInvalidAndNull(rt: Runtime, items: seq<Json>, a: map<string, Json>,
                                x: map<string, Json>, t: map<string, Json>,
                                str: string, num: string, token: string)
    requires str != [] && !IsSpace(str[0]) && !IsSpace(str[|str| - 1])
    requires rt.parseRfc3339(str) == None && rt.parseFloat(TrimSpace(num)) == None
    requires Normalize(token) in TruthyTokens
    requires a == map["S" := JString(str)] && x == map["N" := JString(num)]
    requires t == map["NULL" := JString(token)]
    requires VisitsAll(rt, a) && VisitsAll(rt, x) && VisitsAll(rt, t)
    requires items == [JObject(a), JObject(x), JObject(t)]
    ensures TransformedList(rt, items) == [VString(str)]
  {
    StringElement(rt, a, str);
    KeptOne(rt, a, VString(str));
    BadNumberElement(rt, x, num);
    KeptNone(rt, x);
    NullElement(rt, t, token);
    KeptNone(rt, t);
    ThreeItems(rt, items, [VString(str)], [], []);
  }

  lemma KeptOne(rt: Runtime, node: map<string, Json>, v: Value)
    requires TransformedValue(rt, node) == Ok(v) && v != VNull
    ensures KeptValue(rt, JObject(node)) == [v]
  {
  }

  lemma KeptNone(rt: Runtime, node: map<string, Json>)
    requires TransformedValue(rt, node) == Invalid || TransformedValue(rt, node) == Ok(VNull)
    ensures KeptValue(rt, JObject(node)) == []
  {
  }

  lemma ThreeItems(rt: Runtime, items: seq<Json>, k0: seq<Value>, k1: seq<Value>, k2: seq<Value>)
    requires |items| == 3
    requires KeptValue(rt, items[0]) == k0 && KeptValue(rt, items[1]) == k1
    requires KeptValue(rt, items[2]) == k2
    ensures TransformedList(rt, items) == k0 + k1 + k2
  {
    assert KeptPrefix(rt, items, 1) == k0;
    assert KeptPrefix(rt, items, 2) == k0 + k1;
  }

  /** `{"M": {key: {"S": str}}}` becomes `{key: str}`. */
  lemma NestedMap(rt: Runtime, node: map<string, Json>, inner: map<string, Json>,
                  leaf: map<string, Json>, key: string, str: string)
    requires key != [] && str != [] && !IsSpace(str[0]) && !IsSpace(str[|str| - 1])
    requires rt.parseRfc3339(str) == None
    requires leaf == map["S" := JString(str)] && inner == map[key := JObject(leaf)]
    requires node == map["M" := JObject(inner)]
    requires VisitsAll(rt, leaf) && VisitsAll(rt, node)
    ensures TransformedValue(rt, node) == Ok(VMap(map[key := VString(str)]))
  {
    SingleTag(rt, "M", JObject(inner));
    assert Dispatch(rt, "M", JObject(inner)) == Ok(VMap(TransformedMap(rt, inner)));
    assert TransformedMap(rt, inner) == map[key := VString(str)] by {
      StringElement(rt, leaf, str);
      OneEntryMap(rt, inner, key, VString(str));
    }
  }

  lemma OneEntryMap(rt: Runtime, m: map<string, Json>, key: string, v: Value)
    requires key != "" && m.Keys == {key} && m[key].JObject?
    requires TransformedValue(rt, m[key].fields) == Ok(v)
    ensures TransformedMap(rt, m) == map[key := v]
  {
    MapEntries(rt, m, key);
    forall k | k in TransformedMap(rt, m) ensures k == key {
      MapEntries(rt, m, k);
    }
  }
}
