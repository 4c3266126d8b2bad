/** What the converter guarantees, stated over the specification functions of
    module Transform (and so, through the methods' postconditions, over the
    loops of main.go). */
module Properties {
  import opened Values
  import opened Text
  import opened Scalars
  import opened Transform

  /** The output invariant: no map anywhere in the value has the empty key,
      and no list anywhere holds null. */
  predicate Sanitised(v: Value)
  {
    match v
    case VList(elems) => forall i :: 0 <= i < |elems| ==> elems[i] != VNull && Sanitised(elems[i])
    case VMap(entries) => "" !in entries && forall k :: k in entries ==> Sanitised(entries[k])
    case _ => true
  }

  // ---------------------------------------------------------------------
  // The output invariant holds at every level of every result.

  /** transformMap never fails, and its result has no empty key at the top
      level nor inside any nested `M` or `L`. */
  lemma {:induction false} MapSanitised(rt: Runtime, m: map<string, Json>)
    ensures Sanitised(VMap(TransformedMap(rt, m)))
    decreases JObject(m), 1
  {
    var out := TransformedMap(rt, m);
    forall k | k in out ensures Sanitised(out[k]) {
      ValueSanitised(rt, m[k].fields);
    }
  }

  lemma {:induction false} ValueSanitised(rt: Runtime, node: map<string, Json>)
    ensures TransformedValue(rt, node).Ok? ==> Sanitised(TransformedValue(rt, node).value)
    decreases JObject(node), 0
  {
    match FirstDispatching(node, rt.rangeOrder(node))
    case None =>
    case Some(tag) => DispatchSanitised(rt, tag, node[tag]);
  }

  lemma {:induction false} DispatchSanitised(rt: Runtime, tag: string, payload: Json)
    requires Dispatches(tag, payload)
    ensures Dispatch(rt, tag, payload).Ok? ==> Sanitised(Dispatch(rt, tag, payload).value)
    decreases payload, 2
  {
    if tag == "L" && payload.JArray? {
      ListSanitised(rt, payload.items);
    } else if tag == "M" {
      MapSanitised(rt, payload.fields);
    }
  }

  lemma {:induction false} ListSanitised(rt: Runtime, items: seq<Json>)
    ensures Sanitised(VList(TransformedList(rt, items)))
    decreases JArray(items), 1
  {
    PrefixSanitised(rt, items, |items|);
  }

  lemma {:induction false} PrefixSanitised(rt: Runtime, items: seq<Json>, n: nat)
    requires n <= |items|
    ensures Sanitised(VList(KeptPrefix(rt, items, n)))
    decreases JArray(items), 0, n
  {
    if n > 0 {
      PrefixSanitised(rt, items, n - 1);
      var item := items[n - 1];
      if item.JObject? {
        ValueSanitised(rt, item.fields);
      }
      var front, last := KeptPrefix(rt, items, n - 1), KeptValue(rt, item);
      assert KeptPrefix(rt, items, n) == front + last;
      forall i | 0 <= i < |front + last|
        ensures (front + last)[i] != VNull && Sanitised((front + last)[i])
      {
        if i < |front| {
          assert (front + last)[i] == front[i];
        } else {
          assert (front + last)[i] == last[i - |front|];
        }
      }
    }
  }

  // ---------------------------------------------------------------------
  // transformValue: which key wins, and the inert node.

  /** With a visit order that covers the node, the loop runs to its end
      (and the node is inert) exactly when no key of the node dispatches. */
  lemma InertExactly(rt: Runtime, node: map<string, Json>)
    requires VisitsAll(rt, node)
    ensures FirstDispatching(node, rt.rangeOrder(node)).None?
            <==> forall k :: k in node ==> !Dispatches(k, node[k])
  {
    var keys := rt.rangeOrder(node);
    if FirstDispatching(node, keys).None? {
      forall k | k in node ensures !Dispatches(k, node[k]) {
        var i :| 0 <= i < |keys| && keys[i] == k;
      }
    }
  }

  /** An inert node (no recognised tag, or only tags whose payload has the
      wrong shape) yields (nil, nil). */
  lemma InertNodeIsNull(rt: Runtime, node: map<string, Json>)
    requires forall k :: k in node ==> !Dispatches(k, node[k])
    ensures TransformedValue(rt, node) == Ok(VNull)
  {
  }

  /** Whatever order the runtime picks, the result is the rule of SOME
      dispatching key of the node; which one is not determined. */
  lemma WinnerIsSomeTag(rt: Runtime, node: map<string, Json>, k0: string)
    requires VisitsAll(rt, node)
    requires k0 in node && Dispatches(k0, node[k0])
    ensures exists k :: k in node && Dispatches(k, node[k])
                        && TransformedValue(rt, node) == Dispatch(rt, k, node[k])
  {
    InertExactly(rt, node);
    var k := FirstDispatching(node, rt.rangeOrder(node)).value;
    assert k in node && Dispatches(k, node[k]);
  }

  /** A well-formed single-tag node is handled by its tag's rule. */
  lemma SingleTag(rt: Runtime, tag: string, payload: Json)
    requires VisitsAll(rt, map[tag := payload])
    requires Dispatches(tag, payload)
    ensures TransformedValue(rt, map[tag := payload]) == Dispatch(rt, tag, payload)
  {
    WinnerIsSomeTag(rt, map[tag := payload], tag);
  }

  // ---------------------------------------------------------------------
  // transformMap: which keys survive.

  /** Output keys are input keys other than "", and a key is kept exactly
      when its value is an object whose transformation does not fail; the
      kept key maps to that transformation. */
  lemma MapEntries(rt: Runtime, m: map<string, Json>, k: string)
    ensures k in TransformedMap(rt, m) <==>
              k in m && k != "" && m[k].JObject? && TransformedValue(rt, m[k].fields).Ok?
    ensures k in TransformedMap(rt, m) ==>
              TransformedMap(rt, m)[k] == TransformedValue(rt, m[k].fields).value
  {
  }

  /** An inert value keeps its key, mapped to null. */
  lemma InertEntryKeptAsNull(rt: Runtime, m: map<string, Json>, k: string)
    requires k in m && k != "" && m[k].JObject?
    requires forall t :: t in m[k].fields ==> !Dispatches(t, m[k].fields[t])
    ensures k in TransformedMap(rt, m) && TransformedMap(rt, m)[k] == VNull
  {
    InertNodeIsNull(rt, m[k].fields);
  }

  /** `{"L": x}` with x not an array is an error, not an empty list: the
      entry disappears. */
  lemma MalformedListDropsEntry(rt: Runtime, m: map<string, Json>, k: string, payload: Json)
    requires k in m && m[k] == JObject(map["L" := payload]) && !payload.JArray?
    requires VisitsAll(rt, m[k].fields)
    ensures k !in TransformedMap(rt, m)
  {
    SingleTag(rt, "L", payload);
  }

  /** `{"NULL": "false"}` is an error, so its key disappears, while
      `{"NULL": "true"}` keeps its key mapped to null. */
  lemma NullTokensInMap(rt: Runtime, m: map<string, Json>, k: string, token: string)
    requires k in m && k != "" && m[k] == JObject(map["NULL" := JString(token)])
    requires VisitsAll(rt, m[k].fields)
    ensures Normalize(token) in FalsyTokens ==> k !in TransformedMap(rt, m)
    ensures Normalize(token) in TruthyTokens ==>
              k in TransformedMap(rt, m) && TransformedMap(rt, m)[k] == VNull
  {
    var node := map["NULL" := JString(token)];
    SingleTag(rt, "NULL", JString(token));
    var r := TransformNull(token);
    assert TransformedValue(rt, node) == r;
    TokensDisjoint();
  }

  // ---------------------------------------------------------------------
  // transformList: an order-preserving selection of the input.

  /** An item that transformList keeps: an object whose transformation
      succeeds with a non-nil value. */
  predicate IsKept(rt: Runtime, item: Json)
  {
    item.JObject? && TransformedValue(rt, item.fields).Ok?
    && TransformedValue(rt, item.fields).value != VNull
  }

  /** `idx` lists, in increasing order, exactly the positions of the kept
      items among the first `n`, and `out` holds their values. */
  ghost predicate Selects(rt: Runtime, items: seq<Json>, n: nat, idx: seq<nat>, out: seq<Value>)
    requires n <= |items|
  {
    && |idx| == |out|
    && (forall j :: 0 <= j < |idx| ==> idx[j] < n)
    && (forall j :: 0 <= j < |idx| ==>
          IsKept(rt, items[idx[j]]) && TransformedValue(rt, items[idx[j]].fields) == Ok(out[j]))
    && (forall j, j' :: 0 <= j < j' < |idx| ==> idx[j] < idx[j'])
    && (forall i :: 0 <= i < n && IsKept(rt, items[i]) ==> i in idx)
  }

  /** The list result is the subsequence of kept transformations, in input
      order, with every kept item present. */
  lemma {:induction false} ListSelectsKept(rt: Runtime, items: seq<Json>)
    ensures exists idx :: Selects(rt, items, |items|, idx, TransformedList(rt, items))
  {
    var parts := seq(|items|, i requires 0 <= i < |items| => KeptValue(rt, items[i]));
    var idx := PrefixPicks(rt, items, parts, |items|);
    var out := KeptPrefix(rt, items, |items|);
    forall j | 0 <= j < |idx|
      ensures IsKept(rt, items[idx[j]]) && TransformedValue(rt, items[idx[j]].fields) == Ok(out[j])
    {
      KeptValueShape(rt, items[idx[j]]);
    }
    forall i | 0 <= i < |items| && IsKept(rt, items[i]) ensures i in idx {
      KeptValueShape(rt, items[i]);
    }
    assert Selects(rt, items, |items|, idx, out);
    assert TransformedList(rt, items) == out;
  }

  /** What transformList appends for one item is its value when the item is
      kept, and nothing otherwise. */
  lemma KeptValueShape(rt: Runtime, item: Json)
    ensures IsKept(rt, item) ==> KeptValue(rt, item) == [TransformedValue(rt, item.fields).value]
    ensures !IsKept(rt, item) ==> KeptValue(rt, item) == []
  {
  }

  /** `idx` lists, in increasing order, the positions among the first `n`
      of `parts` whose part is not empty, and `out` holds those parts'
      single values. */
  ghost predicate Picks(parts: seq<seq<Value>>, n: nat, idx: seq<nat>, out: seq<Value>)
    requires n <= |parts|
  {
    && |idx| == |out|
    && (forall j :: 0 <= j < |idx| ==> idx[j] < n && parts[idx[j]] == [out[j]])
    && (forall j, j' :: 0 <= j < j' < |idx| ==> idx[j] < idx[j'])
    && (forall i :: 0 <= i < n && parts[i] != [] ==> i in idx)
  }

  lemma {:induction false} PrefixPicks(rt: Runtime, items: seq<Json>, parts: seq<seq<Value>>, n: nat)
    returns (idx: seq<nat>)
    requires n <= |items| == |parts|
    requires forall i :: 0 <= i < |items| ==> parts[i] == KeptValue(rt, items[i])
    ensures Picks(parts, n, idx, KeptPrefix(rt, items, n))
  {
    if n == 0 {
      idx := [];
    } else {
      var front := PrefixPicks(rt, items, parts, n - 1);
      var out := KeptPrefix(rt, items, n - 1);
      assert KeptPrefix(rt, items, n) == out + parts[n - 1];
      KeptValueShape(rt, items[n - 1]);
      if parts[n - 1] == [] {
        assert out + [] == out;
        idx := front;
        PicksSkip(parts, n, front, out);
      } else {
        idx := front + [n - 1];
        PicksAppend(parts, n, front, out, parts[n - 1][0]);
      }
    }
  }

  /** A non-empty part extends the selection by its position and value. */
  lemma PicksAppend(parts: seq<seq<Value>>, n: nat, idx: seq<nat>, out: seq<Value>, v: Value)
    requires 0 < n <= |parts| && Picks(parts, n - 1, idx, out) && parts[n - 1] == [v]
    ensures Picks(parts, n, idx + [n - 1], out + [v])
  {
    var idx', out' := idx + [n - 1], out + [v];
    forall j | 0 <= j < |idx'| ensures idx'[j] < n && parts[idx'[j]] == [out'[j]] {
      if j < |idx| {
        assert idx'[j] == idx[j] && out'[j] == out[j];
      }
    }
    forall j, j' | 0 <= j < j' < |idx'| ensures idx'[j] < idx'[j'] {
      assert idx'[j] == idx[j];
      if j' < |idx| {
        assert idx'[j'] == idx[j'];
      }
    }
    forall i | 0 <= i < n && parts[i] != [] ensures i in idx' {
      if i < n - 1 {
        assert i in idx;
      } else {
        assert idx'[|idx|] == i;
      }
    }
  }

  /** An empty part leaves the selection as it is. */
  lemma PicksSkip(parts: seq<seq<Value>>, n: nat, idx: seq<nat>, out: seq<Value>)
    requires 0 < n <= |parts| && Picks(parts, n - 1, idx, out) && parts[n - 1] == []
    ensures Picks(parts, n, idx, out)
  {
  }

  /** The list result is never longer than the input. */
  lemma {:induction false} ListNoLonger(rt: Runtime, items: seq<Json>)
    ensures |TransformedList(rt, items)| <= |items|
  {
    PrefixNoLonger(rt, items, |items|);
  }

  lemma {:induction false} PrefixNoLonger(rt: Runtime, items: seq<Json>, n: nat)
    requires n <= |items|
    ensures |KeptPrefix(rt, items, n)| <= n
  {
    if n > 0 {
      PrefixNoLonger(rt, items, n - 1);
    }
  }

  /** `{"L": x}` with x not an array is an error inside a list too: the
      element is dropped rather than becoming an empty list. */
  lemma MalformedListDropsElement(rt: Runtime, item: Json, payload: Json)
    requires item == JObject(map["L" := payload]) && !payload.JArray?
    requires VisitsAll(rt, item.fields)
    ensures !IsKept(rt, item) && KeptValue(rt, item) == []
  {
    SingleTag(rt, "L", payload);
  }

  /** An inert element contributes nothing to the list, where in a map its
      key would be kept with null. */
  lemma InertElementDropped(rt: Runtime, items: seq<Json>, i: nat)
    requires i < |items| && items[i].JObject?
    requires forall t :: t in items[i].fields ==> !Dispatches(t, items[i].fields[t])
    ensures !IsKept(rt, items[i])
    ensures KeptValue(rt, items[i]) == []
  {
    InertNodeIsNull(rt, items[i].fields);
  }
}
