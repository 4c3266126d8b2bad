/** The recursive drivers of main.go: transformMap, transformValue and
    transformList. Each is a method that runs the source's loop, proved equal
    to a specification function (TransformedMap, TransformedValue,
    TransformedList) that says declaratively what the loop builds. */
module Transform {
  import opened Values
  import opened Scalars

  /** What the Go runtime and libraries decide and the model does not:
      strconv.ParseFloat(s, 64), time.Parse(time.RFC3339, s) followed by
      Unix(), and the order in which `range` visits the keys of a node (Go
      leaves it unspecified and randomises it). */
  datatype Runtime = Runtime(
    parseFloat: string -> Option<Float>,
    parseRfc3339: string -> Option<Int64>,
    rangeOrder: map<string, Json> -> seq<string>)

  /** The visit order of `node` lists each of its keys, as `range` does. */
  ghost predicate VisitsAll(rt: Runtime, node: map<string, Json>)
  {
    forall k :: k in node ==> k in rt.rangeOrder(node)
  }

  /** A key of a node on which the `switch` of transformValue returns
      instead of continuing: a scalar tag with a string payload, `L` with any
      payload, or `M` with an object payload. */
  predicate Dispatches(tag: string, payload: Json)
  {
    || (tag in {"S", "N", "BOOL", "NULL"} && payload.JString?)
    || tag == "L"
    || (tag == "M" && payload.JObject?)
  }

  /** The first of `keys` that is a key of `node` and dispatches: where the
      loop of transformValue returns. None when the loop runs to its end. */
  function FirstDispatching(node: map<string, Json>, keys: seq<string>): (r: Option<string>)
    ensures r.Some? ==> r.value in keys && r.value in node && Dispatches(r.value, node[r.value])
    ensures r.None? <==> forall i :: 0 <= i < |keys| && keys[i] in node ==> !Dispatches(keys[i], node[keys[i]])
    ensures r.Some? ==> exists i :: 0 <= i < |keys| && keys[i] == r.value
                          && forall j :: 0 <= j < i && keys[j] in node ==> !Dispatches(keys[j], node[keys[j]])
  {
    if keys == [] then None
    else if keys[0] in node && Dispatches(keys[0], node[keys[0]]) then Some(keys[0])
    else
      var r := FirstDispatching(node, keys[1..]);
      assert forall i :: 0 < i < |keys| ==> keys[i] == keys[1..][i - 1];
      if r.Some? then
        FirstAfterSkip(node, keys, r.value);
        r
      else
        r
  }

  /** When the first key does not dispatch, the first dispatching key of the
      rest is also the first one of `keys`. */
  lemma FirstAfterSkip(node: map<string, Json>, keys: seq<string>, k: string)
    requires keys != [] && !(keys[0] in node && Dispatches(keys[0], node[keys[0]]))
    requires exists i :: 0 <= i < |keys[1..]| && keys[1..][i] == k
               && forall j :: 0 <= j < i && keys[1..][j] in node ==> !Dispatches(keys[1..][j], node[keys[1..][j]])
    ensures exists i :: 0 <= i < |keys| && keys[i] == k
              && forall j :: 0 <= j < i && keys[j] in node ==> !Dispatches(keys[j], node[keys[j]])
  {
    var i :| 0 <= i < |keys[1..]| && keys[1..][i] == k
             && forall j :: 0 <= j < i && keys[1..][j] in node ==> !Dispatches(keys[1..][j], node[keys[1..][j]]);
    assert keys[i + 1] == k;
    forall j | 0 <= j < i + 1 && keys[j] in node ensures !Dispatches(keys[j], node[keys[j]]) {
      if j > 0 {
        assert keys[j] == keys[1..][j - 1];
      }
    }
  }

  /** transformValue: the rule of the first dispatching key in visit order;
      a node without one is inert and gives (nil, nil). */
  function TransformedValue(rt: Runtime, node: map<string, Json>): Outcome
    decreases JObject(node), 0
  {
    match FirstDispatching(node, rt.rangeOrder(node))
    case None => Ok(VNull)
    case Some(tag) => Dispatch(rt, tag, node[tag])
  }

  /** The `return` of one `case` of the switch of transformValue. */
  function Dispatch(rt: Runtime, tag: string, payload: Json): Outcome
    requires Dispatches(tag, payload)
    decreases payload, 2
  {
    if tag == "S" then TransformString(rt.parseRfc3339, payload.str)
    else if tag == "N" then TransformNumber(rt.parseFloat, payload.str)
    else if tag == "BOOL" then TransformBool(payload.str)
    else if tag == "NULL" then TransformNull(payload.str)
    else if tag == "L" then
      if payload.JArray? then Ok(VList(TransformedList(rt, payload.items))) else Invalid
    else Ok(VMap(TransformedMap(rt, payload.fields)))
  }

  /** transformMap: every non-empty key whose value is an object and
      transforms without error, mapped to that transformation (null
      included); nothing else. */
  function TransformedMap(rt: Runtime, m: map<string, Json>): map<string, Value>
    decreases JObject(m), 1
  {
    map k | k in m && k != "" && m[k].JObject? && TransformedValue(rt, m[k].fields).Ok?
      :: TransformedValue(rt, m[k].fields).value
  }

  /** transformList on an array: the transformations of the object elements
      that succeed with a non-nil value, in order. */
  function TransformedList(rt: Runtime, items: seq<Json>): seq<Value>
    decreases JArray(items), 1
  {
    KeptPrefix(rt, items, |items|)
  }

  /** What transformList has appended after visiting the first `n` items. */
  function KeptPrefix(rt: Runtime, items: seq<Json>, n: nat): seq<Value>
    requires n <= |items|
    decreases JArray(items), 0, n
  {
    if n == 0 then [] else KeptPrefix(rt, items, n - 1) + KeptValue(rt, items[n - 1])
  }

  /** What transformList appends for one item: its transformation when the
      item is an object that transforms without error to a non-nil value. */
  function KeptValue(rt: Runtime, item: Json): seq<Value>
    decreases item, 3
  {
    if item.JObject? then
      match TransformedValue(rt, item.fields)
      case Ok(v) => if v != VNull then [v] else []
      case Invalid => []
    else []
  }

  /** transformMap (main.go:59-79): fills a fresh map entry by entry, in
      whatever order `range` picks. Never fails. */
  method TransformMap(rt: Runtime, originalMap: map<string, Json>) returns (r: Outcome)
    ensures r == Ok(VMap(TransformedMap(rt, originalMap)))
    decreases JObject(originalMap), 1
  {
    var transformedMap: map<string, Value> := map[];
    var unvisited := originalMap.Keys;
    while unvisited != {}
      invariant unvisited <= originalMap.Keys
      invariant transformedMap ==
        map k | k in originalMap && k !in unvisited && k != "" && originalMap[k].JObject?
                && TransformedValue(rt, originalMap[k].fields).Ok?
          :: TransformedValue(rt, originalMap[k].fields).value
      decreases unvisited
    {
      var key :| key in unvisited;
      unvisited := unvisited - {key};
      if key == "" {
        continue;
      }
      var value := originalMap[key];
      if !value.JObject? {
        continue;
      }
      var v := TransformValue(rt, value.fields);
      if v.Invalid? {
        continue;
      }
      transformedMap := transformedMap[key := v.value];
    }
    assert TransformedMap(rt, originalMap) == map k | k in originalMap && k != "" && originalMap[k].JObject?
                && TransformedValue(rt, originalMap[k].fields).Ok?
          :: TransformedValue(rt, originalMap[k].fields).value;
    assert transformedMap == map k | k in originalMap && k != "" && originalMap[k].JObject?
                && TransformedValue(rt, originalMap[k].fields).Ok?
          :: TransformedValue(rt, originalMap[k].fields).value;
    return Ok(VMap(transformedMap));
  }

  /** transformValue (main.go:82-123): visits the node's keys in the order
      the runtime gives and returns on the first key whose payload has the
      shape its case expects. */
  method TransformValue(rt: Runtime, valueMap: map<string, Json>) returns (r: Outcome)
    ensures r == TransformedValue(rt, valueMap)
    decreases JObject(valueMap), 0
  {
    var keys := rt.rangeOrder(valueMap);
    var i := 0;
    while i < |keys|
      invariant i <= |keys|
      invariant FirstDispatching(valueMap, keys[i..]) == FirstDispatching(valueMap, keys)
    {
      var dataType := keys[i];
      assert keys[i..][1..] == keys[i + 1..];
      i := i + 1;
      // The visit order may name keys the node lacks; `range` never visits those.
      if dataType !in valueMap {
        continue;
      }
      var val := valueMap[dataType];
      if dataType == "S" {
        if !val.JString? {
          continue;
        }
        return TransformString(rt.parseRfc3339, val.str);
      } else if dataType == "N" {
        if !val.JString? {
          continue;
        }
        return TransformNumber(rt.parseFloat, val.str);
      } else if dataType == "BOOL" {
        if !val.JString? {
          continue;
        }
        return TransformBool(val.str);
      } else if dataType == "NULL" {
        if !val.JString? {
          continue;
        }
        return TransformNull(val.str);
      } else if dataType == "L" {
        r := TransformList(rt, val);
        return;
      } else if dataType == "M" {
        if !val.JObject? {
          continue;
        }
        r := TransformMap(rt, val.fields);
        return;
      }
    }
    return Ok(VNull);
  }

  /** transformList (main.go:171-194): a payload that is not an array is an
      error; otherwise the kept transformations are appended in order. */
  method TransformList(rt: Runtime, val: Json) returns (r: Outcome)
    ensures val.JArray? ==> r == Ok(VList(TransformedList(rt, val.items)))
    ensures !val.JArray? ==> r == Invalid
    decreases val, 1
  {
    if !val.JArray? {
      return Invalid;
    }
    var items := val.items;
    var transformedList: seq<Value> := [];
    for i := 0 to |items|
      invariant transformedList == KeptPrefix(rt, items, i)
    {
      var item := items[i];
      assert KeptPrefix(rt, items, i + 1) == transformedList + KeptValue(rt, item);
      if !item.JObject? {
        continue;
      }
      var transformedItem := TransformValue(rt, item.fields);
      if transformedItem.Invalid? {
        continue;
      }
      if transformedItem.value != VNull {
        transformedList := transformedList + [transformedItem.value];
      }
    }
    return Ok(VList(transformedList));
  }
}
