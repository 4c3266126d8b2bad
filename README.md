# Type-tagged JSON to plain JSON, modelled in Dafny

The program reads a JSON document in which every value is wrapped in a
one-key object naming its type: `{"S": "hello"}`, `{"N": "3.14"}`,
`{"BOOL": "true"}`, `{"NULL": "true"}`, `{"L": [...]}` or `{"M": {...}}`.
It writes the same document as plain JSON. The conversion is a recursive
walk over the decoded tree. It works best-effort: whatever cannot be
converted disappears silently.

This project models that walk: the three recursive drivers `transformMap`,
`transformValue` and `transformList`, the four scalar rules, and the two
token tables of `main.go`.

- `values.dfy` (module `Values`) holds the data. `Json` is the decoded input
  as Go's `encoding/json` gives it. `Value` is the converted output: string,
  Unix seconds, float, bool, null, list or map. `Outcome` is the
  `(value, error)` pair, where `Invalid` means `InvalidValueError`.
- `text.dfy` (module `Text`) models `strings.TrimSpace` over Go's
  `unicode.IsSpace` characters, and `strings.ToLower`.
- `scalars.dfy` (module `Scalars`) holds `transformString`,
  `transformNumber`, `transformBool`, `transformNull` and the tables
  `truthyBooleanValues` and `falsyBooleanValues`.
- `transform.dfy` (module `Transform`) holds the drivers. Each one appears
  twice:
  - a specification function states what is built. `TransformedMap` is a map
    comprehension. `TransformedValue` and `Dispatch` give the first key the
    `switch` accepts. `TransformedList` gives the kept items in order.
  - a method runs the loop of `main.go`: `TransformMap`, `TransformValue`
    and `TransformList`. Its postcondition proves it equal to the function.
- `properties.dfy` (module `Properties`) proves what the converter
  guarantees:
  - no empty key and no null list element appears at any depth;
  - exactly which map entries survive;
  - inert nodes become null in maps and disappear from lists;
  - the list result is the in-order selection of the kept elements.
- `examples.dfy` (module `Examples`) works through concrete documents.

The library calls are parameters, bundled in `Transform.Runtime`:
`strconv.ParseFloat`, `time.Parse(time.RFC3339, …)` followed by `Unix()`,
and the order in which `range` visits a node's keys. Go randomises that
order. A node with several accepted tags is therefore handled by whichever
tag the runtime visits first. The model leaves that order open. No lemma
says which tag wins. `WinnerIsSomeTag` proves only that the result comes from
some accepted tag of the node. Lemmas that need every key to be visited
assume `VisitsAll`.

An `L` payload that is not an array makes `transformList` return
`InvalidValueError` (main.go:172-174), and `transformValue` passes that error
on (main.go:110). The enclosing map entry or list element is therefore
dropped; it does not become an empty list. `MalformedListDropsEntry` and
`MalformedListDropsElement` prove the dropping.

## Model

| member | source | states |
|---|---|---|
| Text.TrimSpace | main.go:127 | the result is the slice of the input between its leading and trailing white space; it does not start or end with white space; it is empty exactly when the input is all white space |
| Text.TrimUnique | main.go:127 | only one slice has those properties, so `IsTrimOf` characterises `strings.TrimSpace` completely |
| Text.ToLower | main.go:149 | the length is preserved; each ASCII capital becomes its lower-case letter (code point plus 32), so no capital remains; every other character is unchanged, white space included |
| Scalars.Normalize | main.go:149 | the token that `transformBool` and `transformNull` look up is the trim of the lower-cased payload (unique by `TrimUnique`); it contains no ASCII capital, and it is empty exactly when the payload is all white space |
| Scalars.TransformString | main.go:126-135 | fails iff the payload is all white space; otherwise gives the Unix seconds when the trimmed text parses as RFC 3339, and otherwise the trimmed text, which is non-empty, unparsable and a trim of the payload |
| Scalars.TransformNumber | main.go:138-145 | fails iff the trimmed payload does not parse as a float; on success gives that float |
| Scalars.TransformBool | main.go:148-157 | true iff the normalised token is one of "1", "t", "true"; false iff it is one of "0", "f", "false"; invalid otherwise |
| Scalars.TransformNull | main.go:160-167 | null iff the normalised token is one of "1", "t", "true"; every other payload is invalid |
| Scalars.NormalizedMembership | main.go:20-21 | after lower-casing, a token is in a Go table exactly when it is in the table's lower-case entries, so "T", "TRUE", "True", "F", "FALSE" and "False" can never match |
| Scalars.TablesDisjoint | main.go:20-21 | no entry of the truthy table is in the falsy table |
| Scalars.TokensDisjoint | main.go:150-153 | the truthy and falsy lower-case token sets are disjoint, so no token is both truthy and falsy, so the order of the two checks in `transformBool` does not matter |
| Scalars.NullAgreesWithTruthyBool | main.go:160-167 | a NULL payload succeeds exactly when the same string is true as BOOL; a string that is false as BOOL is invalid as NULL |
| Transform.FirstDispatching | main.go:83-121 | the key at which the loop of `transformValue` returns is the first key in visit order that is a key of the node and whose payload its `case` accepts; the loop falls through iff no visited key is accepted |
| Transform.TransformMap | main.go:59-79 | the loop never fails and builds exactly `TransformedMap`: every non-empty key whose value is an object that transforms without error, mapped to that result (null included) |
| Transform.TransformValue | main.go:82-123 | the loop returns `TransformedValue`: the rule of the first visited key whose payload has the right shape, or null with no error when there is none |
| Transform.TransformList | main.go:171-194 | a non-array payload is an error; otherwise the loop never fails and returns `TransformedList` |
| Properties.MapSanitised | main.go:59-79 | the output of `transformMap` has no empty key and no null list element, at the top level or in any nested `M` or `L` |
| Properties.ValueSanitised | main.go:82-123 | every successful `transformValue` result has no empty key and no null list element at any depth |
| Properties.DispatchSanitised | main.go:109-118 | the `L` and `M` cases produce values with no empty key and no null list element |
| Properties.ListSanitised | main.go:171-194 | the list result holds no null, and no element has an empty key or a null list element at any depth |
| Properties.PrefixSanitised | main.go:177-191 | every intermediate list of the loop holds no null and no element with an empty key or null list element |
| Properties.InertExactly | main.go:83-122 | when every key is visited, the loop falls through to `return nil, nil` exactly when no key of the node is an accepted tag with the right payload shape |
| Properties.InertNodeIsNull | main.go:122 | an inert node (unknown tags, or payloads of the wrong shape) gives null with no error |
| Properties.WinnerIsSomeTag | main.go:83-121 | if some key is accepted, the result is the rule of some accepted key, whatever order the runtime picks |
| Properties.SingleTag | main.go:84-120 | a one-key node whose payload has the right shape is handled by that tag's rule |
| Properties.MapEntries | main.go:61-75 | an output key is an input key that is not empty, whose value is an object, and whose transformation does not fail; it maps to that transformation |
| Properties.InertEntryKeptAsNull | main.go:70-75 | a map entry whose value is inert stays in the output, mapped to null |
| Properties.MalformedListDropsEntry | main.go:109-110 | a map entry `{"L": x}` whose x is not an array is missing from the output, not mapped to an empty list |
| Properties.MalformedListDropsElement | main.go:172-174 | a list element `{"L": x}` whose x is not an array is dropped |
| Properties.NullTokensInMap | main.go:160-167 | `{"NULL": "false"}` (any falsy token) removes its key, while a truthy token keeps the key mapped to null |
| Properties.ListSelectsKept | main.go:177-193 | the list result lists, in input order, the transformations of exactly the items that are objects transforming to a non-null value without error |
| Properties.KeptValueShape | main.go:178-190 | one loop iteration appends the item's transformation when the item is kept, and nothing otherwise |
| Properties.PrefixPicks | main.go:177-191 | after n items, the loop's list holds, in order, what each of the first n iterations appended, each of which is empty or a single value |
| Properties.ListNoLonger | main.go:177-193 | the list result is never longer than the input array |
| Properties.InertElementDropped | main.go:188-190 | an inert element is not kept, where an inert map value is kept as null |
| Examples.BoolUpperCase | main.go:148-157 | "TRUE" is true |
| Examples.NullTrue | main.go:160-167 | "true" is null as NULL |
| Examples.NullFalse | main.go:148-167 | "false" is false as BOOL but invalid as NULL |
| Examples.StringIsTrimmed | main.go:126-135 | "  hi  " gives "hi" when it is not a date-time |
| Examples.ListDropsInvalidAndNull | main.go:171-194 | `[{"S": str}, {"N": num}, {"NULL": token}]` gives `[str]` when str is trimmed and not a date-time, num does not parse and token is truthy |
| Examples.NestedMap | main.go:111-118 | `{"M": {key: {"S": str}}}` gives `{key: str}` for a non-empty key and a trimmed str that is not a date-time |

## Left out

- `main` (main.go:24-38) reads `./input.json` and prints the result. That is file and console I/O.
- `TransformData` (main.go:40-57) calls `json.Unmarshal` and `json.Marshal` and may `panic` or `log.Fatalf`. These are library (de)serialisation and process exit. The model starts from the decoded tree (`Json`) and ends with the converted tree (`Value`).
- `strconv.ParseFloat` (main.go:140) is the parameter `Runtime.parseFloat`. A float64 is kept opaque as its 64-bit pattern (`Float`). `strconv.ParseFloat` also accepts "NaN" and "Inf" without error, so `{"N": "NaN"}` yields a NaN that `json.Marshal` then refuses, and `TransformData` stops in `log.Fatalf` (main.go:51-53); the opaque `Float` cannot tell NaN or infinity apart from other floats, so the model does not show that failure.
- `time.Parse(time.RFC3339, …)` and `Unix()` (main.go:131-132) are the parameter `Runtime.parseRfc3339`, returning an `Int64`. The date-time grammar of section 5.6 of RFC 3339 is not modelled, so no concrete date-time string is converted to Unix seconds in this model.
- Map iteration order (main.go:61, 83) is the parameter `Runtime.rangeOrder`, a function of the node. Two equal nodes in one document therefore get the same order, while Go may visit them differently. The loop order of `transformMap` is left nondeterministic (`:|`). It does not affect the result, because keys are distinct.
- `strings.ToLower` (main.go:149, 161) is modelled on ASCII letters only. Unicode lower-casing maps no non-ASCII character to a character of the tokens "1", "t", "true", "0", "f", "false" (the only non-ASCII letters that lower-case into ASCII become "i" and "k"). So the outcome of the boolean and null rules is the same.
- Go strings are byte sequences. The model uses Dafny strings of Unicode characters, so invalid UTF-8 is not represented.
- Stack depth and memory limits on deeply nested input are not modelled. Recursion depth is unbounded here.
- main_test.go holds only a benchmark that reads a file. It has no behavioural assertion to model.
