/**
 * The JavaScript values the front end handles: parsed JSON bodies, their
 * truthiness, optional property access (`v?.key`), string conversion
 * (`String(v)`, as `new Error(v)` applies it) and `Array.prototype.join`.
 * JSON numbers are modelled as integers.
 */
module JsValue {
  import opened Wrappers
  import JsNumber

  datatype Json =
    | JNull
    | JBool(b: bool)
    | JNum(n: int)
    | JStr(s: string)
    | JArr(items: seq<Json>)
    | JObj(fields: map<string, Json>)

  /** JavaScript truthiness of a value (`if (v)`, `!v`, `v || w`). */
  predicate Truthy(v: Json) {
    match v
    case JNull => false
    case JBool(b) => b
    case JNum(n) => n != 0
    case JStr(s) => s != ""
    case JArr(_) => true
    case JObj(_) => true
  }

  /** Truthiness of a value that may be `undefined` (None). */
  predicate Present(v: Option<Json>) {
    v.Some? && Truthy(v.value)
  }

  /**
   * `v?.key`: the property of an object, `undefined` (None) when the key is
   * missing or when `v` is not an object (null, a string, a number, an array).
   */
  function Member(v: Json, key: string): (r: Option<Json>)
    ensures r.Some? <==> v.JObj? && key in v.fields
    ensures r.Some? ==> r.value == v.fields[key]
  {
    if v.JObj? && key in v.fields then Some(v.fields[key]) else None
  }

  /** `s || fallback` on strings: the empty string falls through. */
  function OrElse(s: string, fallback: string): (r: string)
    ensures r == s || r == fallback
    ensures r == fallback <==> s == "" || s == fallback
  {
    if s != "" then s else fallback
  }

  /** `parts.join(sep)` */
  function Join(parts: seq<string>, sep: string): string
  {
    if |parts| == 0 then ""
    else if |parts| == 1 then parts[0]
    else parts[0] + sep + Join(parts[1..], sep)
  }

  /**
   * `String(v)`: a string is itself, `null` is "null", an integer its decimal
   * form, a plain object "[object Object]", and an array the join of its
   * elements with "," where `null` elements become the empty string.
   */
  function ToJsString(v: Json): string
    decreases v
  {
    match v
    case JNull => "null"
    case JBool(b) => if b then "true" else "false"
    case JNum(n) => JsNumber.IntToString(n)
    case JStr(s) => s
    case JObj(_) => "[object Object]"
    case JArr(items) =>
      Join(seq(|items|, i requires 0 <= i < |items| =>
                 if items[i].JNull? then "" else ToJsString(items[i])), ",")
  }

  /** The join is empty exactly for no parts or a single empty part. */
  lemma {:induction false} JoinIsEmpty(parts: seq<string>, sep: string)
    requires sep != ""
    ensures Join(parts, sep) == "" <==> |parts| == 0 || (|parts| == 1 && parts[0] == "")
  {
    if |parts| >= 2 {
      var rest := Join(parts[1..], sep);
      assert Join(parts, sep) == parts[0] + sep + rest;
      assert |Join(parts, sep)| >= |sep|;
    }
  }

  /** Where part `i` starts in `Join(parts, sep)`: the parts before it, each followed by `sep`. */
  function PartOffset(parts: seq<string>, sep: string, i: nat): nat
    requires i <= |parts|
  {
    if i == 0 then 0 else PartOffset(parts, sep, i - 1) + |parts[i - 1]| + |sep|
  }

  /** Dropping the first part moves every later offset back by that part and one separator. */
  lemma {:induction false} PartOffsetShift(parts: seq<string>, sep: string, i: nat)
    requires i < |parts|
    ensures PartOffset(parts, sep, i + 1) == |parts[0]| + |sep| + PartOffset(parts[1..], sep, i)
    decreases i
  {
    if i > 0 {
      PartOffsetShift(parts, sep, i - 1);
      assert parts[1..][i - 1] == parts[i];
    }
  }

  /** The length of a join: every part and one separator between each two. */
  lemma {:induction false} JoinLength(parts: seq<string>, sep: string)
    requires |parts| > 0
    ensures |Join(parts, sep)| + |sep| == PartOffset(parts, sep, |parts|)
    decreases |parts|
  {
    if |parts| >= 2 {
      JoinLength(parts[1..], sep);
      PartOffsetShift(parts, sep, |parts| - 1);
    }
  }

  /** Part `i` sits at its offset. */
  lemma {:induction false} JoinPartAt(parts: seq<string>, sep: string, i: nat)
    requires i < |parts|
    ensures PartOffset(parts, sep, i) + |parts[i]| <= |Join(parts, sep)|
    ensures Join(parts, sep)[PartOffset(parts, sep, i)..PartOffset(parts, sep, i) + |parts[i]|] == parts[i]
    decreases |parts|
  {
    var j := Join(parts, sep);
    if i == 0 {
      if |parts| >= 2 {
        assert j == parts[0] + (sep + Join(parts[1..], sep));
      }
    } else {
      var rest := parts[1..];
      var r := Join(rest, sep);
      JoinPartAt(rest, sep, i - 1);
      PartOffsetShift(parts, sep, i - 1);
      assert j == (parts[0] + sep) + r;
      var o := PartOffset(rest, sep, i - 1);
      assert rest[i - 1] == parts[i];
      assert j[|parts[0]| + |sep| + o..|parts[0]| + |sep| + o + |parts[i]|] == r[o..o + |parts[i]|];
    }
  }

  /** The separator sits just before every part but the first. */
  lemma {:induction false} JoinSeparatorBefore(parts: seq<string>, sep: string, i: nat)
    requires 1 <= i < |parts|
    ensures |sep| <= PartOffset(parts, sep, i) <= |Join(parts, sep)|
    ensures Join(parts, sep)[PartOffset(parts, sep, i) - |sep|..PartOffset(parts, sep, i)] == sep
    decreases |parts|
  {
    var j := Join(parts, sep);
    var rest := parts[1..];
    var r := Join(rest, sep);
    assert j == (parts[0] + sep) + r;
    PartOffsetShift(parts, sep, i - 1);
    if i == 1 {
      assert j[|parts[0]|..|parts[0]| + |sep|] == sep;
    } else {
      JoinSeparatorBefore(rest, sep, i - 1);
      var o := PartOffset(rest, sep, i - 1);
      assert j[|parts[0]| + |sep| + o - |sep|..|parts[0]| + |sep| + o] == r[o - |sep|..o];
    }
  }

  /**
   * `s` holds `parts` one after the other, each at its offset, with `sep`
   * just before every part but the first, and nothing else.
   */
  ghost predicate LaidOut(parts: seq<string>, sep: string, s: string) {
    && |parts| > 0
    && |s| + |sep| == PartOffset(parts, sep, |parts|)
    && PartsAt(parts, sep, s)
    && SeparatorsBefore(parts, sep, s)
  }

  /** Every part of `parts` stands in `s` at its offset. */
  ghost predicate PartsAt(parts: seq<string>, sep: string, s: string) {
    forall i :: 0 <= i < |parts| ==>
      && PartOffset(parts, sep, i) + |parts[i]| <= |s|
      && s[PartOffset(parts, sep, i)..PartOffset(parts, sep, i) + |parts[i]|] == parts[i]
  }

  /** `sep` stands in `s` just before the offset of every part but the first. */
  ghost predicate SeparatorsBefore(parts: seq<string>, sep: string, s: string) {
    forall i :: 1 <= i < |parts| ==>
      && |sep| <= PartOffset(parts, sep, i) <= |s|
      && s[PartOffset(parts, sep, i) - |sep|..PartOffset(parts, sep, i)] == sep
  }

  /** The layout of a join: the parts in order, separated by `sep`, and nothing else. */
  lemma JoinLayout(parts: seq<string>, sep: string)
    requires |parts| > 0
    ensures LaidOut(parts, sep, Join(parts, sep))
  {
    JoinLength(parts, sep);
    JoinPartsAt(parts, sep);
    JoinSeparators(parts, sep);
  }

  /** Every part stands at its offset in the join. */
  lemma JoinPartsAt(parts: seq<string>, sep: string)
    ensures PartsAt(parts, sep, Join(parts, sep))
  {
    forall i | 0 <= i < |parts|
      ensures PartOffset(parts, sep, i) + |parts[i]| <= |Join(parts, sep)|
      ensures Join(parts, sep)[PartOffset(parts, sep, i)..PartOffset(parts, sep, i) + |parts[i]|] == parts[i]
    {
      JoinPartAt(parts, sep, i);
    }
  }

  /** The separator stands before every part but the first in the join. */
  lemma JoinSeparators(parts: seq<string>, sep: string)
    ensures SeparatorsBefore(parts, sep, Join(parts, sep))
  {
    forall i | 1 <= i < |parts|
      ensures |sep| <= PartOffset(parts, sep, i) <= |Join(parts, sep)|
      ensures Join(parts, sep)[PartOffset(parts, sep, i) - |sep|..PartOffset(parts, sep, i)] == sep
    {
      JoinSeparatorBefore(parts, sep, i);
    }
  }

  /**
   * An array of plain objects prints as one "[object Object]" per element,
   * joined by ","; an empty array prints as the empty string.
   */
  lemma ObjectArrayPrints(objs: seq<map<string, Json>>)
    ensures ToJsString(JArr(seq(|objs|, i requires 0 <= i < |objs| => JObj(objs[i]))))
            == Join(seq(|objs|, i requires 0 <= i < |objs| => "[object Object]"), ",")
  {
    var items := seq(|objs|, i requires 0 <= i < |objs| => JObj(objs[i]));
    var parts := seq(|items|, i requires 0 <= i < |items| => if items[i].JNull? then "" else ToJsString(items[i]));
    assert parts == seq(|objs|, i requires 0 <= i < |objs| => "[object Object]");
  }
}
