/**
 * `Value`, the data that flows through parsing and evaluation (src/ast/value.rs; the older
 * copy in ast/src/value.rs has the same variants and conversions).
 */
module Values {
  import opened Numbers
  import opened Results
  import opened JsonModel

  datatype Value =
    | Bool(b: bool)
    | Number(n: F64)
    | String(s: string)
    | Array(elems: seq<Value>)

  type I32 = i: int | -0x8000_0000 <= i < 0x8000_0000
  type I64 = i: int | -0x8000_0000_0000_0000 <= i < 0x8000_0000_0000_0000

  // ---------------------------------------------------------------------------------------
  // Conversions from host scalars (`impl From<..> for Value`)
  // ---------------------------------------------------------------------------------------

  /** `Value::from(&str)`, and `Value::from(String)` of the older crate. */
  function FromStr(s: string): (v: Value)
    ensures v.String? && v.s == s
  {
    String(s)
  }

  /** `Value::from(f64)`; an `f32` is widened exactly by `as f64`, so this also models `Value::from(f32)`. */
  function FromF64(x: F64): (v: Value)
    ensures v.Number? && v.n == x
  {
    Number(x)
  }

  /** `Value::from(i64)`: `int as f64`. */
  function FromI64(i: I64): (v: Value)
    ensures v.Number? && v.n == Finite(i as real)
  {
    Number(FromInt(i))
  }

  /** `Value::from(i32)`: `int as f64`. */
  function FromI32(i: I32): (v: Value)
    ensures v.Number? && v.n == Finite(i as real)
  {
    Number(FromInt(i))
  }

  /** `Value::from(bool)`. */
  function FromBool(b: bool): (v: Value)
    ensures v.Bool? && v.b == b
  {
    Bool(b)
  }

  /**
   * Every `i32` is exactly representable as an `f64`, and so is every `i64` of magnitude at
   * most 2^53: distinct integers give unequal numbers, ordered as the integers are.
   */
  lemma IntConversionsExact(m: I32, n: I32, p: I64, q: I64)
    ensures Eq(FromI32(m).n, FromI32(n).n) <==> m == n
    ensures Lt(FromI32(m).n, FromI32(n).n) <==> m < n
    ensures -0x20_0000_0000_0000 <= p <= 0x20_0000_0000_0000 && -0x20_0000_0000_0000 <= q <= 0x20_0000_0000_0000 ==>
      (Eq(FromI64(p).n, FromI64(q).n) <==> p == q) && (Lt(FromI64(p).n, FromI64(q).n) <==> p < q)
  {
    FromIntMonotone(m, n);
    FromIntMonotone(p, q);
  }

  // ---------------------------------------------------------------------------------------
  // Equality (`#[derive(PartialEq)]`), as used by `Vec::contains`
  // ---------------------------------------------------------------------------------------

  /** The derived `==`: same variant and equal payloads, numbers compared as `f64`. */
  predicate ValueEq(x: Value, y: Value)
    decreases x
  {
    match (x, y)
    case (Bool(a), Bool(b)) => a == b
    case (Number(a), Number(b)) => Numbers.Eq(a, b)
    case (String(a), String(b)) => a == b
    case (Array(xs), Array(ys)) => |xs| == |ys| && forall i :: 0 <= i < |xs| ==> ValueEq(xs[i], ys[i])
    case _ => false
  }

  /** No NaN anywhere inside the value. */
  predicate NaNFree(v: Value) {
    match v
    case Number(n) => !n.NaN?
    case Array(es) => forall i :: 0 <= i < |es| ==> NaNFree(es[i])
    case _ => true
  }

  /** `Vec::contains`: some element is `==` to `x`. */
  predicate Contains(es: seq<Value>, x: Value) {
    exists i :: 0 <= i < |es| && ValueEq(es[i], x)
  }

  /** Away from NaN, the derived equality is structural identity. */
  lemma {:induction false} ValueEqIsIdentity(x: Value, y: Value)
    requires NaNFree(x)
    ensures ValueEq(x, y) <==> x == y
    decreases x
  {
    match (x, y)
    case (Array(xs), Array(ys)) =>
      if |xs| == |ys| {
        forall i | 0 <= i < |xs|
          ensures ValueEq(xs[i], ys[i]) <==> xs[i] == ys[i]
        {
          ValueEqIsIdentity(xs[i], ys[i]);
        }
        if ValueEq(x, y) {
          assert xs == ys;
        }
      }
    case _ =>
  }

  /** A NaN number is never `==` to anything, so no array contains it. */
  lemma NaNNotContained(es: seq<Value>)
    ensures !Contains(es, Number(NaN))
  {
  }

  // ---------------------------------------------------------------------------------------
  // Display
  // ---------------------------------------------------------------------------------------

  /**
   * The text `Display` writes for a value. Rust's float formatting is not modelled: `numText`
   * is the text of a number.
   */
  function Show(v: Value, numText: F64 -> string): string
    decreases v
  {
    match v
    case Bool(b) => if b then "true" else "false"
    case String(s) => s
    case Number(n) => numText(n)
    case Array(es) => "[" + ShowElems(es, numText) + "]"
  }

  /** The elements' texts separated by ", ". */
  function ShowElems(es: seq<Value>, numText: F64 -> string): string
    decreases es
  {
    if |es| == 0 then ""
    else if |es| == 1 then Show(es[0], numText)
    else Show(es[0], numText) + ", " + ShowElems(es[1..], numText)
  }

  /** Writing one more element appends a separator and its text. */
  lemma {:induction false} ShowElemsSnoc(es: seq<Value>, e: Value, numText: F64 -> string)
    requires |es| > 0
    ensures ShowElems(es + [e], numText) == ShowElems(es, numText) + ", " + Show(e, numText)
    decreases |es|
  {
    if |es| == 1 {
      assert es + [e] == [es[0], e];
      assert ([es[0], e])[1..] == [e];
    } else {
      assert (es + [e])[1..] == es[1..] + [e];
      ShowElemsSnoc(es[1..], e, numText);
    }
  }

  /**
   * `impl Display for Value`: booleans as `true`/`false`, strings raw, arrays as `[` and the
   * elements separated by `", "` and `]`, written one element at a time with the `once` flag.
   */
  method Format(v: Value, numText: F64 -> string) returns (out: string)
    ensures out == Show(v, numText)
    decreases v
  {
    match v {
      case Bool(b) =>
        out := if b then "true" else "false";
      case String(s) =>
        out := s;
      case Number(n) =>
        out := numText(n);
      case Array(es) =>
        out := "[";
        var once := false;
        for i := 0 to |es|
          invariant once <==> i > 0
          invariant out == "[" + ShowElems(es[..i], numText)
        {
          if once {
            out := out + ", ";
          } else {
            once := true;
          }
          var text := Format(es[i], numText);
          if i > 0 {
            ShowElemsSnoc(es[..i], es[i], numText);
          }
          assert es[..i + 1] == es[..i] + [es[i]];
          out := out + text;
        }
        assert es[..|es|] == es;
        out := out + "]";
    }
  }

  /** The printed forms named by the examples: `true`, raw text, `[]` and `[1, 2, 3]`-style lists. */
  lemma DisplayShapes(s: string, a: Value, b: Value, numText: F64 -> string)
    ensures Show(Bool(true), numText) == "true" && Show(Bool(false), numText) == "false"
    ensures Show(String(s), numText) == s
    ensures Show(Array([]), numText) == "[]"
    ensures Show(Array([a, b]), numText) == "[" + Show(a, numText) + ", " + Show(b, numText) + "]"
  {
    assert [a, b][1..] == [b];
    assert ShowElems([b], numText) == Show(b, numText);
  }

  // ---------------------------------------------------------------------------------------
  // Conversion from JSON (`impl From<&JsonValue> for Value`)
  // ---------------------------------------------------------------------------------------

  /**
   * The value a JSON document converts to. A null or an object anywhere inside makes the
   * source panic; the model returns that JSON node as the error instead.
   */
  function JsonToValue(j: Json): Result<Value, Json>
    decreases j
  {
    match j
    case JString(s) => Ok(String(s))
    case JNumber(n) => Ok(Number(n))
    case JBool(b) => Ok(Bool(b))
    case JArray(items) =>
      (match ItemsToValues(items)
       case Ok(vs) => Ok(Array(vs))
       case Err(bad) => Err(bad))
    case _ => Err(j)
  }

  /** Converts the items in order, stopping at the first that cannot be converted. */
  function ItemsToValues(items: seq<Json>): Result<seq<Value>, Json>
    decreases items
  {
    if |items| == 0 then Ok([])
    else match JsonToValue(items[0])
      case Err(bad) => Err(bad)
      case Ok(v) =>
        match ItemsToValues(items[1..])
        case Err(bad) => Err(bad)
        case Ok(vs) => Ok([v] + vs)
  }

  /**
   * A JSON array converts when every item does, to an array of the same length holding each
   * item's conversion at the same index; otherwise the error is that of the first item that
   * fails.
   */
  lemma {:induction false} ItemsToValuesSpec(items: seq<Json>)
    ensures ItemsToValues(items).Ok? <==> forall i :: 0 <= i < |items| ==> JsonToValue(items[i]).Ok?
    ensures ItemsToValues(items).Ok? ==>
      |ItemsToValues(items).value| == |items| &&
      forall i :: 0 <= i < |items| ==> ItemsToValues(items).value[i] == JsonToValue(items[i]).value
    ensures ItemsToValues(items).Err? ==>
      exists k :: 0 <= k < |items| && JsonToValue(items[k]) == Err(ItemsToValues(items).error) &&
        forall i :: 0 <= i < k ==> JsonToValue(items[i]).Ok?
    decreases |items|
  {
    if |items| > 0 {
      ItemsToValuesSpec(items[1..]);
      assert forall i :: 1 <= i < |items| ==> items[i] == items[1..][i - 1];
      match JsonToValue(items[0]) {
        case Err(bad) =>
        case Ok(v) =>
          match ItemsToValues(items[1..]) {
            case Err(bad) =>
              var k :| 0 <= k < |items[1..]| && JsonToValue(items[1..][k]) == Err(bad) &&
                forall i :: 0 <= i < k ==> JsonToValue(items[1..][i]).Ok?;
              assert JsonToValue(items[k + 1]) == Err(bad);
            case Ok(vs) =>
          }
      }
    }
  }

  /** Converting the items of `p + q` converts those of `p`, then those of `q`. */
  lemma {:induction false} ItemsToValuesAppend(p: seq<Json>, q: seq<Json>)
    ensures ItemsToValues(p + q) ==
      match ItemsToValues(p)
      case Err(bad) => Err(bad)
      case Ok(vs) =>
        match ItemsToValues(q)
        case Err(bad) => Err(bad)
        case Ok(ws) => Ok(vs + ws)
    decreases |p|
  {
    if |p| == 0 {
      assert p + q == q;
      match ItemsToValues(q) {
        case Err(_) =>
        case Ok(ws) => assert [] + ws == ws;
      }
    } else {
      assert (p + q)[0] == p[0];
      assert (p + q)[1..] == p[1..] + q;
      ItemsToValuesAppend(p[1..], q);
      match ItemsToValues(q) {
        case Err(_) =>
        case Ok(ws) =>
          match ItemsToValues(p[1..]) {
            case Err(_) =>
            case Ok(us) =>
              var v := JsonToValue(p[0]);
              if v.Ok? {
                assert [v.value] + (us + ws) == ([v.value] + us) + ws;
              }
          }
      }
    }
  }

  /**
   * `Value::from(&JsonValue)`: strings, numbers and booleans map to the same variant; an array
   * is converted item by item into a vector built with `push`; null and objects abort.
   */
  method ValueFromJson(j: Json) returns (r: Result<Value, Json>)
    ensures r == JsonToValue(j)
    decreases j
  {
    match j {
      case JString(s) => r := Ok(String(s));
      case JNumber(n) => r := Ok(Number(n));
      case JBool(b) => r := Ok(Bool(b));
      case JArray(items) =>
        var rs: seq<Value> := [];
        var i := 0;
        while i < |items|
          invariant 0 <= i <= |items|
          invariant ItemsToValues(items[..i]) == Ok(rs)
        {
          var e := ValueFromJson(items[i]);
          ItemsToValuesAppend(items[..i], [items[i]]);
          assert items[..i] + [items[i]] == items[..i + 1];
          assert [items[i]][1..] == [];
          if e.Err? {
            ItemsToValuesAppend(items[..i + 1], items[i + 1..]);
            assert items[..i + 1] + items[i + 1..] == items;
            return Err(e.error);
          }
          assert ItemsToValues([items[i]]) == Ok([e.value]) by {
            assert ItemsToValues([items[i]][1..]) == Ok([]);
            assert [e.value] + [] == [e.value];
          }
          rs := rs + [e.value];
          i := i + 1;
        }
        assert items[..i] == items;
        r := Ok(Array(rs));
      case JNull => r := Err(j);
      case JObject(_) => r := Err(j);
    }
  }
}
