/**
 * The JavaScript values the client handles: whatever `JSON.parse` can produce, with
 * JavaScript's truthiness, optional property access, the `||` operator and `String(v)`.
 */
module JsValue {
  import opened Wrappers
  import JsText

  /** A JSON value. Numbers are integers; an object is the map of its own properties. */
  datatype Json =
    | JNull
    | JBool(b: bool)
    | JNum(n: int)
    | JStr(s: string)
    | JArr(items: seq<Json>)
    | JObj(fields: map<string, Json>)

  /** JavaScript truthiness: `null`, `false`, `0` and `""` are falsy, everything else is truthy. */
  predicate Truthy(v: Json)
    ensures Truthy(v) <==> v !in {JNull, JBool(false), JNum(0), JStr("")}
  {
    match v
    case JNull => false
    case JBool(b) => b
    case JNum(n) => n != 0
    case JStr(s) => s != ""
    case _ => true
  }

  /** Truthiness of a value that may be `undefined` (`None`), which is falsy. */
  predicate TruthyOpt(o: Option<Json>) {
    o.Some? && Truthy(o.value)
  }

  /** `v?.key`: the own property `key` of an object, `undefined` for anything else. */
  function Field(v: Json, key: string): (r: Option<Json>)
    ensures r.Some? <==> v.JObj? && key in v.fields
    ensures r.Some? ==> r.value == v.fields[key]
  {
    if v.JObj? && key in v.fields then Some(v.fields[key]) else None
  }

  /** `a || b`: the left operand when it is truthy, otherwise the right one. */
  function Or(a: Option<Json>, b: Json): (r: Json)
    ensures TruthyOpt(a) ==> Some(r) == a
    ensures !TruthyOpt(a) ==> r == b
  {
    if TruthyOpt(a) then a.value else b
  }

  /** The text of a decimal digit. */
  function DigitChar(d: nat): char
    requires d < 10
  {
    ('0' as int + d) as char
  }

  /** The value of a decimal digit character. */
  function DigitValue(c: char): nat
    requires '0' <= c <= '9'
  {
    c as int - '0' as int
  }

  /** The value of a string of decimal digits. */
  function DecimalValue(ds: string): nat
    requires forall k :: 0 <= k < |ds| ==> '0' <= ds[k] <= '9'
  {
    if ds == [] then 0 else 10 * DecimalValue(ds[..|ds| - 1]) + DigitValue(ds[|ds| - 1])
  }

  /** The decimal text of `n`: digits only, no leading zero, and reading back as `n`. */
  function NatToDecimal(n: nat): (r: string)
    ensures |r| >= 1
    ensures forall k :: 0 <= k < |r| ==> '0' <= r[k] <= '9'
    ensures r[0] == '0' ==> n == 0 && |r| == 1
    decreases n
  {
    if n < 10 then [DigitChar(n)]
    else NatToDecimal(n / 10) + [DigitChar(n % 10)]
  }

  /** The decimal text of `n` reads back as `n`. */
  lemma {:induction false} NatToDecimalValue(n: nat)
    ensures DecimalValue(NatToDecimal(n)) == n
    decreases n
  {
    var r := NatToDecimal(n);
    if n < 10 {
      assert r[..|r| - 1] == [];
    } else {
      NatToDecimalValue(n / 10);
      assert r[..|r| - 1] == NatToDecimal(n / 10);
      DivMod10(n, n / 10, n % 10);
    }
  }

  /** Different numbers have different decimal texts. */
  lemma NatToDecimalInjective(a: nat, b: nat)
    requires a != b
    ensures NatToDecimal(a) != NatToDecimal(b)
  {
    NatToDecimalValue(a);
    NatToDecimalValue(b);
  }

  /**
   * `key` is the decimal text of an index below `bound`: digits only, no leading zero
   * unless it is "0" itself, and a value below `bound`.
   */
  predicate IsIndexKey(key: string, bound: nat) {
    && |key| >= 1 && (forall k :: 0 <= k < |key| ==> '0' <= key[k] <= '9')
    && (key[0] == '0' ==> |key| == 1)
    && DecimalValue(key) < bound
  }

  /** A digit string that does not start with `0` has a positive value. */
  lemma {:induction false} LeadingDigitPositive(ds: string)
    requires |ds| >= 1 && (forall k :: 0 <= k < |ds| ==> '0' <= ds[k] <= '9') && ds[0] != '0'
    ensures DecimalValue(ds) > 0
    decreases |ds|
  {
    if |ds| > 1 {
      LeadingDigitPositive(ds[..|ds| - 1]);
    }
  }

  /** The index keys are exactly the decimal texts: each one is the text of its own value. */
  lemma {:induction false} IndexKeyIsDecimal(key: string, bound: nat)
    requires IsIndexKey(key, bound)
    ensures DecimalValue(key) < bound && NatToDecimal(DecimalValue(key)) == key
    decreases |key|
  {
    var n := DecimalValue(key);
    if |key| == 1 {
      assert key[..|key| - 1] == [];
      assert DecimalValue(key[..|key| - 1]) == 0;
      assert n == DigitValue(key[0]);
      assert key == [DigitChar(n)];
    } else {
      var p := key[..|key| - 1];
      var last := key[|key| - 1];
      assert '0' <= key[|key| - 1] <= '9';
      assert key == p + [last];
      assert p[0] == key[0] != '0';
      assert IsIndexKey(p, DecimalValue(p) + 1);
      LeadingDigitPositive(p);
      IndexKeyIsDecimal(p, DecimalValue(p) + 1);
      DivMod10(n, DecimalValue(p), DigitValue(last));
      assert DigitChar(DigitValue(last)) == last;
    }
  }

  /** A number written as `10 * q + d` with a digit `d` has quotient `q` and remainder `d` by ten. */
  lemma DivMod10(n: nat, q: nat, d: nat)
    requires n == 10 * q + d && d < 10
    ensures n / 10 == q && n % 10 == d
  {
  }

  /** `String(n)` for an integer. */
  function IntToDecimal(n: int): (r: string)
    ensures |r| >= 1
    ensures r[0] == '-' <==> n < 0
    ensures var ds := if n < 0 then r[1..] else r;
      && |ds| >= 1 && (forall k :: 0 <= k < |ds| ==> '0' <= ds[k] <= '9')
      && (ds[0] == '0' ==> n == 0)
      && DecimalValue(ds) == if n < 0 then -n else n
  {
    var m: nat := if n < 0 then -n else n;
    NatToDecimalValue(m);
    if n < 0 then
      assert ("-" + NatToDecimal(m))[1..] == NatToDecimal(m);
      "-" + NatToDecimal(m)
    else NatToDecimal(m)
  }

  /** `String(v)`, as the `Error` constructor applies it to its message argument. */
  function ToJsString(v: Json): (r: string)
    ensures v.JStr? ==> r == v.s
    ensures v.JNum? ==> r == IntToDecimal(v.n)
    ensures v.JNull? ==> r == "null"
    ensures v.JBool? ==> r == (if v.b then "true" else "false")
    ensures v.JObj? ==> r == "[object Object]"
    ensures v.JArr? && |v.items| == 0 ==> r == ""
    ensures v.JArr? && |v.items| == 1 ==> r == (if v.items[0].JNull? then "" else ToJsString(v.items[0]))
    decreases v
  {
    match v
    case JNull => "null"
    case JBool(b) => if b then "true" else "false"
    case JNum(n) => IntToDecimal(n)
    case JStr(s) => s
    case JArr(items) =>
      // Array.prototype.join: items separated by commas, null items as "".
      JsText.JoinWith(seq(|items|, k requires 0 <= k < |items| =>
        if items[k].JNull? then "" else ToJsString(items[k])), ",")
    case JObj(_) => "[object Object]"
  }

  /** An object whose property named by each decimal index below `|items|` holds that item, and nothing else. */
  function IndexFields(items: seq<Json>): (m: map<string, Json>)
    ensures forall key :: key in m ==> IsIndexKey(key, |items|)
    ensures forall k :: 0 <= k < |items| ==> NatToDecimal(k) in m && m[NatToDecimal(k)] == items[k]
  {
    if |items| == 0 then map[]
    else
      var n := |items| - 1;
      var rest := IndexFields(items[..n]);
      var m := rest[NatToDecimal(n) := items[n]];
      IndexKeysStep(rest, n, m);
      IndexValuesStep(items, rest);
      m
  }

  /** The decimal texts of the indices below `n`. */
  ghost function IndexKeys(n: nat): set<string> {
    set k | 0 <= k < n :: NatToDecimal(k)
  }

  /** The keys of `IndexFields(items)` are exactly the decimal texts of the indices of `items`. */
  lemma IndexFieldsKeys(items: seq<Json>)
    ensures IndexFields(items).Keys == IndexKeys(|items|)
  {
    var m := IndexFields(items);
    var indices := IndexKeys(|items|);
    forall key | key in m
      ensures key in indices
    {
      IndexKeyIsDecimal(key, |items|);
      var k := DecimalValue(key);
      assert 0 <= k < |items| && NatToDecimal(k) == key;
    }
    forall key | key in indices
      ensures key in m
    {
      var k :| 0 <= k < |items| && NatToDecimal(k) == key;
    }
    assert m.Keys <= indices && indices <= m.Keys;
  }

  /** Adding the key of index `n` to the keys of the indices below `n` gives keys of the indices below `n + 1`. */
  lemma IndexKeysStep(rest: map<string, Json>, n: nat, m: map<string, Json>)
    requires forall key :: key in rest ==> IsIndexKey(key, n)
    requires m.Keys == rest.Keys + {NatToDecimal(n)}
    ensures forall key :: key in m ==> IsIndexKey(key, n + 1)
  {
    forall key | key in m
      ensures IsIndexKey(key, n + 1)
    {
      if key == NatToDecimal(n) {
        NatToDecimalValue(n);
      } else {
        assert IsIndexKey(key, n);
      }
    }
  }

  /** The new key differs from every earlier index key, so the earlier items keep their places. */
  lemma IndexValuesStep(items: seq<Json>, rest: map<string, Json>)
    requires |items| > 0
    requires forall k :: 0 <= k < |items| - 1 ==> NatToDecimal(k) in rest && rest[NatToDecimal(k)] == items[k]
    ensures var m := rest[NatToDecimal(|items| - 1) := items[|items| - 1]];
      forall k :: 0 <= k < |items| ==> NatToDecimal(k) in m && m[NatToDecimal(k)] == items[k]
  {
    var n := |items| - 1;
    var m := rest[NatToDecimal(n) := items[n]];
    forall k | 0 <= k < |items|
      ensures NatToDecimal(k) in m && m[NatToDecimal(k)] == items[k]
    {
      if k < n {
        var key := NatToDecimal(k);
        NatToDecimalInjective(k, n);
        assert key in rest && rest[key] == items[k];
      }
    }
  }

  /** The characters of `s`, each as a one-character string. */
  function Chars(s: string): (r: seq<Json>)
    ensures |r| == |s| && forall k :: 0 <= k < |s| ==> r[k] == JStr([s[k]])
  {
    seq(|s|, k requires 0 <= k < |s| => JStr([s[k]]))
  }

  /**
   * The properties object spread `{...v}` copies: an object's own properties, the
   * characters of a string and the items of an array under their decimal indices,
   * and nothing for `null`, booleans and numbers.
   */
  function Spread(v: Json): (m: map<string, Json>)
    ensures v.JObj? ==> m == v.fields
    ensures v.JArr? ==> forall key :: key in m ==> IsIndexKey(key, |v.items|)
    ensures v.JStr? ==> forall key :: key in m ==> IsIndexKey(key, |v.s|)
    ensures v.JArr? ==> forall k :: 0 <= k < |v.items| ==> NatToDecimal(k) in m && m[NatToDecimal(k)] == v.items[k]
    ensures v.JStr? ==> forall k :: 0 <= k < |v.s| ==> NatToDecimal(k) in m && m[NatToDecimal(k)] == JStr([v.s[k]])
    ensures v.JNull? || v.JBool? || v.JNum? ==> m == map[]
  {
    match v
    case JObj(fields) => fields
    case JArr(items) => IndexFields(items)
    case JStr(s) => IndexFields(Chars(s))
    case _ => map[]
  }

  /** Spreading an array or a string gives exactly the decimal indices below its length as keys. */
  lemma SpreadKeys(v: Json)
    ensures v.JArr? ==> Spread(v).Keys == IndexKeys(|v.items|)
    ensures v.JStr? ==> Spread(v).Keys == IndexKeys(|v.s|)
  {
    match v
    case JArr(items) => IndexFieldsKeys(items);
    case JStr(s) => IndexFieldsKeys(Chars(s));
    case _ =>
  }

  /** A truthy value other than an array never converts to the empty string. */
  lemma TruthyNonArrayHasText(v: Json)
    requires Truthy(v) && !v.JArr?
    ensures ToJsString(v) != ""
  {
  }
}
