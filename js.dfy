/** JavaScript values as the core reads and writes them: parsed JSON plus `undefined`,
    truthiness, property reads, the object spread `{...a, ...b}`, `===` and `String(v)`. */
module Js {

  /** A JavaScript value. Objects keep their keys in insertion order (for-in order and
      Object.values order are observable in the core); numbers are integers. */
  datatype Value =
    | Undefined
    | Null
    | Bool(b: bool)
    | Num(n: int)
    | Str(s: string)
    | Arr(items: seq<Value>)
    | Obj(fields: seq<(string, Value)>)

  /** The completion of a JavaScript expression that may throw. */
  datatype Outcome<T> = Returned(value: T) | Threw(message: string)

  datatype Option<T> = None | Some(value: T)

  /** JavaScript truthiness: `undefined`, `null`, `false`, `0` and `""` are falsy. */
  predicate Truthy(v: Value)
  {
    match v
    case Undefined => false
    case Null => false
    case Bool(b) => b
    case Num(n) => n != 0
    case Str(s) => s != ""
    case Arr(_) => true
    case Obj(_) => true
  }

  /** `typeof v === 'object'` (true of `null` and of arrays). */
  predicate IsObjectType(v: Value)
  {
    v.Null? || v.Arr? || v.Obj?
  }

  /** `a || b` */
  function Or(a: Value, b: Value): (r: Value)
    ensures Truthy(r) <==> Truthy(a) || Truthy(b)
    ensures Truthy(a) ==> r == a
    ensures !Truthy(a) ==> r == b
  {
    if Truthy(a) then a else b
  }

  function Keys(fields: seq<(string, Value)>): (ks: seq<string>)
    ensures |ks| == |fields|
    ensures forall i :: 0 <= i < |fields| ==> ks[i] == fields[i].0
  {
    if fields == [] then [] else [fields[0].0] + Keys(fields[1..])
  }

  /** A JavaScript object never holds the same key twice. */
  predicate UniqueKeys(fields: seq<(string, Value)>)
  {
    forall i, j :: 0 <= i < j < |fields| ==> fields[i].0 != fields[j].0
  }

  /** `obj[k]` on an object: the value under `k`, or `undefined`. */
  function Get(fields: seq<(string, Value)>, k: string): (v: Value)
    ensures k !in Keys(fields) ==> v == Undefined
    ensures k in Keys(fields) ==> exists i :: 0 <= i < |fields| && fields[i] == (k, v)
  {
    if fields == [] then Undefined
    else if fields[0].0 == k then fields[0].1
    else Get(fields[1..], k)
  }

  /** The message V8 gives a property read on `undefined` or `null`. */
  function ReadError(v: Value, k: string): string
  {
    "Cannot read properties of " + (if v.Null? then "null" else "undefined") + " (reading '" + k + "')"
  }

  /** `v.k` for a named (non-index) key: throws on `undefined` and `null`; primitives and
      arrays have no such own property. */
  function Prop(v: Value, k: string): (r: Outcome<Value>)
    ensures r.Threw? <==> v.Undefined? || v.Null?
    ensures v.Obj? ==> r == Returned(Get(v.fields, k))
    ensures Truthy(v) && !v.Obj? ==> r == Returned(Undefined)
  {
    match v
    case Undefined => Threw(ReadError(v, k))
    case Null => Threw(ReadError(v, k))
    case Obj(fields) => Returned(Get(fields, k))
    case _ => Returned(Undefined)
  }

  /** `obj[k] = x` on an object: replaces the value in place, or appends the key. */
  function Set(fields: seq<(string, Value)>, k: string, x: Value): (r: seq<(string, Value)>)
    ensures Keys(r) == if k in Keys(fields) then Keys(fields) else Keys(fields) + [k]
    ensures Get(r, k) == x
  {
    if fields == [] then [(k, x)]
    else if fields[0].0 == k then [(k, x)] + fields[1..]
    else [fields[0]] + Set(fields[1..], k, x)
  }

  /** Setting `k` leaves the value under every other key as it was. */
  lemma {:induction false} SetKeepsOthers(fields: seq<(string, Value)>, k: string, x: Value)
    ensures forall j :: j != k ==> Get(Set(fields, k, x), j) == Get(fields, j)
  {
    if fields != [] && fields[0].0 != k {
      SetKeepsOthers(fields[1..], k, x);
      assert ([fields[0]] + Set(fields[1..], k, x))[1..] == Set(fields[1..], k, x);
    }
  }

  /** `{...a, ...b}`: keys of `a` in their order (overwritten by `b`), then new keys of `b`. */
  function Merge(a: seq<(string, Value)>, b: seq<(string, Value)>): seq<(string, Value)>
    decreases |b|
  {
    if b == [] then a else Merge(Set(a, b[0].0, b[0].1), b[1..])
  }

  /** The own enumerable properties `{...v}` copies. */
  function Spread(v: Value): seq<(string, Value)>
  {
    if v.Obj? then v.fields else []
  }

  /** `a === b`: primitives by value; two objects read from distinct messages are distinct. */
  predicate StrictEquals(a: Value, b: Value)
  {
    match a
    case Arr(_) => false
    case Obj(_) => false
    case _ => a == b
  }

  /** `array.includes(x)` with `x` a string. */
  predicate ArrayIncludes(items: seq<Value>, x: string)
  {
    Str(x) in items
  }

  function DigitChar(d: nat): char
    requires d < 10
  {
    "0123456789"[d]
  }

  /** Decimal rendering of a natural number, as `String(n)` gives it. */
  function NatToString(n: nat): (s: string)
    ensures |s| >= 1
    ensures forall i :: 0 <= i < |s| ==> '0' <= s[i] <= '9'
    ensures n < 10 <==> |s| == 1
  {
    if n < 10 then [DigitChar(n)] else NatToString(n / 10) + [DigitChar(n % 10)]
  }

  /** `String(v)` */
  function ToString(v: Value): string
    decreases v, 1
  {
    match v
    case Undefined => "undefined"
    case Null => "null"
    case Bool(b) => if b then "true" else "false"
    case Num(n) => if n < 0 then "-" + NatToString(-n) else NatToString(n)
    case Str(s) => s
    case Arr(items) => JoinItems(v, items)
    case Obj(_) => "[object Object]"
  }

  /** `items.join(",")`, in which `null` and `undefined` become empty. */
  function JoinItems(ghost whole: Value, items: seq<Value>): string
    requires whole.Arr? && items <= whole.items
    decreases whole, 0, |items|
  {
    if items == [] then ""
    else
      var last := items[|items| - 1];
      var head := if last.Undefined? || last.Null? then "" else ToString(last);
      if |items| == 1 then head else JoinItems(whole, items[..|items| - 1]) + "," + head
  }

  /** `{...a, ...b}` reads as `b` on the keys `b` has and as `a` everywhere else. */
  lemma {:induction false} MergeGet(a: seq<(string, Value)>, b: seq<(string, Value)>, k: string)
    requires UniqueKeys(b)
    ensures Get(Merge(a, b), k) == if k in Keys(b) then Get(b, k) else Get(a, k)
    decreases |b|
  {
    if b != [] {
      assert Keys(b) == [b[0].0] + Keys(b[1..]);
      assert k == b[0].0 ==> k !in Keys(b[1..]);
      SetKeepsOthers(a, b[0].0, b[0].1);
      MergeGet(Set(a, b[0].0, b[0].1), b[1..], k);
    }
  }

  /** The keys of `{...a, ...b}` are those of `a`, in their order, then the new ones of `b`;
      no key appears twice. */
  lemma {:induction false} MergeKeys(a: seq<(string, Value)>, b: seq<(string, Value)>)
    requires UniqueKeys(a)
    ensures Keys(a) <= Keys(Merge(a, b))
    ensures forall k :: k in Keys(Merge(a, b)) <==> k in Keys(a) || k in Keys(b)
    ensures UniqueKeys(Merge(a, b))
    decreases |b|
  {
    if b != [] {
      var a' := Set(a, b[0].0, b[0].1);
      SetUnique(a, b[0].0, b[0].1);
      MergeKeys(a', b[1..]);
      assert Keys(b) == [b[0].0] + Keys(b[1..]);
    }
  }

  lemma {:induction false} SetUnique(fields: seq<(string, Value)>, k: string, x: Value)
    requires UniqueKeys(fields)
    ensures UniqueKeys(Set(fields, k, x))
    decreases |fields|
  {
    if fields != [] {
      UniqueTail(fields);
      if fields[0].0 == k {
        UniqueCons((k, x), fields[1..]);
      } else {
        SetUnique(fields[1..], k, x);
        UniqueCons(fields[0], Set(fields[1..], k, x));
      }
    }
  }

  /** The rest of a list with unique keys has unique keys and lacks the first key. */
  lemma UniqueTail(fields: seq<(string, Value)>)
    requires fields != [] && UniqueKeys(fields)
    ensures UniqueKeys(fields[1..]) && fields[0].0 !in Keys(fields[1..])
  {
    var t := fields[1..];
    forall i, j | 0 <= i < j < |t| ensures t[i].0 != t[j].0 {
      assert t[i] == fields[i + 1] && t[j] == fields[j + 1];
    }
    forall j | 0 <= j < |t| ensures Keys(t)[j] != fields[0].0 {
      assert Keys(t)[j] == fields[j + 1].0;
    }
  }

  /** A key not among the keys of a list with unique keys can be put in front of it. */
  lemma UniqueCons(h: (string, Value), t: seq<(string, Value)>)
    requires UniqueKeys(t) && h.0 !in Keys(t)
    ensures UniqueKeys([h] + t)
  {
    var r := [h] + t;
    forall i, j | 0 <= i < j < |r| ensures r[i].0 != r[j].0 {
      assert r[j] == t[j - 1] && Keys(t)[j - 1] == t[j - 1].0;
      if i > 0 {
        assert r[i] == t[i - 1];
      }
    }
  }

  /** `JSON.parse(JSON.stringify(v))` for a value inside an object or array: object entries
      whose value is `undefined` are dropped and `undefined` array items become `null`. */
  function JsonCopy(v: Value): (r: Value)
    ensures JsonClean(r)
    decreases v, 1
  {
    match v
    case Arr(items) => Arr(CopyItems(v, items))
    case Obj(fields) => Obj(CopyFields(v, fields))
    case _ => v
  }

  function CopyItems(ghost whole: Value, items: seq<Value>): (r: seq<Value>)
    requires whole.Arr? && items <= whole.items
    ensures |r| == |items|
    ensures forall i :: 0 <= i < |r| ==> !r[i].Undefined? && JsonClean(r[i])
    decreases whole, 0, |items|
  {
    if items == [] then []
    else
      var last := items[|items| - 1];
      CopyItems(whole, items[..|items| - 1]) + [if last.Undefined? then Null else JsonCopy(last)]
  }

  function CopyFields(ghost whole: Value, fields: seq<(string, Value)>): (r: seq<(string, Value)>)
    requires whole.Obj? && fields <= whole.fields
    ensures |r| <= |fields|
    ensures forall i :: 0 <= i < |r| ==> !r[i].1.Undefined? && JsonClean(r[i].1)
    decreases whole, 0, |fields|
  {
    if fields == [] then []
    else
      var last := fields[|fields| - 1];
      assert last == whole.fields[|fields| - 1];
      CopyFields(whole, fields[..|fields| - 1]) + (if last.1.Undefined? then [] else [(last.0, JsonCopy(last.1))])
  }

  /** A value JSON can carry unchanged: no `undefined` inside an object or an array. */
  predicate JsonClean(v: Value)
    decreases v
  {
    match v
    case Arr(items) => forall i :: 0 <= i < |items| ==> !items[i].Undefined? && JsonClean(items[i])
    case Obj(fields) => forall i :: 0 <= i < |fields| ==> !fields[i].1.Undefined? && JsonClean(fields[i].1)
    case _ => true
  }

  /** Reading an object extended by one entry. */
  lemma {:induction false} GetSnoc(xs: seq<(string, Value)>, p: (string, Value), k: string)
    ensures k in Keys(xs + [p]) <==> k in Keys(xs) || p.0 == k
    ensures Get(xs + [p], k) == if k in Keys(xs) then Get(xs, k) else if p.0 == k then p.1 else Undefined
    decreases |xs|
  {
    if xs == [] {
      assert xs + [p] == [p];
    } else {
      assert (xs + [p])[1..] == xs[1..] + [p];
      GetSnoc(xs[1..], p, k);
    }
  }

  /** One JSON trip of an object drops exactly its undefined entries and copies the others. */
  lemma {:induction false} CopyFieldsGet(whole: Value, fields: seq<(string, Value)>, k: string)
    requires whole.Obj? && fields <= whole.fields && UniqueKeys(fields)
    ensures k in Keys(CopyFields(whole, fields)) <==> k in Keys(fields) && !Get(fields, k).Undefined?
    ensures Get(CopyFields(whole, fields), k) == if Get(fields, k).Undefined? then Undefined else JsonCopy(Get(fields, k))
    decreases |fields|
  {
    if fields != [] {
      var n := |fields| - 1;
      var init, last := fields[..n], fields[n];
      assert fields == init + [last];
      assert last == whole.fields[n];
      assert UniqueKeys(init) by {
        forall i, j | 0 <= i < j < n ensures init[i].0 != init[j].0 {
          assert init[i] == fields[i] && init[j] == fields[j];
        }
      }
      var ci := CopyFields(whole, init);
      CopyFieldsGet(whole, init, k);
      GetSnoc(init, last, k);
      if k in Keys(init) {
        var j :| 0 <= j < n && Keys(init)[j] == k;
        assert init[j] == fields[j];
        assert fields[j].0 != fields[n].0;
      }
      if last.1.Undefined? {
        assert CopyFields(whole, fields) == ci;
      } else {
        assert CopyFields(whole, fields) == ci + [(last.0, JsonCopy(last.1))];
        GetSnoc(ci, (last.0, JsonCopy(last.1)), k);
      }
    }
  }

  /** A value that has been through JSON once comes back unchanged from a second trip. */
  lemma {:induction false} JsonCopyIdempotent(v: Value)
    requires JsonClean(v)
    ensures JsonCopy(v) == v
    decreases v, 1
  {
    match v
    case Arr(items) => CopyItemsIdempotent(v, items);
    case Obj(fields) => CopyFieldsIdempotent(v, fields);
    case _ =>
  }

  lemma {:induction false} CopyItemsIdempotent(whole: Value, items: seq<Value>)
    requires whole.Arr? && items <= whole.items && JsonClean(whole)
    ensures CopyItems(whole, items) == items
    decreases whole, 0, |items|
  {
    if items != [] {
      var n := |items| - 1;
      assert items[n] == whole.items[n];
      CopyItemsIdempotent(whole, items[..n]);
      JsonCopyIdempotent(items[n]);
      assert items == items[..n] + [items[n]];
    }
  }

  lemma {:induction false} CopyFieldsIdempotent(whole: Value, fields: seq<(string, Value)>)
    requires whole.Obj? && fields <= whole.fields && JsonClean(whole)
    ensures CopyFields(whole, fields) == fields
    decreases whole, 0, |fields|
  {
    if fields != [] {
      var n := |fields| - 1;
      assert fields[n] == whole.fields[n];
      CopyFieldsIdempotent(whole, fields[..n]);
      JsonCopyIdempotent(fields[n].1);
      assert fields == fields[..n] + [fields[n]];
    }
  }
}
