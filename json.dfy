/** The value tree that `JSON.parse` hands to the printer and the differ
    (src/calculateDiffs.ts:3-5, 673-674). */
module Json {
  import opened StringOps

  /** A JavaScript number, kept opaque: it is represented by its JavaScript
      text `String(x)`. For the numbers `JSON.parse` yields (never NaN), two
      numbers are `===` exactly when these texts are equal, so the differ's
      `val1 !== val2` is text inequality. */
  datatype Number = Number(text: string)

  /** One own property of an object, in the object's enumeration order. */
  datatype Member = Member(key: string, val: Value)

  datatype Value =
    | Null
    | Bool(b: bool)
    | Num(n: Number)
    | Str(s: string)
    | Arr(items: seq<Value>)
    | Obj(members: seq<Member>)

  /** The keys of an object, in enumeration order. */
  function Keys(ms: seq<Member>): (ks: seq<string>)
    ensures |ks| == |ms|
    ensures forall i :: 0 <= i < |ms| ==> ks[i] == ms[i].key
  {
    seq(|ms|, i requires 0 <= i < |ms| => ms[i].key)
  }

  predicate DistinctKeys(ms: seq<Member>)
  {
    forall i, j :: 0 <= i < j < |ms| ==> ms[i].key != ms[j].key
  }

  /** Index of the member with key `k` (`obj.hasOwnProperty(k)` holds when it
      is below `|ms|`). */
  function KeyIndex(ms: seq<Member>, k: string): (i: nat)
    ensures i <= |ms|
    ensures i < |ms| ==> ms[i].key == k
    ensures i == |ms| <==> k !in Keys(ms)
  {
    if ms == [] then 0
    else if ms[0].key == k then 0
    else
      assert Keys(ms) == [ms[0].key] + Keys(ms[1..]);
      1 + KeyIndex(ms[1..], k)
  }

  /** No member before the one `KeyIndex` finds has the key: it finds the
      first. */
  lemma {:induction false} KeyIndexFirst(ms: seq<Member>, k: string)
    ensures forall j :: 0 <= j < KeyIndex(ms, k) ==> ms[j].key != k
  {
    if ms != [] && ms[0].key != k {
      KeyIndexFirst(ms[1..], k);
      forall j | 1 <= j < KeyIndex(ms, k) ensures ms[j].key != k {
        assert ms[j] == ms[1..][j - 1];
      }
    }
  }

  predicate HasKey(ms: seq<Member>, k: string)
  {
    k in Keys(ms)
  }

  /** What a JavaScript engine can hold: every object has distinct keys, and a
      number's text has no line break. */
  predicate WellFormed(v: Value)
  {
    match v
    case Num(n) => Newline !in n.text
    case Arr(items) => forall i :: 0 <= i < |items| ==> WellFormed(items[i])
    case Obj(ms) => DistinctKeys(ms) && forall i :: 0 <= i < |ms| ==> WellFormed(ms[i].val)
    case _ => true
  }

  /** Equality of JSON values as the differ understands it: arrays compared
      position by position, objects as key-to-value maps whatever the order of
      their members, scalars by `===`. */
  predicate Same(v1: Value, v2: Value)
  {
    match v1
    case Arr(a1) =>
      v2.Arr? && |a1| == |v2.items| &&
      forall i :: 0 <= i < |a1| ==> Same(a1[i], v2.items[i])
    case Obj(m1) =>
      v2.Obj? &&
      (forall j :: 0 <= j < |v2.members| ==> HasKey(m1, v2.members[j].key)) &&
      (forall i :: 0 <= i < |m1| ==>
         var j := KeyIndex(v2.members, m1[i].key);
         j < |v2.members| && Same(m1[i].val, v2.members[j].val))
    case _ => v1 == v2
  }

  /** Number of addressable nodes strictly below `v`: every array element and
      every object member, recursively. */
  function Descendants(v: Value): nat
  {
    match v
    case Arr(items) => ItemsDescendants(items)
    case Obj(ms) => MembersDescendants(ms)
    case _ => 0
  }

  function ItemsDescendants(items: seq<Value>): nat
  {
    if items == [] then 0 else 1 + Descendants(items[0]) + ItemsDescendants(items[1..])
  }

  function MembersDescendants(ms: seq<Member>): nat
  {
    if ms == [] then 0 else 1 + Descendants(ms[0].val) + MembersDescendants(ms[1..])
  }
}
