/**
 * The slice of JavaScript semantics the modelled services rely on: values and
 * their truthiness, the string coercion used for object keys, `toLowerCase`,
 * `Array.prototype.join`, and plain objects as ordered key/value entries.
 */
module Js {

  datatype Option<T> = None | Some(value: T)

  /** A JavaScript value. Numbers are integers; an object is compared by
      reference, so `Obj(ref)` carries only its identity. */
  datatype Value =
    | Undefined
    | Null
    | Bool(b: bool)
    | Num(n: int)
    | Str(s: string)
    | Obj(ref: nat)

  /** The value is truthy in an `if` or `&&` test: `undefined`, `null`,
      `false`, `0` and `''` are not. */
  predicate Truthy(v: Value): (r: bool)
    ensures v.Undefined? || v.Null? ==> !r
    ensures v.Obj? ==> r
    ensures v.Str? ==> (r <==> |v.s| > 0)
  {
    match v
    case Undefined => false
    case Null => false
    case Bool(b) => b
    case Num(n) => n != 0
    case Str(s) => s != ""
    case Obj(_) => true
  }

  // ---------------------------------------------------------------------------
  // Strings

  function DigitChar(d: nat): char
    requires d < 10
  {
    ('0' as int + d) as char
  }

  /** Decimal digits of a natural number, most significant first. */
  function Digits(n: nat): (r: string)
    ensures |r| >= 1
    ensures forall i :: 0 <= i < |r| ==> '0' <= r[i] <= '9'
    decreases n
  {
    if n < 10 then [DigitChar(n)] else Digits(n / 10) + [DigitChar(n % 10)]
  }

  /** `String(n)` for an integer `n`. */
  function NumText(n: int): string {
    if n < 0 then "-" + Digits(-n) else Digits(n)
  }

  /** `v + ''`: the string a value is coerced to, which is also the key a
      value becomes when it indexes a plain object. */
  function ToText(v: Value): (r: string)
    ensures v.Str? ==> r == v.s
    ensures r == "" <==> v == Str("")
  {
    match v
    case Undefined => "undefined"
    case Null => "null"
    case Bool(b) => if b then "true" else "false"
    case Num(n) => NumText(n)
    case Str(s) => s
    case Obj(_) => "[object Object]"
  }

  function LowerChar(c: char): char {
    if 'A' <= c <= 'Z' then (c as int + 32) as char else c
  }

  /** `s.toLowerCase()`, restricted to ASCII letters. */
  function Lower(s: string): (r: string)
    ensures |r| == |s|
    ensures forall i :: 0 <= i < |s| ==> r[i] == LowerChar(s[i])
  {
    if s == [] then [] else [LowerChar(s[0])] + Lower(s[1..])
  }

  /** Lowercasing twice is lowercasing once: a key stored lowercased is found
      again by lowercasing it. */
  lemma LowerIdempotent(s: string)
    ensures Lower(Lower(s)) == Lower(s)
  {
    var once := Lower(s);
    var twice := Lower(once);
    forall i | 0 <= i < |s|
      ensures twice[i] == once[i]
    {
      assert once[i] == LowerChar(s[i]);
    }
  }

  predicate OccursAt(s: string, t: string, i: int) {
    0 <= i && i + |t| <= |s| && s[i..i + |t|] == t
  }

  /** `s.indexOf(t) !== -1` */
  predicate Contains(s: string, t: string) {
    exists i :: 0 <= i <= |s| && OccursAt(s, t, i)
  }

  /** `parts.join(sep)` */
  function Join(parts: seq<string>, sep: string): (r: string)
    ensures parts == [] ==> r == ""
    ensures parts != [] ==> parts[0] <= r
    ensures |parts| == 1 ==> r == parts[0]
    decreases |parts|
  {
    if parts == [] then ""
    else if |parts| == 1 then parts[0]
    else
      var init := parts[..|parts| - 1];
      assert init[0] == parts[0];
      var front := Join(init, sep);
      var r := front + sep + parts[|parts| - 1];
      assert r[..|front|] == front;
      assert r[..|parts[0]|] == front[..|parts[0]|];
      r
  }

  /** A join whose first part is not empty is not empty. */
  lemma {:induction false} JoinNonEmpty(parts: seq<string>, sep: string)
    requires parts != [] && parts[0] != ""
    ensures Join(parts, sep) != ""
    decreases |parts|
  {
    if |parts| > 1 {
      var init := parts[..|parts| - 1];
      assert init[0] == parts[0];
      JoinNonEmpty(init, sep);
    }
  }

  /** Joining one more part appends the separator and the part, and nothing
      else: the separator appears exactly between neighbouring parts. */
  lemma {:induction false} JoinCons(part: string, parts: seq<string>, sep: string)
    requires parts != []
    ensures Join([part] + parts, sep) == part + sep + Join(parts, sep)
    decreases |parts|
  {
    var all := [part] + parts;
    var last := parts[|parts| - 1];
    if |parts| == 1 {
      assert all[..|all| - 1] == [part];
      assert Join(all, sep) == Join([part], sep) + sep + last;
    } else {
      var init := parts[..|parts| - 1];
      assert all[..|all| - 1] == [part] + init;
      JoinCons(part, init, sep);
      var front := Join(init, sep);
      assert Join(all, sep) == (part + sep + front) + sep + last;
      assert Join(parts, sep) == front + sep + last;
    }
  }

  // ---------------------------------------------------------------------------
  // Plain objects

  /** A plain object as its entries in `Object.keys` order. */
  type Props = seq<(string, Value)>

  predicate HasKey(ps: Props, key: string) {
    exists i :: 0 <= i < |ps| && ps[i].0 == key
  }

  /** The keys of an object are pairwise different. */
  predicate DistinctKeys(ps: Props) {
    forall i, j :: 0 <= i < j < |ps| ==> ps[i].0 != ps[j].0
  }

  /** `o[key]` on a plain object: the value of the entry for `key`, or
      `undefined`. Of two entries for one key the later one is the value, as
      in an object literal. */
  function Prop(ps: Props, key: string): (r: Value)
    ensures !HasKey(ps, key) ==> r == Undefined
  {
    if ps == [] then Undefined
    else if ps[|ps| - 1].0 == key then ps[|ps| - 1].1
    else Prop(ps[..|ps| - 1], key)
  }

  /** A key the object has, but not in its last entry, is a key of the
      entries before the last. */
  lemma KeyBeforeLast(ps: Props, key: string)
    requires HasKey(ps, key) && ps[|ps| - 1].0 != key
    ensures HasKey(ps[..|ps| - 1], key)
  {
    var i :| 0 <= i < |ps| && ps[i].0 == key;
    assert ps[..|ps| - 1][i].0 == key;
  }

  /** A key the object has reads as the value of its last entry. */
  lemma {:induction false} PropIsLastEntry(ps: Props, key: string)
    requires HasKey(ps, key)
    ensures exists i :: 0 <= i < |ps| && ps[i] == (key, Prop(ps, key))
                        && forall j :: i < j < |ps| ==> ps[j].0 != key
  {
    var n := |ps|;
    if ps[n - 1].0 != key {
      var init := ps[..n - 1];
      KeyBeforeLast(ps, key);
      PropIsLastEntry(init, key);
      var k :| 0 <= k < |init| && init[k] == (key, Prop(init, key))
               && forall j :: k < j < |init| ==> init[j].0 != key;
      assert Prop(ps, key) == Prop(init, key);
      assert ps[k] == init[k];
    } else {
      assert ps[n - 1] == (key, Prop(ps, key));
    }
  }

  /** `o[key]` on an object held as a map from key to value. */
  function Get(m: map<string, Value>, key: string): Value {
    if key in m then m[key] else Undefined
  }

  /** Assigns every entry of `ps` to `m`, left to right (`Object.assign`). */
  function Merge(m: map<string, Value>, ps: Props): (r: map<string, Value>)
    ensures r.Keys == m.Keys + set i | 0 <= i < |ps| :: ps[i].0
  {
    if ps == [] then m
    else Merge(m, ps[..|ps| - 1])[ps[|ps| - 1].0 := ps[|ps| - 1].1]
  }

  /** Assigning one more entry is a single map update. */
  lemma MergeSnoc(m: map<string, Value>, ps: Props, entry: (string, Value))
    ensures Merge(m, ps + [entry]) == Merge(m, ps)[entry.0 := entry.1]
  {
    var all := ps + [entry];
    assert all[..|all| - 1] == ps;
  }

  /** After `Object.assign(m, ps)`, a key of `ps` reads as its value in `ps`
      and every other key reads as it did in `m`. */
  lemma {:induction false} MergeGet(m: map<string, Value>, ps: Props, key: string)
    ensures Get(Merge(m, ps), key) == if HasKey(ps, key) then Prop(ps, key) else Get(m, key)
  {
    if ps != [] {
      var init := ps[..|ps| - 1];
      MergeGet(m, init, key);
      if ps[|ps| - 1].0 != key && HasKey(ps, key) {
        var i :| 0 <= i < |ps| && ps[i].0 == key;
        assert init[i].0 == key;
      }
      if HasKey(init, key) {
        var i :| 0 <= i < |init| && init[i].0 == key;
        assert ps[i].0 == key;
      }
    }
  }

  /** Every entry for `key` gets `value`; the other entries stay as they are. */
  function Replace(ps: Props, key: string, value: Value): (r: Props)
    ensures |r| == |ps|
    ensures forall i :: 0 <= i < |ps| ==> r[i].0 == ps[i].0
    ensures HasKey(ps, key) ==> Prop(r, key) == value
    ensures forall k :: k != key ==> Prop(r, k) == Prop(ps, k)
  {
    if ps == [] then []
    else
      var init := ps[..|ps| - 1];
      var last := ps[|ps| - 1];
      var r := Replace(init, key, value) + [if last.0 == key then (key, value) else last];
      assert r[..|r| - 1] == Replace(init, key, value);
      assert last.0 != key && HasKey(ps, key) ==> HasKey(init, key) by {
        if last.0 != key && HasKey(ps, key) {
          var i :| 0 <= i < |ps| && ps[i].0 == key;
          assert init[i].0 == key;
        }
      }
      r
  }

  /** `o[key] = value` on a plain object: an existing entry keeps its place
      and takes the value, a new key is appended. */
  function SetProp(ps: Props, key: string, value: Value): (r: Props)
    ensures Prop(r, key) == value
    ensures HasKey(ps, key) ==> |r| == |ps|
    ensures HasKey(ps, key) ==> forall i :: 0 <= i < |ps| ==> r[i].0 == ps[i].0
    ensures !HasKey(ps, key) ==> r == ps + [(key, value)]
    ensures forall k :: k != key ==> Prop(r, k) == Prop(ps, k)
  {
    if HasKey(ps, key) then Replace(ps, key, value)
    else
      var r := ps + [(key, value)];
      assert r[..|r| - 1] == ps;
      r
  }
}
