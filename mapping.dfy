/**
 * Translation of the generic options into a provider's own parameters
 * (`_mappedParams` in both revisions), as specification functions and the
 * properties they have.
 */
module ParamMapping {
  import opened PhpValues
  import opened PhpArrays
  import opened Providers

  /** `$params[$generic]`: null when the key is missing. */
  function Lookup(p: Dict<Value>, k: string): Value {
    if k in p.vals then p.vals[k] else Null
  }

  /**
   * The specific parameter a spec writes: the string itself for a rename,
   * 'param' for an array whose 'param' is set and not PHP-empty, and
   * nothing for any other array (a list of names included).
   */
  function Target(spec: Spec): Option<string> {
    match spec
    case Rename(name) => Some(name)
    case Structured(param, _) => if param.None? || IsEmpty(Str(param.value)) then None else param
    case Names(_) => None
  }

  /** The value written: 'prefix' . value when the array spec has a prefix and the value is truthy. */
  function Converted(spec: Spec, v: Value): Value {
    match spec
    case Structured(_, prefix) => if Truthy(v) && prefix.Some? then Str(prefix.value + ToPhpString(v)) else v
    case _ => v
  }

  /** The generic option `generic`, translated by `spec`, writes parameter `k`. */
  predicate Writes(generic: string, spec: Spec, p: Dict<Value>, k: string) {
    !IsEmpty(Lookup(p, generic)) && Target(spec) == Some(k)
  }

  /** The generic name and the spec at position i of a provider's map. */
  function GenericAt(m: Dict<Spec>, i: nat): string
    requires i < |m.keys|
  {
    m.keys[i]
  }

  function SpecAt(m: Dict<Spec>, i: nat): Spec
    requires i < |m.keys|
  {
    m.vals[m.keys[i]]
  }

  predicate WritesAt(m: Dict<Spec>, i: nat, p: Dict<Value>, k: string)
    requires i < |m.keys|
  {
    Writes(GenericAt(m, i), SpecAt(m, i), p, k)
  }

  /** The value the entry at position i writes. */
  function ValueAt(m: Dict<Spec>, i: nat, p: Dict<Value>): Value
    requires i < |m.keys|
  {
    Converted(SpecAt(m, i), Lookup(p, GenericAt(m, i)))
  }

  /** One turn of the translation loop: skip an empty option or an inert spec, else write one entry. */
  function Step(acc: Dict<Value>, generic: string, spec: Spec, p: Dict<Value>): Dict<Value> {
    var value := Lookup(p, generic);
    if IsEmpty(value) then acc
    else match Target(spec)
      case None => acc
      case Some(param) => Put(acc, param, Converted(spec, value))
  }

  /** The translation loop run over the map's entries from position `from` on, starting from `acc`. */
  function TranslateFrom(acc: Dict<Value>, m: Dict<Spec>, from: nat, p: Dict<Value>): Dict<Value>
    requires from <= |m.keys|
    decreases |m.keys| - from
  {
    if from == |m.keys| then acc
    else TranslateFrom(Step(acc, GenericAt(m, from), SpecAt(m, from), p), m, from + 1, p)
  }

  lemma TranslateFromUnfold(acc: Dict<Value>, m: Dict<Spec>, from: nat, p: Dict<Value>)
    requires from < |m.keys|
    ensures TranslateFrom(acc, m, from, p) == TranslateFrom(Step(acc, GenericAt(m, from), SpecAt(m, from), p), m, from + 1, p)
  {
  }

  /** The translated parameters, before the extras are merged in. */
  function Translate(m: Dict<Spec>, p: Dict<Value>): Dict<Value> {
    TranslateFrom(Empty(), m, 0, p)
  }

  /**
   * `_mappedParams($map, $params)`: the translated parameters, then
   * `array_merge` with the extras, the options whose key is not generic.
   */
  function Mapped(m: Dict<Spec>, p: Dict<Value>, generics: set<string>): Dict<Value> {
    var translated := Translate(m, p);
    var extra := DiffKey(p, generics);
    if Size(extra) == 0 then translated else Merge(translated, extra)
  }

  lemma StepGet(acc: Dict<Value>, generic: string, spec: Spec, p: Dict<Value>, k: string)
    ensures Get(Step(acc, generic, spec, p), k) ==
              if Writes(generic, spec, p, k) then Some(Converted(spec, Lookup(p, generic))) else Get(acc, k)
  {
  }

  /** A turn that writes: an option that is not empty, and a spec that names a parameter. */
  lemma StepWrites(acc: Dict<Value>, generic: string, spec: Spec, p: Dict<Value>, param: string)
    requires !IsEmpty(Lookup(p, generic)) && Target(spec) == Some(param)
    ensures Step(acc, generic, spec, p) == Put(acc, param, Converted(spec, Lookup(p, generic)))
  {
  }

  /** A turn that skips: an empty option, or a spec that names no parameter. */
  lemma StepSkips(acc: Dict<Value>, generic: string, spec: Spec, p: Dict<Value>)
    requires IsEmpty(Lookup(p, generic)) || Target(spec).None?
    ensures Step(acc, generic, spec, p) == acc
  {
  }

  /** The translation writes key k exactly when k was already there or some entry from `from` on writes it. */
  lemma {:induction false} TranslateFromKeys(acc: Dict<Value>, m: Dict<Spec>, from: nat, p: Dict<Value>, k: string)
    requires from <= |m.keys|
    ensures k in TranslateFrom(acc, m, from, p).vals <==>
              k in acc.vals || exists i :: from <= i < |m.keys| && WritesAt(m, i, p, k)
    decreases |m.keys| - from
  {
    if from < |m.keys| {
      var next := Step(acc, GenericAt(m, from), SpecAt(m, from), p);
      StepGet(acc, GenericAt(m, from), SpecAt(m, from), p, k);
      assert k in next.vals <==> k in acc.vals || WritesAt(m, from, p, k);
      assert TranslateFrom(acc, m, from, p) == TranslateFrom(next, m, from + 1, p);
      TranslateFromKeys(next, m, from + 1, p, k);
      if exists i :: from <= i < |m.keys| && WritesAt(m, i, p, k) {
        var i :| from <= i < |m.keys| && WritesAt(m, i, p, k);
        assert i == from || (from + 1 <= i < |m.keys| && WritesAt(m, i, p, k));
      }
    }
  }

  /** The last entry that writes key k decides its value; with no writer the key keeps its value in `acc`. */
  lemma {:induction false} TranslateFromValue(acc: Dict<Value>, m: Dict<Spec>, from: nat, p: Dict<Value>, k: string)
    requires from <= |m.keys|
    ensures (forall j :: from <= j < |m.keys| ==> !WritesAt(m, j, p, k)) ==>
              Get(TranslateFrom(acc, m, from, p), k) == Get(acc, k)
    ensures forall i :: from <= i < |m.keys| && WritesAt(m, i, p, k) &&
                          (forall j :: i < j < |m.keys| ==> !WritesAt(m, j, p, k)) ==>
              Get(TranslateFrom(acc, m, from, p), k) == Some(ValueAt(m, i, p))
    decreases |m.keys| - from
  {
    if from < |m.keys| {
      var next := Step(acc, GenericAt(m, from), SpecAt(m, from), p);
      StepGet(acc, GenericAt(m, from), SpecAt(m, from), p, k);
      assert TranslateFrom(acc, m, from, p) == TranslateFrom(next, m, from + 1, p);
      TranslateFromValue(next, m, from + 1, p, k);
      forall i | from <= i < |m.keys| && WritesAt(m, i, p, k) && (forall j :: i < j < |m.keys| ==> !WritesAt(m, j, p, k))
        ensures Get(TranslateFrom(acc, m, from, p), k) == Some(ValueAt(m, i, p))
      {
        if i == from {
          assert Get(next, k) == Some(ValueAt(m, i, p));
          assert forall j :: from + 1 <= j < |m.keys| ==> !WritesAt(m, j, p, k);
        }
      }
      if forall j :: from <= j < |m.keys| ==> !WritesAt(m, j, p, k) {
        assert !WritesAt(m, from, p, k);
        assert Get(next, k) == Get(acc, k);
      }
    }
  }

  /** The entry at position i is the last one that writes k. */
  predicate LastWriter(m: Dict<Spec>, i: nat, p: Dict<Value>, k: string)
    requires i < |m.keys|
  {
    WritesAt(m, i, p, k) && forall j :: i < j < |m.keys| ==> !WritesAt(m, j, p, k)
  }

  /**
   * The keys `_mappedParams` outputs: every extra (an option whose key is
   * not generic), and the parameter of every entry of the map whose generic
   * option is non-empty and whose spec names a parameter. Nothing else: an
   * empty option, an inert spec and a generic key the map lacks yield nothing.
   */
  lemma MappedKeys(m: Dict<Spec>, p: Dict<Value>, generics: set<string>, k: string)
    ensures k in Mapped(m, p, generics).vals <==>
              (k in p.vals && k !in generics) || exists i :: 0 <= i < |m.keys| && WritesAt(m, i, p, k)
  {
    TranslateFromKeys(Empty(), m, 0, p, k);
  }

  /**
   * The values `_mappedParams` outputs: an extra keeps the caller's value,
   * also over a translated parameter of the same name; any other key takes
   * the value its last writer gives it (the option's value, prefixed where
   * the spec says so).
   */
  lemma MappedValues(m: Dict<Spec>, p: Dict<Value>, generics: set<string>, k: string)
    ensures k in p.vals && k !in generics ==> Get(Mapped(m, p, generics), k) == Some(p.vals[k])
    ensures forall i :: 0 <= i < |m.keys| && LastWriter(m, i, p, k) && !(k in p.vals && k !in generics) ==>
              Get(Mapped(m, p, generics), k) == Some(ValueAt(m, i, p))
  {
    MappedGet(m, p, generics, k);
    TranslateFromValue(Empty(), m, 0, p, k);
  }

  /** Reading one key of the output: the caller's value for an extra, else the translation's. */
  lemma MappedGet(m: Dict<Spec>, p: Dict<Value>, generics: set<string>, k: string)
    ensures Get(Mapped(m, p, generics), k) ==
              if k in p.vals && k !in generics then Some(p.vals[k]) else Get(Translate(m, p), k)
  {
    var extra := DiffKey(p, generics);
    DiffKeyGet(p, generics, k);
    if Size(extra) == 0 {
      assert extra.vals.Keys == {};
    } else {
      MergeGet(Translate(m, p), extra, k);
    }
  }

  /**
   * After `$params += $generics`, an option of the caller's whose key is
   * not generic comes out of `_mappedParams` unchanged, whatever the map.
   */
  lemma ExtraForwarded(m: Dict<Spec>, options: Dict<Value>, generics: Dict<Value>, k: string)
    requires k in options.vals && k !in generics.vals
    ensures Get(Mapped(m, Union(options, generics), generics.vals.Keys), k) == Some(options.vals[k])
  {
    MappedValues(m, Union(options, generics), generics.vals.Keys, k);
  }

  /** When the map writes nothing, the output is exactly the extras. */
  lemma MappedOnlyExtras(m: Dict<Spec>, p: Dict<Value>, generics: set<string>)
    requires Translate(m, p) == Empty()
    ensures Mapped(m, p, generics) == DiffKey(p, generics)
  {
    var extra := DiffKey(p, generics);
    if Size(extra) == 0 {
      assert extra.vals.Keys == {};
    } else {
      MergeIntoEmpty(extra);
    }
  }

  /**
   * The order of the output: the translated parameters in the order of the
   * map, then the extras the translation did not already write, in the
   * caller's order.
   */
  lemma MappedOrder(m: Dict<Spec>, p: Dict<Value>, generics: set<string>)
    ensures Mapped(m, p, generics).keys ==
              Translate(m, p).keys + Filter(Filter(p.keys, generics), Translate(m, p).vals.Keys)
  {
  }

  /** The translation only appends: the keys it starts from stay first, in their order. */
  lemma {:induction false} TranslateFromPrefix(acc: Dict<Value>, m: Dict<Spec>, from: nat, p: Dict<Value>)
    requires from <= |m.keys|
    ensures acc.keys <= TranslateFrom(acc, m, from, p).keys
    decreases |m.keys| - from
  {
    if from < |m.keys| {
      var next := Step(acc, GenericAt(m, from), SpecAt(m, from), p);
      assert acc.keys <= next.keys;
      TranslateFromPrefix(next, m, from + 1, p);
    }
  }

  /**
   * Key a, already there or written at position i, comes before key b,
   * which is neither there nor written up to position i.
   */
  lemma {:induction false} TranslateFromOrder(acc: Dict<Value>, m: Dict<Spec>, from: nat, p: Dict<Value>,
                                              a: string, b: string, i: nat)
    requires from <= |m.keys| && i < |m.keys|
    requires a in acc.vals || (from <= i && WritesAt(m, i, p, a))
    requires b !in acc.vals
    requires forall l :: from <= l <= i ==> !WritesAt(m, l, p, b)
    ensures var ks := TranslateFrom(acc, m, from, p).keys;
            forall x, y :: 0 <= x < |ks| && 0 <= y < |ks| && ks[x] == a && ks[y] == b ==> x < y
    decreases |m.keys| - from
  {
    var ks := TranslateFrom(acc, m, from, p).keys;
    if a in acc.vals {
      TranslateFromPrefix(acc, m, from, p);
      var x0 :| 0 <= x0 < |acc.keys| && acc.keys[x0] == a;
      forall x, y | 0 <= x < |ks| && 0 <= y < |ks| && ks[x] == a && ks[y] == b
        ensures x < y
      {
        assert ks[x0] == a;
        assert x == x0;
        if y < |acc.keys| {
          assert false;
        }
      }
    } else {
      var next := Step(acc, GenericAt(m, from), SpecAt(m, from), p);
      StepGet(acc, GenericAt(m, from), SpecAt(m, from), p, a);
      StepGet(acc, GenericAt(m, from), SpecAt(m, from), p, b);
      assert !WritesAt(m, from, p, b);
      assert b !in next.vals;
      assert a in next.vals || (from + 1 <= i && WritesAt(m, i, p, a));
      TranslateFromUnfold(acc, m, from, p);
      assert ks == TranslateFrom(next, m, from + 1, p).keys;
      TranslateFromOrder(next, m, from + 1, p, a, b, i);
    }
  }

  /**
   * The order of the translated parameters: a parameter first written at
   * position i of the map comes before one first written at a later
   * position j. A later entry that writes an existing key again changes its
   * value, not its place.
   */
  lemma TranslateOrder(m: Dict<Spec>, p: Dict<Value>, a: string, b: string, i: nat, j: nat)
    requires i < j < |m.keys|
    requires WritesAt(m, i, p, a) && WritesAt(m, j, p, b)
    requires forall l :: 0 <= l < j ==> !WritesAt(m, l, p, b)
    ensures a in Translate(m, p).vals && b in Translate(m, p).vals
    ensures var ks := Translate(m, p).keys;
            forall x, y :: 0 <= x < |ks| && 0 <= y < |ks| && ks[x] == a && ks[y] == b ==> x < y
  {
    TranslateFromKeys(Empty(), m, 0, p, a);
    TranslateFromKeys(Empty(), m, 0, p, b);
    TranslateFromOrder(Empty(), m, 0, p, a, b, i);
  }

  /**
   * What an entry writes is never PHP-empty, and a prefixed value is never
   * the bare prefix: the option's string form after it is neither "" nor "0".
   */
  lemma WrittenValueTruthy(m: Dict<Spec>, i: nat, p: Dict<Value>, k: string)
    requires i < |m.keys| && WritesAt(m, i, p, k)
    ensures Truthy(ValueAt(m, i, p))
    ensures SpecAt(m, i).Structured? && SpecAt(m, i).prefix.Some? ==>
              ValueAt(m, i, p) == Str(SpecAt(m, i).prefix.value + ToPhpString(Lookup(p, GenericAt(m, i)))) &&
              Truthy(Str(ToPhpString(Lookup(p, GenericAt(m, i)))))
  {
    var v := Lookup(p, GenericAt(m, i));
    EmptyIffStringEmpty(v);
    var spec := SpecAt(m, i);
    if spec.Structured? && spec.prefix.Some? {
      var s := ToPhpString(v);
      assert s != "" && s != "0";
      assert |spec.prefix.value + s| >= |s|;
      if |spec.prefix.value| > 0 {
        assert |spec.prefix.value + s| >= 2;
      } else {
        assert spec.prefix.value + s == s;
      }
    }
  }

  lemma {:induction false} FilterConcat(a: seq<string>, b: seq<string>, drop: set<string>)
    ensures Filter(a + b, drop) == Filter(a, drop) + Filter(b, drop)
  {
    if a != [] {
      assert (a + b)[1..] == a[1..] + b;
      FilterConcat(a[1..], b, drop);
    } else {
      assert a + b == b;
    }
  }

  lemma {:induction false} FilterAll(a: seq<string>, drop: set<string>)
    requires forall x :: x in a ==> x in drop
    ensures Filter(a, drop) == []
  {
    if a != [] {
      FilterAll(a[1..], drop);
    }
  }

  /** The translation reads the options only through `$params[$generic]`. */
  lemma {:induction false} TranslateFromLookupOnly(acc: Dict<Value>, m: Dict<Spec>, from: nat, p: Dict<Value>, q: Dict<Value>)
    requires from <= |m.keys|
    requires forall k :: Lookup(p, k) == Lookup(q, k)
    ensures TranslateFrom(acc, m, from, p) == TranslateFrom(acc, m, from, q)
    decreases |m.keys| - from
  {
    if from < |m.keys| {
      var next := Step(acc, GenericAt(m, from), SpecAt(m, from), p);
      assert next == Step(acc, GenericAt(m, from), SpecAt(m, from), q);
      TranslateFromLookupOnly(next, m, from + 1, p, q);
    }
  }

  lemma UnionNullLookup(options: Dict<Value>, defaults: Dict<Value>, k: string)
    requires forall k :: k in defaults.vals ==> defaults.vals[k] == Null
    ensures Lookup(Union(options, defaults), k) == Lookup(options, k)
  {
  }

  lemma FilterAppendDropped(a: seq<string>, added: seq<string>, drop: set<string>)
    requires forall x :: x in added ==> x in drop
    ensures Filter(a + added, drop) == Filter(a, drop)
  {
    FilterConcat(a, added, drop);
    FilterAll(added, drop);
    assert Filter(a, drop) + [] == Filter(a, drop);
  }

  lemma MapMinusUnion<V>(left: map<string, V>, right: map<string, V>)
    ensures (left + right) - left.Keys == right - left.Keys
  {
  }

  lemma DiffKeyOfUnion(options: Dict<Value>, defaults: Dict<Value>)
    ensures DiffKey(Union(options, defaults), defaults.vals.Keys) == DiffKey(options, defaults.vals.Keys)
  {
    FilterSpec(defaults.keys, options.vals.Keys);
    FilterAppendDropped(options.keys, Filter(defaults.keys, options.vals.Keys), defaults.vals.Keys);
    MapMinusUnion(defaults.vals, options.vals);
  }

  /**
   * `$params += $defaults` with null defaults changes nothing that
   * `_mappedParams` can see: the caller's values are kept, and the added
   * keys are generic, so they are neither translated (null is empty) nor
   * passed on as extras.
   */
  lemma NullDefaultsInvisible(m: Dict<Spec>, options: Dict<Value>, defaults: Dict<Value>)
    requires forall k :: k in defaults.vals ==> defaults.vals[k] == Null
    ensures forall k :: Lookup(Union(options, defaults), k) == Lookup(options, k)
    ensures Mapped(m, Union(options, defaults), defaults.vals.Keys) == Mapped(m, options, defaults.vals.Keys)
  {
    forall k ensures Lookup(Union(options, defaults), k) == Lookup(options, k) {
      UnionNullLookup(options, defaults, k);
    }
    TranslateFromLookupOnly(Empty(), m, 0, Union(options, defaults), options);
    DiffKeyOfUnion(options, defaults);
  }

  /**
   * Dailymotion's `backgroundColor` spec (`array('prefix' => '#', 'param'
   * => 'background')`): a non-empty colour c is written as `background`
   * with the value "#" + c.
   */
  lemma DailymotionBackgroundColor(p: Dict<Value>, c: string)
    requires Lookup(p, "backgroundColor") == Str(c) && c != "" && c != "0"
    ensures Get(Translate(DailymotionMap(), p), "background") == Some(Str("#" + c))
  {
    var m := DailymotionMap();
    DailymotionColors();
    assert LastWriter(m, 4, p, "background");
    assert ValueAt(m, 4, p) == Str("#" + c);
    TranslateFromValue(Empty(), m, 0, p, "background");
  }

  /** The first four entries of dailymotion's map: plain renames. */
  lemma DailymotionRenames()
    ensures |DailymotionMap().keys| == 7
    ensures SpecAt(DailymotionMap(), 0) == Rename("autoplay")
    ensures SpecAt(DailymotionMap(), 1) == Rename("info")
    ensures SpecAt(DailymotionMap(), 2) == Rename("logo")
    ensures SpecAt(DailymotionMap(), 3) == Rename("related")
  {
  }

  /** The last three entries of dailymotion's map: the prefixed colours. */
  lemma DailymotionColors()
    ensures |DailymotionMap().keys| == 7
    ensures GenericAt(DailymotionMap(), 4) == "backgroundColor"
    ensures SpecAt(DailymotionMap(), 4) == Structured(Some("background"), Some("#"))
    ensures SpecAt(DailymotionMap(), 5) == Structured(Some("foreground"), Some("#"))
    ensures SpecAt(DailymotionMap(), 6) == Structured(Some("highlight"), Some("#"))
  {
  }

  /**
   * Vimeo's `showInfos` spec is the list `array('byline', 'portrait')`,
   * which names no 'param': whatever the options, the translation for Vimeo
   * writes at most `autoplay` and `color`, never `byline` nor `portrait`.
   */
  lemma VimeoShowInfosInert(p: Dict<Value>)
    ensures forall k :: k in Translate(VimeoMap(), p).vals ==> k == "autoplay" || k == "color"
  {
    var m := VimeoMap();
    assert SpecAt(m, 0) == Rename("autoplay");
    assert SpecAt(m, 1) == Names(["byline", "portrait"]);
    assert SpecAt(m, 2) == Rename("color");
    forall k | k in Translate(m, p).vals ensures k == "autoplay" || k == "color" {
      TranslateFromKeys(Empty(), m, 0, p, k);
      var i :| 0 <= i < |m.keys| && WritesAt(m, i, p, k);
      assert i == 0 || i == 1 || i == 2;
    }
  }
}
