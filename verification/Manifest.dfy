/**
 The preflight comparison of benchmark manifests: equality of JSON values by worklist, and the
 check that the two variants of a comparison run with the same settings and the same revision.
*/
module Manifest {
  import opened Text
  import opened Wrappers

  /** Member names: those that the check looks up, and all others. */
  datatype Key =
    | ContextTokens | Kv | ReasoningEffort | OutputLimit | Parallelism
    | Native | Docker | RuntimeKey | Revision | BuildArgs | LaunchArgs
    | BinarySha256 | Image | ImageDigest | RequestSettings | EffectiveSettings
    | Other(name: string)

  /** A JSON value as parsed; a finite float by its real value, so both zeros are one. */
  datatype Json =
    | Null
    | Bool(b: bool)
    | Int(n: int)
    | Float(r: real)
    | NaN
    | Infinite(negative: bool)
    | Str(s: string)
    | Arr(items: seq<Json>)
    | Obj(fields: seq<Field>)

  /** An object keeps its keys in order; WellFormed says that they are distinct. */
  datatype Field = Field(key: Key, value: Json)

  /** What a JSON value means once the order of keys is forgotten. */
  datatype Value = Leaf(json: Json) | List(items: seq<Value>) | Dict(fields: map<Key, Value>)

  function Keys(fields: seq<Field>): set<Key> {
    set i | 0 <= i < |fields| :: fields[i].key
  }

  /** dict.get: null for a missing key. */
  function Get(fields: seq<Field>, key: Key): (j: Json)
    ensures key in Keys(fields) ==> exists i :: 0 <= i < |fields| && fields[i].key == key && fields[i].value == j
    ensures key !in Keys(fields) ==> j == Null
  {
    if fields == [] then Null
    else if fields[0].key == key then fields[0].value
    else
      assert fields[1..][..] == fields[1..] && Keys(fields) == {fields[0].key} + Keys(fields[1..]);
      Get(fields[1..], key)
  }

  predicate Unique(fields: seq<Field>) {
    forall i, j :: 0 <= i < j < |fields| ==> fields[i].key != fields[j].key
  }

  predicate WellFormed(j: Json) {
    match j
    case Arr(items) => forall i :: 0 <= i < |items| ==> WellFormed(items[i])
    case Obj(fields) => Unique(fields) && forall i :: 0 <= i < |fields| ==> WellFormed(fields[i].value)
    case _ => true
  }

  function Meaning(j: Json): Value
    requires WellFormed(j)
  {
    match j
    case Arr(items) => List(seq(|items|, i requires 0 <= i < |items| => Meaning(items[i])))
    case Obj(fields) => Dict(map k | k in Keys(fields) :: Meaning(Get(fields, k)))
    case _ => Leaf(j)
  }

  predicate NaNFree(v: Value) {
    match v
    case Leaf(j) => !j.NaN?
    case List(items) => forall i :: 0 <= i < |items| ==> NaNFree(items[i])
    case Dict(fields) => forall k :: k in fields ==> NaNFree(fields[k])
  }

  /** Equal as JSON values: the same meaning, and no NaN, which differs from itself. */
  predicate Agree(a: Json, b: Json)
    requires WellFormed(a) && WellFormed(b)
  {
    Meaning(a) == Meaning(b) && NaNFree(Meaning(a))
  }

  lemma AgreeIsEquivalence(a: Json, b: Json, c: Json)
    requires WellFormed(a) && WellFormed(b) && WellFormed(c)
    ensures Agree(a, a) <==> NaNFree(Meaning(a))
    ensures Agree(a, b) <==> Agree(b, a)
    ensures Agree(a, b) && Agree(b, c) ==> Agree(a, c)
  {
  }

  lemma GetAt(fields: seq<Field>, i: nat)
    requires Unique(fields) && i < |fields|
    ensures fields[i].key in Keys(fields) && Get(fields, fields[i].key) == fields[i].value
  {
  }

  predicate SameType(a: Json, b: Json) {
    match a
    case Null => b.Null?
    case Bool(_) => b.Bool?
    case Int(_) => b.Int?
    case Str(_) => b.Str?
    case Arr(_) => b.Arr?
    case Obj(_) => b.Obj?
    case _ => b.Float? || b.NaN? || b.Infinite?
  }

  // ----- the worklist -----

  type Pair = (Json, Json)

  predicate PairsWellFormed(pairs: seq<Pair>) {
    forall i :: 0 <= i < |pairs| ==> WellFormed(pairs[i].0) && WellFormed(pairs[i].1)
  }

  predicate AllAgree(pairs: seq<Pair>)
    requires PairsWellFormed(pairs)
  {
    forall i :: 0 <= i < |pairs| ==> Agree(pairs[i].0, pairs[i].1)
  }

  function FieldPairs(left: seq<Field>, right: seq<Field>): seq<Pair> {
    seq(|left|, i requires 0 <= i < |left| => (left[i].value, Get(right, left[i].key)))
  }

  function ItemPairs(left: seq<Json>, right: seq<Json>): seq<Pair>
    requires |left| == |right|
  {
    seq(|left|, i requires 0 <= i < |left| => (left[i], right[i]))
  }

  lemma FieldsAgree(left: seq<Field>, right: seq<Field>)
    requires WellFormed(Obj(left)) && WellFormed(Obj(right))
    ensures Keys(left) != Keys(right) ==> !Agree(Obj(left), Obj(right))
    ensures Keys(left) == Keys(right) ==>
              && PairsWellFormed(FieldPairs(left, right))
              && (Agree(Obj(left), Obj(right)) <==> AllAgree(FieldPairs(left, right)))
  {
    assert Meaning(Obj(left)).fields.Keys == Keys(left) && Meaning(Obj(right)).fields.Keys == Keys(right);
    if Keys(left) == Keys(right) {
      forall i | 0 <= i < |left|
        ensures FieldPaired(left, right, i)
      {
        GetAt(left, i);
        assert WellFormed(Get(right, left[i].key));
      }
      DictsAgree(left, right, Meaning(Obj(left)).fields, Meaning(Obj(right)).fields);
    }
  }

  /** The pair at i holds the two values stored under the key at i. */
  predicate FieldPaired(left: seq<Field>, right: seq<Field>, i: nat)
    requires WellFormed(Obj(left)) && WellFormed(Obj(right)) && i < |left|
  {
    var (l, r, p) := (Meaning(Obj(left)), Meaning(Obj(right)), FieldPairs(left, right)[i]);
    && WellFormed(p.0) && WellFormed(p.1) && l.Dict? && r.Dict?
    && left[i].key in l.fields && left[i].key in r.fields
    && l.fields[left[i].key] == Meaning(p.0) && r.fields[left[i].key] == Meaning(p.1)
  }

  lemma DictsAgree(left: seq<Field>, right: seq<Field>, l: map<Key, Value>, r: map<Key, Value>)
    requires WellFormed(Obj(left)) && WellFormed(Obj(right))
    requires Meaning(Obj(left)) == Dict(l) && Meaning(Obj(right)) == Dict(r)
    requires l.Keys == r.Keys == Keys(left)
    requires forall i :: 0 <= i < |left| ==> FieldPaired(left, right, i)
    ensures PairsWellFormed(FieldPairs(left, right))
    ensures Agree(Obj(left), Obj(right)) <==> AllAgree(FieldPairs(left, right))
  {
    PairedIsWellFormed(left, right);
    if AllAgree(FieldPairs(left, right)) {
      PairsMakeDicts(left, right, l, r);
    }
    if l == r && NaNFree(Dict(l)) {
      DictsMakePairs(left, right, l, r);
    }
  }

  lemma PairedIsWellFormed(left: seq<Field>, right: seq<Field>)
    requires WellFormed(Obj(left)) && WellFormed(Obj(right))
    requires forall i :: 0 <= i < |left| ==> FieldPaired(left, right, i)
    ensures PairsWellFormed(FieldPairs(left, right))
  {
    var pairs := FieldPairs(left, right);
    forall i | 0 <= i < |pairs| ensures WellFormed(pairs[i].0) && WellFormed(pairs[i].1) {
      assert FieldPaired(left, right, i);
    }
  }

  lemma DictsMakePairs(left: seq<Field>, right: seq<Field>, l: map<Key, Value>, r: map<Key, Value>)
    requires WellFormed(Obj(left)) && WellFormed(Obj(right))
    requires Meaning(Obj(left)) == Dict(l) && Meaning(Obj(right)) == Dict(r)
    requires forall i :: 0 <= i < |left| ==> FieldPaired(left, right, i)
    requires PairsWellFormed(FieldPairs(left, right)) && l == r && NaNFree(Dict(l))
    ensures AllAgree(FieldPairs(left, right))
  {
    var pairs := FieldPairs(left, right);
    forall i | 0 <= i < |pairs| ensures Agree(pairs[i].0, pairs[i].1) {
      assert FieldPaired(left, right, i);
    }
  }

  lemma PairsMakeDicts(left: seq<Field>, right: seq<Field>, l: map<Key, Value>, r: map<Key, Value>)
    requires WellFormed(Obj(left)) && WellFormed(Obj(right))
    requires Meaning(Obj(left)) == Dict(l) && Meaning(Obj(right)) == Dict(r)
    requires l.Keys == r.Keys == Keys(left)
    requires forall i :: 0 <= i < |left| ==> FieldPaired(left, right, i)
    requires PairsWellFormed(FieldPairs(left, right)) && AllAgree(FieldPairs(left, right))
    ensures l == r && NaNFree(Dict(l))
  {
    var pairs := FieldPairs(left, right);
    forall k | k in l ensures l[k] == r[k] && NaNFree(l[k]) {
      assert k in Keys(left);
      var i :| 0 <= i < |left| && left[i].key == k;
      assert FieldPaired(left, right, i) && Agree(pairs[i].0, pairs[i].1);
    }
  }

  lemma ItemsAgree(left: seq<Json>, right: seq<Json>)
    requires WellFormed(Arr(left)) && WellFormed(Arr(right))
    ensures |left| != |right| ==> !Agree(Arr(left), Arr(right))
    ensures |left| == |right| ==>
              && PairsWellFormed(ItemPairs(left, right))
              && (Agree(Arr(left), Arr(right)) <==> AllAgree(ItemPairs(left, right)))
  {
    var l, r := Meaning(Arr(left)).items, Meaning(Arr(right)).items;
    assert |l| == |left| && |r| == |right|;
    if |left| == |right| {
      var pairs := ItemPairs(left, right);
      if AllAgree(pairs) {
        forall i | 0 <= i < |l| ensures l[i] == r[i] && NaNFree(l[i]) {
          assert Agree(pairs[i].0, pairs[i].1);
        }
        assert l == r;
      }
      if Agree(Arr(left), Arr(right)) {
        forall i | 0 <= i < |pairs| ensures Agree(pairs[i].0, pairs[i].1) {
          assert l[i] == r[i];
        }
      }
    }
  }

  // Size and weight bound the number of turns of the loop.

  function Size(j: Json): (n: nat)
    ensures n > 0
    decreases j, 1
  {
    match j
    case Arr(items) => 1 + ItemsSize(items)
    case Obj(fields) => 1 + FieldsSize(fields)
    case _ => 1
  }

  function ItemsSize(items: seq<Json>): nat {
    if items == [] then 0 else Size(items[0]) + ItemsSize(items[1..])
  }

  function FieldSize(field: Field): nat
    decreases field, 2
  {
    Size(field.value)
  }

  function FieldsSize(fields: seq<Field>): nat {
    if fields == [] then 0 else FieldSize(fields[0]) + FieldsSize(fields[1..])
  }

  function Weight(pairs: seq<Pair>): nat {
    if pairs == [] then 0 else Size(pairs[0].0) + Weight(pairs[1..])
  }

  lemma {:induction false} WeightOfConcat(a: seq<Pair>, b: seq<Pair>)
    ensures Weight(a + b) == Weight(a) + Weight(b)
  {
    if a == [] {
      assert a + b == b;
    } else {
      assert (a + b)[1..] == a[1..] + b;
      WeightOfConcat(a[1..], b);
    }
  }

  lemma {:induction false} WeightOfFields(left: seq<Field>, right: seq<Field>)
    ensures Weight(FieldPairs(left, right)) == FieldsSize(left)
  {
    if left == [] {
    } else {
      assert FieldPairs(left, right)[1..] == FieldPairs(left[1..], right);
      WeightOfFields(left[1..], right);
    }
  }

  lemma {:induction false} WeightOfItems(left: seq<Json>, right: seq<Json>)
    requires |left| == |right|
    ensures Weight(ItemPairs(left, right)) == ItemsSize(left)
  {
    if left == [] {
    } else {
      assert ItemPairs(left, right)[1..] == ItemPairs(left[1..], right[1..]);
      WeightOfItems(left[1..], right[1..]);
    }
  }

  /** Popping the last pair. */
  lemma Popped(pending: seq<Pair>)
    requires |pending| > 0 && PairsWellFormed(pending)
    ensures var rest, last := pending[..|pending| - 1], pending[|pending| - 1];
            && PairsWellFormed(rest) && Weight(pending) == Weight(rest) + Size(last.0)
            && (AllAgree(pending) <==> AllAgree(rest) && Agree(last.0, last.1))
  {
    var rest, last := pending[..|pending| - 1], pending[|pending| - 1];
    assert pending == rest + [last];
    WeightOfConcat(rest, [last]);
  }

  /** Pushing pairs that stand for one pair. */
  lemma Pushed(rest: seq<Pair>, more: seq<Pair>)
    requires PairsWellFormed(rest) && PairsWellFormed(more)
    ensures PairsWellFormed(rest + more) && Weight(rest + more) == Weight(rest) + Weight(more)
    ensures AllAgree(rest + more) <==> AllAgree(rest) && AllAgree(more)
  {
    WeightOfConcat(rest, more);
    var all := rest + more;
    if AllAgree(all) {
      forall i | 0 <= i < |rest| ensures Agree(rest[i].0, rest[i].1) {
        assert all[i] == rest[i];
      }
      forall i | 0 <= i < |more| ensures Agree(more[i].0, more[i].1) {
        assert all[|rest| + i] == more[i];
      }
    }
  }

  method JsonValuesEqual(left: Json, right: Json) returns (equal: bool)
    requires WellFormed(left) && WellFormed(right)
    ensures equal <==> Agree(left, right)
  {
    var pending: seq<Pair> := [(left, right)];
    while pending != []
      invariant PairsWellFormed(pending)
      invariant Agree(left, right) <==> AllAgree(pending)
      decreases Weight(pending)
    {
      Popped(pending);
      var (l, r) := pending[|pending| - 1];
      pending := pending[..|pending| - 1];
      if !SameType(l, r) {
        return false;
      }
      if l.Obj? {
        FieldsAgree(l.fields, r.fields);
        if Keys(l.fields) != Keys(r.fields) {
          return false;
        }
        WeightOfFields(l.fields, r.fields);
        Pushed(pending, FieldPairs(l.fields, r.fields));
        pending := pending + FieldPairs(l.fields, r.fields);
      } else if l.Arr? {
        ItemsAgree(l.items, r.items);
        if |l.items| != |r.items| {
          return false;
        }
        WeightOfItems(l.items, r.items);
        Pushed(pending, ItemPairs(l.items, r.items));
        pending := pending + ItemPairs(l.items, r.items);
      } else if l != r || l.NaN? {
        return false;
      }
    }
    return true;
  }

  // ----- the settings of one variant -----

  const REQUIRED_SETTINGS: seq<Key> := [ContextTokens, Kv, ReasoningEffort, OutputLimit, Parallelism]

  datatype Problem =
    | VariantsNotAnObject
    | VariantNotAnObject(name: Key)
    | RuntimeNotAnObject(name: Key)
    | BadMember(name: Key, member: Key)
    | SettingsNotAnObject(name: Key, settings: Key)
    | SettingMissing(name: Key, settings: Key, setting: Key)
    | SettingInvalid(name: Key, settings: Key, setting: Key)
    | RequestedNotEffective(name: Key)
    | VariantsDiffer
    | RevisionsDiffer

  predicate IsHex(j: Json, length: nat) {
    j.Str? && |j.s| == length && forall c <- j.s :: '0' <= c <= '9' || 'a' <= c <= 'f' || 'A' <= c <= 'F'
  }

  predicate IsGitRevision(j: Json) {
    IsHex(j, 40) || IsHex(j, 64)
  }

  predicate IsSpace(c: char) {
    || 9 as char <= c <= 13 as char || 28 as char <= c <= ' ' || c == 0x85 as char || c == 0xA0 as char
    || c == 0x1680 as char || 0x2000 as char <= c <= 0x200A as char || c == 0x2028 as char || c == 0x2029 as char
    || c == 0x202F as char || c == 0x205F as char || c == 0x3000 as char
  }

  /** The white space characters of Unicode, by code point. */
  lemma SpacesAre(c: char)
    ensures IsSpace(c) <==>
              c as int in {9, 10, 11, 12, 13, 28, 29, 30, 31, 32, 133, 160, 5760, 8192, 8193, 8194, 8195, 8196, 8197,
                           8198, 8199, 8200, 8201, 8202, 8232, 8233, 8239, 8287, 12288}
  {
  }

  predicate IsNonblank(j: Json) {
    j.Str? && exists c :: c in j.s && !IsSpace(c)
  }

  predicate IsPositiveInteger(j: Json) {
    j.Int? && j.n > 0
  }

  predicate IsStringList(j: Json) {
    j.Arr? && forall item <- j.items :: item.Str?
  }

  predicate IsImageDigest(j: Json) {
    j.Str? && "sha256:" <= j.s && IsHex(Str(j.s[|"sha256:"|..]), 64)
  }

  predicate SettingOk(key: Key, item: Json) {
    if key in {ContextTokens, OutputLimit, Parallelism} then IsPositiveInteger(item) else IsNonblank(item)
  }

  /** What the checks of single members accept, character by character. */
  lemma MembersMean(j: Json, key: Key)
    ensures IsGitRevision(j) <==>
      && j.Str? && (|j.s| == 40 || |j.s| == 64)
      && forall i :: 0 <= i < |j.s| ==> '0' <= j.s[i] <= '9' || 'a' <= j.s[i] <= 'f' || 'A' <= j.s[i] <= 'F'
    ensures IsHex(j, 64) <==> IsGitRevision(j) && |j.s| == 64
    ensures IsNonblank(j) <==> j.Str? && exists i :: 0 <= i < |j.s| && !IsSpace(j.s[i])
    ensures IsStringList(j) <==> j.Arr? && forall i :: 0 <= i < |j.items| ==> j.items[i].Str?
    ensures key in REQUIRED_SETTINGS <==> key in {ContextTokens, Kv, ReasoningEffort, OutputLimit, Parallelism}
    ensures SettingOk(key, j) <==>
      if key.ContextTokens? || key.OutputLimit? || key.Parallelism? then j.Int? && j.n >= 1 else IsNonblank(j)
  {
    if j.Str? {
      assert forall i :: 0 <= i < |j.s| ==> j.s[i] in j.s;
    }
  }

  lemma ImageDigestMeans(j: Json)
    ensures IsImageDigest(j) <==>
      && j.Str? && |j.s| == 71 && j.s[..7] == "sha256:"
      && forall i :: 7 <= i < 71 ==> '0' <= j.s[i] <= '9' || 'a' <= j.s[i] <= 'f' || 'A' <= j.s[i] <= 'F'
  {
    if j.Str? && |j.s| == 71 {
      var digits := j.s[7..];
      assert forall i :: 7 <= i < 71 ==> j.s[i] == digits[i - 7] && j.s[i] in digits;
      assert forall c :: c in digits <==> exists i :: 7 <= i < 71 && j.s[i] == c;
    }
  }

  predicate HasSetting(fields: seq<Field>, key: Key) {
    key in Keys(fields) && SettingOk(key, Get(fields, key))
  }

  predicate SettingsOk(value: Json) {
    value.Obj? && forall key :: key in REQUIRED_SETTINGS ==> HasSetting(value.fields, key)
  }

  /** Every field of copy is a field of the original. */
  predicate CopyOf(copy: seq<Field>, fields: seq<Field>) {
    && Unique(copy)
    && forall i :: 0 <= i < |copy| ==> copy[i].key in Keys(fields) && copy[i].value == Get(fields, copy[i].key)
  }

  lemma KeysGrow(fields: seq<Field>, field: Field)
    ensures Keys(fields + [field]) == Keys(fields) + {field.key}
  {
    var next := fields + [field];
    assert next[|fields|].key == field.key;
    forall k | k in Keys(fields) ensures k in Keys(next) {
      var i :| 0 <= i < |fields| && fields[i].key == k;
      assert next[i].key == k;
    }
  }

  lemma CopyGrows(copy: seq<Field>, fields: seq<Field>, key: Key)
    requires CopyOf(copy, fields) && key in Keys(fields) && key !in Keys(copy)
    ensures CopyOf(copy + [Field(key, Get(fields, key))], fields)
    ensures Keys(copy + [Field(key, Get(fields, key))]) == Keys(copy) + {key}
  {
    KeysGrow(copy, Field(key, Get(fields, key)));
  }

  lemma CopyMeansTheSame(copy: seq<Field>, fields: seq<Field>)
    requires CopyOf(copy, fields) && Keys(copy) == Keys(fields) && WellFormed(Obj(fields))
    ensures WellFormed(Obj(copy)) && Meaning(Obj(copy)) == Meaning(Obj(fields))
  {
    forall i | 0 <= i < |copy| ensures WellFormed(copy[i].value) {
      assert copy[i].value == Get(fields, copy[i].key);
    }
    var c, f := Meaning(Obj(copy)).fields, Meaning(Obj(fields)).fields;
    forall k | k in c ensures c[k] == f[k] {
      assert Get(copy, k) == Get(fields, k);
    }
    assert c == f;
  }

  // ----- what is reported, in its order -----

  lemma Grouped(errors: seq<Problem>, a: seq<Problem>, b: seq<Problem>)
    ensures errors + a + b == errors + (a + b)
  {
  }

  lemma NothingAdded(errors: seq<Problem>, more: seq<Problem>)
    ensures errors + more == errors <==> more == []
  {
    assert |errors + more| == |errors| + |more|;
  }

  lemma AllGrouped(errors: seq<Problem>, a: seq<Problem>, b: seq<Problem>, c: seq<Problem>)
    ensures errors + a + b + c == errors + (a + b + c)
  {
  }

  function Unless(ok: bool, problem: Problem): seq<Problem> {
    if ok then [] else [problem]
  }

  function SettingReport(fields: seq<Field>, name: Key, place: Key, key: Key): seq<Problem> {
    if key !in Keys(fields) then [SettingMissing(name, place, key)]
    else Unless(SettingOk(key, Get(fields, key)), SettingInvalid(name, place, key))
  }

  /** The reports on the settings that some keys name. */
  function SettingReports(fields: seq<Field>, name: Key, place: Key, keys: seq<Key>): seq<Problem> {
    if keys == [] then []
    else
      SettingReports(fields, name, place, keys[..|keys| - 1]) + SettingReport(fields, name, place, keys[|keys| - 1])
  }

  function SettingsReports(value: Json, name: Key, place: Key): seq<Problem> {
    if value.Obj? then SettingReports(value.fields, name, place, REQUIRED_SETTINGS)
    else [SettingsNotAnObject(name, place)]
  }

  /** Exactly the missing and the bad settings are reported, each as what it is. */
  lemma {:induction false} SettingReportsMean(fields: seq<Field>, name: Key, place: Key, keys: seq<Key>)
    ensures SettingReports(fields, name, place, keys) == [] <==> forall k :: k in keys ==> HasSetting(fields, k)
    ensures forall p :: p in SettingReports(fields, name, place, keys) <==>
              || (p.SettingMissing? && p == SettingMissing(name, place, p.setting)
                  && p.setting in keys && p.setting !in Keys(fields))
              || (p.SettingInvalid? && p == SettingInvalid(name, place, p.setting)
                  && p.setting in keys && p.setting in Keys(fields) && !SettingOk(p.setting, Get(fields, p.setting)))
  {
    if keys == [] {
    } else {
      var front, last := keys[..|keys| - 1], keys[|keys| - 1];
      SettingReportsMean(fields, name, place, front);
      assert keys == front + [last] && (forall k :: k in keys <==> k in front || k == last);
      assert SettingReport(fields, name, place, last) == [] <==> HasSetting(fields, last);
      assert forall p :: p in SettingReport(fields, name, place, last) ==>
        p == SettingMissing(name, place, last) || p == SettingInvalid(name, place, last);
    }
  }

  /** A settings object is reported as none, or every required setting that it lacks or that is bad in it is. */
  lemma SettingsReportsMean(value: Json, name: Key, place: Key)
    ensures SettingsReports(value, name, place) == [] <==> SettingsOk(value)
    ensures forall p :: p in SettingsReports(value, name, place) <==>
              if !value.Obj? then p == SettingsNotAnObject(name, place)
              else
                || (p.SettingMissing? && p == SettingMissing(name, place, p.setting)
                    && p.setting in REQUIRED_SETTINGS && p.setting !in Keys(value.fields))
                || (p.SettingInvalid? && p == SettingInvalid(name, place, p.setting)
                    && p.setting in REQUIRED_SETTINGS && p.setting in Keys(value.fields)
                    && !SettingOk(p.setting, Get(value.fields, p.setting)))
  {
    if value.Obj? {
      SettingReportsMean(value.fields, name, place, REQUIRED_SETTINGS);
    }
  }

  lemma SettingsReportsKinds(value: Json, name: Key, place: Key)
    ensures SettingsReports(value, name, place) == [] <==> SettingsOk(value)
    ensures forall p :: p in SettingsReports(value, name, place) ==>
              p.SettingsNotAnObject? || p.SettingMissing? || p.SettingInvalid?
  {
    SettingsReportsMean(value, name, place);
  }

  /** One required setting; a missing or bad one is reported and not copied. */
  method CopyOne(fields: seq<Field>, key: Key, name: Key, place: Key, copied: seq<Field>, errors: seq<Problem>)
    returns (copy: seq<Field>, found: seq<Problem>)
    requires CopyOf(copied, fields) && key !in Keys(copied)
    ensures found == errors + SettingReport(fields, name, place, key)
    ensures CopyOf(copy, fields) && Keys(copy) == Keys(copied) + if HasSetting(fields, key) then {key} else {}
  {
    copy := copied;
    if key !in Keys(fields) {
      found := errors + [SettingMissing(name, place, key)];
    } else if !SettingOk(key, Get(fields, key)) {
      found := errors + [SettingInvalid(name, place, key)];
    } else {
      CopyGrows(copied, fields, key);
      copy, found := copied + [Field(key, Get(fields, key))], errors;
    }
  }

  lemma SettingReportsGrow(fields: seq<Field>, name: Key, place: Key, keys: seq<Key>, i: nat)
    requires i < |keys|
    ensures SettingReports(fields, name, place, keys[..i + 1])
         == SettingReports(fields, name, place, keys[..i]) + SettingReport(fields, name, place, keys[i])
  {
    assert keys[..i + 1][..i] == keys[..i] && keys[..i + 1][i] == keys[i];
  }

  /** All settings that some keys name, in their order. */
  method CopyRequired(fields: seq<Field>, keys: seq<Key>, name: Key, place: Key, errors: seq<Problem>)
    returns (copy: seq<Field>, found: seq<Problem>)
    requires forall i, j :: 0 <= i < j < |keys| ==> keys[i] != keys[j]
    ensures found == errors + SettingReports(fields, name, place, keys)
    ensures CopyOf(copy, fields) && forall k :: k in Keys(copy) <==> k in keys && HasSetting(fields, k)
  {
    copy, found := [], errors;
    for i := 0 to |keys|
      invariant found == errors + SettingReports(fields, name, place, keys[..i])
      invariant CopyOf(copy, fields) && forall k :: k in Keys(copy) <==> k in keys[..i] && HasSetting(fields, k)
    {
      assert keys[i] !in keys[..i];
      SettingReportsGrow(fields, name, place, keys, i);
      Grouped(errors, SettingReports(fields, name, place, keys[..i]), SettingReport(fields, name, place, keys[i]));
      copy, found := CopyOne(fields, keys[i], name, place, copy, found);
      assert forall k :: k in keys[..i + 1] <==> k in keys[..i] || k == keys[i];
    }
    assert keys[..|keys|] == keys;
  }

  /** All other settings take part in the comparison as well. */
  method CopyOthers(fields: seq<Field>, required: seq<Field>) returns (copy: seq<Field>)
    requires Unique(fields) && CopyOf(required, fields) && forall k :: k in Keys(required) ==> k in REQUIRED_SETTINGS
    ensures CopyOf(copy, fields) && Keys(required) <= Keys(copy)
    ensures forall k :: k in Keys(fields) && k !in REQUIRED_SETTINGS ==> k in Keys(copy)
  {
    copy := required;
    for i := 0 to |fields|
      invariant CopyOf(copy, fields) && Keys(required) <= Keys(copy)
      invariant forall j :: 0 <= j < i && fields[j].key !in REQUIRED_SETTINGS ==> fields[j].key in Keys(copy)
      invariant forall k :: k in Keys(copy) ==> k in REQUIRED_SETTINGS || k in Keys(fields[..i])
    {
      var key := fields[i].key;
      GetAt(fields, i);
      assert key !in Keys(fields[..i]);
      if key !in REQUIRED_SETTINGS {
        CopyGrows(copy, fields, key);
        copy := copy + [Field(key, Get(fields, key))];
      }
      assert fields[..i + 1] == fields[..i] + [fields[i]];
      KeysGrow(fields[..i], fields[i]);
    }
  }

  lemma AllCopied(fields: seq<Field>, required: seq<Field>, copy: seq<Field>)
    requires SettingsOk(Obj(fields)) && CopyOf(copy, fields) && Keys(required) <= Keys(copy)
    requires forall k :: k in Keys(required) <==> k in REQUIRED_SETTINGS && HasSetting(fields, k)
    requires forall k :: k in Keys(fields) && k !in REQUIRED_SETTINGS ==> k in Keys(copy)
    ensures Keys(copy) == Keys(fields)
  {
    forall k | k in Keys(fields) ensures k in Keys(copy) {
      if k in REQUIRED_SETTINGS {
        assert HasSetting(fields, k);
      }
    }
    assert forall k :: k in Keys(copy) ==> k in Keys(fields);
  }

  /** Settings are accepted exactly if all required ones are; the copy that is compared later means the same. */
  method ValidateSettings(value: Json, name: Key, place: Key, errors: seq<Problem>)
    returns (settings: Option<Json>, found: seq<Problem>)
    requires WellFormed(value)
    ensures found == errors + SettingsReports(value, name, place)
    ensures (found == errors <==> SettingsOk(value)) && (settings.Some? <==> SettingsOk(value))
    ensures settings.Some? ==> WellFormed(settings.value) && Meaning(settings.value) == Meaning(value)
  {
    if !value.Obj? {
      return None, errors + [SettingsNotAnObject(name, place)];
    }
    var copy;
    copy, found := CopyRequired(value.fields, REQUIRED_SETTINGS, name, place, errors);
    SettingsReportsKinds(value, name, place);
    var valid := found == errors;
    assert valid <==> SettingsReports(value, name, place) == [];
    ghost var required := copy;
    copy := CopyOthers(value.fields, copy);
    if !valid {
      return None, found;
    }
    AllCopied(value.fields, required, copy);
    CopyMeansTheSame(copy, value.fields);
    settings := Some(Obj(copy));
  }

  // ----- the two variants -----

  predicate IdentityOk(name: Key, runtime: seq<Field>) {
    if name == Native then IsHex(Get(runtime, BinarySha256), 64)
    else IsNonblank(Get(runtime, Image)) && IsImageDigest(Get(runtime, ImageDigest))
  }

  function GetWellFormed(fields: seq<Field>, key: Key): (j: Json)
    requires WellFormed(Obj(fields))
    ensures WellFormed(j)
  {
    Get(fields, key)
  }

  /** The runtime object of a named variant. */
  function Runtime(variants: Json, name: Key): (r: Option<seq<Field>>)
    requires WellFormed(variants)
    ensures r.Some? ==> WellFormed(Obj(r.value))
  {
    if !variants.Obj? then None
    else
      var variant := GetWellFormed(variants.fields, name);
      if !variant.Obj? then None
      else
        var runtime := GetWellFormed(variant.fields, RuntimeKey);
        if runtime.Obj? then Some(runtime.fields) else None
  }

  predicate PinsOk(name: Key, runtime: seq<Field>) {
    && IsGitRevision(Get(runtime, Revision))
    && IsStringList(Get(runtime, BuildArgs)) && IsStringList(Get(runtime, LaunchArgs))
    && IdentityOk(name, runtime)
  }

  predicate AllSettingsOk(runtime: seq<Field>)
    requires WellFormed(Obj(runtime))
  {
    var (request, effective) := (GetWellFormed(runtime, RequestSettings), GetWellFormed(runtime, EffectiveSettings));
    SettingsOk(request) && SettingsOk(effective) && Agree(request, effective)
  }

  /** The reports on the pins, by which of them are valid. */
  function PinList(name: Key, revision: bool, build: bool, launch: bool, binary: bool, image: bool, digest: bool)
    : seq<Problem>
  {
    Unless(revision, BadMember(name, Revision))
    + Unless(build, BadMember(name, BuildArgs))
    + Unless(launch, BadMember(name, LaunchArgs))
    + if name == Native then Unless(binary, BadMember(name, BinarySha256))
      else Unless(image, BadMember(name, Image)) + Unless(digest, BadMember(name, ImageDigest))
  }

  function PinReports(name: Key, runtime: seq<Field>): seq<Problem> {
    PinList(name,
            IsGitRevision(Get(runtime, Revision)),
            IsStringList(Get(runtime, BuildArgs)), IsStringList(Get(runtime, LaunchArgs)),
            IsHex(Get(runtime, BinarySha256), 64),
            IsNonblank(Get(runtime, Image)), IsImageDigest(Get(runtime, ImageDigest)))
  }

  /** The revision is kept in lower case if it is one. */
  method CheckPins(name: Key, runtime: seq<Field>, errors: seq<Problem>)
    returns (revision: Option<string>, found: seq<Problem>)
    ensures found == errors + PinReports(name, runtime) && (found == errors <==> PinsOk(name, runtime))
    ensures revision.Some? <==> IsGitRevision(Get(runtime, Revision))
    ensures revision.Some? ==> revision.value == Lower(Get(runtime, Revision).s)
  {
    var pin := Get(runtime, Revision);
    revision := if IsGitRevision(pin) then Some(Lower(pin.s)) else None;
    found := errors + PinReports(name, runtime);
    NoPinReports(name, runtime);
    NothingAdded(errors, PinReports(name, runtime));
  }

  function BothSettingsReports(name: Key, runtime: seq<Field>): seq<Problem>
    requires WellFormed(Obj(runtime))
  {
    var (request, effective) := (GetWellFormed(runtime, RequestSettings), GetWellFormed(runtime, EffectiveSettings));
    SettingsReports(request, name, RequestSettings)
    + SettingsReports(effective, name, EffectiveSettings)
    + Unless(SettingsOk(request) && SettingsOk(effective) ==> Agree(request, effective), RequestedNotEffective(name))
  }

  method CheckSettings(name: Key, runtime: seq<Field>, errors: seq<Problem>)
    returns (effective: Option<Json>, found: seq<Problem>)
    requires WellFormed(Obj(runtime))
    ensures found == errors + BothSettingsReports(name, runtime) && (found == errors <==> AllSettingsOk(runtime))
    ensures effective.Some? <==> SettingsOk(GetWellFormed(runtime, EffectiveSettings))
    ensures effective.Some? ==>
              && WellFormed(effective.value)
              && Meaning(effective.value) == Meaning(GetWellFormed(runtime, EffectiveSettings))
  {
    var requested, value := GetWellFormed(runtime, RequestSettings), GetWellFormed(runtime, EffectiveSettings);
    var request;
    request, found := ValidateSettings(requested, name, RequestSettings, errors);
    effective, found := ValidateSettings(value, name, EffectiveSettings, found);
    AllGrouped(errors, SettingsReports(requested, name, RequestSettings),
               SettingsReports(value, name, EffectiveSettings),
               Unless(SettingsOk(requested) && SettingsOk(value) ==> Agree(requested, value),
                      RequestedNotEffective(name)));
    if request.Some? && effective.Some? {
      var equal := JsonValuesEqual(request.value, effective.value);
      if !equal {
        found := found + [RequestedNotEffective(name)];
      }
    }
    BothSettingsReportsMean(name, runtime);
    NothingAdded(errors, BothSettingsReports(name, runtime));
  }

  function RuntimeReports(name: Key, runtime: seq<Field>): seq<Problem>
    requires WellFormed(Obj(runtime))
  {
    PinReports(name, runtime) + BothSettingsReports(name, runtime)
  }

  method CheckRuntime(name: Key, runtime: seq<Field>, errors: seq<Problem>)
    returns (effective: Option<Json>, revision: Option<string>, found: seq<Problem>)
    requires WellFormed(Obj(runtime))
    ensures found == errors + RuntimeReports(name, runtime)
    ensures effective.Some? <==> SettingsOk(GetWellFormed(runtime, EffectiveSettings))
    ensures effective.Some? ==>
              && WellFormed(effective.value)
              && Meaning(effective.value) == Meaning(GetWellFormed(runtime, EffectiveSettings))
    ensures revision.Some? <==> IsGitRevision(Get(runtime, Revision))
    ensures revision.Some? ==> revision.value == Lower(Get(runtime, Revision).s)
  {
    revision, found := CheckPins(name, runtime, errors);
    effective, found := CheckSettings(name, runtime, found);
    Grouped(errors, PinReports(name, runtime), BothSettingsReports(name, runtime));
  }

  predicate VariantOk(variants: Json, name: Key)
    requires WellFormed(variants)
  {
    var runtime := Runtime(variants, name);
    runtime.Some? && PinsOk(name, runtime.value) && AllSettingsOk(runtime.value)
  }

  /** The effective settings of a variant; null when it has no runtime object. */
  function Effective(variants: Json, name: Key): (j: Json)
    requires WellFormed(variants)
    ensures WellFormed(j)
  {
    var runtime := Runtime(variants, name);
    if runtime.None? then Null else GetWellFormed(runtime.value, EffectiveSettings)
  }

  /** The revision of a variant, if it is one. */
  function ValidRevision(variants: Json, name: Key): (r: Option<string>)
    requires WellFormed(variants)
  {
    var runtime := Runtime(variants, name);
    if runtime.None? then None
    else
      var revision := Get(runtime.value, Revision);
      if IsGitRevision(revision) then Some(revision.s) else None
  }

  function VariantReports(variants: Json, name: Key): seq<Problem>
    requires WellFormed(variants) && variants.Obj?
  {
    var variant := GetWellFormed(variants.fields, name);
    if !variant.Obj? then [VariantNotAnObject(name)]
    else
      var runtime := GetWellFormed(variant.fields, RuntimeKey);
      if !runtime.Obj? then [RuntimeNotAnObject(name)]
      else RuntimeReports(name, runtime.fields)
  }

  predicate IsEffective(variants: Json, name: Key, effective: Json)
    requires WellFormed(variants)
  {
    WellFormed(effective) && Meaning(effective) == Meaning(Effective(variants, name))
  }

  method CheckVariant(variants: Json, name: Key, errors: seq<Problem>)
    returns (effective: Option<Json>, revision: Option<string>, found: seq<Problem>)
    requires WellFormed(variants) && variants.Obj?
    ensures found == errors + VariantReports(variants, name) && (found == errors <==> VariantOk(variants, name))
    ensures effective.Some? <==> SettingsOk(Effective(variants, name))
    ensures effective.Some? ==> IsEffective(variants, name, effective.value)
    ensures revision.Some? <==> ValidRevision(variants, name).Some?
    ensures revision.Some? ==> revision.value == Lower(ValidRevision(variants, name).value)
  {
    effective, revision, found := None, None, errors;
    var variant := GetWellFormed(variants.fields, name);
    if !variant.Obj? {
      found := found + [VariantNotAnObject(name)];
    } else {
      var runtime := GetWellFormed(variant.fields, RuntimeKey);
      if !runtime.Obj? {
        found := found + [RuntimeNotAnObject(name)];
      } else {
        assert Runtime(variants, name) == Some(runtime.fields);
        effective, revision, found := CheckRuntime(name, runtime.fields, found);
      }
    }
    VariantReportsMean(variants, name);
    NothingAdded(errors, VariantReports(variants, name));
  }

  predicate SameRevisions(variants: Json)
    requires WellFormed(variants)
  {
    var (native, docker) := (ValidRevision(variants, Native), ValidRevision(variants, Docker));
    native.Some? && docker.Some? ==> SameUpToCase(native.value, docker.value)
  }

  predicate SameSettings(variants: Json)
    requires WellFormed(variants)
  {
    var (native, docker) := (Effective(variants, Native), Effective(variants, Docker));
    SettingsOk(native) && SettingsOk(docker) ==> Agree(native, docker)
  }

  predicate Comparable(variants: Json)
    requires WellFormed(variants)
  {
    && variants.Obj? && VariantOk(variants, Native) && VariantOk(variants, Docker)
    && SameSettings(variants) && SameRevisions(variants)
  }

  /** The effective settings of a variant are kept if they are valid. */
  predicate SettingsKept(variants: Json, name: Key, effectives: map<Key, Json>)
    requires WellFormed(variants)
  {
    && (name in effectives <==> SettingsOk(Effective(variants, name)))
    && (name in effectives ==> IsEffective(variants, name, effectives[name]))
  }

  /** Its revision is kept, in lower case, if it is one. */
  predicate RevisionKept(variants: Json, name: Key, revisions: map<Key, string>)
    requires WellFormed(variants)
  {
    var revision := ValidRevision(variants, name);
    (name in revisions <==> revision.Some?) && (revision.Some? ==> revisions[name] == Lower(revision.value))
  }

  method CompareSettings(variants: Json, effectives: map<Key, Json>) returns (same: bool)
    requires WellFormed(variants)
    requires SettingsKept(variants, Native, effectives) && SettingsKept(variants, Docker, effectives)
    ensures same <==> SameSettings(variants)
  {
    if Native !in effectives || Docker !in effectives {
      return true;
    }
    same := JsonValuesEqual(effectives[Native], effectives[Docker]);
  }

  method CompareRevisions(variants: Json, revisions: map<Key, string>) returns (same: bool)
    requires WellFormed(variants)
    requires RevisionKept(variants, Native, revisions) && RevisionKept(variants, Docker, revisions)
    ensures same <==> SameRevisions(variants)
  {
    if Native !in revisions || Docker !in revisions {
      return true;
    }
    LowerForgetsCase(ValidRevision(variants, Native).value, ValidRevision(variants, Docker).value);
    same := revisions[Native] == revisions[Docker];
  }

  /** One turn of the loop over the variants: what it keeps of this one, and of the others. */
  method CheckNext(variants: Json, name: Key, before: map<Key, Json>, known: map<Key, string>, errors: seq<Problem>)
    returns (effectives: map<Key, Json>, revisions: map<Key, string>, found: seq<Problem>)
    requires WellFormed(variants) && variants.Obj? && name !in before && name !in known
    ensures found == errors + VariantReports(variants, name)
    ensures SettingsKept(variants, name, effectives) && RevisionKept(variants, name, revisions)
    ensures forall other :: other != name ==>
              && (other in effectives <==> other in before)
              && (other in before ==> effectives[other] == before[other])
              && (other in revisions <==> other in known)
              && (other in known ==> revisions[other] == known[other])
  {
    var effective, revision;
    effective, revision, found := CheckVariant(variants, name, errors);
    effectives := if effective.Some? then before[name := effective.value] else before;
    revisions := if revision.Some? then known[name := revision.value] else known;
  }

  function AcrossReports(sameSettings: bool, sameRevisions: bool): (reports: seq<Problem>)
    ensures reports == [] <==> sameSettings && sameRevisions
    ensures VariantsDiffer in reports <==> !sameSettings
    ensures RevisionsDiffer in reports <==> !sameRevisions
  {
    Unless(sameSettings, VariantsDiffer) + Unless(sameRevisions, RevisionsDiffer)
  }

  function Differences(variants: Json): seq<Problem>
    requires WellFormed(variants)
  {
    AcrossReports(SameSettings(variants), SameRevisions(variants))
  }

  function Reports(variants: Json): seq<Problem>
    requires WellFormed(variants)
  {
    if !variants.Obj? then [VariantsNotAnObject]
    else
      VariantReports(variants, Native) + VariantReports(variants, Docker) + Differences(variants)
  }

  // ----- what the reports mean -----

  lemma PinListMeans(name: Key, revision: bool, build: bool, launch: bool, binary: bool, image: bool, digest: bool)
    ensures var list := PinList(name, revision, build, launch, binary, image, digest);
            && (list == [] <==> revision && build && launch && if name == Native then binary else image && digest)
            && forall p :: p in list <==>
                 p.BadMember? && p.name == name &&
                 match p.member
                 case Revision => !revision
                 case BuildArgs => !build
                 case LaunchArgs => !launch
                 case BinarySha256 => name == Native && !binary
                 case Image => name != Native && !image
                 case ImageDigest => name != Native && !digest
                 case _ => false
  {
  }

  lemma NoPinReports(name: Key, runtime: seq<Field>)
    ensures PinReports(name, runtime) == [] <==> PinsOk(name, runtime)
  {
  }

  lemma InAny(a: seq<Problem>, b: seq<Problem>, c: seq<Problem>)
    ensures a + b + c == [] <==> a == [] && b == [] && c == []
    ensures forall p :: p in a + b + c <==> p in a || p in b || p in c
  {
    assert |a + b + c| == |a| + |b| + |c|;
  }

  /** Exactly the bad pins are reported. */
  lemma PinReportsMean(name: Key, runtime: seq<Field>)
    ensures forall p :: p in PinReports(name, runtime) <==>
              p.BadMember? && p.name == name &&
              match p.member
              case Revision => !IsGitRevision(Get(runtime, Revision))
              case BuildArgs => !IsStringList(Get(runtime, BuildArgs))
              case LaunchArgs => !IsStringList(Get(runtime, LaunchArgs))
              case BinarySha256 => name == Native && !IsHex(Get(runtime, BinarySha256), 64)
              case Image => name != Native && !IsNonblank(Get(runtime, Image))
              case ImageDigest => name != Native && !IsImageDigest(Get(runtime, ImageDigest))
              case _ => false
  {
    PinListMeans(name,
                 IsGitRevision(Get(runtime, Revision)),
                 IsStringList(Get(runtime, BuildArgs)), IsStringList(Get(runtime, LaunchArgs)),
                 IsHex(Get(runtime, BinarySha256), 64),
                 IsNonblank(Get(runtime, Image)), IsImageDigest(Get(runtime, ImageDigest)));
  }

  lemma BothSettingsReportsMean(name: Key, runtime: seq<Field>)
    requires WellFormed(Obj(runtime))
    ensures BothSettingsReports(name, runtime) == [] <==> AllSettingsOk(runtime)
    ensures forall p :: p in BothSettingsReports(name, runtime) ==> !p.VariantsDiffer? && !p.RevisionsDiffer?
  {
    var (request, effective) := (GetWellFormed(runtime, RequestSettings), GetWellFormed(runtime, EffectiveSettings));
    SettingsReportsKinds(request, name, RequestSettings);
    SettingsReportsKinds(effective, name, EffectiveSettings);
    InAny(SettingsReports(request, name, RequestSettings), SettingsReports(effective, name, EffectiveSettings),
          Unless(SettingsOk(request) && SettingsOk(effective) ==> Agree(request, effective),
                 RequestedNotEffective(name)));
  }

  /** Requested and effective settings are compared exactly if both are valid. */
  lemma RequestedReportedIff(name: Key, runtime: seq<Field>)
    requires WellFormed(Obj(runtime))
    ensures RequestedNotEffective(name) in BothSettingsReports(name, runtime) <==>
              var (request, effective) :=
                (GetWellFormed(runtime, RequestSettings), GetWellFormed(runtime, EffectiveSettings));
              SettingsOk(request) && SettingsOk(effective) && !Agree(request, effective)
  {
    SettingsReportsKinds(GetWellFormed(runtime, RequestSettings), name, RequestSettings);
    SettingsReportsKinds(GetWellFormed(runtime, EffectiveSettings), name, EffectiveSettings);
  }

  lemma RuntimeReportsMean(name: Key, runtime: seq<Field>)
    requires WellFormed(Obj(runtime))
    ensures RuntimeReports(name, runtime) == [] <==> PinsOk(name, runtime) && AllSettingsOk(runtime)
    ensures forall p :: p in RuntimeReports(name, runtime) ==> !p.VariantsDiffer? && !p.RevisionsDiffer?
  {
    NoPinReports(name, runtime);
    PinReportsMean(name, runtime);
    BothSettingsReportsMean(name, runtime);
    InAny(PinReports(name, runtime), BothSettingsReports(name, runtime), []);
  }

  lemma VariantReportsMean(variants: Json, name: Key)
    requires WellFormed(variants) && variants.Obj?
    ensures VariantReports(variants, name) == [] <==> VariantOk(variants, name)
    ensures forall p :: p in VariantReports(variants, name) ==> !p.VariantsDiffer? && !p.RevisionsDiffer?
  {
    if Runtime(variants, name).Some? {
      RuntimeReportsMean(name, Runtime(variants, name).value);
    }
  }

  /** There is no report exactly if the variants are comparable. */
  lemma NoReportsIff(variants: Json)
    requires WellFormed(variants)
    ensures Reports(variants) == [] <==> Comparable(variants)
  {
    if variants.Obj? {
      VariantReportsMean(variants, Native);
      VariantReportsMean(variants, Docker);
      InAny(VariantReports(variants, Native), VariantReports(variants, Docker), Differences(variants));
    }
  }

  /** What is valid on both sides is reported exactly if it differs. */
  lemma DifferencesReportedIff(variants: Json)
    requires WellFormed(variants)
    ensures RevisionsDiffer in Reports(variants) <==> variants.Obj? && !SameRevisions(variants)
    ensures VariantsDiffer in Reports(variants) <==> variants.Obj? && !SameSettings(variants)
  {
    if variants.Obj? {
      VariantReportsMean(variants, Native);
      VariantReportsMean(variants, Docker);
      InAny(VariantReports(variants, Native), VariantReports(variants, Docker), Differences(variants));
    }
  }

  /** Exactly the applicable reports are made; there are none exactly if the two variants are comparable. */
  method CheckVariants(variants: Json, errors: seq<Problem>) returns (found: seq<Problem>)
    requires WellFormed(variants)
    ensures found == errors + Reports(variants) && (found == errors <==> Comparable(variants))
    // Without a report both revisions are there and are the same character by character, up to case ...
    ensures found == errors ==>
      var (native, docker) := (ValidRevision(variants, Native), ValidRevision(variants, Docker));
      && native.Some? && docker.Some? && |native.value| == |docker.value|
      && forall i :: 0 <= i < |native.value| ==>
           var (a, b) := (native.value[i], docker.value[i]);
           || a == b
           || ('A' <= a <= 'Z' && 'a' <= b <= 'z' && b - 'a' == a - 'A')
           || ('A' <= b <= 'Z' && 'a' <= a <= 'z' && a - 'a' == b - 'A')
    // ... and a difference is reported exactly if both are there and they are not.
    ensures RevisionsDiffer in found[|errors|..] <==>
      var (native, docker) := (ValidRevision(variants, Native), ValidRevision(variants, Docker));
      && native.Some? && docker.Some?
      && (|native.value| != |docker.value|
          || exists i :: 0 <= i < |native.value| && !SameLetter(native.value[i], docker.value[i]))
  {
    found := errors;
    NoReportsIff(variants);
    DifferencesReportedIff(variants);
    if !variants.Obj? {
      return found + [VariantsNotAnObject];
    }
    var effectives: map<Key, Json>, revisions: map<Key, string> := map[], map[];
    for i := 0 to 2
      invariant i == 0 ==> Native !in effectives && Native !in revisions && found == errors
      invariant i <= 1 ==> Docker !in effectives && Docker !in revisions
      invariant i == 1 ==> found == errors + VariantReports(variants, Native)
      invariant i == 2 ==> found == errors + VariantReports(variants, Native) + VariantReports(variants, Docker)
      invariant i > 0 ==> SettingsKept(variants, Native, effectives) && RevisionKept(variants, Native, revisions)
      invariant i > 1 ==> SettingsKept(variants, Docker, effectives) && RevisionKept(variants, Docker, revisions)
    {
      var name := if i == 0 then Native else Docker;
      effectives, revisions, found := CheckNext(variants, name, effectives, revisions, found);
    }
    var sameSettings := CompareSettings(variants, effectives);
    var sameRevisions := CompareRevisions(variants, revisions);
    found := found + AcrossReports(sameSettings, sameRevisions);
    AllGrouped(errors, VariantReports(variants, Native), VariantReports(variants, Docker), Differences(variants));
  }

  /** In a manifest without errors all four settings objects agree, whichever two are compared. */
  lemma ComparableSettingsAgree(variants: Json, a: Key, b: Key, x: Key, y: Key)
    requires WellFormed(variants) && Comparable(variants)
    requires a in {Native, Docker} && b in {Native, Docker}
    requires x in {RequestSettings, EffectiveSettings} && y in {RequestSettings, EffectiveSettings}
    ensures Runtime(variants, a).Some? && Runtime(variants, b).Some?
    ensures Agree(GetWellFormed(Runtime(variants, a).value, x), GetWellFormed(Runtime(variants, b).value, y))
  {
  }
}
