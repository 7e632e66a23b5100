/** `overwrite_config`: projecting a configuration node onto an
    engine-side configuration structure by case-insensitive field name
    (habitat/sims/habitat_simulator/habitat_simulator.py).

    The source node is an ordered table of fields. Each field whose
    lower-cased name is an attribute of the target overwrites that
    attribute; other fields are ignored without error. A nested node is
    stored as a plain mapping whose keys are lower-cased (one level only);
    any other value is stored unchanged. */
module ConfigTranslation {
  import opened Dicts
  import Json

  /** `str.lower()` restricted to ASCII. */
  function LowerChar(c: char): char {
    if 'A' <= c <= 'Z' then (c as int + 32) as char else c
  }

  function Lower(s: string): (r: string)
    ensures |r| == |s|
    ensures forall i :: 0 <= i < |s| ==> !('A' <= r[i] <= 'Z')
    ensures forall i :: 0 <= i < |s| && 'A' <= s[i] <= 'Z' ==> r[i] as int == s[i] as int + 32
    ensures forall i :: 0 <= i < |s| && !('A' <= s[i] <= 'Z') ==> r[i] == s[i]
  {
    seq(|s|, i requires 0 <= i < |s| => LowerChar(s[i]))
  }

  /** Lower-casing twice is lower-casing once. */
  lemma LowerIdempotent(s: string)
    ensures Lower(Lower(s)) == Lower(s)
  {
    assert forall i :: 0 <= i < |s| ==> LowerChar(LowerChar(s[i])) == LowerChar(s[i]);
  }

  /** A configuration value: a leaf (scalar or list) or a nested node. */
  datatype ConfigValue =
    | Leaf(value: Json.Json)
    | Node(items: Dict<string, ConfigValue>)

  /** What an attribute of the engine structure holds after assignment:
      an unchanged value, or the plain mapping built from a nested node. */
  datatype Stored =
    | Plain(value: ConfigValue)
    | Mapping(entries: map<string, ConfigValue>)

  /** The engine-side structure: its attribute names and current values. */
  type Target = map<string, Stored>

  /** True when field `i` names `a` and no later field does. */
  predicate LastFieldFor(source: Dict<string, ConfigValue>, i: int, a: string)
    requires 0 <= i < |source|
  {
    Lower(source[i].0) == a && forall j :: i < j < |source| ==> Lower(source[j].0) != a
  }

  /** `{key.lower(): val for key, val in config.items()}`: later fields
      whose names collide after lower-casing overwrite earlier ones. */
  function LowerKeys(items: Dict<string, ConfigValue>): (m: map<string, ConfigValue>)
    ensures forall i :: 0 <= i < |items| ==> Lower(items[i].0) in m
    ensures forall k :: k in m ==> exists i :: 0 <= i < |items| && Lower(items[i].0) == k
    ensures forall k, i :: 0 <= i < |items| && LastFieldFor(items, i, k) ==> k in m && m[k] == items[i].1
  {
    if |items| == 0 then map[]
    else
      var init := items[..|items| - 1];
      var last := items[|items| - 1];
      var before := LowerKeys(init);
      var m := before[Lower(last.0) := last.1];
      assert forall i :: 0 <= i < |items| - 1 ==> items[i] == init[i];
      forall k | k in m ensures exists i :: 0 <= i < |items| && Lower(items[i].0) == k {
        if k != Lower(last.0) {
          var i :| 0 <= i < |init| && Lower(init[i].0) == k;
          assert items[i] == init[i];
        }
      }
      forall k, i | 0 <= i < |items| && LastFieldFor(items, i, k)
        ensures k in m && m[k] == items[i].1
      {
        if i < |items| - 1 {
          assert LastFieldFor(init, i, k);
        }
      }
      m
  }

  /** `if_config_to_lower(value)`. */
  function StoredForm(value: ConfigValue): (r: Stored)
    ensures value.Node? <==> r.Mapping?
    ensures value.Leaf? ==> r == Plain(value)
    ensures value.Node? ==> forall k :: k in r.entries ==> Lower(k) == k
    ensures value.Node? ==> r == Mapping(LowerKeys(value.items))
  {
    match value
    case Node(items) =>
      var m := LowerKeys(items);
      assert forall k :: k in m ==> Lower(k) == k by {
        forall k | k in m ensures Lower(k) == k {
          var i :| 0 <= i < |items| && Lower(items[i].0) == k;
          LowerIdempotent(items[i].0);
        }
      }
      Mapping(m)
    case Leaf(_) => Plain(value)
  }

  /** True when no field names attribute `a`. */
  predicate NoFieldFor(source: Dict<string, ConfigValue>, a: string) {
    forall i :: 0 <= i < |source| ==> Lower(source[i].0) != a
  }

  /** `overwrite_config(config_from=source, config_to=target)`: fields are
      applied in order, so the last field naming an attribute wins. */
  function OverwriteConfig(source: Dict<string, ConfigValue>, target: Target): (r: Target)
    ensures r.Keys == target.Keys
    ensures forall a :: a in target && NoFieldFor(source, a) ==> r[a] == target[a]
    ensures forall a, i :: a in target && 0 <= i < |source| && LastFieldFor(source, i, a) ==> r[a] == StoredForm(source[i].1)
  {
    if |source| == 0 then target
    else
      var init := source[..|source| - 1];
      var last := source[|source| - 1];
      var before := OverwriteConfig(init, target);
      var attr := Lower(last.0);
      var r := if attr in before then before[attr := StoredForm(last.1)] else before;
      assert forall i :: 0 <= i < |source| - 1 ==> source[i] == init[i];
      forall a, i | a in target && 0 <= i < |source| && LastFieldFor(source, i, a)
        ensures r[a] == StoredForm(source[i].1)
      {
        if i < |source| - 1 {
          assert LastFieldFor(init, i, a);
        }
      }
      r
  }

  /** `source` with every field name lower-cased. */
  function LowerNames(source: Dict<string, ConfigValue>): (r: Dict<string, ConfigValue>)
    ensures |r| == |source|
    ensures forall i :: 0 <= i < |source| ==> r[i].1 == source[i].1 && Lower(r[i].0) == Lower(source[i].0)
  {
    var r := seq(|source|, i requires 0 <= i < |source| => (Lower(source[i].0), source[i].1));
    assert forall i :: 0 <= i < |source| ==> Lower(r[i].0) == Lower(source[i].0) by {
      forall i | 0 <= i < |source| ensures Lower(r[i].0) == Lower(source[i].0) {
        LowerIdempotent(source[i].0);
      }
    }
    r
  }

  /** Matching is case-insensitive: lower-casing every source field name
      first gives the same result. */
  lemma CaseInsensitive(source: Dict<string, ConfigValue>, target: Target)
    ensures OverwriteConfig(LowerNames(source), target) == OverwriteConfig(source, target)
  {
    var lowered := LowerNames(source);
    var r1 := OverwriteConfig(lowered, target);
    var r2 := OverwriteConfig(source, target);
    forall a | a in target ensures r1[a] == r2[a] {
      if i :| 0 <= i < |source| && LastFieldFor(source, i, a) {
        assert LastFieldFor(lowered, i, a);
      } else {
        LastFieldExists(source, a);
        assert NoFieldFor(lowered, a);
      }
    }
  }

  /** If some field names `a`, one of them is the last. */
  lemma LastFieldExists(source: Dict<string, ConfigValue>, a: string)
    requires forall i :: 0 <= i < |source| ==> !LastFieldFor(source, i, a)
    ensures NoFieldFor(source, a)
  {
    if i :| 0 <= i < |source| && Lower(source[i].0) == a {
      var k := i;
      while k < |source| - 1
        invariant i <= k < |source| && Lower(source[k].0) == a
        decreases |source| - k
      {
        assert !LastFieldFor(source, k, a);
        var j :| k < j < |source| && Lower(source[j].0) == a;
        k := j;
      }
      assert LastFieldFor(source, k, a);
    }
  }

  /** A field that names no attribute is ignored, wherever it stands. */
  lemma UnmatchedFieldIgnored(before: Dict<string, ConfigValue>, field: (string, ConfigValue),
                              after: Dict<string, ConfigValue>, target: Target)
    requires Lower(field.0) !in target
    ensures OverwriteConfig(before + [field] + after, target) == OverwriteConfig(before + after, target)
  {
    var s1 := before + [field] + after;
    var s2 := before + after;
    var r1 := OverwriteConfig(s1, target);
    var r2 := OverwriteConfig(s2, target);
    forall a | a in target ensures r1[a] == r2[a] {
      if i :| 0 <= i < |s1| && LastFieldFor(s1, i, a) {
        LastFieldWithoutUnmatched(before, field, after, i, a);
      } else {
        LastFieldExists(s1, a);
        NoFieldWithoutUnmatched(before, field, after, a);
      }
    }
  }

  /** The last field naming `a` keeps that role once another field is
      removed. */
  lemma LastFieldWithoutUnmatched(before: Dict<string, ConfigValue>, field: (string, ConfigValue),
                                  after: Dict<string, ConfigValue>, i: int, a: string)
    requires 0 <= i < |before| + 1 + |after| && Lower(field.0) != a
    requires LastFieldFor(before + [field] + after, i, a)
    ensures i != |before|
    ensures var i2 := if i < |before| then i else i - 1;
      0 <= i2 < |before + after| && LastFieldFor(before + after, i2, a)
      && (before + after)[i2] == (before + [field] + after)[i]
  {
    var s1 := before + [field] + after;
    var s2 := before + after;
    forall j | 0 <= j < |s2| ensures s2[j] == s1[Skip(j, |before|)] {
    }
    assert i != |before|;
    var i2 := if i < |before| then i else i - 1;
    assert Skip(i2, |before|) == i;
    forall j | i2 < j < |s2| ensures Lower(s2[j].0) != a {
      assert Skip(j, |before|) > i;
    }
  }

  /** Removing a field keeps an attribute unnamed. */
  lemma NoFieldWithoutUnmatched(before: Dict<string, ConfigValue>, field: (string, ConfigValue),
                                after: Dict<string, ConfigValue>, a: string)
    requires NoFieldFor(before + [field] + after, a)
    ensures NoFieldFor(before + after, a)
  {
    var s1 := before + [field] + after;
    var s2 := before + after;
    forall j | 0 <= j < |s2| ensures s2[j] == s1[Skip(j, |before|)] {
    }
  }

  /** The position in `before + [field] + after` of position `j` of
      `before + after`. */
  function Skip(j: int, n: int): int {
    if j < n then j else j + 1
  }

  /** The worked example: fields `Foo: 1`, `Bar: {Baz: 2}` and `Qux: 3`
      projected onto a structure with attributes `foo` and `bar`. */
  lemma ExampleProjection(source: Dict<string, ConfigValue>, foo0: Stored, bar0: Stored)
    requires source == [("Foo", Leaf(Json.JNum(1.0))),
                        ("Bar", Node([("Baz", Leaf(Json.JNum(2.0)))])),
                        ("Qux", Leaf(Json.JNum(3.0)))]
    ensures
      var r := OverwriteConfig(source, map["foo" := foo0, "bar" := bar0]);
      && r.Keys == {"foo", "bar"}
      && r["foo"] == Plain(Leaf(Json.JNum(1.0)))
      && r["bar"] == Mapping(map["baz" := Leaf(Json.JNum(2.0))])
  {
    ExampleNames();
    assert LastFieldFor(source, 0, "foo");
    assert LastFieldFor(source, 1, "bar");
    ExampleInner();
  }

  /** The lower-cased names of the worked example. */
  lemma ExampleNames()
    ensures Lower("Foo") == "foo" && Lower("Bar") == "bar" && Lower("Qux") == "qux" && Lower("Baz") == "baz"
  {
  }

  /** The nested node of the worked example, stored. */
  lemma ExampleInner()
    ensures StoredForm(Node([("Baz", Leaf(Json.JNum(2.0)))])) == Mapping(map["baz" := Leaf(Json.JNum(2.0))])
  {
    var inner: Dict<string, ConfigValue> := [("Baz", Leaf(Json.JNum(2.0)))];
    ExampleNames();
    assert inner[..0] == [];
    assert LowerKeys(inner) == map["baz" := Leaf(Json.JNum(2.0))];
  }
}
