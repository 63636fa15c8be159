/**
 * `$.fn.serializeObject` (js/main.js:2-19): folds the `(name, value)` pairs that
 * jQuery's `serializeArray` reports, in document order, into a plain object.
 * A name seen once maps to a string; a repeated name maps to the list of its
 * values in encounter order. The test `if (o[this.name])` is JavaScript
 * truthiness, so a stored empty string counts as absent and is overwritten.
 */
module FormSerializer {
  import opened Wrappers

  /** One serialized control: its name and a value that may be missing. */
  datatype Field = Field(name: string, value: Option<string>)

  /** A payload entry: one string, or the array a repeated name builds. */
  datatype Value = Scalar(s: string) | List(items: seq<string>)

  type Payload = map<string, Value>

  /** `this.value || ''`: a missing (or empty) value becomes the empty string. */
  function ValueText(f: Field): string {
    match f.value
    case Some(v) => v
    case None => ""
  }

  /** Truthiness of `o[name]`: a missing key and the empty string are falsy; an array is truthy. */
  predicate Truthy(o: Payload, name: string) {
    name in o && o[name] != Scalar("")
  }

  /** Lines 9-12: a scalar is first wrapped in an array, then the new value is pushed. */
  function Append(cur: Value, v: string): Value {
    match cur
    case Scalar(s) => List([s, v])
    case List(items) => List(items + [v])
  }

  /** One run of the `$.each` callback (lines 8-15). */
  function Absorb(o: Payload, f: Field): (r: Payload)
    ensures r.Keys == o.Keys + {f.name}
    ensures forall n :: n in o && n != f.name ==> r[n] == o[n]
    ensures !Truthy(o, f.name) ==> r[f.name] == Scalar(ValueText(f))
    ensures Truthy(o, f.name) && o[f.name].Scalar? ==> r[f.name] == List([o[f.name].s, ValueText(f)])
    ensures Truthy(o, f.name) && o[f.name].List? ==> r[f.name] == List(o[f.name].items + [ValueText(f)])
  {
    var v := ValueText(f);
    if Truthy(o, f.name) then o[f.name := Append(o[f.name], v)]
    else o[f.name := Scalar(v)]
  }

  /**
   * The object the callback has built after visiting `fields` in order. A
   * value only becomes an array once a second value for its name arrives.
   */
  function Serialize(fields: seq<Field>): (o: Payload)
    ensures forall n :: n in o && o[n].List? ==> |o[n].items| >= 2
  {
    if fields == [] then map[]
    else
      Absorb(Serialize(fields[..|fields| - 1]), fields[|fields| - 1])
  }

  /** The loop of lines 4-18: `o` starts empty and is updated field by field. */
  method SerializeObject(fields: seq<Field>) returns (o: Payload)
    ensures o == Serialize(fields)
    ensures o.Keys == Names(fields)
    ensures forall n :: n in o ==> o[n] == Collapse(ValuesOf(fields, n))
  {
    o := map[];
    var i := 0;
    assert fields[..i] == [];
    while i < |fields|
      invariant 0 <= i <= |fields|
      invariant o == Serialize(fields[..i])
    {
      var f := fields[i];
      var v := ValueText(f);
      ghost var before := o;
      if f.name in o && o[f.name] != Scalar("") {
        var cur := o[f.name];
        if cur.Scalar? {
          cur := List([cur.s]);
        }
        assert List(cur.items + [v]) == Append(o[f.name], v);
        o := o[f.name := List(cur.items + [v])];
      } else {
        o := o[f.name := Scalar(v)];
      }
      assert o == Absorb(before, f);
      assert fields[..i + 1][..i] == fields[..i];
      assert Serialize(fields[..i + 1]) == Absorb(Serialize(fields[..i]), f);
      i := i + 1;
    }
    assert fields[..i] == fields;
    SerializeMatchesExpected(fields);
  }

  // ---------------------------------------------------------------------------
  // An independent description of the result, key by key.

  /** Every name that occurs among the fields. */
  function Names(fields: seq<Field>): set<string> {
    set i | 0 <= i < |fields| :: fields[i].name
  }

  /** The values given for `name`, in encounter order, missing ones read as `''`. */
  function ValuesOf(fields: seq<Field>, name: string): (vs: seq<string>)
    ensures |vs| <= |fields|
    ensures forall i :: 0 <= i < |fields| && fields[i].name == name ==> |vs| > 0
  {
    if fields == [] then []
    else
      var init, f := fields[..|fields| - 1], fields[|fields| - 1];
      ValuesOf(init, name) + (if f.name == name then [ValueText(f)] else [])
  }

  /** How many empty strings `vs` starts with. */
  function LeadingEmpty(vs: seq<string>): (k: nat)
    ensures k <= |vs|
    ensures forall i :: 0 <= i < k ==> vs[i] == ""
    ensures k < |vs| ==> vs[k] != ""
  {
    if vs == [] || vs[0] != "" then 0 else 1 + LeadingEmpty(vs[1..])
  }

  /**
   * What the payload holds for a name whose values are `vs`: leading empty
   * strings are overwritten one by one; from the first non-empty value on,
   * a single value stays a string and two or more form a list.
   */
  function Collapse(vs: seq<string>): Value
    requires |vs| > 0
  {
    var k := LeadingEmpty(vs);
    if k == |vs| then Scalar("")
    else if k == |vs| - 1 then Scalar(vs[k])
    else List(vs[k..])
  }

  /** The payload described key by key. */
  function Expected(fields: seq<Field>): Payload {
    map n | n in Names(fields) :: Collapse(ValuesOf(fields, n))
  }

  lemma NamesSnoc(fields: seq<Field>, f: Field)
    ensures Names(fields + [f]) == Names(fields) + {f.name}
  {
    var all := fields + [f];
    forall n | n in Names(all) ensures n in Names(fields) + {f.name} {
      var i :| 0 <= i < |all| && all[i].name == n;
      if i < |fields| { assert fields[i] == all[i]; }
    }
    forall n | n in Names(fields) ensures n in Names(all) {
      var i :| 0 <= i < |fields| && fields[i].name == n;
      assert all[i] == fields[i];
    }
    assert all[|fields|] == f;
  }

  lemma {:induction false} ValuesOfAbsent(fields: seq<Field>, name: string)
    requires name !in Names(fields)
    ensures ValuesOf(fields, name) == []
  {
    if fields != [] {
      var init := fields[..|fields| - 1];
      assert fields[|fields| - 1].name in Names(fields);
      forall i | 0 <= i < |init| ensures init[i].name != name {
        assert fields[i] == init[i];
        assert fields[i].name in Names(fields);
      }
      ValuesOfAbsent(init, name);
    }
  }

  lemma LeadingEmptySnoc(vs: seq<string>, v: string)
    ensures LeadingEmpty(vs + [v]) ==
      if LeadingEmpty(vs) < |vs| then LeadingEmpty(vs)
      else if v == "" then |vs| + 1 else |vs|
  {
    var ws := vs + [v];
    var k, k' := LeadingEmpty(vs), LeadingEmpty(ws);
    if k < |vs| {
      assert ws[k] == vs[k];
    } else {
      assert ws[|vs|] == v;
    }
  }

  /** Absorbing one more value for a name agrees with the key-by-key description. */
  lemma CollapseSnoc(vs: seq<string>, v: string)
    requires |vs| > 0
    ensures Collapse(vs + [v]) ==
      if Collapse(vs) == Scalar("") then Scalar(v) else Append(Collapse(vs), v)
  {
    var ws := vs + [v];
    var k := LeadingEmpty(vs);
    LeadingEmptySnoc(vs, v);
    if k < |vs| - 1 {
      assert ws[k..] == vs[k..] + [v];
    } else if k == |vs| - 1 {
      assert ws[k..] == [vs[k], v];
    }
  }

  lemma ValuesOfSnoc(init: seq<Field>, f: Field, n: string)
    ensures ValuesOf(init + [f], n) == ValuesOf(init, n) + (if f.name == n then [ValueText(f)] else [])
  {
  }

  /** One more field changes the description only at that field's name, as `Absorb` does. */
  lemma AbsorbExpectedAt(init: seq<Field>, f: Field, n: string)
    requires n in Names(init + [f])
    ensures n in Absorb(Expected(init), f)
    ensures Absorb(Expected(init), f)[n] == Collapse(ValuesOf(init + [f], n))
  {
    NamesSnoc(init, f);
    ValuesOfSnoc(init, f, n);
    var e := Expected(init);
    var v := ValueText(f);
    if n != f.name {
      assert n in Names(init);
      assert ValuesOf(init + [f], n) == ValuesOf(init, n);
      assert Absorb(e, f)[n] == e[n] == Collapse(ValuesOf(init, n));
    } else if n in Names(init) {
      var vs := ValuesOf(init, n);
      assert e[n] == Collapse(vs);
      CollapseSnoc(vs, v);
      assert ValuesOf(init + [f], n) == vs + [v];
      assert Absorb(e, f)[n] == if Truthy(e, n) then Append(e[n], v) else Scalar(v);
      assert Truthy(e, n) <==> Collapse(vs) != Scalar("");
    } else {
      ValuesOfAbsent(init, n);
      assert n !in e;
      assert Absorb(e, f)[n] == Scalar(v);
      assert ValuesOf(init + [f], n) == [v];
    }
  }

  /** Absorbing one more field turns the description of `init` into that of `init + [f]`. */
  lemma AbsorbExpected(init: seq<Field>, f: Field)
    ensures Absorb(Expected(init), f) == Expected(init + [f])
  {
    NamesSnoc(init, f);
    var got, want := Absorb(Expected(init), f), Expected(init + [f]);
    forall n | n in want ensures n in got && got[n] == want[n] {
      AbsorbExpectedAt(init, f, n);
    }
    assert got.Keys == want.Keys;
  }

  /** The fold builds exactly the key-by-key description. */
  lemma {:induction false} SerializeMatchesExpected(fields: seq<Field>)
    ensures Serialize(fields) == Expected(fields)
  {
    if fields != [] {
      var init, f := fields[..|fields| - 1], fields[|fields| - 1];
      assert fields == init + [f];
      SerializeMatchesExpected(init);
      AbsorbExpected(init, f);
    }
  }

  /** The payload has one key per distinct field name, no more. */
  lemma KeysAreNames(fields: seq<Field>)
    ensures Serialize(fields).Keys == Names(fields)
  {
  }

  /**
   * The ordinary case: when a name's first value is non-empty, a single
   * occurrence gives that string and repeated occurrences give every value
   * in encounter order.
   */
  lemma RepeatedNamesKeepOrder(fields: seq<Field>, name: string)
    requires name in Names(fields)
    requires ValuesOf(fields, name)[0] != ""
    ensures name in Serialize(fields)
    ensures var vs := ValuesOf(fields, name);
      Serialize(fields)[name] == if |vs| == 1 then Scalar(vs[0]) else List(vs)
  {
    SerializeMatchesExpected(fields);
    assert ValuesOf(fields, name)[0..] == ValuesOf(fields, name);
  }

  /** A name met for the first time maps to its value, `''` when the value is missing. */
  lemma FirstOccurrenceIsScalar(fields: seq<Field>, f: Field)
    requires f.name !in Names(fields)
    ensures Serialize(fields + [f])[f.name] == Scalar(ValueText(f))
    ensures f.value.None? ==> Serialize(fields + [f])[f.name] == Scalar("")
  {
    KeysAreNames(fields);
    assert (fields + [f])[..|fields|] == fields;
  }

  /** A second occurrence after a non-empty first value forms `[first, second]`. */
  lemma SecondOccurrenceMakesList(fields: seq<Field>, f: Field, first: string)
    requires f.name in Serialize(fields) && Serialize(fields)[f.name] == Scalar(first)
    requires first != ""
    ensures Serialize(fields + [f])[f.name] == List([first, ValueText(f)])
  {
  }

  /** Later occurrences append to the list. */
  lemma LaterOccurrenceAppends(fields: seq<Field>, f: Field, items: seq<string>)
    requires f.name in Serialize(fields) && Serialize(fields)[f.name] == List(items)
    ensures Serialize(fields + [f])[f.name] == List(items + [ValueText(f)])
  {
  }

  /** A stored `''` is falsy: the next occurrence overwrites it instead of starting a list. */
  lemma EmptyValueIsOverwritten(fields: seq<Field>, f: Field)
    requires f.name in Serialize(fields) && Serialize(fields)[f.name] == Scalar("")
    ensures Serialize(fields + [f])[f.name] == Scalar(ValueText(f))
  {
  }

  /** Fields `tag=a, tag=b, name=x` give `{tag: ["a", "b"], name: "x"}`. */
  lemma ExamplePayload()
    ensures Serialize([Field("tag", Some("a")), Field("tag", Some("b")), Field("name", Some("x"))])
      == map["tag" := List(["a", "b"]), "name" := Scalar("x")]
  {
    var fs := [Field("tag", Some("a")), Field("tag", Some("b")), Field("name", Some("x"))];
    assert fs[..1][..0] == [];
    assert Serialize(fs[..1]) == map["tag" := Scalar("a")];
    assert fs[..2][..1] == fs[..1];
    assert Serialize(fs[..2]) == map["tag" := List(["a", "b"])];
    assert fs[..3][..2] == fs[..2];
  }
}
