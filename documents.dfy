/**
  The Dictionary<string, object> a formatter fills before serializing it,
  the property-naming rules shared by the current and the older formatters,
  and the opaque helpers (JSON serializer, ByteSize, ToString) they call.
*/
module Documents {
  import opened Wrappers
  import opened Exceptions
  import opened Text
  import opened Events
  import opened Flattening
  import opened FieldNaming

  /** The objects stored in a document. */
  datatype FieldValue =
    | TextValue(text: string)
    | ExceptionValue(exception: Option<Exception>)
    | Flat(value: Internal)
    | Raw(raw: RawValue)

  /** A dictionary as its (key, value) entries in insertion order. */
  type Document = seq<(string, FieldValue)>

  /** ContainsKey */
  predicate HasKey(d: Document, key: string) {
    exists i | 0 <= i < |d| :: d[i].0 == key
  }

  /** No key is stored twice, as in any Dictionary. */
  predicate DistinctKeys(d: Document) {
    forall i, j | 0 <= i < j < |d| :: d[i].0 != d[j].0
  }

  /** TryGetValue */
  function Get(d: Document, key: string): (r: Option<FieldValue>)
    ensures r.Some? <==> HasKey(d, key)
    ensures r.Some? ==> exists i | 0 <= i < |d| :: d[i] == (key, r.value)
  {
    if d == [] then None
    else if d[0].0 == key then Some(d[0].1)
    else
      var r := Get(d[1..], key);
      assert forall i | 1 <= i < |d| :: d[i] == d[1..][i - 1];
      assert r.Some? ==> d[1..] == d[1..];
      r
  }

  /**
    The indexer assignment `d[key] = value`: an existing key keeps its place
    and gets the new value, a new key is appended.
  */
  function Put(d: Document, key: string, value: FieldValue): (r: Document)
    ensures Get(r, key) == Some(value)
    ensures forall k | k != key :: Get(r, k) == Get(d, k)
    ensures forall k :: HasKey(r, k) <==> HasKey(d, k) || k == key
    ensures !HasKey(d, key) ==> r == d + [(key, value)]
    ensures HasKey(d, key) ==> |r| == |d|
  {
    if d == [] then [(key, value)]
    else if d[0].0 == key then
      var r := [(key, value)] + d[1..];
      assert r[1..] == d[1..];
      assert forall k :: HasKey(r, k) <==> Get(r, k).Some?;
      assert forall k :: HasKey(d, k) <==> Get(d, k).Some?;
      r
    else
      var rest := Put(d[1..], key, value);
      var r := [d[0]] + rest;
      assert r[1..] == rest;
      assert forall k :: HasKey(r, k) <==> Get(r, k).Some?;
      assert forall k :: HasKey(d, k) <==> Get(d, k).Some?;
      r
  }

  /** The position of a key's entry: the first entry holding it. */
  function IndexOfKey(d: Document, key: string): (j: nat)
    requires HasKey(d, key)
    ensures j < |d| && d[j].0 == key && forall i | 0 <= i < j :: d[i].0 != key
  {
    if d[0].0 == key then 0
    else
      var w :| 0 <= w < |d| && d[w].0 == key;
      assert d[1..][w - 1].0 == key;
      1 + IndexOfKey(d[1..], key)
  }

  /**
    Assigning to an existing key replaces its entry where it stands, so the
    serialized field order is unchanged.
  */
  lemma {:induction false} PutKeepsPlace(d: Document, key: string, value: FieldValue)
    requires HasKey(d, key)
    ensures Put(d, key, value) == d[IndexOfKey(d, key) := (key, value)]
  {
    if d[0].0 != key {
      var w :| 0 <= w < |d| && d[w].0 == key;
      assert d[1..][w - 1].0 == key;
      PutKeepsPlace(d[1..], key, value);
      assert Put(d, key, value) == [d[0]] + d[1..][IndexOfKey(d[1..], key) := (key, value)];
    }
  }

  /** Assignment keeps a dictionary's keys distinct. */
  lemma {:induction false} PutKeepsDistinct(d: Document, key: string, value: FieldValue)
    requires DistinctKeys(d)
    ensures DistinctKeys(Put(d, key, value))
  {
    if d != [] {
      HasKeyCons(d);
      var r := Put(d, key, value);
      HasKeyCons(r);
      if d[0].0 != key {
        PutKeepsDistinct(d[1..], key, value);
        assert r[1..] == Put(d[1..], key, value);
      } else {
        assert r[1..] == d[1..];
      }
    }
  }

  lemma HasKeyCons(d: Document)
    requires d != []
    ensures forall k :: HasKey(d, k) <==> k == d[0].0 || HasKey(d[1..], k)
    ensures DistinctKeys(d) <==> !HasKey(d[1..], d[0].0) && DistinctKeys(d[1..])
  {
    forall k ensures HasKey(d, k) <==> k == d[0].0 || HasKey(d[1..], k) {
      if HasKey(d, k) && k != d[0].0 {
        var i :| 0 <= i < |d| && d[i].0 == k;
        assert d[1..][i - 1].0 == k;
      }
      if HasKey(d[1..], k) {
        var i :| 0 <= i < |d[1..]| && d[1..][i].0 == k;
        assert d[i + 1].0 == k;
      }
    }
    if !HasKey(d[1..], d[0].0) && DistinctKeys(d[1..]) {
      forall i, j | 0 <= i < j < |d| ensures d[i].0 != d[j].0 {
        if i == 0 {
          assert d[1..][j - 1] == d[j];
        } else {
          assert d[1..][i - 1] == d[i] && d[1..][j - 1] == d[j];
        }
      }
    }
  }

  /**
    The foreign helpers a formatter calls: the JSON serializer (None when it
    throws), ByteSize.From, and ToString() of the property values Serilog
    renders itself.
  */
  datatype Codec = Codec(
    serialize: Document -> Option<string>,
    byteSize: string -> int,
    render: PropertyValue -> string)
  {
    /** LogEventPropertyValue.ToString() */
    function ToString(v: PropertyValue): string {
      match v
      case OtherValue(text) => text
      case _ => render(v)
    }
  }

  /** OverrideFieldName: a rename-table entry is used only when it is not null or blank. */
  function OverrideFieldName(renames: Option<map<string, Option<string>>>, key: string): (r: Option<string>)
    ensures r.Some? <==> renames.Some? && key in renames.value && !IsNullOrWhiteSpace(renames.value[key])
    ensures r.Some? ==> renames.value[key] == Some(r.value)
  {
    if renames.None? then None
    else if key !in renames.value then None
    else if IsNullOrWhiteSpace(renames.value[key]) then None
    else renames.value[key]
  }

  /** What a formatter needs to name a property field: the rename table, the prefix and the transform. */
  datatype PropertyNaming = PropertyNaming(
    renames: Option<map<string, Option<string>>>,
    prefix: string,
    transform: Transform)

  /** The name a property is written under: the override, else prefix + key, then transformed. */
  function PropertyFieldName(n: PropertyNaming, key: string): string {
    Apply(n.transform, match OverrideFieldName(n.renames, key) case Some(name) => name case None => n.prefix + key)
  }

  /** Some property of `properties` is written under `name`. */
  predicate Named(properties: seq<(string, PropertyValue)>, n: PropertyNaming, name: string) {
    exists i | 0 <= i < |properties| :: PropertyFieldName(n, properties[i].0) == name
  }

  /** The property loop: each property, in order, is flattened and assigned under its field name. */
  function AddProperties(d: Document, properties: seq<(string, PropertyValue)>, n: PropertyNaming): Result<Document, Exception>
    decreases |properties|
  {
    if properties == [] then Success(d)
    else
      match GetPropertyInternalValue(properties[0].1)
      case Failure(e) => Failure(e)
      case Success(x) => AddProperties(Put(d, PropertyFieldName(n, properties[0].0), Flat(x)), properties[1..], n)
  }

  /** The property loop as the formatters run it, on the dictionary they are filling. */
  method AddPropertiesInPlace(values: Document, properties: seq<(string, PropertyValue)>, n: PropertyNaming)
    returns (r: Result<Document, Exception>)
    ensures r == AddProperties(values, properties, n)
  {
    var d := values;
    var i := 0;
    while i < |properties|
      invariant 0 <= i <= |properties|
      invariant AddProperties(d, properties[i..], n) == AddProperties(values, properties, n)
    {
      var fieldName := PropertyFieldName(n, properties[i].0);
      var internal := GetPropertyInternalValue(properties[i].1);
      assert properties[i..][1..] == properties[i + 1..];
      if internal.Failure? {
        return Failure(internal.error);
      }
      d := Put(d, fieldName, Flat(internal.value));
      i := i + 1;
    }
    assert properties[i..] == [];
    return Success(d);
  }

  lemma NamedShift(properties: seq<(string, PropertyValue)>, n: PropertyNaming)
    requires properties != []
    ensures forall k :: Named(properties, n, k) <==> k == PropertyFieldName(n, properties[0].0) || Named(properties[1..], n, k)
  {
    forall k ensures Named(properties, n, k) <==> k == PropertyFieldName(n, properties[0].0) || Named(properties[1..], n, k) {
      if Named(properties, n, k) && k != PropertyFieldName(n, properties[0].0) {
        var i :| 0 <= i < |properties| && PropertyFieldName(n, properties[i].0) == k;
        assert properties[1..][i - 1] == properties[i];
      }
      if Named(properties[1..], n, k) {
        var i :| 0 <= i < |properties[1..]| && PropertyFieldName(n, properties[1..][i].0) == k;
        assert properties[i + 1] == properties[1..][i];
      }
    }
  }

  /** The property loop throws exactly when flattening some property value throws. */
  lemma {:induction false} AddPropertiesSucceedsIff(d: Document, properties: seq<(string, PropertyValue)>, n: PropertyNaming)
    ensures AddProperties(d, properties, n).Success? <==> forall i | 0 <= i < |properties| :: WellKeyed(properties[i].1)
    decreases |properties|
  {
    if properties != [] {
      FlattenSucceedsIff(properties[0].1);
      var x := GetPropertyInternalValue(properties[0].1);
      if x.Success? {
        AddPropertiesSucceedsIff(Put(d, PropertyFieldName(n, properties[0].0), Flat(x.value)), properties[1..], n);
        assert forall i | 1 <= i < |properties| :: properties[i] == properties[1..][i - 1];
      }
    }
  }

  /**
    After the property loop keys are never removed, the only keys added are
    property field names, and no key is stored twice.
  */
  lemma {:induction false} AddPropertiesKeys(d: Document, properties: seq<(string, PropertyValue)>, n: PropertyNaming)
    requires AddProperties(d, properties, n).Success?
    ensures forall k :: HasKey(AddProperties(d, properties, n).value, k) <==> HasKey(d, k) || Named(properties, n, k)
    ensures DistinctKeys(d) ==> DistinctKeys(AddProperties(d, properties, n).value)
    decreases |properties|
  {
    if properties != [] {
      var name := PropertyFieldName(n, properties[0].0);
      var x := GetPropertyInternalValue(properties[0].1);
      var d' := Put(d, name, Flat(x.value));
      AddPropertiesKeys(d', properties[1..], n);
      if DistinctKeys(d) {
        PutKeepsDistinct(d, name, Flat(x.value));
      }
      NamedShift(properties, n);
    }
  }

  /** A key no property is written under keeps the value it had before the property loop. */
  lemma {:induction false} AddPropertiesFrame(d: Document, properties: seq<(string, PropertyValue)>, n: PropertyNaming)
    requires AddProperties(d, properties, n).Success?
    ensures forall k | !Named(properties, n, k) :: Get(AddProperties(d, properties, n).value, k) == Get(d, k)
    decreases |properties|
  {
    if properties != [] {
      var name := PropertyFieldName(n, properties[0].0);
      var x := GetPropertyInternalValue(properties[0].1);
      AddPropertiesFrame(Put(d, name, Flat(x.value)), properties[1..], n);
      NamedShift(properties, n);
    }
  }

  /**
    A property that no later property shares its field name with is the one
    whose flattened value ends up under that name (last write wins).
  */
  lemma {:induction false} AddPropertiesLastWins(d: Document, properties: seq<(string, PropertyValue)>, n: PropertyNaming)
    requires AddProperties(d, properties, n).Success?
    ensures forall i | 0 <= i < |properties| && !Named(properties[i + 1..], n, PropertyFieldName(n, properties[i].0)) ::
      GetPropertyInternalValue(properties[i].1).Success? &&
      Get(AddProperties(d, properties, n).value, PropertyFieldName(n, properties[i].0)) ==
        Some(Flat(GetPropertyInternalValue(properties[i].1).value))
    decreases |properties|
  {
    if properties != [] {
      var name := PropertyFieldName(n, properties[0].0);
      var x := GetPropertyInternalValue(properties[0].1);
      var d' := Put(d, name, Flat(x.value));
      var rest := properties[1..];
      AddPropertiesLastWins(d', rest, n);
      AddPropertiesFrame(d', rest, n);
      forall i | 1 <= i < |properties| ensures properties[i + 1..] == rest[i..] && properties[i] == rest[i - 1] {
      }
    }
  }
}
