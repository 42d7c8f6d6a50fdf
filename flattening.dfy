/**
  Flattening of Serilog property values into the plain objects that are
  serialized: GetPropertyInternalValue and GetInternalValue. The current
  formatter (LogEventExtensions.cs) and both older text formatters share
  these rules; the legacy LogzioSink keeps its own, shallower, variant.
*/
module Flattening {
  import opened Wrappers
  import opened Exceptions
  import opened Events

  /** A flattened value: a plain object, an object[] or a Dictionary<object, object>, members in insertion order. */
  datatype Internal =
    | Atom(value: Primitive)
    | Array(items: seq<Internal>)
    | Object(members: seq<(Primitive, Internal)>)

  /** GetInternalValue: an enum becomes its name, every other object is kept. */
  function GetInternalValue(p: Primitive): (r: Primitive)
    ensures !r.EnumConst?
    ensures p.EnumConst? ==> r == Str(p.name)
    ensures !p.EnumConst? ==> r == p
  {
    match p
    case EnumConst(name) => Str(name)
    case _ => p
  }

  /**
    GetPropertyInternalValue. ToDictionary throws ArgumentNullException on a
    null key and ArgumentException on a repeated key; each element's value is
    flattened before its key is inserted, so the first failure in element order
    is the one raised. A DictionaryValue's keys are already distinct under the
    Equals ToDictionary uses, so only a null dictionary key, or a repeated
    structure property name, can make it throw.
  */
  function GetPropertyInternalValue(v: PropertyValue): (r: Result<Internal, Exception>)
    ensures r.Success? ==> EnumFree(r.value)
    ensures r.Success? && v.Sequence? ==> r.value.Array? && |r.value.items| == |v.elements|
    ensures r.Success? && v.Dictionary? ==> r.value.Object? && |r.value.members| == |v.entries|
    ensures r.Success? && v.Structure? ==> r.value.Object? && |r.value.members| == |v.properties|
    decreases v, 1
  {
    match v
    case Scalar(p) => Success(Atom(GetInternalValue(p)))
    case Sequence(elements) =>
      (match FlattenElements(elements)
       case Success(items) => Success(Array(items))
       case Failure(e) => Failure(e))
    case Dictionary(entries) =>
      (match DictionaryMembers(entries, [])
       case Success(members) => Success(Object(members))
       case Failure(e) => Failure(e))
    case Structure(_, properties) =>
      (match StructureMembers(properties, [])
       case Success(members) => Success(Object(members))
       case Failure(e) => Failure(e))
    case OtherValue(text) => Success(Atom(Str(text)))
  }

  /** Elements.Select(GetPropertyInternalValue).ToArray() */
  function FlattenElements(elements: seq<PropertyValue>): (r: Result<seq<Internal>, Exception>)
    ensures r.Success? ==> |r.value| == |elements|
    ensures r.Success? ==> forall i | 0 <= i < |elements| :: GetPropertyInternalValue(elements[i]) == Success(r.value[i])
    ensures r.Success? ==> forall i | 0 <= i < |elements| :: EnumFree(r.value[i])
    decreases elements, 0
  {
    if elements == [] then Success([])
    else
      match GetPropertyInternalValue(elements[0])
      case Failure(e) => Failure(e)
      case Success(x) =>
        match FlattenElements(elements[1..])
        case Failure(e) => Failure(e)
        case Success(xs) => Success([x] + xs)
  }

  /**
    No enum constant is left among the flattened values (dictionary keys are
    kept as the raw key objects, so they are not inspected).
  */
  predicate EnumFree(x: Internal) {
    match x
    case Atom(p) => !p.EnumConst?
    case Array(items) => forall i | 0 <= i < |items| :: EnumFree(items[i])
    case Object(members) =>
      forall i | 0 <= i < |members| :: (assert members[i] in members && members[i].1 < members[i]; EnumFree(members[i].1))
  }

  /** ContainsKey on a dictionary holding `members` */
  predicate HasMemberKey(members: seq<(Primitive, Internal)>, key: Primitive) {
    exists j | 0 <= j < |members| :: members[j].0 == key
  }

  lemma HasMemberKeyAppend(members: seq<(Primitive, Internal)>, key: Primitive, value: Internal)
    ensures forall k :: HasMemberKey(members + [(key, value)], k) <==> HasMemberKey(members, k) || k == key
  {
    var members' := members + [(key, value)];
    assert members'[|members|].0 == key;
    forall k | HasMemberKey(members', k) ensures HasMemberKey(members, k) || k == key {
      var j :| 0 <= j < |members'| && members'[j].0 == k;
      if j < |members| { assert members[j].0 == k; }
    }
    forall k | HasMemberKey(members, k) ensures HasMemberKey(members', k) {
      var j :| 0 <= j < |members| && members[j].0 == k;
      assert members'[j].0 == k;
    }
  }

  /**
    ToDictionary's insertion of one DictionaryValue entry: a null key throws.
    The entries come from a Dictionary keyed by ScalarValue, whose equality is
    the held object's Equals, so no key can repeat here.
  */
  function AddEntry(members: seq<(Primitive, Internal)>, key: Primitive, value: Internal): (r: Result<seq<(Primitive, Internal)>, Exception>)
    ensures key.Null? <==> r.Failure?
    ensures r.Failure? ==> r.error == ArgumentNull("key")
    ensures r.Success? ==> r.value == members + [(key, value)]
  {
    if key.Null? then Failure(ArgumentNull("key"))
    else Success(members + [(key, value)])
  }

  /** Dictionary.Add on a dictionary holding `members` */
  function AddMember(members: seq<(Primitive, Internal)>, key: Primitive, value: Internal): Result<seq<(Primitive, Internal)>, Exception> {
    if key.Null? then Failure(ArgumentNull("key"))
    else if HasMemberKey(members, key) then Failure(DuplicateKey)
    else Success(members + [(key, value)])
  }

  /** The rest of a DictionaryValue's ToDictionary, `members` already inserted. */
  function DictionaryMembers(entries: seq<(Primitive, PropertyValue)>, members: seq<(Primitive, Internal)>): (r: Result<seq<(Primitive, Internal)>, Exception>)
    ensures r.Success? ==> |r.value| == |members| + |entries| && r.value[..|members|] == members
    ensures r.Success? ==> forall i | 0 <= i < |entries| ::
      r.value[|members| + i].0 == entries[i].0 &&
      (assert entries[i] in entries && entries[i].1 < entries[i];
       GetPropertyInternalValue(entries[i].1) == Success(r.value[|members| + i].1))
    ensures r.Success? && (forall i | 0 <= i < |members| :: EnumFree(members[i].1)) ==>
      forall i | 0 <= i < |r.value| :: EnumFree(r.value[i].1)
    decreases entries, 0
  {
    if entries == [] then Success(members)
    else
      var entry := entries[0];
      assert entry in entries && entry.1 < entry;
      match GetPropertyInternalValue(entry.1)
      case Failure(e) => Failure(e)
      case Success(x) =>
        match AddEntry(members, entry.0, x)
        case Failure(e) => Failure(e)
        case Success(members') => DictionaryMembers(entries[1..], members')
  }

  /** The rest of a StructureValue's ToDictionary, `members` already inserted; names are string keys. */
  function StructureMembers(properties: seq<(string, PropertyValue)>, members: seq<(Primitive, Internal)>): (r: Result<seq<(Primitive, Internal)>, Exception>)
    ensures r.Success? ==> |r.value| == |members| + |properties| && r.value[..|members|] == members
    ensures r.Success? ==> forall i | 0 <= i < |properties| ::
      r.value[|members| + i].0 == Str(properties[i].0) &&
      (assert properties[i] in properties && properties[i].1 < properties[i];
       GetPropertyInternalValue(properties[i].1) == Success(r.value[|members| + i].1))
    ensures r.Success? && (forall i | 0 <= i < |members| :: EnumFree(members[i].1)) ==>
      forall i | 0 <= i < |r.value| :: EnumFree(r.value[i].1)
    decreases properties, 0
  {
    if properties == [] then Success(members)
    else
      var property := properties[0];
      assert property in properties && property.1 < property;
      match GetPropertyInternalValue(property.1)
      case Failure(e) => Failure(e)
      case Success(x) =>
        match AddMember(members, Str(property.0), x)
        case Failure(e) => Failure(e)
        case Success(members') => StructureMembers(properties[1..], members')
  }

  /**
    The values flattening accepts: at every level, dictionary keys are
    non-null and no structure property name repeats.
  */
  predicate WellKeyed(v: PropertyValue)
    decreases v
  {
    match v
    case Scalar(_) => true
    case OtherValue(_) => true
    case Sequence(elements) => forall i | 0 <= i < |elements| :: WellKeyed(elements[i])
    case Dictionary(entries) =>
      forall i | 0 <= i < |entries| ::
        !entries[i].0.Null? && (assert entries[i] in entries && entries[i].1 < entries[i]; WellKeyed(entries[i].1))
    case Structure(_, properties) =>
      (forall i | 0 <= i < |properties| ::
        (assert properties[i] in properties && properties[i].1 < properties[i]; WellKeyed(properties[i].1))) &&
      (forall i, j | 0 <= i < j < |properties| :: properties[i].0 != properties[j].0)
  }

  /** Flattening throws exactly when some nested dictionary has a null key, or a structure a repeated property name. */
  lemma {:induction false} FlattenSucceedsIff(v: PropertyValue)
    ensures GetPropertyInternalValue(v).Success? <==> WellKeyed(v)
    decreases v, 1
  {
    match v
    case Scalar(_) =>
    case OtherValue(_) =>
    case Sequence(elements) => ElementsSucceedIff(elements);
    case Dictionary(entries) => DictionarySucceedsIff(entries, []);
    case Structure(_, properties) => StructureSucceedsIff(properties, []);
  }

  lemma {:induction false} ElementsSucceedIff(elements: seq<PropertyValue>)
    ensures FlattenElements(elements).Success? <==> forall i | 0 <= i < |elements| :: WellKeyed(elements[i])
    decreases elements, 0
  {
    if elements != [] {
      FlattenSucceedsIff(elements[0]);
      ElementsSucceedIff(elements[1..]);
      assert forall i | 1 <= i < |elements| :: elements[i] == elements[1..][i - 1];
    }
  }

  lemma {:induction false} DictionarySucceedsIff(entries: seq<(Primitive, PropertyValue)>, members: seq<(Primitive, Internal)>)
    ensures DictionaryMembers(entries, members).Success? <==>
      forall i | 0 <= i < |entries| :: !entries[i].0.Null? && WellKeyed(entries[i].1)
    decreases entries, 0
  {
    if entries != [] {
      var entry := entries[0];
      assert entry in entries && entry.1 < entry;
      FlattenSucceedsIff(entry.1);
      var flat := GetPropertyInternalValue(entry.1);
      if flat.Success? && !entry.0.Null? {
        DictionarySucceedsIff(entries[1..], members + [(entry.0, flat.value)]);
        assert forall i | 1 <= i < |entries| :: entries[i] == entries[1..][i - 1];
      }
    }
  }

  lemma {:induction false} StructureSucceedsIff(properties: seq<(string, PropertyValue)>, members: seq<(Primitive, Internal)>)
    ensures StructureMembers(properties, members).Success? <==>
      (forall i | 0 <= i < |properties| ::
        WellKeyed(properties[i].1) && !HasMemberKey(members, Str(properties[i].0))) &&
      (forall i, j | 0 <= i < j < |properties| :: properties[i].0 != properties[j].0)
    decreases properties, 0
  {
    if properties != [] {
      var property := properties[0];
      assert property in properties && property.1 < property;
      FlattenSucceedsIff(property.1);
      var flat := GetPropertyInternalValue(property.1);
      if flat.Success? && AddMember(members, Str(property.0), flat.value).Success? {
        var members' := members + [(Str(property.0), flat.value)];
        StructureSucceedsIff(properties[1..], members');
        assert forall i | 1 <= i < |properties| :: properties[i] == properties[1..][i - 1];
        HasMemberKeyAppend(members, Str(property.0), flat.value);
      }
    }
  }

  /**
    The legacy LogzioSink's GetPropertyInternalValue: a scalar gives its raw
    object (an enum is not converted), a sequence or dictionary its element
    list as is, and anything else its ToString().
  */
  datatype RawValue =
    | RawScalar(value: Primitive)
    | RawElements(elements: seq<PropertyValue>)
    | RawEntries(entries: seq<(Primitive, PropertyValue)>)
    | RawText(text: string)
}
