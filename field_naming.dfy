/**
  Field-name transforms. The current FormattingOptions (LogEventExtensions.cs)
  and the two older LogzIoTextFormatter classes build the same three
  transforms from the LogzIoTextFormatterFieldNaming enum, but resolve a
  missing or unknown enum value differently.
*/
module FieldNaming {
  import opened Wrappers
  import opened Exceptions
  import opened Text

  /** LogzIoTextFormatterFieldNaming; being a C# enum it can also carry an unnamed integer. */
  datatype FieldNaming = CamelCase | LowerCase | Undefined(code: int)

  /** The field-name transform a formatter holds. */
  datatype Transform = Identity | Camel | Lower

  /** Applies a transform: Camel lower-cases only the first character (leaving "" alone), Lower every character. */
  function Apply(t: Transform, field: string): (r: string)
    ensures |r| == |field|
  {
    match t
    case Identity => field
    case Camel => if field == "" then field else [ToLowerChar(field[0])] + field[1..]
    case Lower => ToLower(field)
  }

  /** The transform chosen by the FormattingOptions constructor. */
  function CurrentTransform(fieldNaming: Option<FieldNaming>): Transform {
    match fieldNaming.GetOr(CamelCase)
    case CamelCase => Camel
    case LowerCase => Lower
    case Undefined(_) => Identity
  }

  /** The transform chosen by the constructors of the two older text formatters. */
  function LegacyTransform(fieldNaming: Option<FieldNaming>): Result<Transform, Exception> {
    match fieldNaming
    case None => Success(Identity)
    case Some(CamelCase) => Success(Camel)
    case Some(LowerCase) => Success(Lower)
    case Some(Undefined(_)) => Failure(ArgumentOutOfRange)
  }

  /**
    The two resolutions agree on the named enum members; without a value the
    current one picks camelCase where the older ones keep names as they are,
    and an unnamed value gives the identity in the current one but throws
    ArgumentOutOfRangeException in the older ones.
  */
  lemma CurrentAndLegacyNaming(fieldNaming: Option<FieldNaming>)
    ensures fieldNaming == Some(CamelCase) || fieldNaming == Some(LowerCase) ==>
              LegacyTransform(fieldNaming) == Success(CurrentTransform(fieldNaming))
    ensures fieldNaming.None? ==> CurrentTransform(fieldNaming) == Camel && LegacyTransform(fieldNaming) == Success(Identity)
    ensures LegacyTransform(fieldNaming).Failure? <==> fieldNaming.Some? && fieldNaming.value.Undefined?
    ensures LegacyTransform(fieldNaming).Failure? ==> CurrentTransform(fieldNaming) == Identity
  {
  }

  /** Every transform is idempotent, and Lower leaves no upper-case letter. */
  lemma ApplyIdempotent(t: Transform, field: string)
    ensures Apply(t, Apply(t, field)) == Apply(t, field)
    ensures t == Lower ==> forall i | 0 <= i < |field| :: !IsUpper(Apply(t, field)[i])
  {
    match t
    case Identity =>
    case Camel =>
      if field != "" {
        ToLowerCharIdempotent(field[0]);
        assert Apply(t, field)[1..] == field[1..];
      }
    case Lower =>
      ToLowerIdempotent(field);
  }

  /**
    Transforming a non-empty prefix first and then the whole name gives the
    same name as transforming once: the older formatters transform their
    "Properties." prefix in the constructor and the prefixed name again.
  */
  lemma TransformAbsorbsPrefix(t: Transform, prefix: string, key: string)
    requires prefix != ""
    ensures Apply(t, Apply(t, prefix) + key) == Apply(t, prefix + key)
  {
    match t
    case Identity =>
    case Camel =>
      ToLowerCharIdempotent(prefix[0]);
      assert (Apply(t, prefix) + key)[0] == ToLowerChar(prefix[0]);
      assert (Apply(t, prefix) + key)[1..] == prefix[1..] + key;
      assert (prefix + key)[1..] == prefix[1..] + key;
    case Lower =>
      ToLowerAppend(Apply(t, prefix), key);
      ToLowerAppend(prefix, key);
      ToLowerIdempotent(prefix);
  }
}
