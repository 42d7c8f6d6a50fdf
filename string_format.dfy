/**
  string.Format over a composite format string whose items are plain indexes
  ("{0}", "{1}", ...): the template is given as its literal runs and items.
*/
module StringFormat {
  import opened Wrappers
  import opened Exceptions

  /** A run of literal text (no braces) or a format item "{index}". */
  datatype Piece = Lit(text: string) | Arg(index: nat)

  /** Every item of the template names one of `count` arguments. */
  predicate ItemsWithin(pieces: seq<Piece>, count: nat) {
    forall i | 0 <= i < |pieces| :: pieces[i].Arg? ==> pieces[i].index < count
  }

  /** string.Format: each item is replaced by its argument; an index past the arguments throws FormatException. */
  function FormatTemplate(pieces: seq<Piece>, args: seq<string>): (r: Result<string, Exception>)
    ensures r.Success? <==> ItemsWithin(pieces, |args|)
    ensures r.Failure? ==> r.error == FormatError
  {
    if pieces == [] then Success("")
    else
      var rest := FormatTemplate(pieces[1..], args);
      assert forall i | 1 <= i < |pieces| :: pieces[i] == pieces[1..][i - 1];
      match pieces[0]
      case Lit(text) => if rest.Success? then Success(text + rest.value) else rest
      case Arg(index) =>
        if index >= |args| then Failure(FormatError)
        else if rest.Success? then Success(args[index] + rest.value) else rest
  }

  /** Formatting distributes over concatenated templates. */
  lemma {:induction false} FormatTemplateConcat(a: seq<Piece>, b: seq<Piece>, args: seq<string>)
    requires ItemsWithin(a, |args|) && ItemsWithin(b, |args|)
    ensures ItemsWithin(a + b, |args|)
    ensures FormatTemplate(a + b, args) == Success(FormatTemplate(a, args).value + FormatTemplate(b, args).value)
  {
    if a == [] {
      assert a + b == b;
      assert FormatTemplate(a, args).value + FormatTemplate(b, args).value == FormatTemplate(b, args).value;
    } else {
      assert (a + b)[1..] == a[1..] + b;
      assert ItemsWithin(a[1..], |args|) by {
        forall i | 0 <= i < |a[1..]| ensures a[1..][i] == a[i + 1] {}
      }
      FormatTemplateConcat(a[1..], b, args);
      assert (a + b)[0] == a[0];
      var head := match a[0] case Lit(text) => text case Arg(index) => args[index];
      assert FormatTemplate(a, args).value == head + FormatTemplate(a[1..], args).value;
      assert FormatTemplate(a + b, args).value == head + FormatTemplate(a[1..] + b, args).value;
      assert FormatTemplate(a[1..] + b, args).value == FormatTemplate(a[1..], args).value + FormatTemplate(b, args).value;
      assert FormatTemplate(a + b, args).Success?;
      var whole := FormatTemplate(a + b, args).value;
      assert whole == head + (FormatTemplate(a[1..], args).value + FormatTemplate(b, args).value);
      assert whole == (head + FormatTemplate(a[1..], args).value) + FormatTemplate(b, args).value;
      assert whole == FormatTemplate(a, args).value + FormatTemplate(b, args).value;
      assert ItemsWithin(a + b, |args|) by {
        forall i | 0 <= i < |a + b| ensures (a + b)[i] == if i < |a| then a[i] else b[i - |a|] {}
      }
    }
  }

  /** A single item "{i}" formats as the i-th argument. */
  lemma FormatItem(i: nat, args: seq<string>)
    requires i < |args|
    ensures FormatTemplate([Arg(i)], args) == Success(args[i])
  {
    assert [Arg(i)][1..] == [];
    assert FormatTemplate([], args) == Success("");
    assert args[i] + "" == args[i];
  }

  /** A literal run formats as itself. */
  lemma FormatLiteral(text: string, args: seq<string>)
    ensures FormatTemplate([Lit(text)], args) == Success(text)
  {
    assert [Lit(text)][1..] == [];
    assert FormatTemplate([], args) == Success("");
    assert text + "" == text;
  }
}
