/**
  The delimiter loop the three LogzIoBatchFormatter classes share: skip blank
  entries, optionally rename the "RenderedMessage" key, keep the entries that
  pass the size check, and write them separated by ",\n".
*/
module BatchFormatting {
  import opened Wrappers
  import opened Text
  import opened TextWriters

  const RenderedMessageToken := "\"RenderedMessage\""
  const MessageToken := "\"message\""
  const Delimiter := ",\n"

  /** The entry as written: every "RenderedMessage" token renamed to "message" when asked. */
  function Rewrite(entry: string, rename: bool): string {
    if rename then Replace(entry, RenderedMessageToken, MessageToken) else entry
  }

  /** What one input entry contributes: nothing when blank or too large, else its rewritten form. */
  function Keep(logEvent: Option<string>, rename: bool, fits: string -> bool): seq<string> {
    if IsNullOrWhiteSpace(logEvent) then []
    else if fits(Rewrite(logEvent.value, rename)) then [Rewrite(logEvent.value, rename)]
    else []
  }

  /** The entries written, in input order. */
  function Accepted(logEvents: seq<Option<string>>, rename: bool, fits: string -> bool): seq<string> {
    if logEvents == [] then []
    else Accepted(logEvents[..|logEvents| - 1], rename, fits) + Keep(logEvents[|logEvents| - 1], rename, fits)
  }

  /** The text a batch formatter writes. */
  function Payload(logEvents: seq<Option<string>>, rename: bool, fits: string -> bool): string {
    Join(Accepted(logEvents, rename, fits), Delimiter)
  }

  /** The foreach loop with its mutable delimiter. */
  method WriteEntries(logEvents: seq<Option<string>>, rename: bool, fits: string -> bool, output: TextWriter)
    modifies output
    ensures output.text == old(output.text) + Payload(logEvents, rename, fits)
  {
    ghost var start := output.text;
    ghost var written: seq<string> := [];
    var delimiter := "";
    for i := 0 to |logEvents|
      invariant written == Accepted(logEvents[..i], rename, fits)
      invariant output.text == start + Join(written, Delimiter)
      invariant delimiter == if written == [] then "" else Delimiter
    {
      AcceptedStep(logEvents, i, rename, fits);
      var logEvent := logEvents[i];
      if IsNullOrWhiteSpace(logEvent) {
        continue;
      }
      var eventToWrite := logEvent.value;
      if rename {
        eventToWrite := Replace(eventToWrite, RenderedMessageToken, MessageToken);
      }
      if fits(eventToWrite) {
        JoinStep(written, eventToWrite);
        output.Write(delimiter);
        output.Write(eventToWrite);
        delimiter := Delimiter;
        written := written + [eventToWrite];
      }
    }
    assert logEvents[..|logEvents|] == logEvents;
  }

  lemma AcceptedStep(logEvents: seq<Option<string>>, i: nat, rename: bool, fits: string -> bool)
    requires i < |logEvents|
    ensures Accepted(logEvents[..i + 1], rename, fits) == Accepted(logEvents[..i], rename, fits) + Keep(logEvents[i], rename, fits)
    ensures Keep(logEvents[i], rename, fits) == [] ==> Accepted(logEvents[..i + 1], rename, fits) == Accepted(logEvents[..i], rename, fits)
  {
    assert logEvents[..i + 1][..i] == logEvents[..i];
  }

  lemma JoinStep(parts: seq<string>, x: string)
    ensures Join(parts + [x], Delimiter) == Join(parts, Delimiter) + (if parts == [] then "" else Delimiter) + x
  {
    if parts == [] {
      assert parts + [x] == [x];
    } else {
      JoinAppend(parts, x, Delimiter);
    }
  }

  /**
    With renaming on, the entry is cut at every "RenderedMessage" token and
    glued back with "message"; with it off, or without the token, the entry
    is written as it is.
  */
  lemma RewriteSpec(entry: string, rename: bool)
    ensures rename ==> Rewrite(entry, rename) == Join(Split(entry, RenderedMessageToken), MessageToken)
    ensures !rename || IndexOf(entry, RenderedMessageToken).None? ==> Rewrite(entry, rename) == entry
  {
    ReplaceIsSplitJoin(entry, RenderedMessageToken, MessageToken);
  }

  /** Rewriting never makes a non-blank entry blank, nor adds a line feed. */
  lemma RewriteKeeps(entry: string, rename: bool)
    ensures !IsWhiteSpaceOnly(entry) ==> !IsWhiteSpaceOnly(Rewrite(entry, rename))
    ensures '\n' !in entry ==> '\n' !in Rewrite(entry, rename)
  {
    if rename {
      assert MessageToken[0] == '"' && !IsWhiteSpace(MessageToken[0]);
      if !IsWhiteSpaceOnly(entry) {
        ReplaceKeepsNonBlank(entry, RenderedMessageToken, MessageToken);
      }
      if '\n' !in entry {
        ReplaceKeepsCharOut(entry, RenderedMessageToken, MessageToken, '\n');
      }
    }
  }

  /** Batches are filtered entry by entry: the entries written for a + b are those for a, then those for b. */
  lemma {:induction false} AcceptedConcat(a: seq<Option<string>>, b: seq<Option<string>>, rename: bool, fits: string -> bool)
    ensures Accepted(a + b, rename, fits) == Accepted(a, rename, fits) + Accepted(b, rename, fits)
    decreases |b|
  {
    if b == [] {
      assert a + b == a;
    } else {
      var b' := b[..|b| - 1];
      AcceptedConcat(a, b', rename, fits);
      assert (a + b)[..|a + b| - 1] == a + b';
      assert (a + b)[|a + b| - 1] == b[|b| - 1];
    }
  }

  /**
    An entry is written exactly when it is non-blank and its rewritten form
    passes the size check; every entry written is non-blank, and there are
    never more entries written than given.
  */
  lemma {:induction false} AcceptedEntries(logEvents: seq<Option<string>>, rename: bool, fits: string -> bool)
    ensures forall w :: w in Accepted(logEvents, rename, fits) <==>
      exists i | 0 <= i < |logEvents| ::
        !IsNullOrWhiteSpace(logEvents[i]) && w == Rewrite(logEvents[i].value, rename) && fits(w)
    ensures forall w | w in Accepted(logEvents, rename, fits) :: fits(w) && !IsWhiteSpaceOnly(w)
    ensures |Accepted(logEvents, rename, fits)| <= |logEvents|
    decreases |logEvents|
  {
    if logEvents != [] {
      var n := |logEvents| - 1;
      var front, last := logEvents[..n], logEvents[n];
      AcceptedEntries(front, rename, fits);
      var accepted := Accepted(logEvents, rename, fits);
      assert accepted == Accepted(front, rename, fits) + Keep(last, rename, fits);
      if !IsNullOrWhiteSpace(last) {
        RewriteKeeps(last.value, rename);
      }
      forall w ensures w in accepted <==>
        exists i | 0 <= i < |logEvents| ::
          !IsNullOrWhiteSpace(logEvents[i]) && w == Rewrite(logEvents[i].value, rename) && fits(w)
      {
        if w in Accepted(front, rename, fits) {
          var i :| 0 <= i < |front| && !IsNullOrWhiteSpace(front[i]) && w == Rewrite(front[i].value, rename) && fits(w);
          assert logEvents[i] == front[i];
        } else if w in Keep(last, rename, fits) {
          assert logEvents[n] == last;
        }
        if exists i | 0 <= i < |logEvents| ::
          !IsNullOrWhiteSpace(logEvents[i]) && w == Rewrite(logEvents[i].value, rename) && fits(w)
        {
          var i :| 0 <= i < |logEvents| && !IsNullOrWhiteSpace(logEvents[i]) && w == Rewrite(logEvents[i].value, rename) && fits(w);
          if i < n {
            assert front[i] == logEvents[i];
          } else {
            assert w in Keep(last, rename, fits);
          }
        }
      }
    }
  }

  /** An entry that is dropped (blank or too large) leaves no trace in the payload, not even a delimiter. */
  lemma DroppedEntryInvisible(a: seq<Option<string>>, logEvent: Option<string>, b: seq<Option<string>>, rename: bool, fits: string -> bool)
    requires Keep(logEvent, rename, fits) == []
    ensures Payload(a + [logEvent] + b, rename, fits) == Payload(a + b, rename, fits)
  {
    AcceptedConcat(a + [logEvent], b, rename, fits);
    AcceptedConcat(a, [logEvent], rename, fits);
    AcceptedConcat(a, b, rename, fits);
    assert Accepted([logEvent], rename, fits) == Keep(logEvent, rename, fits) by {
      assert [logEvent][..0] == [];
    }
    assert Accepted(a + [logEvent], rename, fits) == Accepted(a, rename, fits);
  }

  /**
    The payload is empty exactly when nothing is written; and when no entry
    holds a line feed, splitting the payload on ",\n" gives back exactly the
    entries written, in order.
  */
  lemma PayloadSplits(logEvents: seq<Option<string>>, rename: bool, fits: string -> bool)
    ensures Payload(logEvents, rename, fits) == "" <==> Accepted(logEvents, rename, fits) == []
    ensures (Accepted(logEvents, rename, fits) != [] &&
             forall i | 0 <= i < |logEvents| && logEvents[i].Some? :: '\n' !in logEvents[i].value) ==>
      Split(Payload(logEvents, rename, fits), Delimiter) == Accepted(logEvents, rename, fits)
  {
    var accepted := Accepted(logEvents, rename, fits);
    AcceptedEntries(logEvents, rename, fits);
    if accepted != [] {
      assert Payload(logEvents, rename, fits) != "" by {
        assert accepted[0] in accepted;
        JoinFirst(accepted);
      }
      if forall i | 0 <= i < |logEvents| && logEvents[i].Some? :: '\n' !in logEvents[i].value {
        forall k | 0 <= k < |accepted| ensures FreeOf(accepted[k], Delimiter) {
          assert accepted[k] in accepted;
          var i :| 0 <= i < |logEvents| && !IsNullOrWhiteSpace(logEvents[i]) && accepted[k] == Rewrite(logEvents[i].value, rename) && fits(accepted[k]);
          RewriteKeeps(logEvents[i].value, rename);
          NoNewlineIsFreeOfDelimiter(accepted[k]);
        }
        SplitJoin(accepted, Delimiter);
      }
    }
  }

  /** A joined list starts with its first part. */
  lemma JoinFirst(parts: seq<string>)
    requires parts != [] && parts[0] != ""
    ensures Join(parts, Delimiter) != ""
  {
    assert Join(parts, Delimiter)[..|parts[0]|] == parts[0];
  }

  /** Two size checks that agree on every entry write the same entries. */
  lemma {:induction false} AcceptedChecksAgree(logEvents: seq<Option<string>>, rename: bool, fits: string -> bool, fits': string -> bool)
    requires forall w :: fits(w) == fits'(w)
    ensures Accepted(logEvents, rename, fits) == Accepted(logEvents, rename, fits')
    decreases |logEvents|
  {
    if logEvents != [] {
      AcceptedChecksAgree(logEvents[..|logEvents| - 1], rename, fits, fits');
    }
  }
}
