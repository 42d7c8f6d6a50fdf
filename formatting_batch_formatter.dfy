/** LogzIoBatchFormatter of src/Serilog.Sinks.Logz.Io/Formatting, which carries its own size check. */
module FormattingBatchFormatter {
  import opened Wrappers
  import opened Exceptions
  import opened Text
  import opened TextWriters
  import opened BatchFormatting
  import ByteSize

  datatype LogzIoBatchFormatter = LogzIoBatchFormatter(eventBodyLimitBytes: Option<int>, renameRenderedMessageJsonNode: bool)
  {
    /** CheckEventBodySize: an entry is too large only when a limit is set and its byte size exceeds it. */
    predicate CheckEventBodySize(json: string, byteSize: string -> int) {
      !(eventBodyLimitBytes.Some? && byteSize(json) > eventBodyLimitBytes.value)
    }

    function SizeCheck(byteSize: string -> int): string -> bool {
      json => CheckEventBodySize(json, byteSize)
    }

    /** Format; a null argument throws ArgumentNullException before anything is written. */
    method Format(logEvents: Option<seq<Option<string>>>, output: TextWriter?, byteSize: string -> int)
      returns (r: Outcome<Exception>)
      modifies output
      ensures logEvents.None? ==> r == Fail(ArgumentNull("logEvents"))
      ensures logEvents.Some? && output == null ==> r == Fail(ArgumentNull("output"))
      ensures r.Fail? && output != null ==> output.text == old(output.text)
      ensures logEvents.Some? && output != null ==>
        r == Pass && output.text == old(output.text) + Payload(logEvents.value, renameRenderedMessageJsonNode, SizeCheck(byteSize))
    {
      if logEvents.None? {
        return Fail(ArgumentNull("logEvents"));
      }
      if output == null {
        return Fail(ArgumentNull("output"));
      }
      WriteEntries(logEvents.value, renameRenderedMessageJsonNode, SizeCheck(byteSize), output);
      return Pass;
    }
  }

  /** The constructor's defaults: a 256 KB limit, renaming on. */
  function Default(): LogzIoBatchFormatter {
    LogzIoBatchFormatter(Some(256 * ByteSize.KB), true)
  }

  /**
    With the defaults an entry is written exactly when it is non-blank and,
    after renaming, at most 262144 bytes long; without a limit the size of an
    entry never matters.
  */
  lemma SizeLimits(logEvents: seq<Option<string>>, rename: bool, byteSize: string -> int)
    ensures forall w :: w in Accepted(logEvents, Default().renameRenderedMessageJsonNode, Default().SizeCheck(byteSize)) <==>
      exists i | 0 <= i < |logEvents| ::
        !IsNullOrWhiteSpace(logEvents[i]) && w == Rewrite(logEvents[i].value, true) && byteSize(w) <= 262144
    ensures Accepted(logEvents, rename, LogzIoBatchFormatter(None, rename).SizeCheck(byteSize)) ==
      Accepted(logEvents, rename, _ => true)
  {
    AcceptedEntries(logEvents, Default().renameRenderedMessageJsonNode, Default().SizeCheck(byteSize));
    AcceptedChecksAgree(logEvents, rename, LogzIoBatchFormatter(None, rename).SizeCheck(byteSize), _ => true);
  }
}
