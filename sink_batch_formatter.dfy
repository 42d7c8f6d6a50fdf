/**
  LogzIoBatchFormatter of src/Serilog.Sinks.Logz.Io, derived from the
  BatchFormatter of Serilog.Sinks.Http. The size check it inherits is not part
  of this model: it is the parameter `inherited`, applied to the limit the
  constructor passes to the base class.
*/
module SinkBatchFormatter {
  import opened Wrappers
  import opened Exceptions
  import opened TextWriters
  import opened BatchFormatting
  import ByteSize

  datatype LogzIoBatchFormatter = LogzIoBatchFormatter(eventBodyLimitBytes: Option<int>, renameRenderedMessageJsonNode: bool)
  {
    /** The inherited CheckEventBodySize, as seen by this formatter. */
    function SizeCheck(inherited: (Option<int>, string) -> bool): string -> bool {
      json => inherited(eventBodyLimitBytes, json)
    }

    /** Format; a null argument throws ArgumentNullException before anything is written. */
    method Format(logEvents: Option<seq<Option<string>>>, output: TextWriter?, inherited: (Option<int>, string) -> bool)
      returns (r: Outcome<Exception>)
      modifies output
      ensures logEvents.None? ==> r == Fail(ArgumentNull("logEvents"))
      ensures logEvents.Some? && output == null ==> r == Fail(ArgumentNull("output"))
      ensures r.Fail? && output != null ==> output.text == old(output.text)
      ensures logEvents.Some? && output != null ==>
        r == Pass && output.text == old(output.text) + Payload(logEvents.value, renameRenderedMessageJsonNode, SizeCheck(inherited))
    {
      if logEvents.None? {
        return Fail(ArgumentNull("logEvents"));
      }
      if output == null {
        return Fail(ArgumentNull("output"));
      }
      WriteEntries(logEvents.value, renameRenderedMessageJsonNode, SizeCheck(inherited), output);
      return Pass;
    }
  }

  /** The constructor's defaults: a 256 KB limit handed to the base class, renaming on. */
  function Default(): (f: LogzIoBatchFormatter)
    ensures f.eventBodyLimitBytes == Some(262144) && f.renameRenderedMessageJsonNode
  {
    LogzIoBatchFormatter(Some(256 * ByteSize.KB), true)
  }
}
