/** The TextWriter the formatters write to, reduced to the text written so far. */
module TextWriters {
  class TextWriter {
    var text: string
    /** TextWriter.NewLine, the line terminator WriteLine appends. */
    const newLine: string

    constructor(newLine: string)
      ensures text == "" && this.newLine == newLine
    {
      text := "";
      this.newLine := newLine;
    }

    method Write(s: string)
      modifies this
      ensures text == old(text) + s
    {
      text := text + s;
    }

    method WriteLine(s: string)
      modifies this
      ensures text == old(text) + s + newLine
    {
      text := text + s + newLine;
    }
  }
}
