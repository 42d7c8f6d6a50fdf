/** ByteSize of Serilog.Sinks.Http: only its KB constant; ByteSize.From stays a parameter of the formatters. */
module ByteSize {
  const KB := 1024
}
