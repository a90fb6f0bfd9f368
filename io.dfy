/** The `io.Reader`s the client consumes, as the data they deliver. */
module Io {
  import opened Wrappers
  import opened Bytes
  import opened Errors

  /** A reader: the chunks successive `Read` calls return, then either `io.EOF`
      (`failure == None`) or the failure it reports. */
  datatype Reader = Reader(chunks: seq<seq<Byte>>, failure: Option<Error>)

  /** Everything the reader delivers before it ends. */
  function Contents(r: Reader): seq<Byte>
  {
    Flatten(r.chunks)
  }
}
