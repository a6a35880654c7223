/**
 * The buffer `body` keeps while a response streams: chunks are pushed as they
 * arrive and joined with no separator when the stream ends.
 */
module Capture {
  import Text

  class BodyCapture {
    var buffer: seq<string>

    constructor ()
      ensures buffer == []
    {
      buffer := [];
    }

    /** The text captured so far: `buffer.join("")`. */
    function Joined(): string
      reads this
    {
      Text.Concat(buffer)
    }

    /** The `data` listener: `buffer.push(data)`. The captured text grows by
        exactly the chunk, at its end. */
    method Push(chunk: string)
      modifies this
      ensures buffer == old(buffer) + [chunk]
      ensures Joined() == old(Joined()) + chunk
    {
      buffer := buffer + [chunk];
      assert buffer[..|buffer| - 1] == old(buffer);
    }
  }
}
