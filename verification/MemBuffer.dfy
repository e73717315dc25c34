/** The append-only use that the JSON printers and base64 make of a MemBuffer. */
module MemBuffers {
  class MemBuffer<T> {
    var data: seq<T>

    constructor ()
      ensures data == []
    {
      data := [];
    }

    method Add(s: seq<T>)
      modifies this
      ensures data == old(data) + s
    {
      data := data + s;
    }
  }
}
