/** Byte buffers that are filled in place. */
module Buffers {
  import opened Types

  /** Copies bytes into a buffer. */
  method CopyBytes(buffer: array<uint8>, at: nat, data: seq<uint8>)
    requires at + |data| <= buffer.Length
    modifies buffer
    ensures forall x :: 0 <= x < buffer.Length ==>
      buffer[x] == if at <= x < at + |data| then data[x - at] else old(buffer[x])
    ensures buffer[..at + |data|] == old(buffer[..at]) + data
  {
    for k := 0 to |data|
      invariant forall x :: 0 <= x < buffer.Length ==>
        buffer[x] == if at <= x < at + k then data[x - at] else old(buffer[x])
    {
      buffer[at + k] := data[k];
    }
  }
}
