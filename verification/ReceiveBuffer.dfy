// The receive buffer that one serial connection's calls share, updated in place.

module ReceiveBuffers {
  import opened Bytes
  import opened Framing

  class ReceiveBuffer {
    var bytes: seq<byte>

    constructor ()
      ensures bytes == []
    {
      bytes := [];
    }

    method Append(chunk: seq<byte>)
      modifies this
      ensures bytes == old(bytes) + chunk
    {
      bytes := bytes + chunk;
    }

    /** Removes bytes from the front until a frame, or nothing more, can be taken. */
    method TryExtractFrame() returns (frame: Option<Frame>)
      modifies this
      ensures (frame, bytes) == Next(old(bytes))
    {
      while bytes != []
        invariant Next(bytes) == Next(old(bytes))
        decreases |bytes|
      {
        if bytes[0] != START {
          NextAfterNoise(bytes);
          bytes := bytes[1..];
          continue;
        }
        if |bytes| < 4 {
          return None;
        }
        var totalLength := Total(bytes[2]);
        if |bytes| < totalLength {
          return None;
        }
        NextAtCandidate(bytes);
        var raw := bytes[..totalLength];
        bytes := bytes[totalLength..];
        var checksum := Checksum(raw[..|raw| - 1]);
        if checksum != raw[|raw| - 1] {
          continue;
        }
        return Some(Frame(raw[1], raw[3..|raw| - 1], raw));
      }
      return None;
    }
  }
}
