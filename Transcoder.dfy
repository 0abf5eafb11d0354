/** The serial adapter's envelope: a CAN frame of 13 entries (4 identifier
    bytes, a length byte that must be 8, 8 data bytes) travels as 17 entries,
    "AT" first and CR LF last. */
module Transcoder {
  import opened Base

  const StartMarker: seq<int> := [0x41, 0x54]
  const EndMarker: seq<int> := [0x0d, 0x0a]

  /** The only frame length the adapter's packet mode carries. */
  const FrameDataLength := 8

  /** The 17-entry packet that carries `frame`. */
  function Wrap(frame: seq<int>): seq<int>
  {
    StartMarker + frame + EndMarker
  }

  /** What `can_to_uart` accepts: 13 entries whose length entry is 8. */
  predicate IsFrame(d: seq<int>)
  {
    |d| == 13 && d[4] == FrameDataLength
  }

  /** What `uart_to_can` accepts: 17 entries whose length entry (index 6) is 8. */
  predicate IsPacket(u: seq<int>)
  {
    |u| == 17 && u[6] == FrameDataLength
  }

  /** `can_to_uart`: copies a frame into the packet template, or returns `[]`. */
  method CanToUart(d: seq<int>) returns (u: seq<int>)
    ensures IsFrame(d) ==> u == Wrap(d)
    ensures !IsFrame(d) ==> u == []
  {
    if !IsFrame(d) {
      return [];
    }
    var udata := new int[17][0x41, 0x54, 0, 0, 0, 0, 0x08, 0, 0, 0, 0, 0, 0, 0, 0, 0x0d, 0x0a];
    for i := 0 to 13
      invariant udata[..2] == StartMarker && udata[15..] == EndMarker
      invariant udata[2..2 + i] == d[..i]
    {
      udata[2 + i] := d[i];
    }
    u := udata[..];
    assert u == udata[..2] + udata[2..15] + udata[15..];
  }

  /** `uart_to_can`: the 13 middle entries of a packet, or `None` (the Python
      function falls off its end). The markers are not checked. */
  method UartToCan(u: seq<int>) returns (d: Option<seq<int>>)
    ensures IsPacket(u) ==> d == Some(u[2..15])
    ensures !IsPacket(u) ==> d == None
  {
    if !IsPacket(u) {
      return None;
    }
    var cdata := new int[13][0, 0, 0, 0, 0x08, 0, 0, 0, 0, 0, 0, 0, 0];
    for i := 0 to 13
      invariant cdata[..i] == u[2..2 + i]
    {
      cdata[i] := u[i + 2];
    }
    assert cdata[..] == cdata[..13];
    d := Some(cdata[..]);
  }

  /** A packet built from a frame is accepted by `uart_to_can`, which gives the frame back. */
  lemma UnwrapWrap(d: seq<int>)
    requires IsFrame(d)
    ensures IsPacket(Wrap(d)) && Wrap(d)[2..15] == d
  {
  }

  /** Of the packets `uart_to_can` accepts, exactly those with both markers are
      rebuilt by `can_to_uart` from the frame it returns. */
  lemma WrapUnwrap(u: seq<int>)
    requires IsPacket(u)
    ensures IsFrame(u[2..15])
    ensures Wrap(u[2..15]) == u <==> u[..2] == StartMarker && u[15..] == EndMarker
  {
    assert u == u[..2] + u[2..15] + u[15..];
  }
}
