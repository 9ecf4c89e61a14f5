/** The length-prefixed DNS frame over TCP (section 4.2.2 of RFC 1035): tcp_query and its
    inner exact in deploy/ipsec/gcp-cloud-dns-wire-probe.py. */
module Framing {
  import opened Bytes

  datatype Answer = Frame(body: seq<byte>) | ShortFrame | UnboundedFrame | TimedOut

  // A connection on which the peer sends these octets and then closes.
  class Connection {
    var unread: seq<byte>

    constructor (sent: seq<byte>)
      ensures unread == sent
    {
      unread := sent;
    }

    // At least one octet if there is any, at most n; or the deadline passes.
    method Recv(n: nat) returns (part: Option<seq<byte>>)
      requires n > 0
      modifies this
      ensures part == None ==> unread == old(unread)
      ensures part.Some? ==> old(unread) == part.value + unread && |part.value| <= n
      ensures part == Some([]) ==> unread == []
    {
      var late: bool := *;
      if late { return None; }
      var k: nat := *;
      var size := if |unread| == 0 then 0 else if n < |unread| then 1 + k % n else 1 + k % |unread|;
      part := Some(unread[..size]);
      unread := unread[size..];
    }

    /** However the octets arrive, exactly n of them are taken, unless the peer sent fewer. */
    method Exact(n: nat) returns (answer: Answer)
      modifies this
      ensures answer.Frame? || answer == ShortFrame || answer == TimedOut
      ensures answer.Frame? ==> |answer.body| == n && old(unread) == answer.body + unread
      ensures answer == ShortFrame ==> |old(unread)| < n
    {
      var b: seq<byte> := [];
      while |b| < n
        invariant |b| <= n && old(unread) == b + unread
        decreases n - |b|
      {
        var part := Recv(n - |b|);
        if part == None { return TimedOut; }
        if part.value == [] {
          assert b + [] == b;
          return ShortFrame;
        }
        assert b + (part.value + unread) == b + part.value + unread;
        b := b + part.value;
      }
      return Frame(b);
    }

    /** The frame read is the one the peer's octets spell, whatever the sizes of the parts;
        nothing after it is consumed. */
    method ReadFrame() returns (answer: Answer)
      modifies this
      ensures answer.Frame? ==>
                |old(unread)| >= 2 && |answer.body| == U16(old(unread)[0], old(unread)[1]) >= 12
                && old(unread) == old(unread)[..2] + answer.body + unread
      ensures answer == UnboundedFrame ==> |old(unread)| >= 2 && U16(old(unread)[0], old(unread)[1]) < 12
      ensures answer == ShortFrame ==>
                |old(unread)| < 2 || (|old(unread)| < 2 + U16(old(unread)[0], old(unread)[1]) && U16(old(unread)[0], old(unread)[1]) >= 12)
    {
      answer := Exact(2);
      if !answer.Frame? { return; }
      var length := answer.body;
      var n := U16(length[0], length[1]);
      assert old(unread)[..2] == length && old(unread) == length + unread;
      if n < 12 { return UnboundedFrame; }
      answer := Exact(n);
      if answer.Frame? {
        assert length + (answer.body + unread) == length + answer.body + unread;
      }
    }
  }
}
