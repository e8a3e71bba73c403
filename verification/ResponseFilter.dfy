/** The last stage of the relay: what the waiting client is given of the messages for its request. */
module ResponseFilter {
  import opened Wrappers
  import opened RelayTypes

  const INTERNAL_SERVER_ERROR := 500

  /** What the handler writes: no header, a status and the chunks of the body. */
  datatype Reply = Reply(header: seq<Header>, status: int, chunks: seq<seq<byte>>)

  function Text(s: string): seq<byte> {
    seq(|s|, i requires 0 <= i < |s| => (s[i] as int % 256) as byte)
  }

  const NO_RESPONSE := Text("Received no response from relay client")
  const NO_HEADER := Text("Received no header from relay client")

  function ReplyTo(messages: seq<Response>): Reply {
    if messages == [] then Reply([], INTERNAL_SERVER_ERROR, [NO_RESPONSE])
    else if messages[0].status.None? then Reply([], INTERNAL_SERVER_ERROR, [NO_HEADER])
    else Reply(messages[0].header, messages[0].status.value, Bodies(messages))
  }

  /** responseFilter, on the messages its channel delivers before it is closed. `left` are the messages
      still in the channel at the end: none, or the sender would block for ever. */
  method Filter(messages: seq<Response>) returns (reply: Reply, left: seq<Response>)
    ensures left == []
    ensures reply == ReplyTo(messages)
  {
    if messages == [] {
      return Reply([], INTERNAL_SERVER_ERROR, [NO_RESPONSE]), [];
    }
    var first := messages[0];
    left := messages[1..];
    if first.status.None? {
      while left != []
        decreases |left|
      {
        left := left[1..];
      }
      return Reply([], INTERNAL_SERVER_ERROR, [NO_HEADER]), left;
    }
    var chunks := [first.body];
    while left != []
      invariant |chunks| + |left| == |messages|
      invariant left == messages[|chunks|..]
      invariant chunks == Bodies(messages[..|chunks|])
      decreases |left|
    {
      assert messages[..|chunks| + 1] == messages[..|chunks|] + [left[0]];
      BodiesSnoc(messages[..|chunks|], left[0]);
      chunks, left := chunks + [left[0].body], left[1..];
    }
    assert messages[..|chunks|] == messages;
    reply := Reply(first.header, first.status.value, chunks);
  }
}
