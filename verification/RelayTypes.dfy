/** The message that carries a backend's response from the relay client to the relay server. */
module RelayTypes {
  import opened Wrappers

  newtype byte = x: int | 0 <= x < 256

  datatype Header = Header(name: string, value: string)

  /** A missing Eof reads as false; a missing status code is not the same as any number. */
  datatype Response = Response(id: string, status: Option<int>, header: seq<Header>, body: seq<byte>, eof: bool)

  function Concat(blocks: seq<seq<byte>>): seq<byte> {
    if blocks == [] then [] else Concat(blocks[..|blocks| - 1]) + blocks[|blocks| - 1]
  }

  function Bodies(messages: seq<Response>): (bodies: seq<seq<byte>>)
    ensures |bodies| == |messages|
  {
    seq(|messages|, i requires 0 <= i < |messages| => messages[i].body)
  }

  lemma Assoc(a: seq<byte>, b: seq<byte>, c: seq<byte>)
    ensures (a + b) + c == a + (b + c)
  {
  }

  lemma ConcatSnoc(blocks: seq<seq<byte>>, b: seq<byte>)
    ensures Concat(blocks + [b]) == Concat(blocks) + b
  {
    assert (blocks + [b])[..|blocks|] == blocks;
  }

  lemma {:induction false} ConcatSplit(a: seq<seq<byte>>, b: seq<seq<byte>>)
    ensures Concat(a + b) == Concat(a) + Concat(b)
  {
    if b == [] {
      assert a + b == a;
    } else {
      var front := b[..|b| - 1];
      ConcatSplit(a, front);
      var last := b[|b| - 1];
      assert a + b == (a + front) + [last];
      ConcatSnoc(a + front, last);
      Assoc(Concat(a), Concat(front), last);
    }
  }

  lemma BodiesSnoc(messages: seq<Response>, m: Response)
    ensures Bodies(messages + [m]) == Bodies(messages) + [m.body]
    ensures Concat(Bodies(messages + [m])) == Concat(Bodies(messages)) + m.body
  {
    assert Bodies(messages + [m]) == Bodies(messages) + [m.body];
    ConcatSnoc(Bodies(messages), m.body);
  }
}
