/** The relay client's pipeline from a backend's body to the messages it posts. */
module RelayClient {
  import opened Wrappers
  import opened RelayTypes

  const MAX_IDLE_TIMEOUTS := 30

  /** One call of Read: the bytes it returned and whether it reported an error or the end. */
  datatype Read = Read(data: seq<byte>, end: bool)

  /** The bytes read up to and including the first call that reports an end. */
  function BytesRead(calls: seq<Read>): seq<byte> {
    if calls == [] then []
    else calls[0].data + (if calls[0].end then [] else BytesRead(calls[1..]))
  }

  /** The reader ends: some call reports an error or the end. */
  ghost predicate Ends(calls: seq<Read>) {
    calls != [] && (calls[0].end || Ends(calls[1..]))
  }

  /** streamBytes: the blocks sent on the channel before it is closed. */
  method StreamBytes(calls: seq<Read>, blockSize: nat) returns (out: seq<seq<byte>>)
    requires forall c :: c in calls ==> |c.data| <= blockSize
    requires Ends(calls)
    ensures Concat(out) == BytesRead(calls)
    ensures forall b :: b in out ==> 0 < |b| <= blockSize
  {
    out := [];
    var eof := false;
    var left := calls;
    ghost var sent: seq<byte> := [];
    while !eof
      invariant eof || Ends(left)
      invariant forall c :: c in left ==> |c.data| <= blockSize
      invariant sent == Concat(out)
      invariant BytesRead(calls) == if eof then sent else sent + BytesRead(left)
      invariant forall b :: b in out ==> 0 < |b| <= blockSize
      decreases !eof, |left|
    {
      var call := left[0];
      assert call in left;
      eof := call.end;
      Assoc(sent, call.data, if eof then [] else BytesRead(left[1..]));
      sent := sent + call.data;
      if |call.data| > 0 {
        ConcatSnoc(out, call.data);
        out := out + [call.data];
      }
      left := left[1..];
    }
  }

  /** What the select statement of buildResponses can see before its input channel is closed. */
  datatype Event = Block(data: seq<byte>) | Tick

  /** The loop's variables, and what has been sent. */
  datatype Collator = Collator(resp: Response, timeouts: nat, out: seq<Response>)
  {
    function Send(): Collator {
      Collator(Response(resp.id, None, [], [], false), 0, out + [resp])
    }

    function OnBlock(data: seq<byte>, maxChunkSize: nat): Collator {
      var c := this.(resp := resp.(body := resp.body + data));
      if |c.resp.body| > maxChunkSize then c.Send() else c
    }

    function OnTick(): Collator {
      var c := this.(timeouts := timeouts + 1);
      if |resp.body| > 0 || resp.status.Some? || c.timeouts > MAX_IDLE_TIMEOUTS then c.Send() else c
    }

    function On(e: Event, maxChunkSize: nat): Collator {
      match e
      case Block(data) => OnBlock(data, maxChunkSize)
      case Tick => OnTick()
    }

    function OnClose(): seq<Response> {
      out + [resp.(eof := true)]
    }
  }

  function Run(c: Collator, events: seq<Event>, maxChunkSize: nat): Collator {
    if events == [] then c
    else Run(c, events[..|events| - 1], maxChunkSize).On(events[|events| - 1], maxChunkSize)
  }

  /** All messages of one response, for one interleaving of blocks and ticks. */
  function Messages(events: seq<Event>, resp: Response, maxChunkSize: nat): seq<Response> {
    Run(Collator(resp, 0, []), events, maxChunkSize).OnClose()
  }

  /** buildResponses. */
  method BuildResponses(events: seq<Event>, first: Response, maxChunkSize: nat) returns (out: seq<Response>)
    ensures out == Messages(events, first, maxChunkSize)
  {
    out := [];
    var resp, timeouts := first, 0;
    var i := 0;
    while i < |events|
      invariant i <= |events|
      invariant Collator(resp, timeouts, out) == Run(Collator(first, 0, []), events[..i], maxChunkSize)
    {
      assert events[..i + 1][..i] == events[..i];
      match events[i] {
        case Block(b) =>
          resp := resp.(body := resp.body + b);
          if |resp.body| > maxChunkSize {
            out := out + [resp];
            resp := Response(resp.id, None, [], [], false);
            timeouts := 0;
          }
        case Tick =>
          timeouts := timeouts + 1;
          if |resp.body| > 0 || resp.status.Some? || timeouts > MAX_IDLE_TIMEOUTS {
            out := out + [resp];
            resp := Response(resp.id, None, [], [], false);
            timeouts := 0;
          }
      }
      i := i + 1;
    }
    assert events[..i] == events;
    resp := resp.(eof := true);
    out := out + [resp];
  }

  function Blocks(events: seq<Event>): seq<seq<byte>> {
    if events == [] then []
    else Blocks(events[..|events| - 1]) +
         (match events[|events| - 1] case Block(data) => [data] case Tick => [])
  }

  function Ticks(events: seq<Event>): nat {
    if events == [] then 0 else Ticks(events[..|events| - 1]) + (if events[|events| - 1].Tick? then 1 else 0)
  }

  /** A message's place decides what it carries: status and headers come first, Eof comes last. */
  ghost predicate WellFormed(messages: seq<Response>, first: Response)
  {
    && |messages| > 0
    && (forall i :: 0 <= i < |messages| ==> messages[i].id == first.id)
    && (forall i :: 0 <= i < |messages| ==> (messages[i].eof <==> i == |messages| - 1))
    && messages[0].status == first.status && messages[0].header == first.header
    && (forall i :: 0 < i < |messages| ==> messages[i].status.None? && messages[i].header == [])
  }

  ghost function Head(c: Collator): Response {
    if c.out == [] then c.resp else c.out[0]
  }

  // What holds of the loop's variables between two events: the messages sent so far, and the one being filled.
  ghost predicate Between(c: Collator, first: Response)
  {
    && c.resp.id == first.id && !c.resp.eof
    && (forall i :: 0 <= i < |c.out| ==> c.out[i].id == first.id && !c.out[i].eof)
    && (forall i :: 0 < i < |c.out| ==> c.out[i].status.None? && c.out[i].header == [])
    && Head(c).status == first.status && Head(c).header == first.header
    && (c.out != [] ==> c.resp.status.None? && c.resp.header == [])
  }

  ghost function Bytes(c: Collator): seq<byte> {
    Concat(Bodies(c.out)) + c.resp.body
  }

  lemma SendKeepsBytes(c: Collator)
    ensures Bytes(c.Send()) == Bytes(c)
  {
    BodiesSnoc(c.out, c.resp);
  }

  lemma StepKeepsBytes(c: Collator, e: Event, maxChunkSize: nat)
    ensures Bytes(c.On(e, maxChunkSize)) == Bytes(c) + (match e case Block(data) => data case Tick => [])
  {
    match e
    case Block(data) =>
      var filled := c.(resp := c.resp.(body := c.resp.body + data));
      Assoc(Concat(Bodies(c.out)), c.resp.body, data);
      SendKeepsBytes(filled);
    case Tick =>
      SendKeepsBytes(c.(timeouts := c.timeouts + 1));
      assert Bytes(c) + [] == Bytes(c);
  }

  lemma {:induction false} RunKeepsBytes(events: seq<Event>, first: Response, maxChunkSize: nat)
    ensures Bytes(Run(Collator(first, 0, []), events, maxChunkSize)) == first.body + Concat(Blocks(events))
  {
    if events == [] {
      assert Bytes(Collator(first, 0, [])) == first.body + [];
    } else {
      var front, e := events[..|events| - 1], events[|events| - 1];
      RunKeepsBytes(front, first, maxChunkSize);
      StepKeepsBytes(Run(Collator(first, 0, []), front, maxChunkSize), e, maxChunkSize);
      BlocksSnoc(front, e);
      assert events == front + [e];
      Assoc(first.body, Concat(Blocks(front)), match e case Block(data) => data case Tick => []);
    }
  }

  lemma BlocksSnoc(front: seq<Event>, e: Event)
    ensures Concat(Blocks(front + [e])) == Concat(Blocks(front)) + (match e case Block(data) => data case Tick => [])
  {
    assert (front + [e])[..|front|] == front;
    match e
    case Block(data) => ConcatSnoc(Blocks(front), data);
    case Tick => assert Blocks(front) + [] == Blocks(front);
  }

  lemma {:induction false} RunInvariant(events: seq<Event>, first: Response, maxChunkSize: nat)
    requires !first.eof
    ensures Between(Run(Collator(first, 0, []), events, maxChunkSize), first)
  {
    if events != [] {
      RunInvariant(events[..|events| - 1], first, maxChunkSize);
    }
  }

  /** For every interleaving: the grammar of the messages, and not a byte lost, added or moved. */
  lemma StreamGrammar(events: seq<Event>, first: Response, maxChunkSize: nat)
    requires !first.eof
    ensures
      var messages := Messages(events, first, maxChunkSize);
      && WellFormed(messages, first)
      && Concat(Bodies(messages)) == first.body + Concat(Blocks(events))
  {
    RunInvariant(events, first, maxChunkSize);
    RunKeepsBytes(events, first, maxChunkSize);
    var c := Run(Collator(first, 0, []), events, maxChunkSize);
    BodiesSnoc(c.out, c.resp.(eof := true));
  }

  /** No body exceeds the chunk size by more than one block. */
  lemma {:induction false} BodyBound(events: seq<Event>, first: Response, maxChunkSize: nat, largest: nat)
    requires |first.body| <= maxChunkSize
    requires forall b :: b in Blocks(events) ==> |b| <= largest
    ensures forall m :: m in Messages(events, first, maxChunkSize) ==> |m.body| <= maxChunkSize + largest
    ensures |Run(Collator(first, 0, []), events, maxChunkSize).resp.body| <= maxChunkSize
  {
    if events != [] {
      var front := events[..|events| - 1];
      assert forall b :: b in Blocks(front) ==> b in Blocks(events);
      BodyBound(front, first, maxChunkSize, largest);
      var c := Run(Collator(first, 0, []), front, maxChunkSize);
      assert forall m :: m in c.out ==> m in c.OnClose();
      assert events[|events| - 1].Block? ==> events[|events| - 1].data in Blocks(events);
    }
  }

  lemma {:induction false} TimeoutsBound(events: seq<Event>, first: Response, maxChunkSize: nat)
    ensures Run(Collator(first, 0, []), events, maxChunkSize).timeouts <= MAX_IDLE_TIMEOUTS
  {
    if events != [] {
      TimeoutsBound(events[..|events| - 1], first, maxChunkSize);
    }
  }

  // A stretch without a message counts its ticks, and keeps the state that would make a tick send.
  lemma {:induction false} SilentStretch(c: Collator, stretch: seq<Event>, maxChunkSize: nat)
    ensures |c.out| <= |Run(c, stretch, maxChunkSize).out|
    ensures |c.out| == |Run(c, stretch, maxChunkSize).out| ==>
      var d := Run(c, stretch, maxChunkSize);
      && d.timeouts == c.timeouts + Ticks(stretch)
      && d.resp.status == c.resp.status
      && |d.resp.body| == |c.resp.body| + |Concat(Blocks(stretch))|
      && (Ticks(stretch) > 0 ==> d.timeouts <= MAX_IDLE_TIMEOUTS && c.resp.status.None? && |c.resp.body| == 0)
  {
    if stretch != [] {
      var front, e := stretch[..|stretch| - 1], stretch[|stretch| - 1];
      SilentStretch(c, front, maxChunkSize);
      BlocksSnoc(front, e);
      assert stretch == front + [e];
    }
  }

  /** Keep-alive: wherever a run stands, no stretch with 31 ticks passes without a message; a stretch of 30
      can. And data, or the status, never waits for more than one tick. */
  lemma KeepAlive(before: seq<Event>, stretch: seq<Event>, first: Response, maxChunkSize: nat)
    ensures
      var c := Run(Collator(first, 0, []), before, maxChunkSize);
      var d := Run(c, stretch, maxChunkSize);
      && (Ticks(stretch) > MAX_IDLE_TIMEOUTS ==> |d.out| > |c.out|)
      && (Ticks(stretch) > 0 && (c.resp.status.Some? || c.resp.body != []) ==> |d.out| > |c.out|)
  {
    SilentStretch(Run(Collator(first, 0, []), before, maxChunkSize), stretch, maxChunkSize);
  }

  /** The bound is tight: right after a message, 30 ticks without data send nothing and the 31st sends. */
  lemma {:induction false} KeepAliveIsTight(c: Collator, n: nat, maxChunkSize: nat)
    requires c.timeouts == 0 && c.resp.status.None? && c.resp.body == [] && n <= MAX_IDLE_TIMEOUTS + 1
    ensures
      var ticks := seq(n, i => Tick);
      Run(c, ticks, maxChunkSize)
      == if n <= MAX_IDLE_TIMEOUTS then c.(timeouts := n) else c.(timeouts := n).Send().(timeouts := 0)
  {
    if n > 0 {
      KeepAliveIsTight(c, n - 1, maxChunkSize);
      var ticks: seq<Event> := seq(n, i => Tick);
      assert ticks[..n - 1] == seq(n - 1, i => Tick);
    }
  }
}
