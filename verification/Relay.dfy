/** The relay end to end: from the bytes the backend sends to the reply the client is given. */
module Relay {
  import opened Wrappers
  import opened RelayTypes
  import opened Broker
  import opened ResponseFilter
  import RelayClient

  /** The responses posted for an id, in the order of the posts. */
  function PostsFor(steps: seq<Step>, id: Id): seq<Response> {
    if steps == [] then []
    else
      var last := steps[|steps| - 1];
      PostsFor(steps[..|steps| - 1], id) + (if last.Post? && last.msg.id == id then [last.msg] else [])
  }

  /** In this run nothing is posted for the id before its request is made, and the id is never reaped. */
  ghost predicate Undisturbed(states: seq<State>, steps: seq<Step>, id: Id)
    requires IsRun(states, steps)
  {
    && (forall i :: 0 <= i < |steps| && steps[i].Post? && steps[i].msg.id == id ==> id in states[i].made)
    && (forall i :: 0 <= i < |steps| && steps[i].Reap? ==> id !in Expired(states[i].resp, steps[i].threshold))
  }

  ghost predicate EofOnlyLast(messages: seq<Response>) {
    forall i :: 0 <= i < |messages| - 1 ==> !messages[i].eof
  }

  // Until a post with Eof the id stays in the map, so the broker accepts every post.
  lemma {:induction false} PostsAreAccepted(states: seq<State>, steps: seq<Step>, n: nat, id: Id)
    requires IsRun(states, steps) && Undisturbed(states, steps, id) && n <= |steps|
    requires EofOnlyLast(PostsFor(steps[..n], id))
    ensures Log(states[n].accepted, id) == PostsFor(steps[..n], id)
    ensures
      var posts := PostsFor(steps[..n], id);
      id in states[n].made && (posts == [] || !posts[|posts| - 1].eof) ==> id in states[n].resp
  {
    hide Do, Inv, Enabled, Closed;
    if n > 0 {
      var s, step := states[n - 1], steps[n - 1];
      var before := PostsFor(steps[..n - 1], id);
      assert steps[..n][..n - 1] == steps[..n - 1];
      var posts := before + (if step.Post? && step.msg.id == id then [step.msg] else []);
      assert PostsFor(steps[..n], id) == posts;
      assert forall i :: 0 <= i < |before| ==> before[i] == posts[i];
      PostsAreAccepted(states, steps, n - 1, id);
      RunKeepsInv(states, steps, n - 1);
      assert states[n] == Do(s, step) && Enabled(s, step);
      StepLogs(s, step, id);
    }
  }

  lemma Lengths(states: seq<State>, steps: seq<Step>)
    requires IsRun(states, steps)
    ensures |states| == |steps| + 1
  {
  }

  lemma AcceptedHasChannel(states: seq<State>, steps: seq<Step>, n: nat, id: Id)
    requires IsRun(states, steps) && n < |states| && id in states[n].accepted
    ensures id in states[n].channels
  {
    RunKeepsInv(states, steps, n);
  }

  /** For every interleaving of blocks and timer ticks, and of the broker's steps for this and all other ids:
      if the relay client's posts for an id arrive once each and in order, and the id is not reaped, the client
      gets the backend's status and headers and exactly the backend's bytes; the channel was closed once. */
  lemma EndToEnd(states: seq<State>, steps: seq<Step>, id: Id,
                 calls: seq<RelayClient.Read>, events: seq<RelayClient.Event>, first: Response, maxChunkSize: nat)
    requires IsRun(states, steps) && Undisturbed(states, steps, id)
    requires first == Response(id, first.status, first.header, [], false) && first.status.Some?
    requires Concat(RelayClient.Blocks(events)) == RelayClient.BytesRead(calls)
    requires PostsFor(steps, id) == RelayClient.Messages(events, first, maxChunkSize)
    requires id !in states[|steps|].flights
    ensures id in states[|steps|].channels
    ensures
      var channel := states[|steps|].channels[id];
      var reply := ReplyTo(channel.sent);
      && channel.closes == 1
      && reply.status == first.status.value && reply.header == first.header
      && Concat(reply.chunks) == RelayClient.BytesRead(calls)
  {
    hide IsRun, Undisturbed, Inv, Do, Enabled, RelayClient.Messages, RelayClient.BytesRead, RelayClient.Blocks;
    Lengths(states, steps);
    var n := |steps|;
    var messages := RelayClient.Messages(events, first, maxChunkSize);
    RelayClient.StreamGrammar(events, first, maxChunkSize);
    assert steps[..n] == steps;
    PostsAreAccepted(states, steps, n, id);
    assert messages != [] && id in states[n].accepted;
    AcceptedHasChannel(states, steps, n, id);
    ResponsesReachTheirClient(states, steps, n, id);
    EofCloses(states, steps, n, id);
    assert first.body + Concat(RelayClient.Blocks(events)) == Concat(RelayClient.Blocks(events));
  }

  method AddTicks(events: seq<RelayClient.Event>, n: nat) returns (more: seq<RelayClient.Event>)
    ensures RelayClient.Blocks(more) == RelayClient.Blocks(events)
    ensures |more| == |events| + n && more[..|events|] == events
    ensures forall i :: |events| <= i < |more| ==> more[i].Tick?
  {
    more := events;
    for t := 0 to n
      invariant RelayClient.Blocks(more) == RelayClient.Blocks(events)
      invariant |more| == |events| + t && more[..|events|] == events
      invariant forall i :: |events| <= i < |more| ==> more[i].Tick?
    {
      assert (more + [RelayClient.Tick])[..|more|] == more;
      more := more + [RelayClient.Tick];
    }
  }

  /** One response through the client's half of the pipeline: what the relay client posts carries the bytes of
      the body, whatever order blocks and ticks are seen in. `schedule` says how many ticks are seen before each block
      and after the last one. */
  method RelayBody(calls: seq<RelayClient.Read>, blockSize: nat, first: Response, maxChunkSize: nat, schedule: seq<nat>)
    returns (posts: seq<Response>)
    requires forall c :: c in calls ==> |c.data| <= blockSize
    requires RelayClient.Ends(calls) && !first.eof && first.body == []
    ensures RelayClient.WellFormed(posts, first)
    ensures Concat(Bodies(posts)) == RelayClient.BytesRead(calls)
    ensures forall m :: m in posts ==> |m.body| <= maxChunkSize + blockSize
  {
    var blocks := RelayClient.StreamBytes(calls, blockSize);
    var events: seq<RelayClient.Event> := [];
    for i := 0 to |blocks|
      invariant RelayClient.Blocks(events) == blocks[..i]
    {
      events := AddTicks(events, if i < |schedule| then schedule[i] else 0);
      assert (events + [RelayClient.Block(blocks[i])])[..|events|] == events;
      assert blocks[..i + 1] == blocks[..i] + [blocks[i]];
      events := events + [RelayClient.Block(blocks[i])];
    }
    assert blocks[..|blocks|] == blocks;
    events := AddTicks(events, if |blocks| < |schedule| then schedule[|blocks|] else 0);
    posts := RelayClient.BuildResponses(events, first, maxChunkSize);
    RelayClient.StreamGrammar(events, first, maxChunkSize);
    RelayClient.BodyBound(events, first, maxChunkSize, blockSize);
    assert first.body + Concat(blocks) == Concat(blocks);
  }
}
