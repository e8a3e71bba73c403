/** The relay server's broker: every atomic section of its methods is a step, and any interleaving is a run. */
module Broker {
  import opened Wrappers
  import opened RelayTypes

  type Id = string

  datatype Request = Request(id: Id, body: seq<byte>)

  /** An entry of the response map. */
  datatype Pending = Pending(server: string, lastActivity: nat)

  /** A response channel: what the client's handler has received from it, and how often it was closed. */
  datatype Channel = Channel(sent: seq<Response>, closes: nat)

  /** A SendResponse that has left the locked section: it has yet to send, or has sent Eof and has yet to close. */
  datatype Flight = Sending(msg: Response) | Closing
  {
    predicate MayClose() { Closing? || msg.eof }
  }

  datatype State = State(
    req: map<string, set<Request>>,    // per server: the requests whose RelayRequest is blocked on the channel
    resp: map<Id, Pending>,
    channels: map<Id, Channel>,        // all response channels ever made
    flights: map<Id, Flight>,
    reaped: set<Id>,                   // removed by the reaper, which has not closed them yet
    made: map<Id, (string, Request)>,  // history: the requests ever made
    handed: seq<(string, Request)>,    // history: what GetRequest returned, and for which server
    accepted: map<Id, seq<Response>>   // history: the responses SendResponse did not refuse
  )

  const INIT := State(map[], map[], map[], map[], {}, map[], [], map[])

  datatype Step =
    | Relay(server: string, request: Request, now: nat)
    | RelayTimeout(server: string, request: Request)
    | Get(server: string, request: Request)
    | GetTimeout(server: string)
    | Post(msg: Response, now: nat)
    | Deliver(id: Id)
    | Close(id: Id)
    | Reap(threshold: nat)
    | CloseReaped(id: Id)

  function Queue(req: map<string, set<Request>>, server: string): set<Request> {
    if server in req then req[server] else {}
  }

  function Expired(resp: map<Id, Pending>, threshold: nat): set<Id> {
    set id | id in resp && resp[id].lastActivity < threshold
  }

  /** When a step can be taken. Three clauses are assumptions about the surroundings: ids are fresh, the posts
      for one id are sequential, and the reaper's threshold is older than any SendResponse in flight. */
  predicate Enabled(s: State, step: Step) {
    match step
    case Relay(server, request, now) => request.id !in s.made
    case RelayTimeout(server, request) => request in Queue(s.req, server)
    case Get(server, request) => request in Queue(s.req, server)
    case GetTimeout(server) => true
    case Post(msg, now) => msg.id !in s.flights
    case Deliver(id) => id in s.flights && s.flights[id].Sending? && id in s.channels
    case Close(id) => id in s.flights && s.flights[id].Closing? && id in s.channels
    case Reap(threshold) =>
      forall id :: id in s.flights && id in s.resp ==> s.resp[id].lastActivity >= threshold
    case CloseReaped(id) => id in s.reaped && id in s.channels
  }

  function DoRelay(s: State, server: string, request: Request, now: nat): State {
    s.(req := s.req[server := Queue(s.req, server) + {request}],
       resp := s.resp[request.id := Pending(server, now)],
       channels := s.channels[request.id := Channel([], 0)],
       made := s.made[request.id := (server, request)],
       accepted := s.accepted[request.id := []])
  }

  function DoGet(s: State, server: string, request: Request): State {
    s.(req := s.req[server := Queue(s.req, server) - {request}], handed := s.handed + [(server, request)])
  }

  function DoPost(s: State, msg: Response, now: nat): State {
    if msg.id !in s.resp then s
    else s.(resp := if msg.eof then s.resp - {msg.id}
                    else s.resp[msg.id := s.resp[msg.id].(lastActivity := now)],
            flights := s.flights[msg.id := Sending(msg)],
            accepted := s.accepted[msg.id := Log(s.accepted, msg.id) + [msg]])
  }

  function DoDeliver(s: State, id: Id): State
    requires id in s.flights && s.flights[id].Sending? && id in s.channels
  {
    var msg := s.flights[id].msg;
    s.(channels := s.channels[id := s.channels[id].(sent := s.channels[id].sent + [msg])],
       flights := if msg.eof then s.flights[id := Closing] else s.flights - {id})
  }

  function DoClose(s: State, id: Id): State
    requires id in s.channels
  {
    s.(channels := s.channels[id := s.channels[id].(closes := s.channels[id].closes + 1)],
       flights := s.flights - {id})
  }

  function DoReap(s: State, threshold: nat): State {
    s.(resp := s.resp - Expired(s.resp, threshold), reaped := s.reaped + Expired(s.resp, threshold))
  }

  function DoCloseReaped(s: State, id: Id): State
    requires id in s.channels
  {
    s.(channels := s.channels[id := s.channels[id].(closes := s.channels[id].closes + 1)],
       reaped := s.reaped - {id})
  }

  function Do(s: State, step: Step): State
    requires Enabled(s, step)
  {
    match step
    case Relay(server, request, now) => DoRelay(s, server, request, now)
    case RelayTimeout(server, request) => s.(req := s.req[server := Queue(s.req, server) - {request}])
    case Get(server, request) => DoGet(s, server, request)
    case GetTimeout(server) => s.(req := s.req[server := Queue(s.req, server)])
    case Post(msg, now) => DoPost(s, msg, now)
    case Deliver(id) => DoDeliver(s, id)
    case Close(id) => DoClose(s, id)
    case Reap(threshold) => DoReap(s, threshold)
    case CloseReaped(id) => DoCloseReaped(s, id)
  }

  function Log(accepted: map<Id, seq<Response>>, id: Id): seq<Response> {
    if id in accepted then accepted[id] else []
  }

  /** The states of a run, from the empty broker. */
  ghost predicate IsRun(states: seq<State>, steps: seq<Step>)
  {
    && |states| == |steps| + 1
    && states[0] == INIT
    && forall i :: 0 <= i < |steps| ==> Enabled(states[i], steps[i]) && states[i + 1] == Do(states[i], steps[i])
  }

  function One(b: bool): nat { if b then 1 else 0 }

  /** The right to close a channel is a token: the map, the reaper or a flight holds it, or it is spent. */
  ghost predicate CloseToken(s: State, id: Id)
  {
    id in s.channels ==>
      s.channels[id].closes + One(id in s.resp) + One(id in s.reaped)
        + One(id in s.flights && s.flights[id].MayClose()) == 1
  }

  /** Accepted responses are the received ones, in order, and then the one in flight. */
  ghost predicate InOrder(s: State, id: Id)
  {
    id in s.channels ==>
      && Log(s.accepted, id)
         == s.channels[id].sent + (if id in s.flights && s.flights[id].Sending? then [s.flights[id].msg] else [])
      && (id in s.flights && s.flights[id].Closing? ==>
            s.channels[id].sent != [] && s.channels[id].sent[|s.channels[id].sent| - 1].eof)
  }

  /** Every accepted response carries the id, and Eof is the last: its post removed the id. */
  ghost predicate EofLast(s: State, id: Id)
  {
    var log := Log(s.accepted, id);
    && (forall i :: 0 <= i < |log| ==> log[i].id == id)
    && (forall i :: 0 <= i < |log| - 1 ==> !log[i].eof)
    && (log != [] && log[|log| - 1].eof ==> id !in s.resp && id !in s.reaped)
  }

  ghost predicate Routed(s: State)
  {
    && (forall sv, r :: sv in s.req && r in s.req[sv] ==> r.id in s.made && s.made[r.id] == (sv, r))
    && (forall i :: 0 <= i < |s.handed| ==> s.handed[i].1.id in s.made && s.made[s.handed[i].1.id] == s.handed[i])
    && (forall i :: 0 <= i < |s.handed| ==> s.handed[i].1 !in Queue(s.req, s.handed[i].0))
    && (forall i, j :: 0 <= i < j < |s.handed| ==> s.handed[i].1.id != s.handed[j].1.id)
  }

  ghost predicate Closed(s: State)
  {
    && s.resp.Keys <= s.channels.Keys && s.flights.Keys <= s.channels.Keys && s.reaped <= s.channels.Keys
    && s.channels.Keys == s.made.Keys == s.accepted.Keys
    && (forall id :: id in s.flights && s.flights[id].Sending? && !s.flights[id].msg.eof ==> id in s.resp)
  }

  ghost predicate Inv(s: State)
  {
    && Closed(s) && Routed(s)
    && (forall id :: id in s.channels ==> CloseToken(s, id) && InOrder(s, id) && EofLast(s, id))
  }

  lemma StepKeepsRouting(s: State, step: Step)
    requires Closed(s) && Routed(s) && Enabled(s, step)
    ensures Routed(Do(s, step))
  {
    var t := Do(s, step);
    forall i, j | 0 <= i < j < |t.handed| ensures t.handed[i].1.id != t.handed[j].1.id {
      if j == |s.handed| {
        // The new one was still queued, so it is none of the earlier ones.
        assert s.handed[i].1 !in Queue(s.req, s.handed[i].0);
      }
    }
  }

  lemma StepKeepsClosed(s: State, step: Step)
    requires Closed(s) && Enabled(s, step)
    ensures Closed(Do(s, step))
  {
  }

  lemma StepKeepsToken(s: State, step: Step, id: Id)
    requires Closed(s) && Enabled(s, step) && id in Do(s, step).channels
    requires CloseToken(s, id)
    ensures CloseToken(Do(s, step), id)
  {
  }

  lemma StepKeepsOrder(s: State, step: Step, id: Id)
    requires Closed(s) && Enabled(s, step) && id in Do(s, step).channels
    requires InOrder(s, id)
    ensures InOrder(Do(s, step), id)
  {
  }

  lemma StepKeepsEofLast(s: State, step: Step, id: Id)
    requires Closed(s) && Enabled(s, step) && id in Do(s, step).channels
    requires CloseToken(s, id) && EofLast(s, id)
    ensures EofLast(Do(s, step), id)
  {
  }

  lemma StepKeepsInv(s: State, step: Step)
    requires Inv(s) && Enabled(s, step)
    ensures Inv(Do(s, step))
  {
    StepKeepsClosed(s, step);
    StepKeepsRouting(s, step);
    forall id | id in Do(s, step).channels
      ensures CloseToken(Do(s, step), id)
      ensures InOrder(Do(s, step), id)
      ensures EofLast(Do(s, step), id)
    {
      if id in s.channels {
        assert CloseToken(s, id) && InOrder(s, id) && EofLast(s, id);
      } else {
        assert id !in s.accepted;
      }
      StepKeepsToken(s, step, id);
      StepKeepsOrder(s, step, id);
      StepKeepsEofLast(s, step, id);
    }
  }

  /** Every state of every run satisfies the invariant. */
  lemma {:induction false} RunKeepsInv(states: seq<State>, steps: seq<Step>, n: nat)
    requires IsRun(states, steps) && n < |states|
    ensures Inv(states[n])
  {
    if n > 0 {
      RunKeepsInv(states, steps, n - 1);
      StepKeepsInv(states[n - 1], steps[n - 1]);
    }
  }

  /** A request is handed out at most once, and only to the relay client of its own server. */
  lemma HandedOutOnceUnderOwnServer(states: seq<State>, steps: seq<Step>, n: nat, i: nat, j: nat)
    requires IsRun(states, steps) && n < |states|
    requires i < |states[n].handed| && j < |states[n].handed|
    ensures states[n].handed[i].1.id == states[n].handed[j].1.id ==> i == j
    ensures states[n].handed[i].1.id in states[n].made
    ensures states[n].made[states[n].handed[i].1.id] == states[n].handed[i]
  {
    RunKeepsInv(states, steps, n);
  }

  /** The client of an id receives the accepted responses for that id and no others, in the order they were
      posted, with nothing after Eof; all of them once no SendResponse for the id is in flight. */
  lemma ResponsesReachTheirClient(states: seq<State>, steps: seq<Step>, n: nat, id: Id)
    requires IsRun(states, steps) && n < |states| && id in states[n].channels
    ensures
      var s := states[n];
      var sent, log := s.channels[id].sent, Log(s.accepted, id);
      && sent <= log
      && (id !in s.flights ==> sent == log)
      && (forall m :: m in log ==> m.id == id)
      && (forall i :: 0 <= i < |log| - 1 ==> !log[i].eof)
  {
    RunKeepsInv(states, steps, n);
    var s := states[n];
    assert InOrder(s, id) && EofLast(s, id);
  }

  // A closed channel is out of everyone's reach: no step can send on it or close it again.
  lemma StepSparesClosed(s: State, step: Step, id: Id)
    requires Closed(s) && Enabled(s, step) && id in s.channels && CloseToken(s, id)
    ensures s.channels[id].closes == 1 ==> Do(s, step).channels[id] == s.channels[id]
    ensures step == Deliver(id) || step == Close(id) || step == CloseReaped(id) ==> s.channels[id].closes == 0
    ensures id in s.resp ==> s.channels[id].closes == 0
  {
  }

  /** A channel is closed at most once, never while its id is in the map, and only by a step that the removal
      of the id from the map allowed; nothing is ever sent on a closed channel. */
  lemma ClosedAtMostOnce(states: seq<State>, steps: seq<Step>, n: nat, id: Id)
    requires IsRun(states, steps) && n < |steps| && id in states[n].channels
    ensures states[n].channels[id].closes <= 1
    ensures id in states[n].resp ==> states[n].channels[id].closes == 0
    ensures states[n].channels[id].closes == 1 ==>
      id in states[n + 1].channels && states[n + 1].channels[id] == states[n].channels[id]
    ensures steps[n] == Deliver(id) || steps[n] == Close(id) || steps[n] == CloseReaped(id) ==>
      states[n].channels[id].closes == 0
  {
    RunKeepsInv(states, steps, n);
    var s, step := states[n], steps[n];
    assert CloseToken(s, id) && Enabled(s, step) && states[n + 1] == Do(s, step);
    StepSparesClosed(s, step, id);
    assert id in Do(s, step).channels;
  }

  /** Who closes: the flight that carried Eof, or else the reaper. Once the accepted responses end with Eof
      and nothing is in flight, the channel has been closed by the former. */
  lemma EofCloses(states: seq<State>, steps: seq<Step>, n: nat, id: Id)
    requires IsRun(states, steps) && n < |states| && id in states[n].channels && id !in states[n].flights
    requires var log := Log(states[n].accepted, id); log != [] && log[|log| - 1].eof
    ensures states[n].channels[id].closes == 1 && id !in states[n].reaped
  {
    RunKeepsInv(states, steps, n);
    assert CloseToken(states[n], id) && EofLast(states[n], id);
  }

  /** A late or repeated post for a finished id changes nothing. */
  lemma PostAfterEofIsRefused(states: seq<State>, steps: seq<Step>, n: nat, msg: Response, now: nat)
    requires IsRun(states, steps) && n < |states| && Enabled(states[n], Post(msg, now))
    requires var log := Log(states[n].accepted, msg.id); log != [] && log[|log| - 1].eof
    ensures Do(states[n], Post(msg, now)) == states[n]
  {
    RunKeepsInv(states, steps, n);
    assert EofLast(states[n], msg.id);
  }

  // One step, seen from an id that is not reaped: only its own posts grow its log, and only Eof removes it.
  lemma StepLogs(s: State, step: Step, id: Id)
    requires Closed(s) && Enabled(s, step)
    requires step.Reap? ==> id !in Expired(s.resp, step.threshold)
    requires step.Post? && step.msg.id == id ==> id in s.resp
    ensures
      var posted := step.Post? && step.msg.id == id;
      && Log(Do(s, step).accepted, id) == Log(s.accepted, id) + (if posted then [step.msg] else [])
      && (id in Do(s, step).resp <==>
            (step.Relay? && step.request.id == id) || (id in s.resp && !(posted && step.msg.eof)))
      && (id in Do(s, step).made <==> (step.Relay? && step.request.id == id) || id in s.made)
  {
    if step.Relay? && step.request.id == id {
      assert id !in s.accepted;
    }
  }

  /** What a SendResponse that nothing interrupts makes of the state. */
  function Sent(s: State, msg: Response, now: nat): State
    requires msg.id in s.resp && msg.id in s.channels
  {
    var t := DoDeliver(DoPost(s, msg, now), msg.id);
    if msg.eof then DoClose(t, msg.id) else t
  }

  lemma SentKeepsInv(s: State, msg: Response, now: nat)
    requires Inv(s) && msg.id in s.resp && msg.id in s.channels && msg.id !in s.flights
    ensures Inv(Sent(s, msg, now))
  {
    var id := msg.id;
    var s1 := DoPost(s, msg, now);
    var s2 := DoDeliver(s1, id);
    SentSteps(s, msg, now);
    hide *;
    StepKeepsInv(s, Post(msg, now));
    StepKeepsInv(s1, Deliver(id));
    if msg.eof {
      StepKeepsInv(s2, Close(id));
    }
  }

  lemma SentSteps(s: State, msg: Response, now: nat)
    requires msg.id in s.resp && msg.id in s.channels && msg.id !in s.flights
    ensures
      var s1 := DoPost(s, msg, now);
      var s2 := DoDeliver(s1, msg.id);
      && Enabled(s, Post(msg, now)) && Do(s, Post(msg, now)) == s1
      && Enabled(s1, Deliver(msg.id)) && Do(s1, Deliver(msg.id)) == s2
      && (msg.eof ==> Enabled(s2, Close(msg.id)) && Do(s2, Close(msg.id)) == DoClose(s2, msg.id))
      && Sent(s, msg, now) == if msg.eof then DoClose(s2, msg.id) else s2
  {
  }

  lemma OpenWhileMapped(s: State, id: Id)
    requires Inv(s) && id in s.resp
    ensures id in s.channels && s.channels[id].closes == 0
  {
    assert CloseToken(s, id);
  }

  /** Its client receives the message, Eof closes the channel, and no other channel is touched. */
  lemma SentIsReceived(s: State, msg: Response, now: nat)
    requires msg.id in s.resp && msg.id !in s.flights
    requires msg.id in s.channels && s.channels[msg.id].closes == 0
    ensures
      var t := Sent(s, msg, now);
      && t.flights == s.flights
      && t.channels == s.channels[msg.id := Channel(s.channels[msg.id].sent + [msg], One(msg.eof))]
  {
    var id := msg.id;
    var s2 := DoDeliver(DoPost(s, msg, now), id);
    assert s2.channels == s.channels[id := Channel(s.channels[id].sent + [msg], 0)];
    assert s2.flights - {id} == s.flights;
  }
}
