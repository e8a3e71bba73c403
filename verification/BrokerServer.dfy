/** The broker as the relay server holds it: maps updated under a mutex, and channels sent on and closed. */
module BrokerServer {
  import opened Wrappers
  import opened RelayTypes
  import opened Broker

  class RelayBroker {
    var locked: bool
    var req: map<string, set<Request>>
    var resp: map<Id, Pending>
    var channels: map<Id, Channel>
    var flights: map<Id, Flight>
    var reaped: set<Id>
    ghost var made: map<Id, (string, Request)>
    ghost var handed: seq<(string, Request)>
    ghost var accepted: map<Id, seq<Response>>

    /** The fields as a state of the broker's runs. */
    ghost function Abs(): State
      reads this
    {
      State(req, resp, channels, flights, reaped, made, handed, accepted)
    }

    constructor ()
      ensures Abs() == INIT && !locked
    {
      locked := false;
      req, resp, channels, flights, reaped := map[], map[], map[], map[], {};
      made, handed, accepted := map[], [], map[];
    }

    /** The locked section of RelayRequest. A duplicate id returns without unlocking: after that no method of
        the broker can be called any more. */
    method RelayRequest(server: string, request: Request, now: nat) returns (ok: bool)
      requires !locked
      modifies this
      ensures ok <==> request.id !in old(resp)
      ensures ok && request.id !in old(made) ==> Abs() == DoRelay(old(Abs()), server, request, now)
      ensures !ok ==> unchanged(`resp, `channels, `flights, `reaped, `made, `handed, `accepted)
      ensures !ok ==> req == old(req)[server := Queue(old(req), server)]
      ensures locked <==> !ok
    {
      locked := true;
      if server !in req {
        req := req[server := {}];
      }
      if request.id in resp {
        return false;
      }
      resp := resp[request.id := Pending(server, now)];
      channels := channels[request.id := Channel([], 0)];
      made := made[request.id := (server, request)];
      accepted := accepted[request.id := []];
      locked := false;
      req := req[server := req[server] + {request}];
      assert req == old(req)[server := Queue(old(req), server) + {request}];
      return true;
    }

    /** GetRequest: takes one of the requests blocked on the server's channel, or times out. */
    method GetRequest(server: string, timeout: bool) returns (r: Option<Request>)
      requires !locked
      modifies this
      ensures !locked
      ensures r.None? <==> timeout || Queue(old(req), server) == {}
      ensures r.None? ==> Abs() == old(Abs()).(req := old(req)[server := Queue(old(req), server)])
      ensures r.Some? ==> r.value in Queue(old(req), server) && Abs() == DoGet(old(Abs()), server, r.value)
    {
      if server !in req {
        req := req[server := {}];
      }
      if timeout || req[server] == {} {
        assert old(Queue(req, server)) == req[server];
        return None;
      }
      var request :| request in req[server];
      req := req[server := req[server] - {request}];
      handed := handed + [(server, request)];
      return Some(request);
    }

    /** The locked section of SendResponse. */
    method AcceptResponse(msg: Response, now: nat) returns (ok: bool)
      requires !locked && msg.id !in flights
      modifies this
      ensures !locked && Abs() == DoPost(old(Abs()), msg, now)
      ensures ok <==> msg.id in old(resp)
    {
      if msg.id !in resp {
        return false;
      }
      if msg.eof {
        resp := resp - {msg.id};
      } else {
        resp := resp[msg.id := resp[msg.id].(lastActivity := now)];
      }
      flights := flights[msg.id := Sending(msg)];
      accepted := accepted[msg.id := Log(accepted, msg.id) + [msg]];
      return true;
    }

    method Send(id: Id)
      requires id in flights && flights[id].Sending? && id in channels
      modifies this
      ensures locked == old(locked) && Abs() == DoDeliver(old(Abs()), id)
    {
      var msg := flights[id].msg;
      channels := channels[id := channels[id].(sent := channels[id].sent + [msg])];
      flights := if msg.eof then flights[id := Closing] else flights - {id};
    }

    method CloseAfterEof(id: Id)
      requires id in flights && flights[id].Closing? && id in channels
      modifies this
      ensures locked == old(locked) && Abs() == DoClose(old(Abs()), id)
    {
      channels := channels[id := channels[id].(closes := channels[id].closes + 1)];
      flights := flights - {id};
    }

    /** A SendResponse that nothing interrupts: the message is received, and Eof closes the channel and
        removes the id; other ids are untouched. */
    method SendResponse(msg: Response, now: nat) returns (ok: bool)
      requires !locked && Inv(Abs()) && msg.id !in flights
      modifies this
      ensures !locked && Inv(Abs()) && flights == old(flights)
      ensures ok <==> msg.id in old(resp)
      ensures !ok ==> Abs() == old(Abs())
      ensures ok ==> msg.id in old(channels) && Abs() == Sent(old(Abs()), msg, now)
      ensures ok ==> channels[msg.id].sent == old(channels)[msg.id].sent + [msg]
    {
      var id := msg.id;
      ok := AcceptResponse(msg, now);
      if !ok {
        return;
      }
      SentKeepsInv(old(Abs()), msg, now);
      OpenWhileMapped(old(Abs()), id);
      SentIsReceived(old(Abs()), msg, now);
      hide Inv;
      Send(id);
      if msg.eof {
        CloseAfterEof(id);
      }
    }

    /** The locked section of ReapInactiveRequests: deletes from the map it ranges over. */
    method ReapInactiveRequests(threshold: nat)
      requires !locked
      modifies this
      ensures !locked && Abs() == DoReap(old(Abs()), threshold)
    {
      var todo := resp.Keys;
      ghost var before, was := resp, reaped;
      while todo != {}
        invariant todo <= before.Keys
        invariant locked == old(locked) && req == old(req) && channels == old(channels) && flights == old(flights)
        invariant made == old(made) && handed == old(handed) && accepted == old(accepted)
        invariant resp == before - (Expired(before, threshold) - todo)
        invariant reaped == was + (Expired(before, threshold) - todo)
        decreases todo
      {
        var key :| key in todo;
        todo := todo - {key};
        if resp[key].lastActivity < threshold {
          reaped := reaped + {key};
          resp := resp - {key};
        }
      }
      assert Expired(before, threshold) - todo == Expired(before, threshold);
    }

    method CloseReapedChannel(id: Id)
      requires id in reaped && id in channels
      modifies this
      ensures locked == old(locked) && Abs() == DoCloseReaped(old(Abs()), id)
    {
      channels := channels[id := channels[id].(closes := channels[id].closes + 1)];
      reaped := reaped - {id};
    }
  }
}
