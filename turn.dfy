/**
 * The TURN fallback (browser_client/src/turnRequest.js, and the identical copy at the
 * end of browser_client/src/webrtc_peer_client.js): off localhost, look for a TURN
 * entry among the ICE servers and, when there is none, ask a web service for one
 * and append what it returns.
 */
module Turn {
  import opened Json
  import T = Transport

  /** One entry of `pcConfig.iceServers`. */
  datatype IceServer = IceServer(urls: string, credential: Option<string>)

  /** The decoded body of a successful response from the TURN service. */
  datatype TurnServer = TurnServer(username: string, turn: string, password: string)

  const StunServer := IceServer("stun:stun.l.google.com:19302", None)
  const TurnServiceUrl := "https://computeengineondemand.appspot.com/turn?username=41784574&key=4080218913"

  /** `s.substr(0, n)`: the first `n` characters, or all of a shorter string. */
  function Substr(s: string, n: nat): (r: string)
    ensures |r| <= n && r <= s
    ensures |s| >= n ==> |r| == n
  {
    if |s| <= n then s else s[..n]
  }

  /** The test `urls.substr(0, 5) === 'turn:'`. */
  predicate IsTurnUrl(urls: string)
  {
    Substr(urls, 5) == "turn:"
  }

  /** The test is exactly "starts with `turn:`". */
  lemma IsTurnUrlIsPrefix(urls: string)
    ensures IsTurnUrl(urls) <==> "turn:" <= urls
  {
    if "turn:" <= urls {
      assert urls[..5] == "turn:";
    }
  }

  /** The entry a successful response appends. */
  function TurnEntry(server: TurnServer): (e: IceServer)
    ensures IsTurnUrl(e.urls) && e.credential == Some(server.password)
  {
    var urls := "turn:" + server.username + "@" + server.turn;
    assert urls[..5] == "turn:";
    IceServer(urls, Some(server.password))
  }

  /** The index the scan in `requestTurn` breaks at: the first TURN entry. */
  function FirstTurn(servers: seq<IceServer>): (r: Option<nat>)
    ensures r.Some? ==> r.value < |servers| && IsTurnUrl(servers[r.value].urls)
                        && forall j :: 0 <= j < r.value ==> !IsTurnUrl(servers[j].urls)
    ensures r.None? <==> forall j :: 0 <= j < |servers| ==> !IsTurnUrl(servers[j].urls)
  {
    if servers == [] then None
    else if IsTurnUrl(servers[0].urls) then Some(0)
    else match FirstTurn(servers[1..])
      case None => None
      case Some(k) => Some(k + 1)
  }

  /** The hostname test of `checkHostname`: a non-empty host other than the two
      loopback names. */
  predicate ShouldRequestTurn(hostname: string)
  {
    hostname != "" && hostname != "localhost" && hostname != "127.0.0.1"
  }

  /** The initial configuration holds only the STUN server, so a first scan finds no TURN entry. */
  lemma InitialHasNoTurn()
    ensures FirstTurn([StunServer]) == None
  {
    assert StunServer.urls[..5] == "stun:";
    assert Substr(StunServer.urls, 5) == "stun:";
  }

  /** After an entry from the service is appended, a scan stops at a TURN entry. */
  lemma AppendedTurnIsFound(servers: seq<IceServer>, server: TurnServer)
    ensures FirstTurn(servers + [TurnEntry(server)]).Some?
  {
    var all := servers + [TurnEntry(server)];
    assert IsTurnUrl(all[|servers|].urls);
  }

  /** The module-level `pcConfig` and `turnReady`, with the service requests issued. */
  class TurnConfig {
    var iceServers: seq<IceServer>
    /** `turnReady`; `false` stands for its initial `undefined`. */
    var turnReady: bool
    /** The URLs of the requests sent to the TURN service, in order. */
    var requests: seq<string>

    constructor ()
      ensures iceServers == [StunServer] && !turnReady && requests == []
    {
      iceServers := [StunServer];
      turnReady := false;
      requests := [];
    }

    /** `requestTurn(turnURL)`: scan for a TURN entry; with one, mark TURN ready; with
        none, send a request. */
    method RequestTurn(turnURL: string)
      modifies this
      ensures iceServers == old(iceServers)
      ensures FirstTurn(iceServers).Some? ==> turnReady && requests == old(requests)
      ensures FirstTurn(iceServers).None? ==> turnReady == old(turnReady) && requests == old(requests) + [turnURL]
    {
      var turnExists := false;
      var i := 0;
      while i < |iceServers|
        invariant 0 <= i <= |iceServers|
        invariant !turnExists && turnReady == old(turnReady)
        invariant forall j :: 0 <= j < i ==> !IsTurnUrl(iceServers[j].urls)
      {
        if Substr(iceServers[i].urls, 5) == "turn:" {
          turnExists := true;
          turnReady := true;
          break;
        }
        i := i + 1;
      }
      if !turnExists {
        requests := requests + [turnURL];
      }
    }

    /** The request's `onreadystatechange`: a completed 200 response appends one TURN
        entry and marks TURN ready; a body that is not JSON throws; any other state
        changes nothing. */
    method OnResponse(readyState: int, status: int, body: Option<TurnServer>) returns (outcome: T.Outcome)
      modifies this
      ensures requests == old(requests)
      ensures readyState == 4 && status == 200 && body.Some? ==>
                outcome == T.Completed && iceServers == old(iceServers) + [TurnEntry(body.value)] && turnReady
      ensures readyState == 4 && status == 200 && body.None? ==>
                outcome == T.SyntaxError && iceServers == old(iceServers) && turnReady == old(turnReady)
      ensures !(readyState == 4 && status == 200) ==>
                outcome == T.Completed && iceServers == old(iceServers) && turnReady == old(turnReady)
    {
      if readyState == 4 && status == 200 {
        if body.None? {
          return T.SyntaxError;
        }
        iceServers := iceServers + [TurnEntry(body.value)];
        turnReady := true;
      }
      return T.Completed;
    }

    /** `checkHostname()`: off localhost, `requestTurn` with the service URL. */
    method CheckHostname(hostname: string)
      modifies this
      ensures iceServers == old(iceServers)
      ensures !ShouldRequestTurn(hostname) ==> turnReady == old(turnReady) && requests == old(requests)
      ensures ShouldRequestTurn(hostname) && FirstTurn(iceServers).Some? ==> turnReady && requests == old(requests)
      ensures ShouldRequestTurn(hostname) && FirstTurn(iceServers).None? ==>
                turnReady == old(turnReady) && requests == old(requests) + [TurnServiceUrl]
    {
      if hostname != "" && hostname != "localhost" && hostname != "127.0.0.1" {
        RequestTurn(TurnServiceUrl);
      }
    }
  }

  /** A page loaded off localhost issues one request; once the response is appended,
      a second check finds the TURN entry and issues none. */
  method TurnLifecycle(hostname: string, server: TurnServer) returns (config: TurnConfig)
    requires ShouldRequestTurn(hostname)
    ensures config.requests == [TurnServiceUrl]
    ensures config.iceServers == [StunServer, TurnEntry(server)] && config.turnReady
  {
    config := new TurnConfig();
    InitialHasNoTurn();
    config.CheckHostname(hostname);
    var outcome := config.OnResponse(4, 200, Some(server));
    AppendedTurnIsFound([StunServer], server);
    config.CheckHostname(hostname);
  }
}
