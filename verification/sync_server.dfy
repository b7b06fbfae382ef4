/** The server role's HTTP handlers: `/` serves a page, `/start` launches the
    command once, `/stop` interrupts it if it still runs and schedules the
    server's shutdown. Requests are modelled as handled one at a time; the
    status codes are those of section 15 of RFC 9110. */
module SyncServer {

  const StatusOK := 200
  const StatusCreated := 201
  const StatusAccepted := 202
  const StatusNoContent := 204
  const StatusConflict := 409
  const StatusPreconditionFailed := 412

  const RootPage := "<html><body><a href=\"/start\">/start</a> : Start the command</body></html>"

  /** The two flags the handlers share. */
  datatype Session = Session(started: bool, finished: bool)

  const Idle := Session(false, false)

  /** A command can only have finished once it was started. */
  predicate Valid(s: Session) {
    s.finished ==> s.started
  }

  datatype Request = Root | Start | Stop

  /** What a handler sets going besides its response: the command's launch,
      SIGINT to it, the server's graceful shutdown, the process's exit. */
  datatype Action = Launch | Interrupt | Shutdown | Exit(code: int)

  /** A response's status code and body, and the actions taken with it. A
      204 response carries no content (section 15.3.5 of RFC 9110), so the
      text the handler writes after it is not sent. */
  datatype Response = Response(code: int, body: string, actions: seq<Action>)

  /** One request, handled with the shared flags as they are. */
  function HandleRequest(s: Session, r: Request): (result: (Session, Response))
    ensures result.0.started == (s.started || r == Start)
    ensures result.0.finished == s.finished
    ensures Launch in result.1.actions <==> r == Start && !s.started
    ensures result.1.code in {StatusOK, StatusCreated, StatusAccepted, StatusNoContent, StatusConflict, StatusPreconditionFailed}
  {
    match r
    case Root => (s, Response(StatusOK, RootPage, []))
    case Start =>
      if s.started then (s, Response(StatusConflict, "KO", []))
      else (s.(started := true), Response(StatusCreated, "OK", [Launch]))
    case Stop =>
      if !s.started then (s, Response(StatusPreconditionFailed, "Command not started yet", []))
      else if s.finished then (s, Response(StatusNoContent, "", [Shutdown]))
      else (s, Response(StatusAccepted, "Command stopped", [Interrupt, Shutdown]))
  }

  /** The end of the goroutine /start launched: the command is finished, and
      without wait-for-stop the process exits with 0. Only a launched
      command can finish; for a session that never launched it is no step. */
  function CommandFinished(s: Session, waitForStop: bool): (result: (Session, seq<Action>))
    ensures result.0.started == s.started
    ensures result.0.finished == (s.finished || s.started)
    ensures Launch !in result.1
    ensures Exit(0) in result.1 <==> s.started && !waitForStop
  {
    if !s.started then (s, [])
    else (s.(finished := true), if waitForStop then [] else [Exit(0)])
  }

  /** What the handlers see happen, in order. */
  datatype Occurrence = Req(request: Request) | Finished

  /** The session after a sequence of occurrences and the actions taken. */
  function Serve(s: Session, trace: seq<Occurrence>, waitForStop: bool): (r: (Session, seq<Action>))
    ensures r.0.started == (s.started || Req(Start) in trace)
    ensures s.finished ==> r.0.finished
    ensures Valid(s) ==> Valid(r.0)
  {
    if trace == [] then (s, [])
    else
      var (before, actions) := Serve(s, trace[..|trace| - 1], waitForStop);
      match trace[|trace| - 1]
      case Req(request) =>
        var (after, response) := HandleRequest(before, request);
        (after, actions + response.actions)
      case Finished =>
        var (after, more) := CommandFinished(before, waitForStop);
        (after, actions + more)
  }

  /** Every handler keeps finished ==> started, and neither flag is ever
      cleared. */
  lemma StepsKeepValid(s: Session, r: Request, waitForStop: bool)
    requires Valid(s)
    ensures var next := HandleRequest(s, r).0;
      Valid(next) && (s.started ==> next.started) && (s.finished ==> next.finished)
    ensures var next := CommandFinished(s, waitForStop).0;
      Valid(next) && (s.started ==> next.started) && (s.finished ==> next.finished)
  {
  }

  /** The codes of /start and /stop and what they set going, stated on the
      flags: 201 and a launch exactly when nothing was started; 412 before a
      start, 204 after the command finished, 202 and SIGINT while it runs,
      and a shutdown whenever it was started. */
  lemma ResponseCodes(s: Session)
    requires Valid(s)
    ensures var response := HandleRequest(s, Start).1;
      (response.code == StatusCreated <==> !s.started) &&
      (response.code == StatusConflict <==> s.started) &&
      (Launch in response.actions <==> !s.started)
    ensures s.started ==> HandleRequest(s, Start).0 == s
    ensures !s.started ==> HandleRequest(s, Start).0 == s.(started := true)
    ensures HandleRequest(s, Stop).0 == s
    ensures var response := HandleRequest(s, Stop).1;
      (response.code == StatusPreconditionFailed <==> !s.started) &&
      (response.code == StatusNoContent <==> s.finished) &&
      (response.code == StatusAccepted <==> s.started && !s.finished) &&
      (Interrupt in response.actions <==> s.started && !s.finished) &&
      (Shutdown in response.actions <==> s.started)
  {
  }

  function Launches(actions: seq<Action>): nat {
    if actions == [] then 0
    else Launches(actions[..|actions| - 1]) + (if actions[|actions| - 1] == Launch then 1 else 0)
  }

  lemma {:induction false} LaunchesAppend(a: seq<Action>, b: seq<Action>)
    ensures Launches(a + b) == Launches(a) + Launches(b)
    decreases |b|
  {
    if b != [] {
      assert (a + b)[..|a + b| - 1] == a + b[..|b| - 1];
      LaunchesAppend(a, b[..|b| - 1]);
    } else {
      assert a + b == a;
    }
  }

  /** From a fresh server, however many /start, /stop and / requests arrive,
      the command is launched exactly once if a /start came and never
      otherwise; the session stays valid. */
  lemma {:induction false} LaunchedAtMostOnce(trace: seq<Occurrence>, waitForStop: bool)
    ensures var (s, actions) := Serve(Idle, trace, waitForStop);
      Valid(s) &&
      (s.started <==> Req(Start) in trace) &&
      Launches(actions) == (if Req(Start) in trace then 1 else 0)
    decreases |trace|
  {
    if trace != [] {
      var prefix := trace[..|trace| - 1];
      LaunchedAtMostOnce(prefix, waitForStop);
      var (before, actions) := Serve(Idle, prefix, waitForStop);
      assert trace == prefix + [trace[|trace| - 1]];
      match trace[|trace| - 1]
      case Req(request) =>
        var (after, response) := HandleRequest(before, request);
        LaunchesAppend(actions, response.actions);
        assert Launches(response.actions) == if request == Start && !before.started then 1 else 0 by {
          if request == Stop && before.started && !before.finished {
            assert response.actions[..1] == [Interrupt];
          }
        }
      case Finished =>
        var (after, more) := CommandFinished(before, waitForStop);
        LaunchesAppend(actions, more);
    }
  }

  /** The handlers' shared state: cmdStarted and cmdFinished, and the
      waitForStop setting the launch goroutine reads. */
  class Server {
    var cmdStarted: bool
    var cmdFinished: bool
    const waitForStop: bool

    function State(): Session
      reads this
    {
      Session(cmdStarted, cmdFinished)
    }

    constructor (waitForStop: bool)
      ensures State() == Idle && this.waitForStop == waitForStop
    {
      cmdStarted := false;
      cmdFinished := false;
      this.waitForStop := waitForStop;
    }

    /** The `/` handler: the same page whatever the state. */
    method HandleRoot() returns (response: Response)
      ensures response.code == StatusOK && response.body == RootPage && response.actions == []
    {
      response := Response(StatusOK, RootPage, []);
    }

    /** The `/start` handler, under the mutex. */
    method HandleStart() returns (response: Response)
      modifies this`cmdStarted
      ensures (State(), response) == HandleRequest(old(State()), Start)
    {
      if cmdStarted {
        response := Response(StatusConflict, "KO", []);
      } else {
        cmdStarted := true;
        response := Response(StatusCreated, "OK", [Launch]);
      }
    }

    /** The `/stop` handler: it changes neither flag. */
    method HandleStop() returns (response: Response)
      ensures (State(), response) == HandleRequest(State(), Stop)
    {
      if cmdStarted {
        if cmdFinished {
          response := Response(StatusNoContent, "", [Shutdown]);
        } else {
          response := Response(StatusAccepted, "Command stopped", [Interrupt, Shutdown]);
        }
      } else {
        response := Response(StatusPreconditionFailed, "Command not started yet", []);
      }
    }

    /** The rest of the launch goroutine once startCommand returns. */
    method CommandDone() returns (actions: seq<Action>)
      requires cmdStarted
      modifies this`cmdFinished
      ensures (State(), actions) == CommandFinished(old(State()), waitForStop)
    {
      cmdFinished := true;
      actions := if waitForStop then [] else [Exit(0)];
    }
  }
}
