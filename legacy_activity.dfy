/** `AbstractBLOBboxActivty`, the older base activity. Its YouTube helpers are the same as
    those of `Activity`; what differs is that it keeps its own status codes and shows the
    outcome itself, in a handler that finishes the activity after every message. */
module LegacyActivity {
  import opened Wrappers
  import opened Exceptions
  import opened Argo
  import Activity

  const OPERATION_OK := 0
  const OPERATION_FAILED := 1
  const UNSUPPORTED_INTENT := 2
  const VERSION_FAIL := 3
  const AUTH_FAIL := 4
  const REMOTE_FAIL := 5
  const COMMS_FAIL := 6

  /** The `catch` clauses of the older `setupClientAndPerformOperation`. */
  function LegacyStatusCode(o: Outcome<Exception>): (code: int)
    ensures code == OPERATION_OK <==> o.Pass?
    ensures code == REMOTE_FAIL <==> o.Fail? && o.error.IncompatibleRemoteDevice?
    ensures code == VERSION_FAIL <==> o.Fail? && o.error.IncompatibleSoftwareVersion?
    ensures code == COMMS_FAIL <==> o.Fail? && o.error.ArgoCommunication?
    ensures code == AUTH_FAIL <==> o.Fail? && o.error.ArgoAuthentication?
    ensures code == UNSUPPORTED_INTENT <==> o.Fail? && o.error.ArgoUnsupportedIntent?
    ensures code == OPERATION_FAILED <==>
              o.Fail? && !o.error.IncompatibleRemoteDevice? && !o.error.IncompatibleSoftwareVersion? &&
              !o.error.ArgoCommunication? && !o.error.ArgoAuthentication? && !o.error.ArgoUnsupportedIntent?
    ensures OPERATION_OK <= code <= COMMS_FAIL
  {
    match o
    case Pass => OPERATION_OK
    case Fail(e) =>
      if e.IncompatibleRemoteDevice? then REMOTE_FAIL
      else if e.IncompatibleSoftwareVersion? then VERSION_FAIL
      else if e.ArgoCommunication? then COMMS_FAIL
      else if e.ArgoAuthentication? then AUTH_FAIL
      else if e.ArgoUnsupportedIntent? then UNSUPPORTED_INTENT
      else OPERATION_FAILED
  }

  /** The seven codes are pairwise distinct: two outcomes share a code exactly when they
      fall into the same `catch` clause. The codes also kept their numbers when they were
      renamed in `Activity`. */
  lemma LegacyCodesIdentifyOutcomes(o1: Outcome<Exception>, o2: Outcome<Exception>)
    ensures LegacyStatusCode(o1) == LegacyStatusCode(o2) <==> Activity.StatusCode(o1) == Activity.StatusCode(o2)
    ensures LegacyStatusCode(o1) == Activity.StatusCode(o1)
  {
  }

  /** What the handler shows. */
  datatype Display =
    | ShowOK
    | ShowOpFailed
    | ShowUnsupportedIntent
    | ShowVersionError
    | ShowAuthError(ip: string)
    | ShowCommsError(ip: string)
    | ShowRemoteError(ip: string)
    | ShowUnexpectedCode(code: int)

  /** The branch of `handleMessage`'s switch that a code reaches, for the box at `ip`. */
  function DisplayFor(code: int, ip: string): (d: Display)
    ensures d.ShowUnexpectedCode? <==> !(OPERATION_OK <= code <= COMMS_FAIL)
    ensures d.ShowUnexpectedCode? ==> d.code == code
    ensures d.ShowAuthError? || d.ShowCommsError? || d.ShowRemoteError? ==> d.ip == ip
  {
    if code == OPERATION_OK then ShowOK
    else if code == OPERATION_FAILED then ShowOpFailed
    else if code == UNSUPPORTED_INTENT then ShowUnsupportedIntent
    else if code == VERSION_FAIL then ShowVersionError
    else if code == AUTH_FAIL then ShowAuthError(ip)
    else if code == COMMS_FAIL then ShowCommsError(ip)
    else if code == REMOTE_FAIL then ShowRemoteError(ip)
    else ShowUnexpectedCode(code)
  }

  /** Different codes reach different branches. */
  lemma DisplayIsInjective(c1: int, c2: int, ip: string)
    ensures DisplayFor(c1, ip) == DisplayFor(c2, ip) <==> c1 == c2
  {
  }

  /** Every session outcome is shown as its own message, never as an unexpected code. */
  lemma DisplayMatchesOutcome(o: Outcome<Exception>, ip: string)
    ensures var d := DisplayFor(LegacyStatusCode(o), ip);
            !d.ShowUnexpectedCode? &&
            (d == ShowOK <==> o.Pass?) &&
            (d == ShowRemoteError(ip) <==> o.Fail? && o.error.IncompatibleRemoteDevice?) &&
            (d == ShowVersionError <==> o.Fail? && o.error.IncompatibleSoftwareVersion?) &&
            (d == ShowCommsError(ip) <==> o.Fail? && o.error.ArgoCommunication?) &&
            (d == ShowAuthError(ip) <==> o.Fail? && o.error.ArgoAuthentication?) &&
            (d == ShowUnsupportedIntent <==> o.Fail? && o.error.ArgoUnsupportedIntent?)
  {
  }

  class LegacyBLOBboxActivity {
    /** The box's address from the preferences, as `getIP()` reads it. */
    const ip: string
    /** The status codes handed to the handler, oldest first. */
    var sent: seq<int>
    /** What the handler has shown, oldest first. */
    var shown: seq<Display>
    /** How many times the handler called `finish()`. */
    var finishes: nat

    constructor (ip: string)
      ensures this.ip == ip && sent == [] && shown == [] && finishes == 0
    {
      this.ip := ip;
      sent := [];
      shown := [];
      finishes := 0;
    }

    /** `handleMessage(msg)`: every code, known or not, is shown by exactly one branch,
        and the activity then finishes. */
    method HandleMessage(what: int)
      modifies this
      ensures shown == old(shown) + [DisplayFor(what, ip)]
      ensures finishes == old(finishes) + 1
      ensures sent == old(sent)
    {
      if what == OPERATION_OK {
        shown := shown + [ShowOK];
      } else if what == OPERATION_FAILED {
        shown := shown + [ShowOpFailed];
      } else if what == UNSUPPORTED_INTENT {
        shown := shown + [ShowUnsupportedIntent];
      } else if what == VERSION_FAIL {
        shown := shown + [ShowVersionError];
      } else if what == AUTH_FAIL {
        shown := shown + [ShowAuthError(ip)];
      } else if what == COMMS_FAIL {
        shown := shown + [ShowCommsError(ip)];
      } else if what == REMOTE_FAIL {
        shown := shown + [ShowRemoteError(ip)];
      } else {
        shown := shown + [ShowUnexpectedCode(what)];
      }
      finishes := finishes + 1;
    }

    /** `setupClientAndPerformOperation(intent)`: open a session with the box at `ip`, run
        the operation (its outcome is a parameter) and send exactly one code. */
    method SetupClientAndPerformOperation(user: string, password: string, crypto: Crypto,
                                          posts: seq<PostReply>, calls: seq<CallReply>,
                                          operation: Outcome<Exception>)
      modifies this
      ensures sent == old(sent) +
                [LegacyStatusCode(Activity.SetupOutcome(Construct(ip, user, password, crypto, Box(posts, calls, [])).outcome,
                                                        operation))]
      ensures shown == old(shown) && finishes == old(finishes)
    {
      var client, transport := ArgoClient.Open(ip, user, password, crypto, posts, calls);
      var outcome: Outcome<Exception>;
      if client.Failure? {
        outcome := Fail(client.error);
      } else {
        outcome := operation;
      }
      sent := sent + [LegacyStatusCode(outcome)];
    }
  }
}
