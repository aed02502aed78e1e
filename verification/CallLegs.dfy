/**
  One SIP call leg (SipUserAgent/CallLeg.java and its thirteen CL_* state classes).

  `Leg` is the value of a leg's fields and `Step` says what one user command or one
  received message does to it.  `CallLeg` is the mutable object: its methods run the
  state classes' statements one after the other and are proved to compute `Step`.
  Everything handed to the SIP provider is appended to `sent`; every listener
  callback is appended to `calls`.
 */
module CallLegs {

  datatype Method = INVITE | ACK | CANCEL | BYE

  datatype State =
    | Initial | Calling | CallProceed | Cancelling | Established
    | Proceed | Success | Failed | Terminated | Byeing
    | Modify | ModifyProceed | RecallProceed

  /** A message together with the transaction it was sent on. */
  datatype Message =
    | Request(kind: Method, tid: nat)
    | Response(kind: Method, code: int, tid: nat)

  datatype Callback = NotifyCallback | ErrorCallback | HangupCallback

  datatype Leg = Leg(
    state: State,
    curTid: nat,
    status: int,
    requests: map<nat, Method>,  // client transactions the provider remembers for this leg
    sent: seq<Message>,
    calls: seq<Callback>)

  datatype Input =
    | UserInvite
    | UserHangup
    | UserAccept
    | UserDecline
    | GotResponse(kind: Method, code: int, tid: nat)
    | GotInvite(tid: nat, looped: bool, local: bool, registered: bool)
    | GotBye(tid: nat)
    | GotCancel(tid: nat)
    | GotAck(tid: nat)

  /** What the provider does during one step: `ok` calls to it succeed before one throws,
      and a new client transaction gets number `newTid`. */
  datatype Env = Env(ok: nat, newTid: nat)

  const RINGING := 180
  const OK := 200
  const MULTIPLE_CHOICES := 300
  const NOT_FOUND := 404
  const LOOP_DETECTED := 482
  const CANCELLED := 487
  const DECLINE := 603

  const NEW_LEG := Leg(Initial, 0, OK, map[], [], [])

  /** The leg after the first `ok` of `msgs` have gone out. */
  function Emit(l: Leg, msgs: seq<Message>, ok: nat): Leg {
    l.(sent := l.sent + if ok < |msgs| then msgs[..ok] else msgs)
  }

  function Call(l: Leg, c: Callback): Leg {
    l.(calls := l.calls + [c])
  }

  function NewRequest(l: Leg, m: Method, tid: nat): Leg {
    l.(curTid := tid, requests := l.requests[tid := m], sent := l.sent + [Request(m, tid)])
  }

  /** CL_initial and CL_established create a request, CL_calling and CL_modify repeat one. */
  function OnInvite(l: Leg, env: Env): Leg {
    if env.ok == 0 then l
    else match l.state
      case Initial => NewRequest(l, INVITE, env.newTid).(state := Calling)
      case Established => NewRequest(l, INVITE, env.newTid).(state := Modify)
      case Calling | Modify =>
        if l.curTid in l.requests then NewRequest(l, l.requests[l.curTid], env.newTid) else l
      case _ => l
  }

  function OnHangup(l: Leg, env: Env): Leg {
    match l.state
    case Calling => l.(state := Terminated)
    case CallProceed | ModifyProceed =>
      if env.ok == 0 then l else Emit(l, [Request(CANCEL, l.curTid)], 1).(state := Cancelling)
    case Established =>
      if env.ok == 0 then l else NewRequest(l, BYE, env.newTid).(state := Byeing)
    case Modify =>
      if env.ok == 0 then l else Emit(l, [Request(BYE, l.curTid)], 1).(state := Byeing)
    case Byeing =>
      if env.ok > 0 && l.curTid in l.requests then NewRequest(l, l.requests[l.curTid], env.newTid) else l
    case _ => l
  }

  function OnAnswer(l: Leg, code: int, refused: State, env: Env): Leg {
    match l.state
    case Proceed | RecallProceed =>
      var l1 := l.(status := code);
      if env.ok == 0 then l1
      else Emit(l1, [Response(INVITE, code, l.curTid)], 1).(state := refused)
    case _ => l
  }

  function OnAccept(l: Leg, env: Env): Leg {
    OnAnswer(l, OK, Success, env)
  }

  function OnDecline(l: Leg, env: Env): Leg {
    OnAnswer(l, DECLINE, if l.state == Proceed then Failed else Success, env)
  }

  /** The three branches every state shares that waits for the answer to an INVITE. */
  function InviteAnswered(l: Leg, code: int, tid: nat, provisional: State, refused: State,
                          bad: Callback, env: Env): Leg {
    if code < OK then l.(status := code, state := provisional)
    else if env.ok == 0 then l
    else
      var l1 := Emit(l, [Request(ACK, tid)], 1).(status := code);
      if code < MULTIPLE_CHOICES then Call(l1, NotifyCallback).(state := Established)
      else Call(l1, bad).(state := refused)
  }

  function ByeAnswered(l: Leg, code: int): Leg {
    if code < OK then l.(status := code)
    else Call(l, HangupCallback).(status := code, state := Terminated)
  }

  function OnResponse(l: Leg, kind: Method, code: int, tid: nat, env: Env): Leg {
    match (l.state, kind)
    case (Calling, INVITE) => InviteAnswered(l, code, tid, CallProceed, Terminated, HangupCallback, env)
    case (CallProceed, INVITE) => InviteAnswered(l, code, tid, CallProceed, Terminated, HangupCallback, env)
    case (Modify, INVITE) => InviteAnswered(l, code, tid, ModifyProceed, Established, ErrorCallback, env)
    case (ModifyProceed, INVITE) =>
      InviteAnswered(l.(status := code), code, tid, ModifyProceed, Established, ErrorCallback, env)
    case (Cancelling, INVITE) =>
      if code < OK then
        if env.ok == 0 then l else Emit(l, [Request(CANCEL, tid)], 1).(status := code)
      else if code < MULTIPLE_CHOICES then
        var l1 := Emit(l, [Request(ACK, tid), Request(BYE, tid)], env.ok);
        if env.ok < 2 then l1 else l1.(status := code)
      else
        if env.ok == 0 then l
        else Call(Emit(l, [Request(ACK, tid)], 1), HangupCallback).(status := code, state := Terminated)
    case (Cancelling, BYE) => ByeAnswered(l, code)
    case (Cancelling, CANCEL) => if code >= OK then l.(status := code, state := Terminated) else l
    case (Byeing, BYE) => ByeAnswered(l, code)
    case (Established, INVITE) => if code >= OK then Emit(l, [Request(ACK, tid)], env.ok) else l
    case (Terminated, INVITE) => if code >= OK then Emit(l, [Request(ACK, tid)], env.ok) else l
    case _ => l
  }

  /** An INVITE that starts the leg, or a re-INVITE of an established one. */
  function OnGotInvite(l: Leg, tid: nat, looped: bool, local: bool, registered: bool, env: Env): Leg {
    if l.state != Initial && l.state != Established then l
    else
      var l1 := l.(curTid := tid);
      var l2 := if !looped && local && registered then Call(l1, NotifyCallback) else l1;
      var code := if looped then LOOP_DETECTED else if local && registered then RINGING else NOT_FOUND;
      var next :=
        if looped then Failed
        else if l.state == Established then if local && registered then RecallProceed else Established
        else if !local then Terminated
        else if registered then Proceed else Failed;
      if env.ok == 0 then l2 else Emit(l2, [Response(INVITE, code, tid)], 1).(state := next)
  }

  function OnGotBye(l: Leg, tid: nat, env: Env): Leg {
    if l.state != Established then l
    else
      var l1 := Call(l.(curTid := tid), HangupCallback);
      if env.ok == 0 then l1 else Emit(l1, [Response(BYE, OK, tid)], 1).(state := Terminated)
  }

  function OnGotCancel(l: Leg, env: Env): Leg {
    if l.state != Proceed && l.state != RecallProceed then l
    else
      var l1 := Emit(l, [Response(CANCEL, OK, l.curTid), Response(INVITE, CANCELLED, l.curTid)], env.ok);
      if env.ok < 2 then l1
      else if l.state == Proceed then Call(l1, HangupCallback).(state := Failed)
      else Call(l1, ErrorCallback).(state := Success)
  }

  function OnGotAck(l: Leg): Leg {
    match l.state
    case Success => l.(state := Established)
    case Failed => l.(state := Terminated)
    case _ => l
  }

  function Step(l: Leg, input: Input, env: Env): Leg {
    match input
    case UserInvite => OnInvite(l, env)
    case UserHangup => OnHangup(l, env)
    case UserAccept => OnAccept(l, env)
    case UserDecline => OnDecline(l, env)
    case GotResponse(m, code, tid) => OnResponse(l, m, code, tid, env)
    case GotInvite(tid, looped, local, registered) => OnGotInvite(l, tid, looped, local, registered, env)
    case GotBye(tid) => OnGotBye(l, tid, env)
    case GotCancel(_) => OnGotCancel(l, env)
    case GotAck(_) => OnGotAck(l)
  }

  // ------------------------------------------------------------------ the object

  /** The call leg as an object.  Each state class catches the provider's exception and
      returns itself, which is the early `return` after a failed `Send` here. */
  class CallLeg {
    var currentState: State
    var curTid: nat
    var curStatus: int
    var requests: map<nat, Method>
    var sent: seq<Message>
    var calls: seq<Callback>
    var budget: nat  // calls to the provider that still succeed in this step

    ghost function View(): Leg
      reads this
    {
      Leg(currentState, curTid, curStatus, requests, sent, calls)
    }

    constructor ()
      ensures View() == NEW_LEG
    {
      currentState, curTid, curStatus := Initial, 0, OK;
      requests, sent, calls := map[], [], [];
      budget := 0;
    }

    method Send(m: Message) returns (success: bool)
      modifies this`sent, this`budget
      ensures success == (old(budget) > 0)
      ensures budget == if success then old(budget) - 1 else 0
      ensures sent == if success then old(sent) + [m] else old(sent)
    {
      success := budget > 0;
      if success {
        sent := sent + [m];
        budget := budget - 1;
      }
    }

    /** sendRequest followed by setCurrentTID. */
    method SendNewRequest(m: Method, newTid: nat) returns (success: bool)
      modifies this
      ensures success == (old(budget) > 0)
      ensures View() == if success then NewRequest(old(View()), m, newTid) else old(View())
    {
      success := Send(Request(m, newTid));
      if success {
        requests := requests[newTid := m];
        curTid := newTid;
      }
    }

    method Invite(env: Env)
      modifies this
      ensures View() == OnInvite(old(View()), env)
    {
      budget := env.ok;
      match currentState {
        case Initial =>
          var ok := SendNewRequest(INVITE, env.newTid);
          if ok { currentState := Calling; }
        case Established =>
          var ok := SendNewRequest(INVITE, env.newTid);
          if ok { currentState := Modify; }
        case Calling | Modify =>
          if curTid in requests {
            var _ := SendNewRequest(requests[curTid], env.newTid);
          }
        case _ =>
      }
    }

    method Hangup(env: Env)
      modifies this
      ensures View() == OnHangup(old(View()), env)
    {
      budget := env.ok;
      match currentState {
        case Calling =>
          currentState := Terminated;
        case CallProceed | ModifyProceed =>
          var ok := Send(Request(CANCEL, curTid));
          if ok { currentState := Cancelling; }
        case Established =>
          var ok := SendNewRequest(BYE, env.newTid);
          if ok { currentState := Byeing; }
        case Modify =>
          var ok := Send(Request(BYE, curTid));
          if ok { currentState := Byeing; }
        case Byeing =>
          if curTid in requests {
            var _ := SendNewRequest(requests[curTid], env.newTid);
          }
        case _ =>
      }
    }

    method Accept(env: Env)
      modifies this
      ensures View() == OnAccept(old(View()), env)
    {
      budget := env.ok;
      if currentState == Proceed || currentState == RecallProceed {
        curStatus := OK;
        var ok := Send(Response(INVITE, OK, curTid));
        if ok { currentState := Success; }
      }
    }

    method Decline(env: Env)
      modifies this
      ensures View() == OnDecline(old(View()), env)
    {
      budget := env.ok;
      if currentState == Proceed || currentState == RecallProceed {
        curStatus := DECLINE;
        var ok := Send(Response(INVITE, DECLINE, curTid));
        if ok { currentState := if currentState == Proceed then Failed else Success; }
      }
    }

    method ProcessResponse(kind: Method, code: int, tid: nat, env: Env)
      modifies this
      ensures View() == OnResponse(old(View()), kind, code, tid, env)
    {
      budget := env.ok;
      match currentState {
        case Calling | CallProceed | Modify | ModifyProceed =>
          if kind == INVITE {
            ProcessInviteAnswer(code, tid);
          }
        case Cancelling =>
          ProcessCancelling(kind, code, tid);
        case Byeing =>
          if kind == BYE {
            ProcessByeAnswer(code);
          }
        case Established | Terminated =>
          if kind == INVITE && code >= OK {
            var _ := Send(Request(ACK, tid));
          }
        case _ =>
      }
    }

    method ProcessInviteAnswer(code: int, tid: nat)
      requires currentState in {Calling, CallProceed, Modify, ModifyProceed}
      modifies this
      ensures View() == OnResponse(old(View()), INVITE, code, tid, Env(old(budget), 0))
    {
      var firstTime := currentState == Calling || currentState == CallProceed;
      if currentState == ModifyProceed {
        curStatus := code;
      }
      if code < OK {
        curStatus := code;
        currentState := if firstTime then CallProceed else ModifyProceed;
        return;
      }
      var ok := Send(Request(ACK, tid));
      if !ok { return; }
      curStatus := code;
      if code < MULTIPLE_CHOICES {
        calls := calls + [NotifyCallback];
        currentState := Established;
      } else if firstTime {
        calls := calls + [HangupCallback];
        currentState := Terminated;
      } else {
        calls := calls + [ErrorCallback];
        currentState := Established;
      }
    }

    method ProcessByeAnswer(code: int)
      modifies this
      ensures View() == ByeAnswered(old(View()), code)
    {
      if code >= OK {
        calls := calls + [HangupCallback];
        currentState := Terminated;
      }
      curStatus := code;
    }

    method ProcessCancelling(kind: Method, code: int, tid: nat)
      requires currentState == Cancelling
      modifies this
      ensures View() == OnResponse(old(View()), kind, code, tid, Env(old(budget), 0))
    {
      if kind == INVITE {
        if code < OK {
          var ok := Send(Request(CANCEL, tid));
          if ok { curStatus := code; }
        } else if code < MULTIPLE_CHOICES {
          var ok := Send(Request(ACK, tid));
          if !ok { return; }
          ok := Send(Request(BYE, tid));
          if ok { curStatus := code; }
        } else {
          var ok := Send(Request(ACK, tid));
          if !ok { return; }
          curStatus := code;
          calls := calls + [HangupCallback];
          currentState := Terminated;
        }
      } else if kind == BYE {
        ProcessByeAnswer(code);
      } else if kind == CANCEL && code >= OK {
        curStatus := code;
        currentState := Terminated;
      }
    }

    method ProcessInvite(tid: nat, looped: bool, local: bool, registered: bool, env: Env)
      modifies this
      ensures View() == OnGotInvite(old(View()), tid, looped, local, registered, env)
    {
      budget := env.ok;
      if currentState != Initial && currentState != Established { return; }
      var again := currentState == Established;
      curTid := tid;
      if looped {
        var ok := Send(Response(INVITE, LOOP_DETECTED, tid));
        if ok { currentState := Failed; }
      } else if local && registered {
        calls := calls + [NotifyCallback];
        var ok := Send(Response(INVITE, RINGING, tid));
        if ok { currentState := if again then RecallProceed else Proceed; }
      } else {
        var ok := Send(Response(INVITE, NOT_FOUND, tid));
        if ok && !again { currentState := if local then Failed else Terminated; }
      }
    }

    method ProcessBye(tid: nat, env: Env)
      modifies this
      ensures View() == OnGotBye(old(View()), tid, env)
    {
      budget := env.ok;
      if currentState == Established {
        curTid := tid;
        calls := calls + [HangupCallback];
        var ok := Send(Response(BYE, OK, tid));
        if ok { currentState := Terminated; }
      }
    }

    method ProcessCancel(env: Env)
      modifies this
      ensures View() == OnGotCancel(old(View()), env)
    {
      budget := env.ok;
      if currentState == Proceed || currentState == RecallProceed {
        var ok := Send(Response(CANCEL, OK, curTid));
        if !ok { return; }
        ok := Send(Response(INVITE, CANCELLED, curTid));
        if !ok { return; }
        if currentState == Proceed {
          calls := calls + [HangupCallback];
          currentState := Failed;
        } else {
          calls := calls + [ErrorCallback];
          currentState := Success;
        }
      }
    }

    method ProcessAck()
      modifies this
      ensures View() == OnGotAck(old(View()))
    {
      match currentState {
        case Success => currentState := Established;
        case Failed => currentState := Terminated;
        case _ =>
      }
    }
  }

  // ------------------------------------------------- hanging up, over whole histories

  type Happening = (Input, Env)

  function Run(l: Leg, es: seq<Happening>): Leg {
    if es == [] then l
    else var l' := Run(l, es[..|es| - 1]); Step(l', es[|es| - 1].0, es[|es| - 1].1)
  }

  function Times(calls: seq<Callback>, c: Callback): nat {
    if calls == [] then 0
    else Times(calls[..|calls| - 1], c) + if calls[|calls| - 1] == c then 1 else 0
  }

  lemma TimesOfAppend(calls: seq<Callback>, c: Callback, d: Callback)
    ensures Times(calls + [d], c) == Times(calls, c) + if d == c then 1 else 0
  {
    assert (calls + [d])[..|calls|] == calls;
  }

  function Hangups(calls: seq<Callback>): nat { Times(calls, HangupCallback) }

  predicate Over(s: State) {
    s == Failed || s == Terminated
  }

  /** The leg answers a BYE and the provider throws: the listener has already been told. */
  predicate LostByeReply(l: Leg, e: Happening) {
    l.state == Established && e.0.GotBye? && e.1.ok == 0
  }

  function LostByeReplies(l: Leg, es: seq<Happening>): nat {
    if es == [] then 0
    else
      var before := es[..|es| - 1];
      LostByeReplies(l, before) + if LostByeReply(Run(l, before), es[|es| - 1]) then 1 else 0
  }

  /** The steps that hang the leg up for good, by the guards of the branches concerned. */
  predicate EndsByHangup(l: Leg, e: Happening) {
    match (l.state, e.0)
    case (Calling, GotResponse(INVITE, code, _)) => code >= MULTIPLE_CHOICES && e.1.ok >= 1
    case (CallProceed, GotResponse(INVITE, code, _)) => code >= MULTIPLE_CHOICES && e.1.ok >= 1
    case (Cancelling, GotResponse(INVITE, code, _)) => code >= MULTIPLE_CHOICES && e.1.ok >= 1
    case (Cancelling, GotResponse(BYE, code, _)) => code >= OK
    case (Byeing, GotResponse(BYE, code, _)) => code >= OK
    case (Proceed, GotCancel(_)) => e.1.ok >= 2
    case (Established, GotBye(_)) => e.1.ok >= 1
    case _ => false
  }

  function Endings(l: Leg, es: seq<Happening>): nat {
    if es == [] then 0
    else
      var before := es[..|es| - 1];
      Endings(l, before) + if EndsByHangup(Run(l, before), es[|es| - 1]) then 1 else 0
  }

  predicate Waits(s: State) {
    s == Calling || s == CallProceed || s == Modify || s == ModifyProceed
  }

  /** The steps that tell the listener of an answer or of a call, and those that tell it that an
      INVITE within a session has failed. */
  predicate Notifies(l: Leg, e: Happening) {
    match e.0
    case GotResponse(INVITE, code, _) => Waits(l.state) && OK <= code < MULTIPLE_CHOICES && e.1.ok >= 1
    case GotInvite(_, looped, local, registered) =>
      (l.state == Initial || l.state == Established) && !looped && local && registered
    case _ => false
  }

  predicate Fails(l: Leg, e: Happening) {
    match e.0
    case GotResponse(INVITE, code, _) =>
      (l.state == Modify || l.state == ModifyProceed) && code >= MULTIPLE_CHOICES && e.1.ok >= 1
    case GotCancel(_) => l.state == RecallProceed && e.1.ok >= 2
    case _ => false
  }

  /** One step fires one callback at most, and exactly the one that a branch guard names; a step
      that hangs up for good finds the leg alive and leaves it over. */
  lemma StepCallbacks(l: Leg, e: Happening)
    ensures var l' := Step(l, e.0, e.1); var hung := LostByeReply(l, e) || EndsByHangup(l, e);
            && l'.calls == l.calls + (if hung then [HangupCallback] else if Notifies(l, e) then [NotifyCallback]
                                      else if Fails(l, e) then [ErrorCallback] else [])
            && !(hung && Notifies(l, e)) && !(hung && Fails(l, e)) && !(Notifies(l, e) && Fails(l, e))
            && (Over(l.state) ==> Over(l'.state) && l'.calls == l.calls)
            && (EndsByHangup(l, e) ==> !Over(l.state) && Over(l'.state) && !LostByeReply(l, e))
  {
    assert l.calls + [] == l.calls;
    match e.0
    case GotResponse(_, _, _) =>
    case _ =>
  }

  /** A response is taken in a state that waits for it, if the sends it calls for succeed. */
  predicate Takes(l: Leg, kind: Method, code: int, ok: nat) {
    match kind
    case INVITE =>
      || l.state == ModifyProceed
      || (Waits(l.state) && (code < OK || ok >= 1))
      || (l.state == Cancelling && ok >= if OK <= code < MULTIPLE_CHOICES then 2 else 1)
    case BYE => l.state == Cancelling || l.state == Byeing
    case CANCEL => l.state == Cancelling && code >= OK
    case ACK => false
  }

  /** The status is that of the last response taken, or of the user's last answer to an INVITE. */
  lemma StepStatus(l: Leg, e: Happening)
    ensures Step(l, e.0, e.1).status ==
              match e.0
              case GotResponse(kind, code, _) => if Takes(l, kind, code, e.1.ok) then code else l.status
              case UserAccept => if Asked(l.state) then OK else l.status
              case UserDecline => if Asked(l.state) then DECLINE else l.status
              case _ => l.status
  {
    match e.0
    case GotResponse(_, _, _) =>
    case _ =>
  }

  /** States in which there is an INVITE of ours to acknowledge: it waits for its answer, or one may
      come again. */
  predicate Acknowledges(s: State) {
    Waits(s) || s == Cancelling || s == Established || s == Terminated
  }

  /** What a step has to send, by what happens. */
  function Due(l: Leg, e: Happening): seq<Message> {
    match e.0
    case UserInvite =>
      if l.state == Initial || l.state == Established then [Request(INVITE, e.1.newTid)]
      else if (l.state == Calling || l.state == Modify) && l.curTid in l.requests then
        [Request(l.requests[l.curTid], e.1.newTid)]
      else []
    case UserHangup =>
      if l.state == CallProceed || l.state == ModifyProceed then [Request(CANCEL, l.curTid)]
      else if l.state == Modify then [Request(BYE, l.curTid)]
      else if l.state == Established then [Request(BYE, e.1.newTid)]
      else if l.state == Byeing && l.curTid in l.requests then [Request(l.requests[l.curTid], e.1.newTid)]
      else []
    case UserAccept => if Asked(l.state) then [Response(INVITE, OK, l.curTid)] else []
    case UserDecline => if Asked(l.state) then [Response(INVITE, DECLINE, l.curTid)] else []
    case GotResponse(kind, code, tid) =>
      if kind != INVITE then []
      else if code >= OK then
        (if Acknowledges(l.state) then [Request(ACK, tid)] else [])
        + (if l.state == Cancelling && code < MULTIPLE_CHOICES then [Request(BYE, tid)] else [])
      else if l.state == Cancelling then [Request(CANCEL, tid)]
      else []
    case GotInvite(tid, looped, local, registered) =>
      if l.state != Initial && l.state != Established then []
      else [Response(INVITE, if looped then LOOP_DETECTED else if local && registered then RINGING else NOT_FOUND, tid)]
    case GotBye(tid) => if l.state == Established then [Response(BYE, OK, tid)] else []
    case GotCancel(_) =>
      if Asked(l.state) then [Response(CANCEL, OK, l.curTid), Response(INVITE, CANCELLED, l.curTid)] else []
    case GotAck(_) => []
  }

  predicate Asked(s: State) { s == Proceed || s == RecallProceed }

  /** Messages go out in order up to the first the provider refuses. */
  lemma StepSends(l: Leg, e: Happening)
    ensures var due := Due(l, e);
            Step(l, e.0, e.1).sent == l.sent + due[..if e.1.ok < |due| then e.1.ok else |due|]
  {
    hide Step, Due;
    if e.0.GotResponse? {
      ResponseSends(l, e);
    } else {
      OtherSends(l, e);
    }
  }

  lemma ResponseSends(l: Leg, e: Happening)
    requires e.0.GotResponse?
    ensures var due := Due(l, e);
            Step(l, e.0, e.1).sent == l.sent + due[..if e.1.ok < |due| then e.1.ok else |due|]
  {
    assert l.sent + [] == l.sent;
  }

  lemma OtherSends(l: Leg, e: Happening)
    requires !e.0.GotResponse?
    ensures var due := Due(l, e);
            Step(l, e.0, e.1).sent == l.sent + due[..if e.1.ok < |due| then e.1.ok else |due|]
  {
    assert l.sent + [] == l.sent;
  }

  /** The side that called, before its INVITE is answered. */
  predicate First(s: State) { s == Calling || s == CallProceed }

  /** Where a step leads that has sent what it had to. */
  function Leads(l: Leg, e: Happening): State {
    match e.0
    case UserInvite => if l.state == Initial then Calling else if l.state == Established then Modify else l.state
    case UserHangup =>
      if l.state == Calling then Terminated
      else if l.state == CallProceed || l.state == ModifyProceed then Cancelling
      else if l.state == Established || l.state == Modify then Byeing
      else l.state
    case UserAccept => if Asked(l.state) then Success else l.state
    case UserDecline => if l.state == Proceed then Failed else if l.state == RecallProceed then Success else l.state
    case GotResponse(INVITE, code, _) =>
      if Waits(l.state) then
        if code < OK then if First(l.state) then CallProceed else ModifyProceed
        else if code >= MULTIPLE_CHOICES && First(l.state) then Terminated
        else Established
      else if l.state == Cancelling && code >= MULTIPLE_CHOICES then Terminated
      else l.state
    case GotResponse(kind, code, _) =>
      if code >= OK && ((kind == BYE && l.state == Byeing) || (kind in {BYE, CANCEL} && l.state == Cancelling))
      then Terminated else l.state
    case GotInvite(_, looped, local, registered) =>
      if l.state != Initial && l.state != Established then l.state
      else if looped then Failed
      else if local && registered then if l.state == Initial then Proceed else RecallProceed
      else if l.state == Established then Established
      else if local then Failed else Terminated
    case GotBye(_) => if l.state == Established then Terminated else l.state
    case GotCancel(_) => if l.state == Proceed then Failed else if l.state == RecallProceed then Success else l.state
    case GotAck(_) => if l.state == Success then Established else if l.state == Failed then Terminated else l.state
  }

  /** A step that cannot send all it has to leaves the leg in its state. */
  lemma StepState(l: Leg, e: Happening)
    ensures Step(l, e.0, e.1).state == if e.1.ok < |Due(l, e)| then l.state else Leads(l, e)
  {
    match e.0
    case GotResponse(_, _, _) =>
    case _ =>
  }

  /** The current transaction is that of the last request sent as a new one or taken from the other
      side, and the leg remembers those it has opened itself. */
  lemma StepTransaction(l: Leg, e: Happening)
    ensures var l' := Step(l, e.0, e.1);
            var begins := (e.0.UserInvite? || (e.0.UserHangup? && (l.state == Established || l.state == Byeing)))
                          && Due(l, e) != [] && e.1.ok > 0;
            && l'.curTid == (if begins then e.1.newTid
                             else if e.0.GotInvite? && Due(l, e) != [] then e.0.tid
                             else if e.0.GotBye? && l.state == Established then e.0.tid
                             else l.curTid)
            && l'.requests == if begins then l.requests[e.1.newTid := Due(l, e)[0].kind] else l.requests
  {
    match e.0
    case GotResponse(_, _, _) =>
    case _ =>
  }

  function Acks(ms: seq<Message>): nat {
    if ms == [] then 0
    else Acks(ms[..|ms| - 1]) + if ms[|ms| - 1].Request? && ms[|ms| - 1].kind == ACK then 1 else 0
  }

  lemma AcksOfTwo(ms: seq<Message>, more: seq<Message>)
    requires |more| <= 2
    ensures Acks(ms + more) == Acks(ms) + (if |more| > 0 && more[0].Request? && more[0].kind == ACK then 1 else 0)
                               + if |more| > 1 && more[1].Request? && more[1].kind == ACK then 1 else 0
  {
    if more == [] {
      assert ms + more == ms;
    } else if |more| == 1 {
      assert (ms + more)[..|ms|] == ms;
    } else {
      assert (ms + more)[..|ms| + 1] == ms + [more[0]] && (ms + [more[0]])[..|ms|] == ms;
    }
  }

  /** A final response to an INVITE comes where one is to be acknowledged, and that can be sent. */
  predicate MustAck(l: Leg, e: Happening) {
    e.0.GotResponse? && e.0.kind == INVITE && e.0.code >= OK && Acknowledges(l.state) && e.1.ok > 0
  }

  function Finals(l: Leg, es: seq<Happening>): nat {
    if es == [] then 0
    else Finals(l, es[..|es| - 1]) + if MustAck(Run(l, es[..|es| - 1]), es[|es| - 1]) then 1 else 0
  }

  lemma StepAcks(l: Leg, e: Happening)
    requires forall n <- l.requests :: l.requests[n] != ACK
    ensures var l' := Step(l, e.0, e.1);
            && Acks(l'.sent) == Acks(l.sent) + (if MustAck(l, e) then 1 else 0)
            && forall n <- l'.requests :: l'.requests[n] != ACK
  {
    hide Step, Acks;
    StepSends(l, e);
    StepTransaction(l, e);
    var due := Due(l, e);
    AcksOfTwo(l.sent, due[..if e.1.ok < |due| then e.1.ok else |due|]);
  }

  /** Over any history there goes out one ACK for each final response that comes to a leg that has
      called, however often the other side repeats it, and no other. */
  lemma {:induction false} AckAccount(es: seq<Happening>)
    ensures var l := Run(NEW_LEG, es);
            Acks(l.sent) == Finals(NEW_LEG, es) && forall n <- l.requests :: l.requests[n] != ACK
  {
    hide Step, MustAck, Acks;
    if es == [] {
      assert Acks([]) == 0 by { NoAcks(); }
    } else {
      AckAccount(es[..|es| - 1]);
      StepAcks(Run(NEW_LEG, es[..|es| - 1]), es[|es| - 1]);
    }
  }

  lemma NoAcks()
    ensures Acks([]) == 0
  {}

  lemma StepHangups(l: Leg, e: Happening)
    ensures Hangups(Step(l, e.0, e.1).calls)
            == Hangups(l.calls) + (if LostByeReply(l, e) || EndsByHangup(l, e) then 1 else 0)
  {
    StepCallbacks(l, e);
    assert l.calls + [] == l.calls;
    TimesOfAppend(l.calls, HangupCallback, HangupCallback);
    TimesOfAppend(l.calls, HangupCallback, NotifyCallback);
    TimesOfAppend(l.calls, HangupCallback, ErrorCallback);
  }

  /** The leg becomes established, for the first time or again, by a 2xx to its INVITE. */
  predicate Joins(l: Leg, e: Happening) {
    && e.0.GotResponse? && e.0.kind == INVITE && OK <= e.0.code < MULTIPLE_CHOICES
    && l.state != Established && Step(l, e.0, e.1).state == Established
  }

  /** A call, or a change of one, is offered to the user. */
  predicate Offered(l: Leg, e: Happening) {
    && e.0.GotInvite? && !e.0.looped && e.0.local && e.0.registered
    && (l.state == Initial || l.state == Established)
  }

  /** An INVITE within a session fails: the leg is back where it was by another response to it, or
      its peer has called the INVITE off. */
  predicate Refused(l: Leg, e: Happening) {
    || (e.0.GotResponse? && e.0.kind == INVITE && e.0.code >= MULTIPLE_CHOICES
        && l.state != Established && Step(l, e.0, e.1).state == Established)
    || (e.0.GotCancel? && l.state != Success && Step(l, e.0, e.1).state == Success)
  }

  function Answers(l: Leg, es: seq<Happening>): nat {
    if es == [] then 0
    else Answers(l, es[..|es| - 1]) + if Joins(Run(l, es[..|es| - 1]), es[|es| - 1]) then 1 else 0
  }

  function Offers(l: Leg, es: seq<Happening>): nat {
    if es == [] then 0
    else Offers(l, es[..|es| - 1]) + if Offered(Run(l, es[..|es| - 1]), es[|es| - 1]) then 1 else 0
  }

  function Refusals(l: Leg, es: seq<Happening>): nat {
    if es == [] then 0
    else Refusals(l, es[..|es| - 1]) + if Refused(Run(l, es[..|es| - 1]), es[|es| - 1]) then 1 else 0
  }

  lemma StepNotes(l: Leg, e: Happening)
    ensures var l' := Step(l, e.0, e.1);
            && Times(l'.calls, NotifyCallback) ==
               Times(l.calls, NotifyCallback) + (if Joins(l, e) then 1 else 0) + (if Offered(l, e) then 1 else 0)
            && Times(l'.calls, ErrorCallback) == Times(l.calls, ErrorCallback) + if Refused(l, e) then 1 else 0
  {
    StepCallbacks(l, e);
    NotesByChange(l, e);
    hide Step, LostByeReply, EndsByHangup, Joins, Refused, Times;
    assert l.calls + [] == l.calls;
    forall d: Callback
      ensures Times(l.calls + [d], NotifyCallback) ==
                Times(l.calls, NotifyCallback) + if d == NotifyCallback then 1 else 0
      ensures Times(l.calls + [d], ErrorCallback) ==
                Times(l.calls, ErrorCallback) + if d == ErrorCallback then 1 else 0
    {
      TimesOfAppend(l.calls, NotifyCallback, d);
      TimesOfAppend(l.calls, ErrorCallback, d);
    }
  }

  /** The guards, by what they do to the state. */
  lemma NotesByChange(l: Leg, e: Happening)
    ensures Notifies(l, e) <==> Joins(l, e) || Offered(l, e)
    ensures Fails(l, e) <==> Refused(l, e)
    ensures !(Joins(l, e) && Offered(l, e))
  {
    match e.0
    case GotResponse(_, _, _) =>
    case _ =>
  }

  /** Over any history, with sends failing anywhere, the listener is notified once for every
      entry into a session by an answer and once for every offer, and hears of an error once for
      every INVITE that fails within a session. */
  lemma {:induction false} NotifyAccount(es: seq<Happening>)
    ensures var calls := Run(NEW_LEG, es).calls;
            && Times(calls, NotifyCallback) == Answers(NEW_LEG, es) + Offers(NEW_LEG, es)
            && Times(calls, ErrorCallback) == Refusals(NEW_LEG, es)
  {
    hide Step, Joins, Offered, Refused;
    if es != [] {
      NotifyAccount(es[..|es| - 1]);
      StepNotes(Run(NEW_LEG, es[..|es| - 1]), es[|es| - 1]);
    }
  }

  /** Over any history, with sends failing anywhere, the callback fires once for each lost
      reply to a BYE and at most once more, and that once more is the end of the leg. */
  lemma {:induction false} HangupAccount(es: seq<Happening>)
    ensures var l := Run(NEW_LEG, es);
            && Hangups(l.calls) == LostByeReplies(NEW_LEG, es) + Endings(NEW_LEG, es)
            && Endings(NEW_LEG, es) <= 1
            && (Endings(NEW_LEG, es) == 1 ==> Over(l.state))
  {
    if es != [] {
      var before := es[..|es| - 1];
      HangupAccount(before);
      StepCallbacks(Run(NEW_LEG, before), es[|es| - 1]);
      StepHangups(Run(NEW_LEG, before), es[|es| - 1]);
    }
  }

  /** No input whatever revives a leg that is failed or terminated. */
  lemma {:induction false} OverIsFinal(l: Leg, es: seq<Happening>)
    requires Over(l.state)
    ensures Over(Run(l, es).state) && Run(l, es).calls == l.calls
  {
    if es != [] {
      OverIsFinal(l, es[..|es| - 1]);
      StepCallbacks(Run(l, es[..|es| - 1]), es[|es| - 1]);
    }
  }

  /** Event `i` of a history finds an established leg hung up by a BYE it cannot answer. */
  predicate LostAt(es: seq<Happening>, i: nat)
    requires i < |es|
  {
    LostByeReply(Run(NEW_LEG, es[..i]), es[i])
  }

  predicate EndsAt(es: seq<Happening>, i: nat)
    requires i < |es|
  {
    EndsByHangup(Run(NEW_LEG, es[..i]), es[i])
  }

  /** No lost reply to a BYE is followed by another or by a hang-up that ends the leg. */
  ghost predicate NoneAfterLost(es: seq<Happening>) {
    forall i, j :: 0 <= i < j < |es| && LostAt(es, i) ==> !LostAt(es, j) && !EndsAt(es, j)
  }

  /** The callbacks of a history, by the events that fire them. */
  lemma {:induction false} CallbacksAt(es: seq<Happening>)
    ensures var n := Hangups(Run(NEW_LEG, es).calls);
            && (n == 0 <==> forall i: nat :: i < |es| ==> !LostAt(es, i) && !EndsAt(es, i))
            && (n <= 1 <==> NoneAfterLost(es))
    ensures forall i: nat :: i < |es| && EndsAt(es, i) ==> Over(Run(NEW_LEG, es).state)
  {
    hide LostAt, EndsAt, Over, Hangups;
    if es != [] {
      var n := |es| - 1;
      CallbacksAt(es[..n]);
      LastCallback(es);
      forall i: nat | i < n
        ensures LostAt(es, i) == LostAt(es[..n], i) && EndsAt(es, i) == EndsAt(es[..n], i)
      {
        AtPrefix(es, n, i);
      }
    } else {
      NoCallback();
    }
  }

  lemma NoCallback()
    ensures Hangups(Run(NEW_LEG, []).calls) == 0
  {}

  lemma AtPrefix(es: seq<Happening>, n: nat, i: nat)
    requires i < n <= |es|
    ensures LostAt(es, i) == LostAt(es[..n], i) && EndsAt(es, i) == EndsAt(es[..n], i)
  {
    hide LostByeReply, EndsByHangup, Run;
    assert es[..n][..i] == es[..i] && es[..n][i] == es[i];
  }

  lemma LastCallback(es: seq<Happening>)
    requires es != []
    ensures var n := |es| - 1; var l, l' := Run(NEW_LEG, es[..n]), Run(NEW_LEG, es);
            && Hangups(l'.calls) == Hangups(l.calls) + (if LostAt(es, n) || EndsAt(es, n) then 1 else 0)
            && (Over(l.state) || EndsAt(es, n) ==> Over(l'.state))
            && (Over(l.state) ==> !LostAt(es, n) && !EndsAt(es, n))
  {
    hide LostByeReply, EndsByHangup, Step, Hangups;
    var n := |es| - 1;
    StepHangups(Run(NEW_LEG, es[..n]), es[n]);
    OverStays(Run(NEW_LEG, es[..n]), es[n]);
  }

  lemma OverStays(l: Leg, e: Happening)
    ensures Over(l.state) || EndsByHangup(l, e) ==> Over(Step(l, e.0, e.1).state)
    ensures Over(l.state) ==> !LostByeReply(l, e) && !EndsByHangup(l, e)
  {
    StepCallbacks(l, e);
  }

  /** Exactly when the listener hears of the hang-up at most once; in particular whenever
      no reply to a BYE is lost, whatever other sends fail. */
  lemma HangupAtMostOnce(es: seq<Happening>)
    ensures Hangups(Run(NEW_LEG, es).calls) <= 1 <==> NoneAfterLost(es)
    ensures LostByeReplies(NEW_LEG, es) == 0 ==> NoneAfterLost(es)
  {
    CallbacksAt(es);
    HangupAccount(es);
  }

  lemma RunAppend(l: Leg, es: seq<Happening>, e: Happening)
    ensures Run(l, es + [e]) == Step(Run(l, es), e.0, e.1)
    ensures LostByeReplies(l, es + [e])
            == LostByeReplies(l, es) + if LostByeReply(Run(l, es), e) then 1 else 0
  {
    assert (es + [e])[..|es|] == es;
  }

  const GOOD := Env(9, 0)

  /** A called leg rings, is accepted and gets its ACK. */
  const ANSWERED: seq<Happening> :=
    [(GotInvite(0, false, true, true), GOOD), (UserAccept, GOOD), (GotAck(0), GOOD)]

  lemma AnsweredRun()
    ensures Run(NEW_LEG, ANSWERED).state == Established
    ensures Run(NEW_LEG, ANSWERED).calls == [NotifyCallback]
    ensures LostByeReplies(NEW_LEG, ANSWERED) == 0
  {
    var empty: seq<Happening> := [];
    RunAppend(NEW_LEG, [], ANSWERED[0]);
    assert empty + [ANSWERED[0]] == ANSWERED[..1];
    RunAppend(NEW_LEG, ANSWERED[..1], ANSWERED[1]);
    assert ANSWERED[..1] + [ANSWERED[1]] == ANSWERED[..2];
    RunAppend(NEW_LEG, ANSWERED[..2], ANSWERED[2]);
    assert ANSWERED[..2] + [ANSWERED[2]] == ANSWERED;
  }

  /** The hypothesis on the BYE reply is needed: a called leg that is set up, loses its first
      reply and answers the repeated BYE tells its listener twice. */
  lemma TwoHangups()
    ensures exists es: seq<Happening> ::
              && Hangups(Run(NEW_LEG, es).calls) == 2
              && LostByeReplies(NEW_LEG, es) == 1
              && Run(NEW_LEG, es).state == Terminated
  {
    var lost, again := (GotBye(1), Env(0, 0)), (GotBye(1), GOOD);
    AnsweredRun();
    var l := Run(NEW_LEG, ANSWERED);
    ByeTwice(l, lost, again);
    hide Step, LostByeReply, EndsByHangup, LostByeReplies, Run, Hangups, ANSWERED;
    RunAppend(NEW_LEG, ANSWERED, lost);
    RunAppend(NEW_LEG, ANSWERED + [lost], again);
    assert Hangups(Run(NEW_LEG, ANSWERED + [lost] + [again]).calls) == 2;
  }

  lemma ByeTwice(l: Leg, lost: Happening, again: Happening)
    requires l.state == Established && l.calls == [NotifyCallback]
    requires lost == (GotBye(1), Env(0, 0)) && again == (GotBye(1), GOOD)
    ensures var l' := Step(l, lost.0, lost.1); var l2 := Step(l', again.0, again.1);
            && LostByeReply(l, lost) && !LostByeReply(l', again)
            && l2.state == Terminated && Hangups(l2.calls) == 2
  {
    hide Step, LostByeReply, EndsByHangup, Hangups;
    ByeLost(l);
    ByeAnsweredAgain(Step(l, lost.0, lost.1));
    StepHangups(l, lost);
    StepHangups(Step(l, lost.0, lost.1), again);
    NotifiedOnly();
  }

  lemma NotifiedOnly()
    ensures Hangups([NotifyCallback]) == 0
  {
    TimesOfAppend([], HangupCallback, NotifyCallback);
  }

  lemma ByeLost(l: Leg)
    requires l.state == Established
    ensures var e: Happening := (GotBye(1), Env(0, 0));
            LostByeReply(l, e) && Step(l, e.0, e.1).state == Established
  {}

  lemma ByeAnsweredAgain(l: Leg)
    requires l.state == Established
    ensures var e: Happening := (GotBye(1), GOOD);
            !LostByeReply(l, e) && EndsByHangup(l, e) && Step(l, e.0, e.1).state == Terminated
  {}
}
