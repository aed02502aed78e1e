/**
  How a session of two legs ends.

  A leg that has hung up ignores the BYE of the other, and a leg that is over ignores
  everything; so there are sessions that nobody can close any more.  This says which, and
  which close without further help from either user.
 */
module SipClosing {
  import opened CallLegs
  import opened SipSession

  predicate Hung(s: State) {
    s == Byeing || s == Cancelling
  }

  ghost predicate HasBye(ms: seq<Message>) {
    exists m :: m in ms && IsByeRequest(m)
  }

  ghost predicate HasReply(ms: seq<Message>) {
    exists m :: m in ms && IsByeReply(m)
  }

  lemma HasOfAppend(ms: seq<Message>, more: seq<Message>)
    ensures HasBye(ms + more) <==> HasBye(ms) || HasBye(more)
    ensures HasReply(ms + more) <==> HasReply(ms) || HasReply(more)
  {
    assert forall m :: m in ms + more <==> m in ms || m in more;
  }

  lemma HasOfRest(ms: seq<Message>)
    requires ms != []
    ensures HasBye(ms) <==> IsByeRequest(ms[0]) || HasBye(ms[1..])
    ensures HasReply(ms) <==> IsByeReply(ms[0]) || HasReply(ms[1..])
  {
    assert [ms[0]] + ms[1..] == ms;
    HasOfAppend([ms[0]], ms[1..]);
    HasOfOne(ms[0]);
  }

  lemma HasOfOne(m: Message)
    ensures HasBye([m]) <==> IsByeRequest(m)
    ensures HasReply([m]) <==> IsByeReply(m)
  {
    assert m in [m];
  }

  lemma RequestsOnly(ms: seq<Message>)
    requires ByeRequests(ms)
    ensures !HasReply(ms) && (HasBye(ms) <==> ms != [])
  {
    if ms != [] {
      assert ms[0] in ms;
    }
  }

  // ----------------------------------------------------- what a leg in session does

  lemma PressedInSession(l: Leg, i: Input, next: nat)
    requires InSession(l.state) && Repeats(l) && IsUser(i)
    ensures var l' := React(l, i, next);
            && (l.state == Established && i.UserHangup? ==>
                  l'.state == Byeing && |l'.sent| == 1 && IsByeRequest(l'.sent[0]))
            && (!(l.state == Established && i.UserHangup?) ==> l'.state == l.state)
            && ByeRequests(l'.sent)
            && (l'.sent != [] ==> l'.state == Byeing)
  {}

  lemma GetsBye(l: Leg, tid: nat, next: nat)
    requires InSession(l.state)
    ensures var l' := React(l, GotBye(tid), next);
            if l.state == Established then l'.state == Terminated && l'.sent == [Response(BYE, OK, tid)]
            else l'.state == l.state && l'.sent == []
  {}

  lemma GetsByeReply(l: Leg, code: int, tid: nat, next: nat)
    requires InSession(l.state) && code >= OK
    ensures var l' := React(l, GotResponse(BYE, code, tid), next);
            l'.state == (if Hung(l.state) then Terminated else l.state) && l'.sent == []
  {}

  lemma PressedWaiting(l: Leg, i: Input, next: nat)
    requires l.state == Success || l.state == Failed || l.state == Terminated
    requires IsUser(i)
    ensures var l' := React(l, i, next); l'.state == l.state && l'.sent == []
  {}

  // --------------------------------------------------------- what the BYEs have done

  /** A BYE that will still be answered, or its answer, is on its way to whoever needs it. */
  ghost predicate Ledger(g: Session) {
    match g.b.state
    case Success => Hung(g.a.state) && g.down == [] ==> HasBye(g.up)
    case Established =>
      && g.down == [] && !HasReply(g.up)
      && (Hung(g.a.state) ==> HasBye(g.up))
      && (g.a.state == Terminated ==> g.up == [])
    case Byeing =>
      && !HasReply(g.down)
      && (g.a.state == Established ==> HasBye(g.down))
      && (g.a.state != Terminated ==> !HasReply(g.up))
    case Terminated => Hung(g.a.state) ==> HasReply(g.down) || Answered(g)
    case _ => true
  }

  lemma EarlyLedger(g: Session)
    requires Quiet(g) || Inviting(g) || Ringing(g) || Answered(g)
    ensures Ledger(g)
  {}

  lemma NobodyLeft(g: Session)
    requires Acked(g)
    ensures g.a.state == Established ==> g.b.state != Terminated && g.up == []
  {}

  lemma AckedCallerPresses(g: Session, i: Input)
    requires Acked(g) && Ledger(g) && Repeats(g.a) && IsUser(i)
    ensures Ledger(CallerStep(g, i))
  {
    hide React, Stamp, HasBye, HasReply, ByeTraffic, ByeRequests, Answered;
    NobodyLeft(g);
    PressedInSession(g.a, i, g.next);
    var sent := React(g.a, i, g.next).sent;
    RequestsOnly(sent);
    HasOfAppend(g.up, sent);
    assert g.up + [] == g.up;
    AckedNotAnswered(g);
  }

  lemma AckedNotAnswered(g: Session)
    requires Acked(g)
    ensures !Answered(g)
  {
    if g.down != [] {
      assert g.down[|g.down| - 1] in g.down;
    }
  }

  lemma AckedCalleePresses(g: Session, i: Input)
    requires Acked(g) && Ledger(g) && Repeats(g.b) && IsUser(i)
    ensures Ledger(CalleeStep(g, i))
  {
    hide React, Stamp, HasBye, HasReply, ByeTraffic, ByeRequests, Answered;
    AckedNotAnswered(g);
    PressedInSession(g.b, i, g.next);
    var sent := React(g.b, i, g.next).sent;
    RequestsOnly(sent);
    RequestsOnly([]);
    HasOfAppend(g.down, sent);
    assert g.down + [] == g.down;
  }

  /** What a message of BYE traffic does to the leg that gets it. */
  lemma GetsTraffic(l: Leg, m: Message, looped: bool, local: bool, registered: bool, next: nat)
    requires InSession(l.state) && (IsByeRequest(m) || IsByeReply(m))
    ensures var l' := React(l, Arrival(m, looped, local, registered), next);
            && l'.state == (if IsByeRequest(m) && l.state == Established then Terminated
                            else if IsByeReply(m) && Hung(l.state) then Terminated else l.state)
            && (if IsByeRequest(m) && l.state == Established then |l'.sent| == 1 && IsByeReply(l'.sent[0])
                else l'.sent == [])
  {
    match m
    case Request(kind, tid) => GetsBye(l, tid, next);
    case Response(kind, code, tid) => GetsByeReply(l, code, tid, next);
  }

  lemma NotBoth(m: Message)
    ensures !(IsByeRequest(m) && IsByeReply(m))
  {}

  lemma AckedUpArrives(g: Session, looped: bool, local: bool, registered: bool)
    requires Acked(g) && Ledger(g) && g.up != []
    ensures Ledger(Next(g, DeliverUp(looped, local, registered)))
  {
    hide React, Stamp, HasBye, HasReply, ByeTraffic, IsByeRequest, IsByeReply, Answered, Arrival;
    NobodyLeft(g);
    AckedNotAnswered(g);
    TrafficRest(g.up);
    HasOfRest(g.up);
    NotBoth(g.up[0]);
    GetsTraffic(g.b, g.up[0], looped, local, registered, g.next);
    var sent := React(g.b, Arrival(g.up[0], looped, local, registered), g.next).sent;
    HasOfAppend(g.down, sent);
    if sent != [] {
      HasOfOne(sent[0]);
      assert sent == [sent[0]];
    }
    assert g.down + [] == g.down;
  }

  lemma AckedDownArrives(g: Session)
    requires Acked(g) && Ledger(g) && g.down != []
    ensures Ledger(Next(g, DeliverDown))
  {
    hide React, Stamp, HasBye, HasReply, ByeTraffic, IsByeRequest, IsByeReply, Answered, Arrival;
    NobodyLeft(g);
    AckedNotAnswered(g);
    TrafficRest(g.down);
    HasOfRest(g.down);
    NotBoth(g.down[0]);
    GetsTraffic(g.a, g.down[0], false, false, false, g.next);
    var sent := React(g.a, Arrival(g.down[0], false, false, false), g.next).sent;
    HasOfAppend(g.up, sent);
    if sent != [] {
      HasOfOne(sent[0]);
      assert sent == [sent[0]];
    }
    assert g.up + [] == g.up;
  }

  lemma AckSentPresses(g: Session, cancelled: bool, byes: seq<Message>, i: Input)
    requires AckSentAs(g, cancelled, byes) && Ledger(g) && Repeats(g.a) && IsUser(i)
    ensures Ledger(CallerStep(g, i)) && Ledger(CalleeStep(g, i))
  {
    hide React, Stamp, HasBye, HasReply, ByeRequests, Answered;
    PressedInSession(g.a, i, g.next);
    PressedWaiting(g.b, i, g.next);
    var sent := React(g.a, i, g.next).sent;
    RequestsOnly(sent);
    HasOfAppend(g.up, sent);
    assert g.up + [] == g.up && g.down + [] == g.down;
  }

  lemma AckSentArrives(g: Session, cancelled: bool, byes: seq<Message>, looped: bool, local: bool, registered: bool)
    requires AckSentAs(g, cancelled, byes) && Ledger(g)
    ensures Ledger(Next(g, DeliverUp(looped, local, registered)))
  {
    AckSentUp(g, cancelled, byes, looped, local, registered);
    AckSentParts(g, cancelled, byes);
    hide React, Stamp, HasBye, HasReply, ByeRequests, Answered;
    LegWaits(g.b, 0, g.next);
    HasOfRest(g.up);
    RequestsOnly(byes);
    assert g.down + [] == g.down;
  }

  lemma AckSentParts(g: Session, cancelled: bool, byes: seq<Message>)
    requires AckSentAs(g, cancelled, byes)
    ensures g.up != [] && g.up[0] == (if cancelled then I_CANCEL else I_ACK)
    ensures g.up[1..] == (if cancelled then [I_ACK] + byes else byes)
    ensures !IsByeRequest(g.up[0])
  {
    if cancelled {
      assert g.up == [I_CANCEL] + ([I_ACK] + byes);
    } else {
      assert g.up == [I_ACK] + byes;
    }
  }

  lemma FinalLedger(g: Session, f: Message)
    requires AnsweredWith(g, f) && g.down == [f]
    ensures Ledger(Next(g, DeliverDown))
  {
    hide React, Stamp, HasBye, HasReply, ByeRequests, Answered;
    LegGetsFinal(g.a, f, g.next);
    var sent := React(g.a, Arrival(f, false, false, false), g.next).sent;
    HasOfAppend(g.up, sent);
    HasOfAppend([I_ACK], [I_BYE]);
    HasOfOne(I_BYE);
  }

  lemma LedgerAfterCaller(g: Session, i: Input)
    requires Inv(g) && Ledger(g) && Enabled(g, CallerDoes(i))
    ensures Ledger(CallerStep(g, i))
  {
    hide React, Stamp, Handshake, HasBye, HasReply, Acked, AckSentAs, Ledger, AnsweredWith, CallerStep, Ringing;
    if !Quiet(g) { Started(g); }
    if Quiet(g) { QuietCaller(g, i); EarlyLedger(CallerStep(g, i)); }
    else if Inviting(g) { InvitingCaller(g, i); EarlyLedger(CallerStep(g, i)); }
    else if Ringing(g) { RingingCaller(g, i); EarlyLedger(CallerStep(g, i)); }
    else if Answered(g) {
      AnsweredCaller(g, g.down[|g.down| - 1], i);
      AnsweredIs(CallerStep(g, i), g.down[|g.down| - 1]);
      EarlyLedger(CallerStep(g, i));
    } else if AckSent(g) {
      var cancelled, byes :| AckSentAs(g, cancelled, byes);
      AckSentPresses(g, cancelled, byes, i);
    } else {
      AckedCallerPresses(g, i);
    }
  }

  lemma LedgerAfterCallee(g: Session, i: Input)
    requires Inv(g) && Ledger(g) && Enabled(g, CalleeDoes(i))
    ensures Ledger(CalleeStep(g, i))
  {
    hide React, Stamp, Handshake, HasBye, HasReply, Acked, AckSentAs, Ledger, AnsweredWith, CalleeStep, Ringing;
    if Quiet(g) || Inviting(g) { BeforeRinging(g, i); EarlyLedger(CalleeStep(g, i)); }
    else if Ringing(g) { RingingCallee(g, i); EarlyLedger(CalleeStep(g, i)); }
    else if Answered(g) {
      AnsweredCallee(g, g.down[|g.down| - 1], i);
      AnsweredIs(CalleeStep(g, i), g.down[|g.down| - 1]);
      EarlyLedger(CalleeStep(g, i));
    } else if AckSent(g) {
      var cancelled, byes :| AckSentAs(g, cancelled, byes);
      AckSentPresses(g, cancelled, byes, i);
    } else {
      AckedCalleePresses(g, i);
    }
  }

  lemma LedgerAfterUp(g: Session, looped: bool, local: bool, registered: bool)
    requires Inv(g) && Ledger(g) && g.up != []
    ensures Ledger(Next(g, DeliverUp(looped, local, registered)))
  {
    hide React, Stamp, Handshake, HasBye, HasReply, Acked, AckSentAs, Ledger, AnsweredWith, CalleeStep, Ringing,
      Arrival;
    var g' := Next(g, DeliverUp(looped, local, registered));
    if Inviting(g) { InvitingUp(g, looped, local, registered); EarlyLedger(g'); }
    else if Ringing(g) { RingingUp(g, looped, local, registered); EarlyLedger(g'); }
    else if Answered(g) {
      AnsweredUp(g, g.down[|g.down| - 1], looped, local, registered);
      AnsweredIs(g', g.down[|g.down| - 1]);
      EarlyLedger(g');
    } else if AckSent(g) {
      var cancelled, byes :| AckSentAs(g, cancelled, byes);
      AckSentArrives(g, cancelled, byes, looped, local, registered);
    } else {
      AckedUpArrives(g, looped, local, registered);
    }
  }

  lemma LedgerAfterDown(g: Session)
    requires Inv(g) && Ledger(g) && g.down != []
    ensures Ledger(Next(g, DeliverDown))
  {
    AckSentNoDown(g);
    hide React, Stamp, Handshake, HasBye, HasReply, Acked, AckSentAs, Ledger, AnsweredWith, CallerStep, Ringing,
      Arrival;
    var g' := Next(g, DeliverDown);
    if Ringing(g) { RingingDown(g); EarlyLedger(g'); }
    else if Answered(g) {
      var f := g.down[|g.down| - 1];
      if g.down == [f] {
        FinalLedger(g, f);
      } else {
        AnsweredEarlier(g, f);
        AnsweredIs(g', f);
        EarlyLedger(g');
      }
    } else {
      AckedDownArrives(g);
    }
  }

  lemma AckSentNoDown(g: Session)
    ensures AckSent(g) ==> g.down == []
  {}

  lemma LedgerKept(g: Session, act: Action)
    requires Inv(g) && Ledger(g) && Enabled(g, act)
    ensures Ledger(Next(g, act))
  {
    hide Inv, Ledger, CallerStep, CalleeStep;
    match act
    case CallerDoes(i) => LedgerAfterCaller(g, i);
    case CalleeDoes(i) => LedgerAfterCallee(g, i);
    case DeliverUp(looped, local, registered) => LedgerAfterUp(g, looped, local, registered);
    case DeliverDown => LedgerAfterDown(g);
  }

  /** In every reachable state a leg that waits for the answer to its BYE has the BYE or the
      answer on its way, unless the other leg has hung up too. */
  lemma {:induction false} LedgerReachable(acts: seq<Action>)
    ensures Ledger(SipSession.Run(acts))
  {
    hide Inv, Ledger, Next;
    if acts == [] {
      LedgerAtStart();
    } else {
      var before, act := acts[..|acts| - 1], acts[|acts| - 1];
      LedgerReachable(before);
      Reachable(before);
      if Enabled(SipSession.Run(before), act) {
        LedgerKept(SipSession.Run(before), act);
      }
    }
  }

  lemma LedgerAtStart()
    ensures Ledger(START)
  {}

  // ------------------------------------------------------- sessions that close alone

  predicate BothOver(g: Session) {
    g.a.state == Terminated && g.b.state == Terminated
  }

  predicate AtRest(g: Session) {
    g.up == [] && g.down == []
  }

  /** Deliveries alone will end this session. */
  ghost predicate Closing(g: Session) {
    match g.b.state
    case Proceed => g.a.state == Cancelling
    case Failed => true
    case Terminated => true
    case Success => Hung(g.a.state)
    case Established => Hung(g.a.state)
    case Byeing => g.a.state == Established || (g.a.state == Terminated && HasReply(g.up))
    case _ => false
  }

  /** Nobody can end this session any more. */
  ghost predicate Dangling(g: Session) {
    match g.b.state
    case Success => g.a.state == Terminated
    case Established => g.a.state == Terminated
    case Byeing => Hung(g.a.state) || (g.a.state == Terminated && !HasReply(g.up))
    case _ => false
  }

  lemma ClosedAtRest(g: Session)
    requires Inv(g) && Ledger(g) && AtRest(g)
    ensures Closing(g) <==> BothOver(g)
  {
    hide Handshake, ByeTraffic, ByeRequests;
  }

  lemma ClosingEarly(g: Session, act: Action)
    requires Inv(g) && (Ringing(g) || Answered(g)) && IsDelivery(act) && Enabled(g, act)
    ensures Closing(g) ==> Closing(Next(g, act))
    ensures !Closing(g) ==> !Closing(Next(g, act))
  {
    hide Handshake, Stamp, ByeTraffic, ByeRequests, HasBye, HasReply;
    match act
    case DeliverUp(looped, local, registered) =>
      if Ringing(g) { LegIsCancelled(g.b, g.next); } else { LegWaits(g.b, 0, g.next); }
    case DeliverDown =>
      if Answered(g) && |g.down| == 1 { LegGetsFinal(g.a, g.down[0], g.next); }
  }

  lemma ClosingAckSent(g: Session, cancelled: bool, byes: seq<Message>, looped: bool, local: bool, registered: bool)
    requires AckSentAs(g, cancelled, byes)
    ensures Closing(g) <==> Closing(Next(g, DeliverUp(looped, local, registered)))
  {
    hide React, Stamp, HasBye, HasReply, ByeRequests;
    AckSentParts(g, cancelled, byes);
    LegWaits(g.b, 0, g.next);
  }

  lemma ClosingAcked(g: Session, act: Action)
    requires Acked(g) && Ledger(g) && IsDelivery(act) && Enabled(g, act)
    ensures Closing(g) <==> Closing(Next(g, act))
  {
    hide React, Stamp, HasBye, HasReply, ByeTraffic, IsByeRequest, IsByeReply, Answered, Arrival;
    NobodyLeft(g);
    match act
    case DeliverUp(looped, local, registered) =>
      TrafficRest(g.up);
      HasOfRest(g.up);
      NotBoth(g.up[0]);
      GetsTraffic(g.b, g.up[0], looped, local, registered, g.next);
    case DeliverDown =>
      TrafficRest(g.down);
      HasOfRest(g.down);
      NotBoth(g.down[0]);
      GetsTraffic(g.a, g.down[0], false, false, false, g.next);
      var sent := React(g.a, Arrival(g.down[0], false, false, false), g.next).sent;
      HasOfAppend(g.up, sent);
      if sent != [] {
        HasOfOne(sent[0]);
        assert sent == [sent[0]];
      }
      assert g.up + [] == g.up;
  }

  /** The callee rings for this delivery of the INVITE. */
  const RINGS := DeliverUp(false, true, true)

  /** Deliveries keep a closing session closing, and one that is not, not; but an INVITE may be
      refused, and then the session closes. */
  lemma ClosingKept(g: Session, act: Action)
    requires Inv(g) && Ledger(g) && IsDelivery(act) && Enabled(g, act)
    ensures Closing(g) ==> Closing(Next(g, act))
    ensures !Closing(g) && (act.DeliverUp? ==> act == RINGS) ==> !Closing(Next(g, act))
  {
    AckSentNoDown(g);
    hide React, Stamp, Handshake, HasBye, HasReply, Acked, AckSentAs, Ledger, AnsweredWith, CalleeStep, CallerStep,
      Ringing, Arrival;
    if Inviting(g) {
      if act == RINGS { InvitingRings(g); }
    } else if Ringing(g) || Answered(g) {
      ClosingEarly(g, act);
    } else if AckSent(g) {
      var cancelled, byes :| AckSentAs(g, cancelled, byes);
      ClosingAckSent(g, cancelled, byes, act.looped, act.local, act.registered);
    } else {
      ClosingAcked(g, act);
    }
  }

  lemma InvitingRings(g: Session)
    requires Inviting(g)
    ensures !Closing(Next(g, RINGS))
  {
    LegGetsInvite(g.b, false, true, true, g.next);
  }

  // ------------------------------------------------------ deliveries come to an end

  /** A message weighs more than what a leg may send when it gets it. */
  function Weight(m: Message): nat {
    match m
    case Request(INVITE, _) => 8
    case Request(CANCEL, _) => 6
    case Request(BYE, _) => 2
    case Request(ACK, _) => 1
    case Response(INVITE, code, _) => if code < OK then 7 else 4
    case Response(_, _, _) => 1
  }

  function Load(ms: seq<Message>): nat {
    if ms == [] then 0 else Weight(ms[0]) + Load(ms[1..])
  }

  lemma {:induction false} LoadOfAppend(ms: seq<Message>, more: seq<Message>)
    ensures Load(ms + more) == Load(ms) + Load(more)
  {
    if ms == [] {
      assert ms + more == more;
    } else {
      assert (ms + more)[1..] == ms[1..] + more;
      LoadOfAppend(ms[1..], more);
    }
  }

  lemma ReplyIsLighter(l: Leg, m: Message, looped: bool, local: bool, registered: bool, next: nat)
    ensures Load(React(l, Arrival(m, looped, local, registered), next).sent) < Weight(m)
  {
    var sent := React(l, Arrival(m, looped, local, registered), next).sent;
    LoadOfFew(sent);
    match m
    case Request(INVITE, _) =>
    case Request(CANCEL, _) =>
    case Request(BYE, _) =>
    case Request(ACK, _) =>
    case Response(_, _, _) =>
  }

  lemma LoadOfFew(ms: seq<Message>)
    ensures |ms| == 0 ==> Load(ms) == 0
    ensures |ms| == 1 ==> Load(ms) == Weight(ms[0])
    ensures |ms| == 2 ==> Load(ms) == Weight(ms[0]) + Weight(ms[1])
  {
    if |ms| == 2 {
      assert ms[1..][1..] == [];
    }
  }

  /** Every delivery leaves less to deliver, whatever the two legs are doing. */
  lemma DeliveryLightens(g: Session, act: Action)
    requires IsDelivery(act) && Enabled(g, act)
    ensures Load(Next(g, act).up) + Load(Next(g, act).down) < Load(g.up) + Load(g.down)
  {
    hide React, Weight;
    match act
    case DeliverUp(looped, local, registered) =>
      ReplyIsLighter(g.b, g.up[0], looped, local, registered, g.next);
      LoadOfAppend(g.down, React(g.b, Arrival(g.up[0], looped, local, registered), g.next).sent);
    case DeliverDown =>
      ReplyIsLighter(g.a, g.down[0], false, false, false, g.next);
      LoadOfAppend(g.up, React(g.a, Arrival(g.down[0], false, false, false), g.next).sent);
  }

  ghost predicate OnlyDeliveries(acts: seq<Action>) {
    forall act <- acts :: IsDelivery(act)
  }

  /** However they are ordered, deliveries keep a closing session closing. */
  lemma {:induction false} StillClosing(acts: seq<Action>, more: seq<Action>)
    requires OnlyDeliveries(more) && Closing(SipSession.Run(acts))
    ensures Closing(SipSession.Run(acts + more))
    decreases |more|
  {
    hide Closing, Inv, Ledger, Next;
    if more == [] {
      assert acts + more == acts;
    } else {
      var act := more[0];
      assert act in more;
      Reachable(acts);
      LedgerReachable(acts);
      SipSession.RunAppend(acts, act);
      if Enabled(SipSession.Run(acts), act) {
        ClosingKept(SipSession.Run(acts), act);
      }
      StillClosing(acts + [act], more[1..]);
      assert acts + [act] + more[1..] == acts + more;
    }
  }

  /** Deliveries come to rest, and if the callee rings for its INVITE they do not make a session
      closing that was not. */
  lemma {:induction false} ComesToRest(acts: seq<Action>) returns (more: seq<Action>)
    ensures OnlyDeliveries(more) && AtRest(SipSession.Run(acts + more))
    ensures Closing(SipSession.Run(acts)) <==> Closing(SipSession.Run(acts + more))
    decreases Load(SipSession.Run(acts).up) + Load(SipSession.Run(acts).down)
  {
    hide Closing, Inv, Ledger, Next, Load, SipSession.Run;
    var g := SipSession.Run(acts);
    if AtRest(g) {
      more := [];
      assert acts + more == acts;
    } else {
      var act := if g.up != [] then RINGS else DeliverDown;
      Reachable(acts);
      LedgerReachable(acts);
      SipSession.RunAppend(acts, act);
      DeliveryLightens(g, act);
      ClosingKept(g, act);
      var rest := ComesToRest(acts + [act]);
      more := [act] + rest;
      assert acts + more == acts + [act] + rest;
    }
  }

  /** Whatever order deliveries take, when nothing is left to deliver both legs are over. */
  ghost predicate ClosesAlone(acts: seq<Action>) {
    forall more: seq<Action> ::
      OnlyDeliveries(more) && AtRest(SipSession.Run(acts + more)) ==> BothOver(SipSession.Run(acts + more))
  }

  /** Exactly which sessions the channels close with no help from either user. */
  lemma ClosesAloneExactly(acts: seq<Action>)
    ensures ClosesAlone(acts) <==> Closing(SipSession.Run(acts))
  {
    hide Closing, Inv, Ledger, SipSession.Run, BothOver, AtRest;
    if Closing(SipSession.Run(acts)) {
      forall more: seq<Action> | OnlyDeliveries(more) && AtRest(SipSession.Run(acts + more))
        ensures BothOver(SipSession.Run(acts + more))
      {
        StillClosing(acts, more);
        Reachable(acts + more);
        LedgerReachable(acts + more);
        ClosedAtRest(SipSession.Run(acts + more));
      }
    } else {
      var more := ComesToRest(acts);
      Reachable(acts + more);
      LedgerReachable(acts + more);
      ClosedAtRest(SipSession.Run(acts + more));
    }
  }

  // --------------------------------------------------- sessions that never close again

  lemma DanglingAnswered(g: Session, act: Action)
    requires Inv(g) && Answered(g) && Dangling(g) && Enabled(g, act)
    ensures Dangling(Next(g, act))
  {
    hide Handshake, Stamp, ByeTraffic, ByeRequests, HasBye, HasReply;
    match act
    case CallerDoes(i) => LegPressed(g.a, i, g.next);
    case CalleeDoes(i) => PressedWaiting(g.b, i, g.next);
    case DeliverUp(looped, local, registered) =>
    case DeliverDown =>
      if |g.down| == 1 { LegGetsFinal(g.a, g.down[0], g.next); }
  }

  lemma DanglingAckSent(g: Session, cancelled: bool, byes: seq<Message>, act: Action)
    requires AckSentAs(g, cancelled, byes) && Dangling(g) && Enabled(g, act)
    ensures Dangling(Next(g, act))
  {
    hide React, Stamp, HasBye, HasReply, ByeRequests;
    match act
    case CallerDoes(i) => PressedWaiting(g.a, i, g.next);
    case CalleeDoes(i) => PressedWaiting(g.b, i, g.next);
    case DeliverUp(_, _, _) =>
      AckSentParts(g, cancelled, byes);
      LegWaits(g.b, 0, g.next);
    case DeliverDown =>
  }

  lemma DanglingPressed(g: Session, act: Action)
    requires Acked(g) && Ledger(g) && Dangling(g) && Repeats(g.a) && Repeats(g.b)
    requires (act.CallerDoes? || act.CalleeDoes?) && IsUser(act.input)
    ensures Dangling(Next(g, act))
  {
    hide React, Stamp, HasBye, HasReply, ByeTraffic, ByeRequests;
    match act
    case CallerDoes(i) =>
      PressedInSession(g.a, i, g.next);
      var sent := React(g.a, i, g.next).sent;
      RequestsOnly(sent);
      HasOfAppend(g.up, sent);
    case CalleeDoes(i) => PressedInSession(g.b, i, g.next);
  }

  lemma DanglingDelivered(g: Session, act: Action)
    requires Acked(g) && Ledger(g) && Dangling(g) && IsDelivery(act) && Enabled(g, act)
    ensures Dangling(Next(g, act))
  {
    hide React, Stamp, HasBye, HasReply, ByeTraffic, IsByeRequest, IsByeReply, Answered, Arrival;
    match act
    case DeliverUp(looped, local, registered) =>
      TrafficRest(g.up);
      HasOfRest(g.up);
      GetsTraffic(g.b, g.up[0], looped, local, registered, g.next);
    case DeliverDown =>
      TrafficRest(g.down);
      HasOfRest(g.down);
      GetsTraffic(g.a, g.down[0], false, false, false, g.next);
      var sent := React(g.a, Arrival(g.down[0], false, false, false), g.next).sent;
      HasOfAppend(g.up, sent);
      assert g.up + [] == g.up;
  }

  lemma DanglingKept(g: Session, act: Action)
    requires Inv(g) && Ledger(g) && Dangling(g) && Enabled(g, act)
    ensures Dangling(Next(g, act))
  {
    hide React, Stamp, Handshake, HasBye, HasReply, Acked, AckSentAs, Ledger, AnsweredWith, CalleeStep, CallerStep,
      Arrival;
    Started(g);
    if Answered(g) {
      DanglingAnswered(g, act);
    } else if AckSent(g) {
      var cancelled, byes :| AckSentAs(g, cancelled, byes);
      DanglingAckSent(g, cancelled, byes, act);
    } else if act.CallerDoes? || act.CalleeDoes? {
      DanglingPressed(g, act);
    } else {
      DanglingDelivered(g, act);
    }
  }

  lemma {:induction false} DanglingForEver(acts: seq<Action>, more: seq<Action>)
    requires Dangling(SipSession.Run(acts))
    ensures !BothOver(SipSession.Run(acts + more))
    decreases |more|
  {
    hide Dangling, Inv, Ledger, Next, BothOver;
    if more == [] {
      assert acts + more == acts;
      DanglingNotOver(SipSession.Run(acts));
    } else {
      var act := more[0];
      Reachable(acts);
      LedgerReachable(acts);
      SipSession.RunAppend(acts, act);
      if Enabled(SipSession.Run(acts), act) {
        DanglingKept(SipSession.Run(acts), act);
      }
      DanglingForEver(acts + [act], more[1..]);
      assert acts + [act] + more[1..] == acts + more;
    }
  }

  lemma DanglingNotOver(g: Session)
    requires Dangling(g)
    ensures !BothOver(g)
  {}

  /** What to do to bring a session nearer to its end. */
  function Nearer(g: Session): Action {
    if g.a.state == Initial then CallerDoes(UserInvite)
    else
      match g.b.state
      case Initial => DeliverUp(true, true, true)
      case Proceed => CalleeDoes(UserDecline)
      case _ => if g.a.state == Established then CallerDoes(UserHangup) else DeliverDown
  }

  function Far(g: Session): nat {
    if g.a.state == Initial then 4 else if g.b.state == Initial then 3 else 1 + |g.down|
  }

  lemma ComesNearer(g: Session)
    requires Inv(g) && Ledger(g) && !Closing(g) && !Dangling(g)
    ensures Enabled(g, Nearer(g))
    ensures var g' := Next(g, Nearer(g)); Closing(g') || (!Dangling(g') && Far(g') < Far(g))
  {
    hide Stamp, Handshake, ByeTraffic, ByeRequests, HasBye, HasReply;
    if Answered(g) && |g.down| == 1 {
      LegGetsFinal(g.a, g.down[0], g.next);
    }
  }

  /** From any session that is not dangling some run leads to the end. */
  lemma {:induction false} BringsToEnd(acts: seq<Action>) returns (more: seq<Action>)
    requires !Dangling(SipSession.Run(acts))
    ensures BothOver(SipSession.Run(acts + more))
    decreases !Closing(SipSession.Run(acts)), Far(SipSession.Run(acts))
  {
    hide Closing, Dangling, Inv, Ledger, Next, SipSession.Run, BothOver, AtRest, Far, Nearer;
    var g := SipSession.Run(acts);
    Reachable(acts);
    LedgerReachable(acts);
    if Closing(g) {
      more := ComesToRest(acts);
      Reachable(acts + more);
      LedgerReachable(acts + more);
      ClosedAtRest(SipSession.Run(acts + more));
    } else {
      ComesNearer(g);
      var act := Nearer(g);
      SipSession.RunAppend(acts, act);
      ClosingNotDangling(SipSession.Run(acts + [act]));
      var rest := BringsToEnd(acts + [act]);
      more := [act] + rest;
      assert acts + more == acts + [act] + rest;
    }
  }

  lemma ClosingNotDangling(g: Session)
    ensures Closing(g) ==> !Dangling(g)
  {}

  /** Exactly which sessions can still be closed, by whatever the users do. */
  lemma CanCloseExactly(acts: seq<Action>)
    ensures (exists more: seq<Action> :: BothOver(SipSession.Run(acts + more))) <==> !Dangling(SipSession.Run(acts))
  {
    hide Dangling, SipSession.Run, BothOver;
    if Dangling(SipSession.Run(acts)) {
      forall more: seq<Action>
        ensures !BothOver(SipSession.Run(acts + more))
      {
        DanglingForEver(acts, more);
      }
    } else {
      var more := BringsToEnd(acts);
    }
  }

  // ---------------------------------------------------------------------- instances

  lemma RunOn(acts: seq<Action>, act: Action, g: Session, g': Session)
    requires SipSession.Run(acts) == g && Enabled(g, act) && Next(g, act) == g'
    ensures SipSession.Run(acts + [act]) == g'
  {
    hide Next;
    SipSession.RunAppend(acts, act);
  }

  lemma InvitedIs()
    ensures var g := Next(START, CallerDoes(UserInvite));
            g.a.state == Calling && g.b == NEW_LEG && g.up == [I_INVITE] && g.down == []
  {
    hide Stamp;
    LegBegins(NEW_LEG, UserInvite, 0);
    assert [] + [I_INVITE] == [I_INVITE];
  }

  lemma GivenUpIs(g: Session)
    requires g.a.state == Calling
    ensures var g' := Next(g, CallerDoes(UserHangup));
            g'.a.state == Terminated && g'.b == g.b && g'.up == g.up && g'.down == g.down
  {
    hide Stamp;
    assert g.up + [] == g.up;
  }

  lemma RingsIs(g: Session)
    requires g.a.state == Terminated && g.b == NEW_LEG && g.up == [I_INVITE]
    ensures var g' := Next(g, RINGS); g'.a == g.a && g'.b.state == Proceed
  {
    hide Stamp;
    LegGetsInvite(g.b, false, true, true, g.next);
  }

  lemma AcceptedIs(g: Session)
    requires g.a.state == Terminated && g.b.state == Proceed
    ensures var g' := Next(g, CalleeDoes(UserAccept)); g'.a == g.a && g'.b.state == Success && Dangling(g')
  {
    hide Stamp;
  }

  /** The caller hangs up before the callee rings, and the callee picks up. */
  lemma CallerGone()
    ensures exists acts: seq<Action> ::
              var g := SipSession.Run(acts); g.a.state == Terminated && g.b.state == Success && Dangling(g)
  {
    hide Next, SipSession.Run, Dangling;
    var a0, a1, a2, a3 := CallerDoes(UserInvite), CallerDoes(UserHangup), RINGS, CalleeDoes(UserAccept);
    InvitedIs();
    var g1 := Next(START, a0);
    GivenUpIs(g1);
    var g2 := Next(g1, a1);
    RingsIs(g2);
    var g3 := Next(g2, a2);
    AcceptedIs(g3);
    var g4 := Next(g3, a3);
    StartRun();
    RunOn([], a0, START, g1);
    RunOn([] + [a0], a1, g1, g2);
    RunOn([] + [a0] + [a1], a2, g2, g3);
    RunOn([] + [a0] + [a1] + [a2], a3, g3, g4);
    assert Dangling(SipSession.Run([] + [a0] + [a1] + [a2] + [a3]));
  }

  lemma StartRun()
    ensures SipSession.Run([]) == START
  {}

  /** Both sides hang up before either has heard of it. */
  lemma CrossedByes(acts: seq<Action>)
    requires SipSession.Run(acts).a.state == Established && SipSession.Run(acts).b.state == Established
    ensures var g := SipSession.Run(acts + [CallerDoes(UserHangup)] + [CalleeDoes(UserHangup)]);
            g.a.state == Byeing && g.b.state == Byeing && Dangling(g)
  {
    var g := SipSession.Run(acts);
    var g1 := Next(g, CallerDoes(UserHangup));
    var g2 := Next(g1, CalleeDoes(UserHangup));
    assert g2.a.state == Byeing && g2.b.state == Byeing;
    hide Next, SipSession.Run;
    RunOn(acts, CallerDoes(UserHangup), g, g1);
    RunOn(acts + [CallerDoes(UserHangup)], CalleeDoes(UserHangup), g1, g2);
  }
}
