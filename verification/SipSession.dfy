/**
  A calling leg and a called leg joined by two reliable in-order channels.

  Any interleaving is a run: either user may press any button at any time (the caller
  invites once, nobody re-invites), and either channel may deliver its oldest message.
  Sends succeed.  Hanging up before the first response and hanging up on both sides at
  once are part of the runs.
 */
module SipSession {
  import opened CallLegs

  datatype Side = Caller | Callee

  datatype Session = Session(
    a: Leg,               // the calling leg
    b: Leg,               // the called leg
    up: seq<Message>,     // caller to callee, oldest first
    down: seq<Message>,   // callee to caller, oldest first
    next: nat,            // next transaction number
    hist: seq<(Side, Message)>)  // everything ever sent, oldest first

  datatype Action =
    | CallerDoes(input: Input)
    | CalleeDoes(input: Input)
    | DeliverUp(looped: bool, local: bool, registered: bool)
    | DeliverDown

  const START := Session(NEW_LEG, NEW_LEG, [], [], 0, [])

  function Arrival(m: Message, looped: bool, local: bool, registered: bool): Input {
    match m
    case Response(kind, code, tid) => GotResponse(kind, code, tid)
    case Request(INVITE, tid) => GotInvite(tid, looped, local, registered)
    case Request(ACK, tid) => GotAck(tid)
    case Request(CANCEL, tid) => GotCancel(tid)
    case Request(BYE, tid) => GotBye(tid)
  }

  predicate IsUser(i: Input) {
    i.UserHangup? || i.UserAccept? || i.UserDecline?
  }

  predicate Enabled(g: Session, act: Action) {
    match act
    case CallerDoes(i) => IsUser(i) || (i.UserInvite? && g.a.state == Initial)
    case CalleeDoes(i) => IsUser(i)
    case DeliverUp(_, _, _) => g.up != []
    case DeliverDown => g.down != []
  }

  /** The leg's outbox is emptied into its channel after every step. */
  function React(l: Leg, i: Input, next: nat): Leg {
    Step(l.(sent := []), i, Env(2, next))
  }

  function Stamp(side: Side, ms: seq<Message>): seq<(Side, Message)> {
    seq(|ms|, i requires 0 <= i < |ms| => (side, ms[i]))
  }

  function CallerStep(g: Session, i: Input): Session {
    var a := React(g.a, i, g.next);
    g.(a := a, up := g.up + a.sent, next := g.next + |a.sent|, hist := g.hist + Stamp(Caller, a.sent))
  }

  function CalleeStep(g: Session, i: Input): Session {
    var b := React(g.b, i, g.next);
    g.(b := b, down := g.down + b.sent, next := g.next + |b.sent|, hist := g.hist + Stamp(Callee, b.sent))
  }

  function Next(g: Session, act: Action): Session
    requires Enabled(g, act)
  {
    match act
    case CallerDoes(i) => CallerStep(g, i)
    case CalleeDoes(i) => CalleeStep(g, i)
    case DeliverUp(looped, local, registered) =>
      CalleeStep(g.(up := g.up[1..]), Arrival(g.up[0], looped, local, registered))
    case DeliverDown =>
      CallerStep(g.(down := g.down[1..]), Arrival(g.down[0], false, false, false))
  }

  /** The state after a run; actions that are not possible when their turn comes do nothing. */
  function Run(acts: seq<Action>): Session {
    if acts == [] then START
    else
      var g := Run(acts[..|acts| - 1]);
      var act := acts[|acts| - 1];
      if Enabled(g, act) then Next(g, act) else g
  }

  // --------------------------------------------- INVITE, 2xx, ACK in the order sent

  predicate IsInvite(e: (Side, Message)) {
    e.0 == Caller && e.1.Request? && e.1.kind == INVITE
  }

  predicate IsAnswer(e: (Side, Message)) {
    e.0 == Callee && e.1.Response? && e.1.kind == INVITE && OK <= e.1.code < MULTIPLE_CHOICES
  }

  predicate IsAck(e: (Side, Message)) {
    e.0 == Caller && e.1.Request? && e.1.kind == ACK
  }

  /** How far the three-way handshake has got: 1 after INVITE, 2 after 2xx, 3 after ACK. */
  function Handshake(hist: seq<(Side, Message)>): nat {
    if hist == [] then 0
    else Advance(Handshake(hist[..|hist| - 1]), hist[|hist| - 1])
  }

  function Advance(n: nat, e: (Side, Message)): nat {
    if n == 0 && IsInvite(e) then 1
    else if n == 1 && IsAnswer(e) then 2
    else if n == 2 && IsAck(e) then 3
    else n
  }

  ghost predicate Invited(hist: seq<(Side, Message)>) {
    exists i :: 0 <= i < |hist| && IsInvite(hist[i])
  }

  ghost predicate InvitedThenAnswered(hist: seq<(Side, Message)>) {
    exists j :: 0 <= j < |hist| && IsAnswer(hist[j]) && Invited(hist[..j])
  }

  /** An INVITE, later a 2xx to it, and later still its ACK have been sent. */
  ghost predicate ThreeWay(hist: seq<(Side, Message)>) {
    exists k :: 0 <= k < |hist| && IsAck(hist[k]) && InvitedThenAnswered(hist[..k])
  }

  lemma EarlierStays(hist: seq<(Side, Message)>, n: nat)
    requires n <= |hist|
    ensures Invited(hist[..n]) ==> Invited(hist)
    ensures InvitedThenAnswered(hist[..n]) ==> InvitedThenAnswered(hist)
    ensures ThreeWay(hist[..n]) ==> ThreeWay(hist)
  {
    if Invited(hist[..n]) {
      var i :| 0 <= i < n && IsInvite(hist[..n][i]);
      assert IsInvite(hist[i]);
    }
    if InvitedThenAnswered(hist[..n]) {
      var j :| 0 <= j < n && IsAnswer(hist[..n][j]) && Invited(hist[..n][..j]);
      assert IsAnswer(hist[j]) && hist[..n][..j] == hist[..j];
    }
    if ThreeWay(hist[..n]) {
      var k :| 0 <= k < n && IsAck(hist[..n][k]) && InvitedThenAnswered(hist[..n][..k]);
      assert IsAck(hist[k]) && hist[..n][..k] == hist[..k];
    }
  }

  lemma {:induction false} HandshakeMeans(hist: seq<(Side, Message)>)
    ensures Handshake(hist) <= 3
    ensures Handshake(hist) >= 1 ==> Invited(hist)
    ensures Handshake(hist) >= 2 ==> InvitedThenAnswered(hist)
    ensures Handshake(hist) >= 3 ==> ThreeWay(hist)
  {
    if hist != [] {
      HandshakeMeans(hist[..|hist| - 1]);
      EarlierStays(hist, |hist| - 1);
    }
  }

  lemma HandshakeOfSends(hist: seq<(Side, Message)>, side: Side, ms: seq<Message>)
    requires |ms| <= 2
    ensures var h := Handshake(hist + Stamp(side, ms));
            h == if ms == [] then Handshake(hist)
                 else if |ms| == 1 then Advance(Handshake(hist), (side, ms[0]))
                 else Advance(Advance(Handshake(hist), (side, ms[0])), (side, ms[1]))
  {
    hide Advance, Handshake;
    if ms == [] {
      assert Stamp(side, ms) == [];
      assert hist + [] == hist;
    } else if |ms| == 1 {
      assert Stamp(side, ms) == [(side, ms[0])];
      HandshakeOfOne(hist, (side, ms[0]));
    } else {
      assert Stamp(side, ms) == [(side, ms[0])] + [(side, ms[1])];
      HandshakeOfOne(hist, (side, ms[0]));
      HandshakeOfOne(hist + [(side, ms[0])], (side, ms[1]));
      assert hist + ([(side, ms[0])] + [(side, ms[1])]) == hist + [(side, ms[0])] + [(side, ms[1])];
    }
  }

  lemma HandshakeOfOne(hist: seq<(Side, Message)>, e: (Side, Message))
    ensures Handshake(hist + [e]) == Advance(Handshake(hist), e)
  {
    hide Advance;
    assert (hist + [e])[..|hist|] == hist;
  }

  // ------------------------------------------------------------- the invariant

  const I_INVITE := Request(INVITE, 0)
  const I_RINGING := Response(INVITE, RINGING, 0)
  const I_ACK := Request(ACK, 0)
  const I_CANCEL := Request(CANCEL, 0)
  const I_CANCEL_OK := Response(CANCEL, OK, 0)
  const I_BYE := Request(BYE, 0)

  predicate IsFinal(m: Message) {
    m.Response? && m.kind == INVITE && m.code >= OK && m.tid == 0
  }

  predicate IsByeRequest(m: Message) {
    m.Request? && m.kind == BYE
  }

  predicate IsByeReply(m: Message) {
    m.Response? && m.kind == BYE && m.code >= OK
  }

  ghost predicate ByeTraffic(ms: seq<Message>) {
    forall m <- ms :: IsByeRequest(m) || IsByeReply(m)
  }

  ghost predicate ByeRequests(ms: seq<Message>) {
    forall m <- ms :: IsByeRequest(m)
  }

  /** A leg in CL_bye repeats its BYE and nothing else when its user hangs up again. */
  predicate Repeats(l: Leg) {
    l.state == Byeing ==> l.curTid in l.requests && l.requests[l.curTid] == BYE
  }

  /** Nothing has been sent. */
  predicate Quiet(g: Session) {
    g.a.state == Initial && g.b.state == Initial && g.up == [] && g.down == []
  }

  /** The INVITE is on its way. */
  predicate Inviting(g: Session) {
    (g.a.state == Calling || g.a.state == Terminated) && g.b.state == Initial
    && g.up == [I_INVITE] && g.down == []
  }

  /** The callee rings. */
  predicate Ringing(g: Session) {
    && g.b.state == Proceed && g.b.curTid == 0
    && match g.a.state
       case Calling => g.up == [] && g.down == [I_RINGING]
       case CallProceed => g.up == [] && g.down == []
       case Cancelling => g.up == [I_CANCEL] && g.down == []
       case Terminated => g.up == [] && (g.down == [] || g.down == [I_RINGING])
       case _ => false
  }

  /** The callee has answered the INVITE with `f` and the caller has not seen it. */
  predicate AnsweredWith(g: Session, f: Message) {
    && IsFinal(f)
    && (g.b.state == Success || g.b.state == Failed || g.b.state == Terminated)
    && (g.b.state == Success <==> f.code < MULTIPLE_CHOICES)
    && match g.a.state
       case Calling => g.up == [] && (g.down == [I_RINGING, f] || g.down == [f])
       case Terminated => g.up == [] && (g.down == [I_RINGING, f] || g.down == [f])
       case CallProceed => g.up == [] && g.down == [f]
       case Cancelling =>
         || ((g.up == [I_CANCEL] || g.up == []) && g.down == [f])
         || (g.up == [] && g.down == [I_CANCEL_OK, f] && g.b.state == Failed)
       case _ => false
  }

  predicate Answered(g: Session) {
    g.down != [] && AnsweredWith(g, g.down[|g.down| - 1])
  }

  /** The caller's ACK is on its way, behind a CANCEL that came too late and before the
      BYEs that close the session again. */
  ghost predicate AckSentAs(g: Session, cancelled: bool, byes: seq<Message>) {
    && g.down == []
    && g.up == (if cancelled then [I_CANCEL] else []) + [I_ACK] + byes
    && ByeRequests(byes)
    && match g.b.state
       case Success =>
         (match g.a.state
          case Established => !cancelled && byes == []
          case Byeing => !cancelled
          case Cancelling => true
          case Terminated => !cancelled && byes == []
          case _ => false)
       case Failed => g.a.state == Terminated && byes == []
       case Terminated => g.a.state == Terminated && byes == []
       case _ => false
  }

  ghost predicate AckSent(g: Session) {
    exists cancelled, byes :: AckSentAs(g, cancelled, byes)
  }

  /** The ACK has arrived: only BYEs and their replies remain. */
  ghost predicate Acked(g: Session) {
    && (g.a.state == Established || g.a.state == Byeing || g.a.state == Cancelling || g.a.state == Terminated)
    && (g.b.state == Established || g.b.state == Byeing || g.b.state == Terminated)
    && ByeTraffic(g.up) && ByeTraffic(g.down)
    && (g.a.state == Established ==> g.up == [] && g.b.state != Terminated)
  }

  predicate HandshakeFor(g: Session) {
    var h := Handshake(g.hist);
    && (Quiet(g) ==> h == 0)
    && (!Quiet(g) ==> h >= 1)
    && (g.b.state == Success ==> h >= 2)
    && ((g.a.state == Established || g.a.state == Byeing || g.b.state == Established || g.b.state == Byeing)
        ==> h == 3)
    && (g.b.state == Success && I_ACK in g.up ==> h == 3)
  }

  ghost predicate Phase(g: Session) {
    Quiet(g) || Inviting(g) || Ringing(g) || Answered(g) || AckSent(g) || Acked(g)
  }

  predicate Bookkeeping(g: Session) {
    && Repeats(g.a) && Repeats(g.b)
    && (g.a.state == Calling || g.a.state == CallProceed || g.a.state == Cancelling ==> g.a.curTid == 0)
    && (Quiet(g) ==> g.next == 0)
  }

  ghost predicate Inv(g: Session) {
    Phase(g) && Bookkeeping(g) && HandshakeFor(g)
  }

  // ---------------------------------------------------- every action keeps it

  lemma ReactSends(l: Leg, i: Input, next: nat)
    ensures |React(l, i, next).sent| <= 2
  {
    match i
    case GotResponse(_, _, _) =>
    case _ =>
  }

  lemma CallerStepFacts(g: Session, i: Input)
    ensures var a := React(g.a, i, g.next); var g' := CallerStep(g, i);
            && |a.sent| <= 2
            && (a.sent == [] ==> g'.up == g.up)
            && (g.up == [] ==> g'.up == a.sent)
            && (a.sent == [] ==> Handshake(g'.hist) == Handshake(g.hist))
            && (|a.sent| == 1 ==> Handshake(g'.hist) == Advance(Handshake(g.hist), (Caller, a.sent[0])))
            && (|a.sent| == 2 ==>
                  var h1 := Advance(Handshake(g.hist), (Caller, a.sent[0]));
                  Handshake(g'.hist) == Advance(h1, (Caller, a.sent[1])))
  {
    hide React, Handshake, Advance, Stamp;
    ReactSends(g.a, i, g.next);
    HandshakeOfSends(g.hist, Caller, React(g.a, i, g.next).sent);
  }

  lemma CalleeStepFacts(g: Session, i: Input)
    ensures var b := React(g.b, i, g.next); var g' := CalleeStep(g, i);
            && |b.sent| <= 2
            && (b.sent == [] ==> g'.down == g.down)
            && (g.down == [] ==> g'.down == b.sent)
            && (b.sent == [] ==> Handshake(g'.hist) == Handshake(g.hist))
            && (|b.sent| == 1 ==> Handshake(g'.hist) == Advance(Handshake(g.hist), (Callee, b.sent[0])))
            && (|b.sent| == 2 ==>
                  var h1 := Advance(Handshake(g.hist), (Callee, b.sent[0]));
                  Handshake(g'.hist) == Advance(h1, (Callee, b.sent[1])))
  {
    hide React, Handshake, Advance, Stamp;
    ReactSends(g.b, i, g.next);
    HandshakeOfSends(g.hist, Callee, React(g.b, i, g.next).sent);
  }

  lemma QuietCaller(g: Session, i: Input)
    requires Quiet(g) && g.next == 0 && (IsUser(i) || i.UserInvite?)
    ensures Quiet(CallerStep(g, i)) || Inviting(CallerStep(g, i))
  {
    CallerStepFacts(g, i);
  }

  lemma InvitingCaller(g: Session, i: Input)
    requires Inviting(g) && IsUser(i)
    ensures Inviting(CallerStep(g, i))
  {
    CallerStepFacts(g, i);
  }

  lemma LegGetsInvite(l: Leg, looped: bool, local: bool, registered: bool, next: nat)
    requires l.state == Initial
    ensures var l' := React(l, GotInvite(0, looped, local, registered), next);
            if looped then l'.sent == [Response(INVITE, LOOP_DETECTED, 0)] && l'.state == Failed
            else if local && registered then l'.sent == [I_RINGING] && l'.state == Proceed && l'.curTid == 0
            else l'.sent == [Response(INVITE, NOT_FOUND, 0)] && (l'.state == Failed || l'.state == Terminated)
  {}

  lemma InvitingUp(g: Session, looped: bool, local: bool, registered: bool)
    requires Inviting(g)
    ensures var g' := Next(g, DeliverUp(looped, local, registered));
            Ringing(g') || Answered(g')
  {
    hide React, Handshake, Stamp;
    var i := Arrival(g.up[0], looped, local, registered);
    assert i == GotInvite(0, looped, local, registered) && g.up[1..] == [];
    LegGetsInvite(g.b, looped, local, registered, g.next);
    var sent := React(g.b, i, g.next).sent;
    assert g.down + sent == sent;
  }

  /** What the caller's user can do before the INVITE is answered. */
  lemma LegPressed(l: Leg, i: Input, next: nat)
    requires l.state == Calling || l.state == CallProceed || l.state == Cancelling || l.state == Terminated
    requires IsUser(i) && (l.state == CallProceed ==> l.curTid == 0)
    ensures var l' := React(l, i, next);
            && (l.state == CallProceed && i.UserHangup? ==> l'.sent == [I_CANCEL] && l'.state == Cancelling)
            && (!(l.state == CallProceed && i.UserHangup?) ==>
                  l'.sent == [] && (l'.state == l.state || (l.state == Calling && l'.state == Terminated)))
  {}

  lemma RingingCaller(g: Session, i: Input)
    requires Ringing(g) && IsUser(i)
    requires g.a.state == CallProceed ==> g.a.curTid == 0
    ensures Ringing(CallerStep(g, i))
  {
    hide React, Handshake, Stamp;
    LegPressed(g.a, i, g.next);
    var sent := React(g.a, i, g.next).sent;
    assert g.up + [] == g.up && (g.up == [] ==> g.up + sent == sent);
  }

  /** A ringing leg answers, or goes on ringing. */
  lemma LegRings(l: Leg, i: Input, next: nat)
    requires l.state == Proceed && l.curTid == 0 && IsUser(i)
    ensures var l' := React(l, i, next);
            || (l'.sent == [] && l'.state == Proceed && l'.curTid == 0)
            || (|l'.sent| == 1 && IsFinal(l'.sent[0])
                && (l'.state == Success || l'.state == Failed || l'.state == Terminated)
                && (l'.state == Success <==> l'.sent[0].code < MULTIPLE_CHOICES))
  {}

  /** A ringing leg that is cancelled answers the CANCEL and then the INVITE. */
  lemma LegIsCancelled(l: Leg, next: nat)
    requires l.state == Proceed && l.curTid == 0
    ensures var l' := React(l, GotCancel(0), next);
            && |l'.sent| == 2 && l'.sent[0] == I_CANCEL_OK
            && IsFinal(l'.sent[1]) && l'.sent[1].code >= MULTIPLE_CHOICES && l'.state == Failed
  {}

  lemma RingingCallee(g: Session, i: Input)
    requires Ringing(g) && IsUser(i)
    ensures Ringing(CalleeStep(g, i)) || Answered(CalleeStep(g, i))
  {
    hide React, Handshake, Stamp;
    LegRings(g.b, i, g.next);
    var sent := React(g.b, i, g.next).sent;
    assert g.down + [] == g.down;
    if sent != [] {
      assert g.down == [] ==> g.down + sent == [sent[0]];
      assert g.down == [I_RINGING] ==> g.down + sent == [I_RINGING, sent[0]];
    }
  }

  lemma RingingUp(g: Session, looped: bool, local: bool, registered: bool)
    requires Ringing(g) && g.up != []
    ensures Answered(Next(g, DeliverUp(looped, local, registered)))
  {
    hide React, Handshake, Stamp;
    LegIsCancelled(g.b, g.next);
    var sent := React(g.b, GotCancel(0), g.next).sent;
    assert g.up[0] == I_CANCEL && g.up[1..] == [] && g.down + sent == [I_CANCEL_OK, sent[1]];
  }

  lemma RingingDown(g: Session)
    requires Ringing(g) && g.down != []
    ensures Ringing(Next(g, DeliverDown))
  {
    CallerStepFacts(g.(down := g.down[1..]), Arrival(g.down[0], false, false, false));
  }

  lemma AnsweredCaller(g: Session, f: Message, i: Input)
    requires AnsweredWith(g, f) && IsUser(i)
    requires g.a.state == CallProceed ==> g.a.curTid == 0
    ensures AnsweredWith(CallerStep(g, i), f)
  {
    hide React, Handshake, Stamp;
    LegPressed(g.a, i, g.next);
    var sent := React(g.a, i, g.next).sent;
    assert g.up + [] == g.up && (g.up == [] ==> g.up + sent == sent);
  }

  lemma AnsweredCallee(g: Session, f: Message, i: Input)
    requires AnsweredWith(g, f) && IsUser(i)
    ensures AnsweredWith(CalleeStep(g, i), f)
  {
    CalleeStepFacts(g, i);
  }

  lemma AnsweredUp(g: Session, f: Message, looped: bool, local: bool, registered: bool)
    requires AnsweredWith(g, f) && g.up != []
    ensures AnsweredWith(Next(g, DeliverUp(looped, local, registered)), f)
  {
    CalleeStepFacts(g.(up := g.up[1..]), Arrival(g.up[0], looped, local, registered));
  }

  /** Whatever state a final response to the INVITE finds the caller in, it is acknowledged;
      if the caller had given up and the callee picked up, the session is closed again. */
  lemma LegGetsFinal(l: Leg, f: Message, next: nat)
    requires IsFinal(f)
    requires l.state == Calling || l.state == CallProceed || l.state == Cancelling || l.state == Terminated
    ensures var l' := React(l, GotResponse(INVITE, f.code, f.tid), next);
            var late := l.state == Cancelling && f.code < MULTIPLE_CHOICES;
            && l'.sent == [I_ACK] + (if late then [I_BYE] else [])
            && l'.state == (if late then Cancelling
                            else if l.state != Terminated && f.code < MULTIPLE_CHOICES then Established
                            else Terminated)
  {}

  lemma AnsweredLast(g: Session, f: Message)
    requires AnsweredWith(g, f) && g.down == [f]
    ensures AckSentAs(Next(g, DeliverDown), g.up != [],
                      if g.a.state == Cancelling && f.code < MULTIPLE_CHOICES then [I_BYE] else [])
  {
    LegGetsFinal(g.a, f, g.next);
    var byes := if g.a.state == Cancelling && f.code < MULTIPLE_CHOICES then [I_BYE] else [];
    assert (if g.up != [] then [I_CANCEL] else []) == g.up;
    assert g.up + ([I_ACK] + byes) == g.up + [I_ACK] + byes;
  }

  lemma AnsweredEarlier(g: Session, f: Message)
    requires AnsweredWith(g, f) && g.down != [f]
    ensures AnsweredWith(Next(g, DeliverDown), f)
  {
    var i := Arrival(g.down[0], false, false, false);
    var a := React(g.a, i, g.next);
    if g.a.state == Cancelling {
      assert i == GotResponse(CANCEL, OK, 0);
      assert a.sent == [] && a.state == Terminated;
    } else {
      assert i == GotResponse(INVITE, RINGING, 0);
      assert a.sent == [] && a.state == if g.a.state == Calling then CallProceed else Terminated;
    }
    assert g.up + [] == g.up && g.down[1..] == [f];
  }

  lemma AckSentCaller(g: Session, cancelled: bool, byes: seq<Message>, i: Input)
    requires AckSentAs(g, cancelled, byes) && IsUser(i) && Repeats(g.a)
    ensures AckSentAs(CallerStep(g, i), cancelled, byes + React(g.a, i, g.next).sent)
  {
    CallerStepFacts(g, i);
    var a := React(g.a, i, g.next);
    assert a.sent == [] || (|a.sent| == 1 && IsByeRequest(a.sent[0]));
    assert g.up + a.sent == (if cancelled then [I_CANCEL] else []) + [I_ACK] + (byes + a.sent);
    assert byes + [] == byes;
  }

  lemma AckSentCallee(g: Session, cancelled: bool, byes: seq<Message>, i: Input)
    requires AckSentAs(g, cancelled, byes) && IsUser(i)
    ensures AckSentAs(CalleeStep(g, i), cancelled, byes)
  {
    CalleeStepFacts(g, i);
  }

  /** A leg that waits for an ACK takes no notice of a late CANCEL. */
  lemma LegWaits(l: Leg, tid: nat, next: nat)
    requires l.state == Success || l.state == Failed || l.state == Terminated
    ensures React(l, GotCancel(tid), next).sent == [] && React(l, GotCancel(tid), next).state == l.state
    ensures React(l, GotAck(tid), next).sent == []
    ensures React(l, GotAck(tid), next).state == if l.state == Success then Established else Terminated
  {}

  lemma AckSentUp(g: Session, cancelled: bool, byes: seq<Message>, looped: bool, local: bool, registered: bool)
    requires AckSentAs(g, cancelled, byes)
    ensures var g' := Next(g, DeliverUp(looped, local, registered));
            if cancelled then AckSentAs(g', false, byes) else Acked(g') && g'.up == byes
  {
    hide React, Handshake, Stamp;
    LegWaits(g.b, 0, g.next);
    assert g.down + [] == g.down;
    if cancelled {
      assert g.up[0] == I_CANCEL && g.up[1..] == [I_ACK] + byes;
      assert [] + [I_ACK] + byes == [I_ACK] + byes;
    } else {
      assert g.up[0] == I_ACK && g.up[1..] == byes;
    }
  }

  predicate InSession(s: State) {
    s == Established || s == Byeing || s == Cancelling || s == Terminated
  }

  /** Once the ACK has arrived a leg answers a BYE, repeats its own, and sends nothing else. */
  lemma LegInSession(l: Leg, i: Input, next: nat)
    requires InSession(l.state) && Repeats(l)
    requires IsUser(i) || i.GotBye? || (i.GotResponse? && i.kind == BYE && i.code >= OK)
    ensures var l' := React(l, i, next);
            && InSession(l'.state)
            && (l'.sent == [] || (|l'.sent| == 1 && (IsByeRequest(l'.sent[0]) || IsByeReply(l'.sent[0]))))
            && (l'.state == Established ==> l.state == Established && l'.sent == [])
            && (l'.state == Cancelling ==> l.state == Cancelling)
            && (IsUser(i) && l'.state == Terminated ==> l.state == Terminated)
            && (l.state == Terminated ==> l'.state == Terminated)
  {
    match i
    case GotResponse(_, _, _) =>
    case _ =>
  }

  lemma TrafficRest(ms: seq<Message>)
    requires ByeTraffic(ms) && ms != []
    ensures ByeTraffic(ms[1..]) && (IsByeRequest(ms[0]) || IsByeReply(ms[0]))
  {
    assert ms[0] in ms;
  }

  lemma TrafficGrows(ms: seq<Message>, more: seq<Message>)
    requires ByeTraffic(ms) && ByeTraffic(more)
    ensures ByeTraffic(ms + more)
  {}

  lemma TrafficOf(ms: seq<Message>)
    requires ms == [] || (|ms| == 1 && (IsByeRequest(ms[0]) || IsByeReply(ms[0])))
    ensures ByeTraffic(ms)
  {}

  lemma AckedCaller(g: Session, i: Input)
    requires Acked(g) && Repeats(g.a)
    requires IsUser(i) || i.GotBye? || (i.GotResponse? && i.kind == BYE && i.code >= OK)
    ensures Acked(CallerStep(g, i))
  {
    hide React, Handshake, Stamp;
    LegInSession(g.a, i, g.next);
    var sent := React(g.a, i, g.next).sent;
    TrafficOf(sent);
    TrafficGrows(g.up, sent);
    assert g.up == [] && sent == [] ==> g.up + sent == [];
    hide ByeTraffic;
  }

  lemma AckedCallee(g: Session, i: Input)
    requires Acked(g) && Repeats(g.b)
    requires IsUser(i) || (g.a.state != Established && (i.GotBye? || (i.GotResponse? && i.kind == BYE && i.code >= OK)))
    ensures Acked(CalleeStep(g, i))
  {
    hide React, Handshake, Stamp;
    LegInSession(g.b, i, g.next);
    var sent := React(g.b, i, g.next).sent;
    TrafficOf(sent);
    TrafficGrows(g.down, sent);
    hide ByeTraffic;
  }

  lemma AckedUp(g: Session, looped: bool, local: bool, registered: bool)
    requires Acked(g) && Repeats(g.b) && g.up != []
    ensures Acked(Next(g, DeliverUp(looped, local, registered)))
  {
    TrafficRest(g.up);
    AckedCallee(g.(up := g.up[1..]), Arrival(g.up[0], looped, local, registered));
  }

  lemma AckedDown(g: Session)
    requires Acked(g) && Repeats(g.a) && g.down != []
    ensures Acked(Next(g, DeliverDown))
  {
    TrafficRest(g.down);
    AckedCaller(g.(down := g.down[1..]), Arrival(g.down[0], false, false, false));
  }

  // ------------------------------------------- all of it together, over every run

  /** What a step leaves alone in a leg that never re-invites. */
  lemma LegBookkeeping(l: Leg, i: Input, next: nat)
    requires l.state != Modify && l.state != ModifyProceed
    requires i.UserInvite? ==> l.state == Initial
    requires Repeats(l)
    ensures Repeats(React(l, i, next))
    ensures var l' := React(l, i, next);
            && (l'.state == CallProceed || l'.state == Cancelling ==>
                  l'.curTid == l.curTid && (l.state == Calling || l.state == CallProceed || l.state == Cancelling))
            && (l'.state == Calling ==>
                  if i.UserInvite? then l'.curTid == next else l'.curTid == l.curTid && l.state == Calling)
            && (l'.state == Initial ==> l.state == Initial)
            && (l'.state == Initial && !i.GotInvite? ==> l'.sent == [])
  {
    match i
    case GotResponse(_, _, _) =>
    case _ =>
  }

  lemma BookkeepingKept(g: Session, act: Action)
    requires Phase(g) && Bookkeeping(g) && Enabled(g, act)
    ensures Bookkeeping(Next(g, act))
  {
    hide React, Stamp, Repeats, ByeTraffic, ByeRequests;
    match act
    case CallerDoes(i) => LegBookkeeping(g.a, i, g.next);
    case CalleeDoes(i) => LegBookkeeping(g.b, i, g.next);
    case DeliverUp(looped, local, registered) =>
      LegBookkeeping(g.b, Arrival(g.up[0], looped, local, registered), g.next);
    case DeliverDown =>
      LegBookkeeping(g.a, Arrival(g.down[0], false, false, false), g.next);
  }

  predicate Talks(s: State) {
    s == Established || s == Byeing
  }

  /** A leg comes to talk only by getting a 2xx, which it acknowledges, or an ACK. */
  lemma LegHandshake(l: Leg, i: Input, next: nat)
    requires l.state != Modify && l.state != ModifyProceed && l.state != RecallProceed
    requires Repeats(l) && (i.UserInvite? ==> l.state == Initial)
    ensures var l' := React(l, i, next);
            && (Talks(l'.state) && !Talks(l.state) ==>
                  || (i.GotAck? && l.state == Success)
                  || (i.GotResponse? && i.kind == INVITE && OK <= i.code < MULTIPLE_CHOICES))
            && (l'.state == Success && l.state != Success ==>
                  i.UserAccept? && l.state == Proceed && |l'.sent| == 1
                  && IsAnswer((Callee, l'.sent[0])))
            && (forall m <- l'.sent :: m == I_ACK ==> i.GotResponse? && i.kind == INVITE && i.code >= OK)
  {
    match i
    case GotResponse(kind, code, tid) => LegHandshakeResponse(l, kind, code, tid, next);
    case UserHangup =>
    case UserAccept =>
    case _ =>
  }

  lemma LegHandshakeResponse(l: Leg, kind: Method, code: int, tid: nat, next: nat)
    requires l.state != Modify && l.state != ModifyProceed && l.state != RecallProceed
    ensures var l' := React(l, GotResponse(kind, code, tid), next);
            && (Talks(l'.state) && !Talks(l.state) ==> kind == INVITE && OK <= code < MULTIPLE_CHOICES)
            && (l'.state == Success ==> l.state == Success)
            && (forall m <- l'.sent :: m == I_ACK ==> kind == INVITE && code >= OK)
  {
    match kind
    case INVITE =>
    case _ =>
  }

  lemma AdvanceGrows(n: nat, e: (Side, Message))
    ensures n <= Advance(n, e) <= n + 1
    ensures n == 3 ==> Advance(n, e) == 3
  {}

  lemma HandshakeGrows(g: Session, side: Side, i: Input)
    ensures Handshake(g.hist) <= Handshake((if side == Caller then CallerStep(g, i) else CalleeStep(g, i)).hist)
    ensures Handshake(g.hist) == 3 ==>
              Handshake((if side == Caller then CallerStep(g, i) else CalleeStep(g, i)).hist) == 3
  {
    hide React, CallerStep, CalleeStep, Advance, Handshake;
    var sent := if side == Caller then React(g.a, i, g.next).sent else React(g.b, i, g.next).sent;
    var h := Handshake(g.hist);
    CallerStepFacts(g, i);
    CalleeStepFacts(g, i);
    if sent != [] {
      AdvanceGrows(h, (side, sent[0]));
      if |sent| == 2 {
        AdvanceGrows(Advance(h, (side, sent[0])), (side, sent[1]));
      }
    }
  }

  predicate CalleeQuietly(g: Session, i: Input) {
    && (i.GotResponse? ==> i.kind != INVITE)
    && !i.UserInvite?
    && (i.GotAck? && g.b.state == Success ==> Handshake(g.hist) == 3)
  }

  lemma Started(g: Session)
    requires Phase(g) && !Quiet(g)
    ensures g.a.state != Initial
  {
    hide ByeTraffic, ByeRequests;
  }

  /** What must be seen of a step that changes one leg for the handshake to stay in step. */
  lemma HandshakeFollows(g: Session, g': Session)
    requires HandshakeFor(g) && g.a.state != Initial && g'.a.state != Initial
    requires 1 <= Handshake(g.hist) <= Handshake(g'.hist)
    requires Handshake(g.hist) == 3 ==> Handshake(g'.hist) == 3
    requires Talks(g'.a.state) && !Talks(g.a.state) ==> Handshake(g'.hist) == 3
    requires Talks(g'.b.state) && !Talks(g.b.state) ==> Handshake(g'.hist) == 3
    requires g'.b.state == Success && g.b.state != Success ==> Handshake(g'.hist) >= 2 && I_ACK !in g'.up
    requires I_ACK in g'.up ==> I_ACK in g.up || Handshake(g'.hist) == 3
    ensures HandshakeFor(g')
  {
    hide Handshake;
  }

  lemma CalleeHandshake(g: Session, g0: Session, i: Input)
    requires HandshakeFor(g0) && CalleeQuietly(g0, i) && g0.a.state != Initial && Repeats(g0.b)
    requires g == g0.(up := g.up) && (I_ACK in g.up ==> I_ACK in g0.up)
    requires I_ACK in g.up ==> g.b.state != Proceed
    requires g.b.state != Modify && g.b.state != ModifyProceed && g.b.state != RecallProceed
    requires 1 <= Handshake(g.hist)
    ensures HandshakeFor(CalleeStep(g, i))
  {
    hide React, Handshake, Stamp, IsAnswer, HandshakeFor, Repeats, Advance;
    HandshakeGrows(g, Callee, i);
    LegHandshake(g.b, i, g.next);
    HandshakeMeans(g.hist);
    var b := React(g.b, i, g.next);
    if b.state == Success && g.b.state != Success {
      CalleeStepFacts(g, i);
      AnswerAdvances(Handshake(g.hist), b.sent);
    }
    HandshakeFollows(g0, CalleeStep(g, i));
  }

  lemma AnswerAdvances(h: nat, sent: seq<Message>)
    requires 1 <= h && |sent| == 1 && IsAnswer((Callee, sent[0]))
    ensures Advance(h, (Callee, sent[0])) >= 2
  {}

  lemma HandshakeAfterCallee(g: Session, i: Input)
    requires Phase(g) && Bookkeeping(g) && !Quiet(g)
    requires HandshakeFor(g) && CalleeQuietly(g, i)
    requires I_ACK in g.up ==> g.b.state != Proceed
    ensures HandshakeFor(CalleeStep(g, i))
  {
    Started(g);
    CalleeStates(g);
    hide React, Handshake, Stamp, Phase;
    CalleeHandshake(g, g, i);
  }

  lemma CalleeStates(g: Session)
    requires Phase(g)
    ensures g.b.state != Modify && g.b.state != ModifyProceed && g.b.state != RecallProceed
  {
    hide ByeTraffic, ByeRequests;
  }

  lemma HandshakeAfterCaller(g: Session, i: Input)
    requires Phase(g) && Bookkeeping(g) && !Quiet(g)
    requires HandshakeFor(g)
    requires i.GotResponse? && i.kind == INVITE ==> i.code < OK
    requires !i.UserInvite? && !i.GotAck?
    ensures HandshakeFor(CallerStep(g, i))
  {
    Started(g);
    CallerStates(g);
    hide Phase;
    CallerHandshake(g, g, i);
  }

  lemma CallerStates(g: Session)
    requires Phase(g)
    ensures g.a.state != Modify && g.a.state != ModifyProceed && g.a.state != RecallProceed
  {
    hide ByeTraffic, ByeRequests;
  }

  lemma CallerHandshake(g: Session, g0: Session, i: Input)
    requires HandshakeFor(g0) && g0.a.state != Initial && Repeats(g0.a)
    requires g == g0.(down := g.down)
    requires g.a.state != Modify && g.a.state != ModifyProceed && g.a.state != RecallProceed
    requires i.GotResponse? && i.kind == INVITE ==> i.code < OK
    requires !i.UserInvite? && !i.GotAck?
    ensures HandshakeFor(CallerStep(g, i))
  {
    HandshakeGrows(g, Caller, i);
    LegHandshake(g.a, i, g.next);
    LegBookkeeping(g.a, i, g.next);
    HandshakeMeans(g.hist);
    hide React, Handshake, Stamp;
    var a := React(g.a, i, g.next);
    assert I_ACK in g.up + a.sent ==> I_ACK in g.up || I_ACK in a.sent;
    HandshakeFollows(g0, CallerStep(g, i));
  }

  lemma AckAdvances(h: nat)
    requires 1 <= h <= 3
    ensures Advance(h, (Caller, I_ACK)) == if h == 2 then 3 else h
    ensures Advance(h, (Caller, I_BYE)) == h
  {}

  lemma HandshakeAfterFinal(g: Session, f: Message)
    requires AnsweredWith(g, f) && g.down == [f]
    requires HandshakeFor(g)
    ensures HandshakeFor(Next(g, DeliverDown))
  {
    hide React, Handshake, Stamp, Advance;
    var i := Arrival(f, false, false, false);
    CallerStepFacts(g.(down := []), i);
    LegGetsFinal(g.a, f, g.next);
    HandshakeMeans(g.hist);
    AckAdvances(Handshake(g.hist));
    AckAdvances(Advance(Handshake(g.hist), (Caller, I_ACK)));
    assert g.down[1..] == [];
    FinalSends(g.a, f, g.next);
  }

  lemma FinalSends(l: Leg, f: Message, next: nat)
    requires IsFinal(f)
    requires l.state == Calling || l.state == CallProceed || l.state == Cancelling || l.state == Terminated
    ensures var sent := React(l, GotResponse(INVITE, f.code, f.tid), next).sent;
            sent == [I_ACK] || (|sent| == 2 && sent[0] == I_ACK && sent[1] == I_BYE)
  {
    LegGetsFinal(l, f, next);
    hide React;
  }

  lemma HandshakeAfterQuiet(g: Session, act: Action)
    requires Quiet(g) && Bookkeeping(g) && HandshakeFor(g) && Enabled(g, act)
    ensures HandshakeFor(Next(g, act))
  {
    hide React, Handshake, Stamp, Advance;
    match act
    case CallerDoes(i) =>
      CallerStepFacts(g, i);
      LegBegins(g.a, i, g.next);
      FirstInvite();
    case CalleeDoes(i) =>
      CalleeStepFacts(g, i);
      LegBegins(g.b, i, g.next);
  }

  lemma FirstInvite()
    ensures Advance(0, (Caller, I_INVITE)) == 1
  {}

  lemma LegBegins(l: Leg, i: Input, next: nat)
    requires l.state == Initial && (IsUser(i) || i.UserInvite?)
    ensures var l' := React(l, i, next);
            if i.UserInvite? then l'.sent == [Request(INVITE, next)] && l'.state == Calling
            else l'.sent == [] && l'.state == Initial
  {}

  lemma AnsweredIs(g: Session, f: Message)
    requires AnsweredWith(g, f)
    ensures Answered(g) && f == g.down[|g.down| - 1]
  {}

  lemma PhaseAfterCaller(g: Session, i: Input)
    requires Phase(g) && Bookkeeping(g) && Enabled(g, CallerDoes(i))
    ensures Phase(CallerStep(g, i))
  {
    if Quiet(g) { QuietCaller(g, i); }
    else if Inviting(g) { InvitingCaller(g, i); }
    else if Ringing(g) { RingingCaller(g, i); }
    else if Answered(g) {
      var f := g.down[|g.down| - 1];
      AnsweredCaller(g, f, i);
      AnsweredIs(CallerStep(g, i), f);
    } else if AckSent(g) {
      var cancelled, byes :| AckSentAs(g, cancelled, byes);
      AckSentCaller(g, cancelled, byes, i);
    } else {
      AckedCaller(g, i);
    }
  }

  lemma BeforeRinging(g: Session, i: Input)
    requires Quiet(g) || Inviting(g)
    requires IsUser(i)
    ensures Quiet(CalleeStep(g, i)) || Inviting(CalleeStep(g, i))
  {
    CalleeStepFacts(g, i);
  }

  lemma PhaseAfterCallee(g: Session, i: Input)
    requires Phase(g) && Bookkeeping(g) && Enabled(g, CalleeDoes(i))
    ensures Phase(CalleeStep(g, i))
  {
    if Quiet(g) || Inviting(g) { BeforeRinging(g, i); }
    else if Ringing(g) { RingingCallee(g, i); }
    else if Answered(g) {
      var f := g.down[|g.down| - 1];
      AnsweredCallee(g, f, i);
      AnsweredIs(CalleeStep(g, i), f);
    } else if AckSent(g) {
      var cancelled, byes :| AckSentAs(g, cancelled, byes);
      AckSentCallee(g, cancelled, byes, i);
    } else {
      AckedCallee(g, i);
    }
  }

  lemma PhaseAfterUp(g: Session, looped: bool, local: bool, registered: bool)
    requires Phase(g) && Bookkeeping(g) && g.up != []
    ensures Phase(Next(g, DeliverUp(looped, local, registered)))
  {
    if Inviting(g) { InvitingUp(g, looped, local, registered); }
    else if Ringing(g) { RingingUp(g, looped, local, registered); }
    else if Answered(g) {
      var f := g.down[|g.down| - 1];
      AnsweredUp(g, f, looped, local, registered);
      AnsweredIs(Next(g, DeliverUp(looped, local, registered)), f);
    } else if AckSent(g) {
      var cancelled, byes :| AckSentAs(g, cancelled, byes);
      AckSentUp(g, cancelled, byes, looped, local, registered);
    } else {
      AckedUp(g, looped, local, registered);
    }
  }

  lemma PhaseAfterDown(g: Session)
    requires Phase(g) && Bookkeeping(g) && g.down != []
    ensures Phase(Next(g, DeliverDown))
  {
    if Ringing(g) { RingingDown(g); }
    else if Answered(g) {
      var f := g.down[|g.down| - 1];
      if g.down == [f] {
        AnsweredLast(g, f);
      } else {
        AnsweredEarlier(g, f);
        AnsweredIs(Next(g, DeliverDown), f);
      }
    } else {
      AckedDown(g);
    }
  }

  lemma PhaseKept(g: Session, act: Action)
    requires Phase(g) && Bookkeeping(g) && Enabled(g, act)
    ensures Phase(Next(g, act))
  {
    match act
    case CallerDoes(i) => PhaseAfterCaller(g, i);
    case CalleeDoes(i) => PhaseAfterCallee(g, i);
    case DeliverUp(looped, local, registered) => PhaseAfterUp(g, looped, local, registered);
    case DeliverDown => PhaseAfterDown(g);
  }

  lemma UpFacts(g: Session)
    requires Inv(g) && g.up != []
    ensures g.up[0].Response? ==> g.up[0].kind != INVITE
    ensures g.up[0].Request? && g.up[0].kind == ACK && g.b.state == Success ==> Handshake(g.hist) == 3
    ensures g.b.state == Proceed ==> I_ACK !in g.up
    ensures !Quiet(g) && Handshake(g.hist) >= 1 && Repeats(g.b)
  {
    hide Handshake;
    if Acked(g) {
      TrafficRest(g.up);
    } else if AckSent(g) {
      var cancelled, byes :| AckSentAs(g, cancelled, byes);
      assert I_ACK in g.up;
    }
  }

  lemma HandshakeAfterUp(g: Session, looped: bool, local: bool, registered: bool)
    requires Inv(g) && g.up != []
    ensures HandshakeFor(Next(g, DeliverUp(looped, local, registered)))
  {
    UpFacts(g);
    Started(g);
    CalleeStates(g);
    assert I_ACK in g.up[1..] ==> I_ACK in g.up;
    assert HandshakeFor(g);
    hide HandshakeFor, CalleeStep, Phase, Repeats, Handshake, Bookkeeping, Quiet;
    CalleeHandshake(g.(up := g.up[1..]), g, Arrival(g.up[0], looped, local, registered));
  }

  lemma HandshakeAfterDown(g: Session)
    requires Inv(g) && g.down != []
    ensures HandshakeFor(Next(g, DeliverDown))
  {
    if Answered(g) && |g.down| == 1 {
      HandshakeAfterFinal(g, g.down[0]);
    } else {
      Started(g);
      CallerStates(g);
      DownFacts(g);
      hide HandshakeFor, CallerStep, Phase, Repeats, Handshake, Quiet;
      CallerHandshake(g.(down := g.down[1..]), g, Arrival(g.down[0], false, false, false));
    }
  }

  lemma DownFacts(g: Session)
    requires Inv(g) && g.down != [] && !(Answered(g) && |g.down| == 1)
    ensures g.down[0].Response? && g.down[0].kind == INVITE ==> g.down[0].code < OK
    ensures !(g.down[0].Request? && g.down[0].kind == ACK) && !Quiet(g)
  {
    hide Handshake;
    if Acked(g) {
      TrafficRest(g.down);
    }
  }

  lemma NoAckYet(g: Session)
    requires Phase(g)
    ensures I_ACK in g.up ==> g.b.state != Proceed
  {
    hide ByeRequests;
  }

  /** The joint invariant is kept by every action of either user and either channel. */
  lemma InvKept(g: Session, act: Action)
    requires Inv(g) && Enabled(g, act)
    ensures Inv(Next(g, act))
  {
    hide Phase, Bookkeeping, HandshakeFor, CallerStep, CalleeStep, Handshake;
    PhaseKept(g, act);
    BookkeepingKept(g, act);
    if Quiet(g) {
      HandshakeAfterQuiet(g, act);
    } else {
      Started(g);
      NoAckYet(g);
      match act
      case CallerDoes(i) => HandshakeAfterCaller(g, i);
      case CalleeDoes(i) => HandshakeAfterCallee(g, i);
      case DeliverUp(looped, local, registered) => HandshakeAfterUp(g, looped, local, registered);
      case DeliverDown => HandshakeAfterDown(g);
    }
  }

  lemma {:induction false} Reachable(acts: seq<Action>)
    ensures Inv(Run(acts))
  {
    if acts != [] {
      Reachable(acts[..|acts| - 1]);
      var g := Run(acts[..|acts| - 1]);
      if Enabled(g, acts[|acts| - 1]) {
        InvKept(g, acts[|acts| - 1]);
      }
    }
  }

  // ------------------------------------------------------------- what it gives

  predicate Waiting(s: State) {
    s == Success || s == Failed
  }

  /** In every reachable state a callee that waits for the ACK of its answer either has that
      answer still on its way, as the only final response, or the ACK on its way back. */
  lemma NeverStranded(acts: seq<Action>)
    ensures var g := Run(acts);
            Waiting(g.b.state) ==>
              || (I_ACK !in g.up && g.down != [] && IsFinal(g.down[|g.down| - 1])
                  && (g.b.state == Success <==> g.down[|g.down| - 1].code < MULTIPLE_CHOICES)
                  && forall i :: 0 <= i < |g.down| - 1 ==> !IsFinal(g.down[i]))
              || (I_ACK in g.up && g.down == [])
  {
    Reachable(acts);
    var g := Run(acts);
    if Waiting(g.b.state) && AckSent(g) {
      var cancelled, byes :| AckSentAs(g, cancelled, byes);
      assert I_ACK in g.up;
    }
  }

  /** The caller talks only to a callee that has accepted and not been told to stop. */
  lemma EstablishedTogether(acts: seq<Action>)
    ensures var g := Run(acts);
            g.a.state == Established ==>
              g.b.state == Success || g.b.state == Established || g.b.state == Byeing
  {
    Reachable(acts);
  }

  /** Whenever either side is established, and so at its first entry, INVITE, 2xx and ACK
      have been sent before in that order. */
  lemma EstablishedAfterHandshake(acts: seq<Action>)
    ensures var g := Run(acts);
            g.a.state == Established || g.b.state == Established ==> ThreeWay(g.hist)
  {
    Reachable(acts);
    HandshakeMeans(Run(acts).hist);
  }

  predicate IsDelivery(act: Action) {
    act.DeliverUp? || act.DeliverDown?
  }

  lemma RunAppend(acts: seq<Action>, act: Action)
    ensures Run(acts + [act]) == if Enabled(Run(acts), act) then Next(Run(acts), act) else Run(acts)
  {
    assert (acts + [act])[..|acts|] == acts;
  }

  /** While a callee waits, the next delivery leaves less to deliver, and does not add to what
      goes to the caller. */
  lemma DeliveryHelps(g: Session)
    requires Inv(g) && Waiting(g.b.state)
    ensures var act := if g.down != [] then DeliverDown else DeliverUp(false, false, false);
            && Enabled(g, act)
            && (Waiting(Next(g, act).b.state) ==>
                  || |Next(g, act).down| < |g.down|
                  || (|Next(g, act).down| == |g.down| && |Next(g, act).up| < |g.up|))
  {
    hide React, Handshake, Stamp;
    if g.down == [] {
      assert AckSent(g);
      var cancelled, byes :| AckSentAs(g, cancelled, byes);
      AckSentUp(g, cancelled, byes, false, false, false);
      LegWaits(g.b, 0, g.next);
    }
  }

  /** And so the callee is released: from every reachable state the channels alone, with no
      help from either user, bring a waiting callee its ACK. */
  lemma {:induction false} AckArrives(acts: seq<Action>) returns (more: seq<Action>)
    requires Waiting(Run(acts).b.state)
    ensures forall act <- more :: IsDelivery(act)
    ensures !Waiting(Run(acts + more).b.state)
    decreases |Run(acts).down|, |Run(acts).up|
  {
    hide Run, Next, Inv, Waiting, Enabled;
    Reachable(acts);
    var g := Run(acts);
    DeliveryHelps(g);
    var act := if g.down != [] then DeliverDown else DeliverUp(false, false, false);
    RunAppend(acts, act);
    if Waiting(Run(acts + [act]).b.state) {
      var rest := AckArrives(acts + [act]);
      more := [act] + rest;
      assert acts + more == acts + [act] + rest;
    } else {
      more := [act];
    }
  }
}
