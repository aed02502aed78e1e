/**
  Changing a session with a second INVITE (CL_modify, CL_modify_proceed, CL_recall_proceed).

  Either leg of an established session may invite again.  Whatever the other side answers, the
  session goes on; but not if the INVITE is called off or the session is hung up meanwhile.
 */
module SipReinvite {
  import opened CallLegs
  import opened SipSession

  /** A leg to which no provider call fails; `tid` is the next transaction. */
  function Does(l: Leg, i: Input, tid: nat): Leg {
    Step(l, i, Env(2, tid))
  }

  /** The leg after some provisional responses to its INVITE. */
  function Early(l: Leg, codes: seq<int>, tid: nat): Leg {
    if codes == [] then l
    else Does(Early(l, codes[..|codes| - 1], tid), GotResponse(INVITE, codes[|codes| - 1], tid), 0)
  }

  lemma {:induction false} EarlyIs(l: Leg, codes: seq<int>, tid: nat)
    requires l.state == Modify || l.state == ModifyProceed
    requires forall i :: 0 <= i < |codes| ==> codes[i] < OK
    ensures var l' := Early(l, codes, tid);
            && l' == l.(state := l'.state, status := l'.status)
            && l'.state == (if codes == [] then l.state else ModifyProceed)
  {
    if codes != [] {
      EarlyIs(l, codes[..|codes| - 1], tid);
    }
  }

  /** The leg that invites again is back in its session by any final answer: it acknowledges it
      once, and tells the listener of a change or of a failure. */
  lemma ReinviteAnswered(l: Leg, n: nat, early: seq<int>, code: int)
    requires l.state == Established && code >= OK && forall i :: 0 <= i < |early| ==> early[i] < OK
    ensures var l' := Does(Early(Does(l, UserInvite, n), early, n), GotResponse(INVITE, code, n), 0);
            && l'.state == Established && l'.status == code && l'.curTid == n
            && l'.sent == l.sent + [Request(INVITE, n), Request(ACK, n)]
            && l'.calls == l.calls + [if code < MULTIPLE_CHOICES then NotifyCallback else ErrorCallback]
  {
    hide Does, Early;
    InvitesAgain(l, n);
    var l1 := Does(l, UserInvite, n);
    EarlyIs(l1, early, n);
    TakesFinal(Early(l1, early, n), n, code);
    assert l.sent + [Request(INVITE, n)] + [Request(ACK, n)] == l.sent + [Request(INVITE, n), Request(ACK, n)];
  }

  lemma InvitesAgain(l: Leg, n: nat)
    requires l.state == Established
    ensures var l' := Does(l, UserInvite, n);
            && l'.state == Modify && l'.curTid == n && l'.sent == l.sent + [Request(INVITE, n)] && l'.calls == l.calls
  {}

  lemma TakesFinal(l: Leg, n: nat, code: int)
    requires (l.state == Modify || l.state == ModifyProceed) && code >= OK
    ensures var l' := Does(l, GotResponse(INVITE, code, n), 0);
            && l'.state == Established && l'.status == code && l'.curTid == l.curTid
            && l'.sent == l.sent + [Request(ACK, n)]
            && l'.calls == l.calls + [if code < MULTIPLE_CHOICES then NotifyCallback else ErrorCallback]
  {}

  datatype Decision = Accepts | Declines | CalledOff

  function Decide(l: Leg, d: Decision, tid: nat): Leg {
    match d
    case Accepts => Does(l, UserAccept, 0)
    case Declines => Does(l, UserDecline, 0)
    case CalledOff => Does(l, GotCancel(tid), 0)
  }

  function Said(d: Decision, tid: nat): seq<Message> {
    match d
    case Accepts => [Response(INVITE, OK, tid)]
    case Declines => [Response(INVITE, DECLINE, tid)]
    case CalledOff => [Response(CANCEL, OK, tid), Response(INVITE, CANCELLED, tid)]
  }

  /** The leg that is invited again rings, gives one final answer, and is back in its session when
      that is acknowledged, whether the change is accepted, declined or called off; in between it
      waits as it does for its first ACK. */
  lemma ReinviteOffered(l: Leg, tid: nat, d: Decision)
    requires l.state == Established
    ensures var l1 := Does(l, GotInvite(tid, false, true, true), 0);
            var l2 := Decide(l1, d, tid);
            var l' := Does(l2, GotAck(tid), 0);
            && l1.state == RecallProceed && l2.state == Success && l'.state == Established && l'.curTid == tid
            && l'.sent == l.sent + [Response(INVITE, RINGING, tid)] + Said(d, tid)
            && l'.calls == l.calls + [NotifyCallback] + (if d == CalledOff then [ErrorCallback] else [])
  {
    assert l.calls + [NotifyCallback] + [] == l.calls + [NotifyCallback];
  }

  /** An INVITE for somebody else is refused and the session goes on; one that has come round ends
      it on this side. */
  lemma ReinviteRefused(l: Leg, tid: nat, looped: bool, local: bool, registered: bool)
    requires l.state == Established && (looped || !local || !registered)
    ensures var l' := Does(l, GotInvite(tid, looped, local, registered), 0);
            && l'.state == (if looped then Failed else Established)
            && l'.sent == l.sent + [Response(INVITE, if looped then LOOP_DETECTED else NOT_FOUND, tid)]
            && l'.calls == l.calls
  {}

  /** Hanging up while the second INVITE is not answered: before any response by a BYE on its own
      transaction, after one by a CANCEL; hanging up again then repeats not the BYE but the INVITE,
      the last request that opened a transaction. */
  lemma ReinviteHungUp(l: Leg, n: nat, k: nat)
    requires l.state == Established
    ensures var l1 := Does(l, UserInvite, n);
            var l2 := Does(l1, UserHangup, k);
            var l3 := Does(l2, UserHangup, k);
            && l2.state == Byeing && l2.sent == l1.sent + [Request(BYE, n)]
            && l3.state == Byeing && l3.sent == l2.sent + [Request(INVITE, k)]
    ensures var l1 := Early(Does(l, UserInvite, n), [RINGING], n);
            var l2 := Does(l1, UserHangup, k);
            l2.state == Cancelling && l2.sent == l1.sent + [Request(CANCEL, n)]
  {
    EarlyIs(Does(l, UserInvite, n), [RINGING], n);
  }

  /** Inviting again before an answer repeats the INVITE under a new transaction; so does hanging
      up again with the BYE. */
  lemma Repeated(l: Leg, n: nat, k: nat)
    requires l.state == Initial || l.state == Established
    ensures var l1 := Does(l, UserInvite, n); var l2 := Does(l1, UserInvite, k);
            && l1.state == (if l.state == Initial then Calling else Modify)
            && l2.state == l1.state && l2.sent == l1.sent + [Request(INVITE, k)] && l2.curTid == k
    ensures l.state == Established ==>
              var l1 := Does(l, UserHangup, n); var l2 := Does(l1, UserHangup, k);
              && l1.state == Byeing && l1.sent == l.sent + [Request(BYE, n)]
              && l2.state == Byeing && l2.sent == l1.sent + [Request(BYE, k)]
  {}

  // --------------------------------------------------------------- both legs together

  /** An established session with nothing on its way. */
  predicate Talking(g: Session) {
    g.a.state == Established && g.b.state == Established && g.up == [] && g.down == []
  }

  function Up(g: Session): Session {
    if g.up == [] then g else Next(g, DeliverUp(false, true, true))
  }

  function Down(g: Session): Session {
    if g.down == [] then g else Next(g, DeliverDown)
  }

  /** The caller invites again and the callee rings. */
  lemma ReinviteRings(g: Session)
    requires Talking(g)
    ensures var g1 := CallerStep(g, UserInvite);
            && g1.up == [Request(INVITE, g.next)] && g1.a.state == Modify && g1.b == g.b && g1.down == []
            && var g2 := Up(g1);
               && g2.a == g1.a && g2.b.state == RecallProceed && g2.b.curTid == g.next
               && g2.up == [] && g2.down == [Response(INVITE, RINGING, g.next)]
               && g2.b.calls == g.b.calls + [NotifyCallback] && g2.a.calls == g.a.calls
  {
    hide Stamp;
    var g1 := CallerStep(g, UserInvite);
    assert g.up + g1.a.sent == g1.a.sent && g1.a.sent == [Request(INVITE, g.next)];
    assert g1.up[1..] == [];
  }

  lemma RingingArrives(g: Session, n: nat)
    requires g.a.state == Modify && g.up == [] && g.down != [] && g.down[0] == Response(INVITE, RINGING, n)
    ensures var g' := Down(g);
            && g'.a.state == ModifyProceed && g'.a.calls == g.a.calls && g'.b == g.b
            && g'.up == [] && g'.down == g.down[1..]
  {
    hide Stamp;
  }

  lemma AnswerArrives(g: Session, n: nat, code: int)
    requires g.a.state == ModifyProceed && g.up == [] && code >= OK && g.down == [Response(INVITE, code, n)]
    ensures var g' := Down(g);
            && g'.a.state == Established && g'.b == g.b && g'.up == [Request(ACK, n)] && g'.down == []
            && g'.a.calls == g.a.calls + [if code < MULTIPLE_CHOICES then NotifyCallback else ErrorCallback]
  {
    hide Stamp;
    assert g.down[1..] == [];
  }

  lemma AckComes(g: Session, n: nat)
    requires g.b.state == Success && g.down == [] && g.up == [Request(ACK, n)]
    ensures var g' := Up(g);
            && g'.b.state == Established && g'.b.calls == g.b.calls && g'.a == g.a
            && g'.up == [] && g'.down == []
  {
    hide Stamp;
    assert g.up[1..] == [];
  }

  /** The caller invites again, the callee decides when it rings, and all messages arrive. */
  function Changed(g: Session, accept: bool): Session {
    var rings := Up(CallerStep(g, UserInvite));
    Up(Down(Down(CalleeStep(rings, if accept then UserAccept else UserDecline))))
  }

  /** A session survives a second INVITE, accepted or declined: both legs are back in it with
      nothing on the way, both listeners have been told, and the caller's knows which. */
  lemma SessionChanged(g: Session, accept: bool)
    requires Talking(g)
    ensures var g' := Changed(g, accept);
            && Talking(g')
            && g'.a.calls == g.a.calls + [if accept then NotifyCallback else ErrorCallback]
            && g'.b.calls == g.b.calls + [NotifyCallback]
  {
    hide Stamp, React, Up, Down, CallerStep, CalleeStep;
    ReinviteRings(g);
    var n := g.next;
    var g2 := Up(CallerStep(g, UserInvite));
    DecisionSent(g2, n, accept);
    var g3 := CalleeStep(g2, if accept then UserAccept else UserDecline);
    RingingArrives(g3, n);
    AnswerArrives(Down(g3), n, if accept then OK else DECLINE);
    AckComes(Down(Down(g3)), n);
  }

  lemma DecisionSent(g: Session, n: nat, accept: bool)
    requires g.b.state == RecallProceed && g.b.curTid == n && g.down == [Response(INVITE, RINGING, n)]
    ensures var g' := CalleeStep(g, if accept then UserAccept else UserDecline);
            && g'.a == g.a && g'.up == g.up && g'.b.state == Success && g'.b.calls == g.b.calls
            && g'.down == [Response(INVITE, RINGING, n), Response(INVITE, if accept then OK else DECLINE, n)]
  {
    hide Stamp;
  }
}
