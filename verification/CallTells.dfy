/**
  What a call tells SIP and the media engine, by classes of states and events.

  The table of a call is its user interface turned into signalling; this says what that
  amounts to: which events move a call to which state, which commands go out on the way, and,
  over every run, that nobody is connected, rejected or hung up on by mistake.
 */
module CallTells {
  import opened Options
  import opened PortManagers
  import opened StateMachines
  import opened CallControl

  predicate IsSetup(s: State) { s == CALLING || s == RINGING }

  /** The other side's answer to an offer, whatever it offers. */
  predicate IsOffer(e: Event) { e in {SIP_N0, SIP_N0000, SIP_NY, SIP_NN} }

  /** The state of a call after it has handled an event that is not its own error. */
  function Moves(s: State, e: Event): State {
    if s == RINGING && e == SIP_HANGUP then MISSED
    else if s == ACTIVE && e == GUI_MUTE then MUTING
    else if IsSetup(s) && e == MED_UNAVL then INACTIVE
    else if (s == ACTIVE && e == SIP_N0000) || (s == MUTING && IsOffer(e)) then INACTIVE
    else if s == INACTIVE && e == SIP_NY then RINGING
    else if (s == INACTIVE && e == GUI_UNMUTE) || (s == MISSED && e == GUI_CALLBACK) then CALLING
    else if IsSetup(s) && e == MED_AVL then ACTIVE
    else if Breaks(s, e) then ERROR
    else if Ends(s, e) then DELETE
    else s
  }

  /** A failure of SIP where there is a call, an offer without a codec at its start, and the other
      side hanging up before it has answered. */
  predicate Breaks(s: State, e: Event) {
    || (e == SIP_ERROR && (IsSetup(s) || s == ACTIVE || s == MUTING || s == MISSED))
    || (e == SIP_NN && (s == INACTIVE || s == CALLING))
    || (e == SIP_HANGUP && s == CALLING)
  }

  /** The user cancels a call that is not connected, or hangs one up that has been or may be; the
      other side hangs up a connected one. */
  predicate Ends(s: State, e: Event) {
    || (e == GUI_CANCEL && (s == INACTIVE || IsSetup(s) || s == MISSED || s == ERROR))
    || (e == GUI_HUP && (s == INACTIVE || s == ACTIVE || s == MUTING))
    || (e == SIP_HANGUP && s == ACTIVE)
  }

  lemma NextOfCell(s: State, e: Event)
    requires e != GEN_ERROR
    ensures var next := Transition(s, e).next; (if next == None then s else next.value) == Moves(s, e)
  {}

  /** Where each event leads; its own error leads every call to ERROR. */
  lemma StateAfter(me: CallId, h: Here, e: Event, f: Faults)
    requires Ready(me, h, e)
    ensures Trigger(me, h, e, f).c.state == Moves(h.c.state, e)
  {
    hide Transition, ActAll, Act, Moves;
    HandledOk(me, h, e, f);
    ActsStay(me, h, e, f);
    NextOfCell(h.c.state, e);
  }

  /** Handling an event is safe: what CallControl proves of one turn. */
  lemma HandledOk(me: CallId, h: Here, e: Event, f: Faults)
    requires Ready(me, h, e)
    ensures CallOk(me, Trigger(me, h, e, f))
  {
    hide Trigger, CallOk, Considerate;
    match h.c.state
    case INACTIVE | MISSED => FromIdle(me, h, e, f);
    case CALLING | RINGING => FromSetup(me, h, e, f);
    case ACTIVE => FromActive(me, h, e, f);
    case _ => FromRest(me, h, e, f);
  }

  lemma {:induction false} ActAllStays(me: CallId, h: Here, acts: seq<Action>, f: Faults)
    ensures ActAll(me, h, acts, f).c.state == h.c.state && ActAll(me, h, acts, f).c.since == h.c.since
    ensures h.c.told <= ActAll(me, h, acts, f).c.told
    decreases |acts|
  {
    if acts != [] {
      ActStays(me, h, acts[0], f);
      var (h1, success) := Act(me, h, acts[0], f);
      if success {
        ActAllStays(me, h1, acts[1..], f);
      }
    }
  }

  lemma ActStays(me: CallId, h: Here, a: Action, f: Faults)
    ensures var h' := Act(me, h, a, f).0;
            h'.c.state == h.c.state && h'.c.since == h.c.since && h.c.told <= h'.c.told
  {
    hide Allot, Release;
  }

  lemma ActsStay(me: CallId, h: Here, e: Event, f: Faults)
    ensures ActAll(me, h, Transition(h.c.state, e).actions, f).c.state == h.c.state
  {
    ActAllStays(me, h, Transition(h.c.state, e).actions, f);
  }

  // ------------------------------------------------------------------ what is told

  /** The call gets a port pair. */
  predicate GetsPorts(h: Here, f: Faults) {
    Allot(h.ports).1.Some? && !f.lsdp
  }

  /** The user takes the call, the other side's change of a connected or muted one is taken, or an
      offer to a call that has no media yet. */
  predicate Accepts(h: Here, e: Event, f: Faults) {
    || (h.c.state == RINGING && e == GUI_ACCEPT)
    || (h.c.state == ACTIVE && e == SIP_N0000)
    || (h.c.state == MUTING && IsOffer(e))
    || (h.c.state == INACTIVE && e == SIP_N0 && GetsPorts(h, f))
  }

  predicate Mutes(h: Here, e: Event, f: Faults) {
    !f.mute && ((h.c.state == ACTIVE && e == GUI_MUTE) || (IsSetup(h.c.state) && e == MED_UNAVL))
  }

  predicate CallsBack(h: Here, e: Event, f: Faults) {
    h.c.state == MISSED && Moves(h.c.state, e) == CALLING && !f.callback
  }

  /** The call goes out: whoever comes to CALLING has invited, if it could. */
  predicate Invites(h: Here, e: Event, f: Faults) {
    && Moves(h.c.state, e) == CALLING && h.c.state != CALLING
    && GetsPorts(h, f) && (h.c.state == MISSED ==> !f.callback)
  }

  /** The engine starts for a call that becomes active, and stops for one that is so no more,
      unless it is to be muted and that fails. */
  predicate Starts(h: Here, e: Event, f: Faults) {
    Moves(h.c.state, e) == ACTIVE && h.c.state != ACTIVE && !f.start
  }

  predicate Stops(h: Here, e: Event, f: Faults) {
    h.c.state == ACTIVE && Moves(h.c.state, e) != ACTIVE && (e == GUI_MUTE ==> !f.mute)
  }

  predicate Over(s: State) { s == ERROR || s == DELETE }

  /** An INVITE that nobody has answered is declined: by the user, or for want of a codec. */
  predicate Rejects(s: State, e: Event) {
    (s == RINGING && e == GUI_CANCEL) || (s == INACTIVE && e == SIP_NN)
  }

  /** All other calls that end are hung up, but for those the other side has ended and those
      SIP knows no more. */
  predicate HangsUp(s: State, e: Event) {
    && Over(Moves(s, e)) && !Over(s) && s != MISSED
    && e != SIP_HANGUP && !Rejects(s, e)
  }

  function If(b: bool, a: Action): seq<Action> { if b then [a] else [] }

  function Answer(h: Here, e: Event, f: Faults): seq<Action> {
    if Accepts(h, e, f) then [SipAccept]
    else if Mutes(h, e, f) then [SipMute]
    else If(CallsBack(h, e, f), SipCallback) + If(Invites(h, e, f), SipInvite)
  }

  function Engine(h: Here, e: Event, f: Faults): seq<Action> {
    if Starts(h, e, f) then [MedStart] else If(Stops(h, e, f), MedStop)
  }

  function Farewell(s: State, e: Event): seq<Action> {
    if Rejects(s, e) then [SipDecline] else If(HangsUp(s, e), SipHangup)
  }

  /** The commands of one turn: an answer or an invitation comes first, then the engine, then the
      end of the call. */
  function Told(h: Here, e: Event, f: Faults): seq<Action> {
    Answer(h, e, f) + Engine(h, e, f) + Farewell(h.c.state, e)
  }

  /** No two classes overlap where only one command is given. */
  lemma OneOfEach(h: Here, e: Event, f: Faults)
    ensures !(Accepts(h, e, f) && Mutes(h, e, f)) && !(Accepts(h, e, f) && Invites(h, e, f))
    ensures !(Mutes(h, e, f) && Invites(h, e, f)) && !(Starts(h, e, f) && Stops(h, e, f))
    ensures CallsBack(h, e, f) ==> !Accepts(h, e, f) && !Mutes(h, e, f)
    ensures !(Rejects(h.c.state, e) && HangsUp(h.c.state, e))
  {}

  /** Exactly what is told when an event is handled. */
  lemma TellsExactly(me: CallId, h: Here, e: Event, f: Faults)
    requires Ready(me, h, e)
    ensures Trigger(me, h, e, f).c.told == h.c.told + Told(h, e, f)
  {
    hide Transition, ActAll, Act, Told;
    CellShape(h.c.state, e);
    ActAllOf(me, h, Transition(h.c.state, e).actions, f);
    assert h.c.told + [] == h.c.told;
    match h.c.state
    case INACTIVE => ToldInactive(me, h, e, f);
    case MISSED => ToldMissed(me, h, e, f);
    case CALLING => ToldCalling(me, h, e, f);
    case RINGING => ToldRinging(me, h, e, f);
    case ACTIVE => ToldActive(me, h, e, f);
    case MUTING => ToldMuting(me, h, e, f);
    case _ => ToldOver(me, h, e, f);
  }

  /** What one action tells, and whether it succeeds. */
  lemma ActTells(me: CallId, h: Here, a: Action, f: Faults)
    requires a in {MedStop, SipInvite, MedStart} ==> h.c.media.Some?
    requires a == MedStart ==> h.owner.Some?
    ensures var (h', ok) := Act(me, h, a, f);
            match a
            case MedLsdp => h'.c.told == h.c.told && ok == GetsPorts(h, f) && (ok ==> h'.c.media.Some?)
            case MedAvl => h'.c.told == h.c.told && ok
            case MedStart => h'.c.told == h.c.told + If(ok, a) && ok == !f.start
            case SipCallback => h'.c.told == h.c.told + If(ok, a) && ok == !f.callback && h'.ports == h.ports
            case SipMute => h'.c.told == h.c.told + If(ok, a) && ok == !f.mute && h'.c.media == h.c.media
            case SipAccept => h'.c.told == h.c.told + [a] && ok && h'.c.media == h.c.media
            case _ => h'.c.told == h.c.told + [a] && ok
  {
    hide Allot, Release;
    assert h.c.told + [] == h.c.told;
  }

  lemma InactiveActs(e: Event)
    requires e != GEN_ERROR
    ensures Transition(INACTIVE, e).actions ==
              if e == SIP_N0 then [MedLsdp, SipAccept]
              else if e == SIP_NY then [MedLsdp]
              else if e == GUI_CANCEL || e == GUI_HUP then [SipHangup]
              else if e == SIP_NN then [SipDecline]
              else if e == GUI_UNMUTE then [MedLsdp, SipInvite]
              else []
  {}

  lemma InactiveParts(h: Here, e: Event, f: Faults)
    requires h.c.state == INACTIVE && e != GEN_ERROR
    ensures Answer(h, e, f) ==
              if e == SIP_N0 then If(GetsPorts(h, f), SipAccept)
              else if e == GUI_UNMUTE then If(GetsPorts(h, f), SipInvite) else []
    ensures Engine(h, e, f) == []
    ensures Farewell(h.c.state, e) ==
              if e == SIP_NN then [SipDecline] else If(e == GUI_CANCEL || e == GUI_HUP, SipHangup)
  {
    hide Allot;
  }

  lemma ToldInactive(me: CallId, h: Here, e: Event, f: Faults)
    requires Ready(me, h, e) && h.c.state == INACTIVE
    ensures ActAll(me, h, Transition(h.c.state, e).actions, f).c.told == h.c.told + Told(h, e, f)
  {
    hide Act, ActAll, Allot, Transition, Answer, Engine, Farewell;
    InactiveActs(e);
    InactiveParts(h, e, f);
    var acts := Transition(INACTIVE, e).actions;
    ActAllOf(me, h, acts, f);
    if acts != [] {
      ActTells(me, h, acts[0], f);
      if |acts| == 2 && Act(me, h, acts[0], f).1 {
        ActTells(me, Act(me, h, acts[0], f).0, acts[1], f);
      }
    }
  }

  lemma MissedActs(e: Event)
    requires e != GEN_ERROR
    ensures Transition(MISSED, e).actions == if e == GUI_CALLBACK then [SipCallback, MedLsdp, SipInvite] else []
  {}

  lemma MissedParts(h: Here, e: Event, f: Faults)
    requires h.c.state == MISSED && e != GEN_ERROR
    ensures Answer(h, e, f) ==
              if e == GUI_CALLBACK && !f.callback then [SipCallback] + If(GetsPorts(h, f), SipInvite) else []
    ensures Engine(h, e, f) == [] && Farewell(h.c.state, e) == []
  {
    hide Allot;
  }

  lemma ToldMissed(me: CallId, h: Here, e: Event, f: Faults)
    requires Ready(me, h, e) && h.c.state == MISSED
    ensures ActAll(me, h, Transition(h.c.state, e).actions, f).c.told == h.c.told + Told(h, e, f)
  {
    hide Act, ActAll, Allot, Transition, Answer, Engine, Farewell, Held;
    MissedActs(e);
    MissedParts(h, e, f);
    var acts := Transition(h.c.state, e).actions;
    ActAllOf(me, h, acts, f);
    if acts != [] {
      ActTells(me, h, SipCallback, f);
      var h1 := Act(me, h, SipCallback, f).0;
      ActTells(me, h1, MedLsdp, f);
      if Act(me, h1, MedLsdp, f).1 {
        ActTells(me, Act(me, h1, MedLsdp, f).0, SipInvite, f);
      }
      assert h.c.told + [SipCallback] + [SipInvite] == h.c.told + [SipCallback, SipInvite];
    }
  }

  lemma CallingActs(e: Event)
    requires e != GEN_ERROR
    ensures Transition(CALLING, e).actions ==
              if e == MED_UNAVL then [SipMute]
              else if e == SIP_ERROR || e == SIP_NN || e == GUI_CANCEL then [SipHangup]
              else if e == MED_AVL then [MedStart]
              else if e == SIP_NY then [MedAvl]
              else []
  {}

  lemma CallingParts(h: Here, e: Event, f: Faults)
    requires h.c.state == CALLING && e != GEN_ERROR
    ensures Answer(h, e, f) == If(e == MED_UNAVL && !f.mute, SipMute)
    ensures Engine(h, e, f) == If(e == MED_AVL && !f.start, MedStart)
    ensures Farewell(h.c.state, e) == If(e == SIP_ERROR || e == SIP_NN || e == GUI_CANCEL, SipHangup)
  {
    hide Allot;
  }

  lemma ToldCalling(me: CallId, h: Here, e: Event, f: Faults)
    requires Ready(me, h, e) && h.c.state == CALLING
    ensures ActAll(me, h, Transition(h.c.state, e).actions, f).c.told == h.c.told + Told(h, e, f)
  {
    hide Act, ActAll, Allot, Transition, Answer, Engine, Farewell;
    CallingActs(e);
    CallingParts(h, e, f);
    var acts := Transition(CALLING, e).actions;
    ActAllOf(me, h, acts, f);
    if acts != [] {
      ActTells(me, h, acts[0], f);
    }
  }

  lemma RingingActs(e: Event)
    requires e != GEN_ERROR
    ensures Transition(RINGING, e).actions ==
              if e == MED_UNAVL then [SipMute]
              else if e == GUI_ACCEPT then [SipAccept, MedAvl]
              else if e == MED_AVL then [MedStart]
              else if e == GUI_CANCEL then [SipDecline]
              else if e == SIP_ERROR then [SipHangup]
              else []
  {}

  lemma RingingParts(h: Here, e: Event, f: Faults)
    requires h.c.state == RINGING && e != GEN_ERROR
    ensures Answer(h, e, f) == if e == GUI_ACCEPT then [SipAccept] else If(e == MED_UNAVL && !f.mute, SipMute)
    ensures Engine(h, e, f) == If(e == MED_AVL && !f.start, MedStart)
    ensures Farewell(h.c.state, e) == if e == GUI_CANCEL then [SipDecline] else If(e == SIP_ERROR, SipHangup)
  {
    hide Allot;
  }

  lemma ToldRinging(me: CallId, h: Here, e: Event, f: Faults)
    requires Ready(me, h, e) && h.c.state == RINGING
    ensures ActAll(me, h, Transition(h.c.state, e).actions, f).c.told == h.c.told + Told(h, e, f)
  {
    hide Act, ActAll, Allot, Transition, Answer, Engine, Farewell;
    RingingActs(e);
    RingingParts(h, e, f);
    var acts := Transition(RINGING, e).actions;
    ActAllOf(me, h, acts, f);
    if acts != [] {
      ActTells(me, h, acts[0], f);
      if |acts| == 2 && Act(me, h, acts[0], f).1 {
        ActTells(me, Act(me, h, acts[0], f).0, acts[1], f);
      }
    }
  }

  lemma ConnectedActs(e: Event)
    requires e != GEN_ERROR
    ensures Transition(ACTIVE, e).actions ==
              if e == GUI_MUTE then [SipMute, MedStop]
              else if e == SIP_N0000 then [SipAccept, MedStop]
              else if e == SIP_ERROR || e == GUI_HUP then [MedStop, SipHangup]
              else if e == SIP_HANGUP then [MedStop]
              else []
  {}

  lemma ActiveParts(h: Here, e: Event, f: Faults)
    requires h.c.state == ACTIVE && e != GEN_ERROR
    ensures Answer(h, e, f) == if e == SIP_N0000 then [SipAccept] else If(e == GUI_MUTE && !f.mute, SipMute)
    ensures Engine(h, e, f) ==
              If(e in {SIP_N0000, SIP_ERROR, GUI_HUP, SIP_HANGUP} || (e == GUI_MUTE && !f.mute), MedStop)
    ensures Farewell(h.c.state, e) == If(e == SIP_ERROR || e == GUI_HUP, SipHangup)
  {
    hide Allot;
  }

  lemma ToldActive(me: CallId, h: Here, e: Event, f: Faults)
    requires Ready(me, h, e) && h.c.state == ACTIVE
    ensures ActAll(me, h, Transition(h.c.state, e).actions, f).c.told == h.c.told + Told(h, e, f)
  {
    hide Act, ActAll, Allot, Transition, Answer, Engine, Farewell, Held;
    ConnectedActs(e);
    ActiveParts(h, e, f);
    var acts := Transition(ACTIVE, e).actions;
    ActAllOf(me, h, acts, f);
    if acts != [] {
      ActTells(me, h, acts[0], f);
      if |acts| == 2 && Act(me, h, acts[0], f).1 {
        ActTells(me, Act(me, h, acts[0], f).0, acts[1], f);
      }
    }
    TwoTold(h.c.told);
  }

  lemma TwoTold(told: seq<Action>)
    ensures forall a, b :: told + [a] + [b] == told + [a, b]
  {}

  lemma MutingActs(e: Event)
    requires e != GEN_ERROR
    ensures Transition(MUTING, e).actions ==
              if IsOffer(e) then [SipAccept]
              else if e == SIP_ERROR || e == GUI_HUP then [SipHangup]
              else []
  {}

  lemma MutingParts(h: Here, e: Event, f: Faults)
    requires h.c.state == MUTING && e != GEN_ERROR
    ensures Answer(h, e, f) == If(IsOffer(e), SipAccept)
    ensures Engine(h, e, f) == []
    ensures Farewell(h.c.state, e) == If(e == SIP_ERROR || e == GUI_HUP, SipHangup)
  {
    hide Allot;
  }

  lemma ToldMuting(me: CallId, h: Here, e: Event, f: Faults)
    requires Ready(me, h, e) && h.c.state == MUTING
    ensures ActAll(me, h, Transition(h.c.state, e).actions, f).c.told == h.c.told + Told(h, e, f)
  {
    hide Act, ActAll, Allot, Transition, Answer, Engine, Farewell;
    MutingActs(e);
    MutingParts(h, e, f);
    var acts := Transition(MUTING, e).actions;
    ActAllOf(me, h, acts, f);
    if acts != [] {
      ActTells(me, h, acts[0], f);
    }
  }

  lemma ToldOver(me: CallId, h: Here, e: Event, f: Faults)
    requires Ready(me, h, e) && Over(h.c.state)
    ensures ActAll(me, h, Transition(h.c.state, e).actions, f).c.told == h.c.told + Told(h, e, f)
  {
    ErrorAndDeleteClosed(me, h, e, f);
    hide Allot;
  }

  // ------------------------------------------------------- engine, ports and own events

  /** A call asks for the engine when it is to be connected: by its user, or by the first answer to
      its invitation. */
  predicate Asks(s: State, e: Event) {
    (s == RINGING && e == GUI_ACCEPT) || (s == CALLING && e == SIP_NY)
  }

  /** A call needs ports when it begins to ring or to call, or is offered a call without media. */
  predicate NeedsPorts(s: State, e: Event) {
    (!IsSetup(s) && IsSetup(Moves(s, e))) || (s == INACTIVE && e == SIP_N0)
  }

  /** It looks for them, too, unless calling back has failed before. */
  predicate LooksForPorts(h: Here, e: Event, f: Faults) {
    NeedsPorts(h.c.state, e) && (h.c.state == MISSED ==> !f.callback)
  }

  predicate Troubled(h: Here, e: Event, f: Faults) {
    || (LooksForPorts(h, e, f) && !GetsPorts(h, f))
    || (h.c.state == MISSED && Moves(h.c.state, e) == CALLING && f.callback)
    || (Moves(h.c.state, e) == ACTIVE && h.c.state != ACTIVE && f.start)
  }

  /** The engine is there for a call if nobody else has it. */
  predicate Available(me: CallId, h: Here) {
    h.owner == None || h.owner == Some(me)
  }

  /** The events its actions post. */
  function Posts(me: CallId, h: Here, e: Event, f: Faults): seq<Event> {
    if Asks(h.c.state, e) then [if Available(me, h) then MED_AVL else MED_UNAVL]
    else if Troubled(h, e, f) then [GEN_ERROR]
    else []
  }

  /** The events a call posts to itself: a call that begins to ring may be answered at once. */
  function Posted(me: CallId, h: Here, e: Event, f: Faults): seq<Event> {
    Posts(me, h, e, f)
    + (if Moves(h.c.state, e) == RINGING && h.c.state != RINGING && f.autoAnswer then [GUI_ACCEPT] else [])
  }

  /** What the actions leave of engine and ports. */
  ghost predicate Keeps(me: CallId, h: Here, e: Event, f: Faults, h': Here) {
    && h'.owner == (if Stops(h, e, f) then None
                    else if Asks(h.c.state, e) && Available(me, h) then Some(me) else h.owner)
    && h'.c.media == (if Stops(h, e, f) then None
                      else if LooksForPorts(h, e, f) && GetsPorts(h, f) then Allot(h.ports).1 else h.c.media)
    && (h.c.media.Some? || !Stops(h, e, f) ==>
          h'.ports == if Stops(h, e, f) then Release(h.ports, h.c.media.value)
                      else if LooksForPorts(h, e, f) then Allot(h.ports).0 else h.ports)
  }

  /** All of what a turn leaves behind besides commands. */
  ghost predicate Leaves(me: CallId, h: Here, e: Event, f: Faults, h': Here) {
    h'.c.queue == Posted(me, h, e, f) && Keeps(me, h, e, f, h')
  }

  ghost predicate ActsLeave(me: CallId, h: Here, e: Event, f: Faults) {
    var h1 := ActAll(me, h, Transition(h.c.state, e).actions, f);
    h1.c.queue == Posts(me, h, e, f) && Keeps(me, h, e, f, h1)
  }

  lemma LeavesExactly(me: CallId, h: Here, e: Event, f: Faults)
    requires Ready(me, h, e)
    ensures Leaves(me, h, e, f, Trigger(me, h, e, f))
  {
    hide ActsLeave, Leaves, Trigger, Ready, Moves;
    match h.c.state {
      case INACTIVE => LeavesInactive(me, h, e, f);
      case MISSED => LeavesMissed(me, h, e, f);
      case CALLING => LeavesCalling(me, h, e, f);
      case RINGING => LeavesRinging(me, h, e, f);
      case ACTIVE => LeavesActive(me, h, e, f);
      case _ => LeavesRest(me, h, e, f);
    }
    Entered(me, h, e, f);
  }

  /** Entering the next state changes nothing else, but for the call answered at once. */
  lemma Entered(me: CallId, h: Here, e: Event, f: Faults)
    requires Ready(me, h, e) && ActsLeave(me, h, e, f)
    ensures Leaves(me, h, e, f, Trigger(me, h, e, f))
  {
    hide Transition, ActAll, Posts, Moves, Keeps;
    HandledOk(me, h, e, f);
    ActsStay(me, h, e, f);
    NextOfCell(h.c.state, e);
    var h1 := ActAll(me, h, Transition(h.c.state, e).actions, f);
    KeepsApart(me, h, e, f, h1, Trigger(me, h, e, f));
  }

  lemma KeepsApart(me: CallId, h: Here, e: Event, f: Faults, h1: Here, h2: Here)
    requires Keeps(me, h, e, f, h1)
    requires h1.owner == h2.owner && h1.c.media == h2.c.media && h1.ports == h2.ports
    ensures Keeps(me, h, e, f, h2)
  {
    hide Allot, Release, Stops, LooksForPorts, Asks, GetsPorts, Available;
  }

  lemma LeavesInactive(me: CallId, h: Here, e: Event, f: Faults)
    requires Ready(me, h, e) && h.c.state == INACTIVE
    ensures ActsLeave(me, h, e, f)
  {
    hide Allot, Release, ActAll, Transition, Held;
    InactiveActs(e);
    ActAllOf(me, h, Transition(h.c.state, e).actions, f);
  }

  lemma LeavesMissed(me: CallId, h: Here, e: Event, f: Faults)
    requires Ready(me, h, e) && h.c.state == MISSED
    ensures ActsLeave(me, h, e, f)
  {
    hide Allot, Release, ActAll, Transition, Held;
    MissedActs(e);
    ActAllOf(me, h, Transition(h.c.state, e).actions, f);
  }

  lemma LeavesCalling(me: CallId, h: Here, e: Event, f: Faults)
    requires Ready(me, h, e) && h.c.state == CALLING
    ensures ActsLeave(me, h, e, f)
  {
    hide Allot, Release, ActAll, Transition, Held;
    CallingActs(e);
    ActAllOf(me, h, Transition(h.c.state, e).actions, f);
  }

  lemma LeavesRinging(me: CallId, h: Here, e: Event, f: Faults)
    requires Ready(me, h, e) && h.c.state == RINGING
    ensures ActsLeave(me, h, e, f)
  {
    hide Allot, Release, ActAll, Transition, Held;
    if e == GUI_ACCEPT {
      LeavesAccepted(me, h, f);
    } else {
      RingingActs(e);
      ActAllOf(me, h, Transition(h.c.state, e).actions, f);
    }
  }

  lemma LeavesAccepted(me: CallId, h: Here, f: Faults)
    requires Ready(me, h, GUI_ACCEPT) && h.c.state == RINGING
    ensures ActsLeave(me, h, GUI_ACCEPT, f)
  {
    hide Allot, Release, ActAll, Transition, Held, Troubled;
    RingingActs(GUI_ACCEPT);
    ActAllOf2(me, h, SipAccept, MedAvl, f);
  }

  lemma LeavesActive(me: CallId, h: Here, e: Event, f: Faults)
    requires Ready(me, h, e) && h.c.state == ACTIVE
    ensures ActsLeave(me, h, e, f)
  {
    hide Allot, Release, ActAll, Transition, Held;
    ConnectedActs(e);
    ActAllOf(me, h, Transition(h.c.state, e).actions, f);
  }

  lemma OverActs(s: State, e: Event)
    requires Over(s)
    ensures Transition(s, e).actions == []
  {}

  lemma LeavesRest(me: CallId, h: Here, e: Event, f: Faults)
    requires Ready(me, h, e) && h.c.state in {MUTING, ERROR, DELETE}
    ensures ActsLeave(me, h, e, f)
  {
    hide Act, ActAll, Transition, Held, Posts, Keeps;
    if h.c.state == MUTING {
      MutingActs(e);
    } else {
      OverActs(h.c.state, e);
    }
    var acts := Transition(h.c.state, e).actions;
    ActAllOf(me, h, acts, f);
    if acts != [] {
      PlainAct(me, h, acts[0], f);
    }
    NothingDue(me, h, e, f, ActAll(me, h, acts, f));
  }

  lemma NothingDue(me: CallId, h: Here, e: Event, f: Faults, h': Here)
    requires h.c.state in {MUTING, ERROR, DELETE}
    requires h'.owner == h.owner && h'.c.media == h.c.media && h'.ports == h.ports
    ensures Posts(me, h, e, f) == [] && Keeps(me, h, e, f, h')
  {
    hide Allot, Release;
  }

  // ------------------------------------------------------------------- over every run

  /** The last command, and the one before it. */
  predicate LastIs(told: seq<Action>, a: Action) {
    told != [] && told[|told| - 1] == a
  }

  /** An INVITE has just been accepted, or sent and then answered. */
  predicate IsAnswered(told: seq<Action>) {
    LastIs(told, SipAccept) || LastIs(told, SipInvite)
  }

  predicate IsConnected(told: seq<Action>) {
    LastIs(told, MedStart) && IsAnswered(told[..|told| - 1])
  }

  function Recent(c: CallData): seq<Action>
    requires c.since <= |c.told|
  {
    c.told[c.since..]
  }

  predicate AwaitsEngine(c: CallData) {
    MED_AVL in c.queue || MED_UNAVL in c.queue
  }

  /** What a call has told since it came to its state fits that state. */
  ghost predicate TellsOk(c: CallData) {
    && c.since <= |c.told|
    && (AwaitsEngine(c) ==> IsSetup(c.state))
    && match c.state
       case RINGING => Recent(c) == if AwaitsEngine(c) then [SipAccept] else []
       case CALLING => Recent(c) == [] && (LastIs(c.told, SipInvite) || (c.queue != [] && c.queue[0] == GEN_ERROR))
       case ACTIVE => Recent(c) == [] && (IsConnected(c.told) || (c.queue == [GEN_ERROR] && IsAnswered(c.told)))
       case INACTIVE => forall a <- Recent(c) :: a == SipAccept
       case _ => Recent(c) == []
  }

  lemma SinceAfter(me: CallId, h: Here, e: Event, f: Faults)
    requires Ready(me, h, e) || e == GEN_ERROR
    requires !h.c.crashed
    ensures var h' := Trigger(me, h, e, f);
            h'.c.since == if h'.c.state == h.c.state then h.c.since else |h'.c.told|
  {
    hide ActAll, Act, Transition;
    ActAllStays(me, h, Transition(h.c.state, e).actions, f);
  }

  lemma ErrorTold(me: CallId, h: Here, f: Faults)
    requires !h.c.crashed
    ensures var h' := Trigger(me, h, GEN_ERROR, f);
            && h'.c.state == ERROR && h'.c.told == h.c.told && h'.c.queue == h.c.queue
            && h'.c.media == h.c.media && h'.owner == h.owner && h'.ports == h.ports
  {}

  lemma TurnTells(me: CallId, h: Here, f: Faults)
    requires CallOk(me, h) && TellsOk(h.c) && h.c.queue != []
    ensures TellsOk(Handle(me, h, f).c)
  {
    hide Trigger, Posted, Told, Moves, TellsOk, CallOk, Ready;
    var h0 := h.(c := h.c.(queue := h.c.queue[1..]));
    var e := h.c.queue[0];
    OkParts(me, h);
    if e == GEN_ERROR {
      ErrorTold(me, h0, f);
      SinceAfter(me, h0, e, f);
      ErrorTells(h.c, Trigger(me, h0, e, f).c);
    } else {
      StateAfter(me, h0, e, f);
      TellsExactly(me, h0, e, f);
      PostsExactly(me, h0, e, f);
      SinceAfter(me, h0, e, f);
      TurnTellsBy(me, h0, e, f, h.c);
      var s', told := Moves(h.c.state, e), h.c.told + Told(h0, e, f);
      TellsSame(CallData(s', Posted(me, h0, e, f), None, false, told, if s' == h.c.state then h.c.since else |told|),
                Trigger(me, h0, e, f).c);
    }
  }

  lemma PostsExactly(me: CallId, h: Here, e: Event, f: Faults)
    requires Ready(me, h, e)
    ensures Trigger(me, h, e, f).c.queue == Posted(me, h, e, f)
  {
    hide Trigger, Ready, Posted;
    LeavesExactly(me, h, e, f);
  }

  lemma TellsSame(a: CallData, b: CallData)
    requires TellsOk(a) && a.state == b.state && a.queue == b.queue && a.told == b.told && a.since == b.since
    ensures TellsOk(b)
  {
    assert Recent(a) == Recent(b);
  }

  lemma ErrorTells(c: CallData, c': CallData)
    requires TellsOk(c) && c.queue != [] && c.queue[0] == GEN_ERROR
    requires c'.queue == [] || c'.queue == [GUI_ACCEPT]
    requires c'.state == ERROR && c'.told == c.told
    requires c'.since == if c'.state == c.state then c.since else |c'.told|
    ensures TellsOk(c')
  {}

  lemma OkParts(me: CallId, h: Here)
    requires CallOk(me, h) && h.c.queue != []
    ensures var h0 := h.(c := h.c.(queue := h.c.queue[1..])); var e := h.c.queue[0];
            && !h0.c.crashed
            && (e == GEN_ERROR ==> h0.c.queue == [] || h0.c.queue == [GUI_ACCEPT])
            && (e != GEN_ERROR ==> h.c.queue == [e] && Ready(me, h0, e))
  {
    assert h.c.queue[1..] == [] ==> h.c.queue == [h.c.queue[0]];
  }

  /** The turn by what it comes to and what it tells and posts. */
  lemma TurnTellsBy(me: CallId, h: Here, e: Event, f: Faults, before: CallData)
    requires Ready(me, h, e) && e != GEN_ERROR && TellsOk(before)
    requires before == h.c.(queue := [e])
    ensures var s' := Moves(h.c.state, e); var told := h.c.told + Told(h, e, f);
            TellsOk(CallData(s', Posted(me, h, e, f), None, false, told, if s' == h.c.state then h.c.since else |told|))
  {
    hide Told, Posted, Moves, Ready;
    if Moves(h.c.state, e) != h.c.state {
      ComesTo(me, h, e, f, before);
    } else {
      StaysAt(me, h, e, f, before);
    }
  }

  lemma ComesTo(me: CallId, h: Here, e: Event, f: Faults, before: CallData)
    requires Ready(me, h, e) && e != GEN_ERROR && TellsOk(before) && before == h.c.(queue := [e])
    requires Moves(h.c.state, e) != h.c.state
    ensures var s' := Moves(h.c.state, e); var told := h.c.told + Told(h, e, f);
            TellsOk(CallData(s', Posted(me, h, e, f), None, false, told, |told|))
  {
    hide Told, Posted, Moves, Ready;
    var s', told := Moves(h.c.state, e), h.c.told + Told(h, e, f);
    assert told[|told|..] == [];
    PostedOnMove(me, h, e, f);
    if s' == CALLING {
      CallingTold(h, e, f);
    } else if s' == ACTIVE {
      ActiveTold(h, e, f);
      LastAnswer(before);
    }
  }

  /** What a call that changes its state posts. */
  lemma PostedOnMove(me: CallId, h: Here, e: Event, f: Faults)
    requires e != GEN_ERROR && Moves(h.c.state, e) != h.c.state
    ensures var s', posted := Moves(h.c.state, e), Posted(me, h, e, f);
            && MED_AVL !in posted && MED_UNAVL !in posted
            && (s' == ACTIVE ==> posted == if f.start then [GEN_ERROR] else [])
            && (s' == CALLING ==> posted == if Troubled(h, e, f) then [GEN_ERROR] else [])
  {
    hide GetsPorts;
  }

  /** What a call with the engine's answer in its queue has told last. */
  lemma LastAnswer(c: CallData)
    requires TellsOk(c) && IsSetup(c.state) && c.queue == [MED_AVL]
    ensures IsAnswered(c.told)
  {
    if c.state == RINGING {
      assert Recent(c)[0] == c.told[c.since] && |Recent(c)| == 1;
    }
  }

  lemma StaysAt(me: CallId, h: Here, e: Event, f: Faults, before: CallData)
    requires Ready(me, h, e) && e != GEN_ERROR && TellsOk(before) && before == h.c.(queue := [e])
    requires Moves(h.c.state, e) == h.c.state
    ensures TellsOk(CallData(h.c.state, Posted(me, h, e, f), None, false, h.c.told + Told(h, e, f), h.c.since))
  {
    hide Told, Posted, Moves, Ready, IsConnected;
    StayingTold(h, e, f);
    PostedOnStay(me, h, e, f);
    var told := h.c.told + Told(h, e, f);
    assert told[h.c.since..] == h.c.told[h.c.since..] + Told(h, e, f);
    assert h.c.told + [] == h.c.told;
    var after := CallData(h.c.state, Posted(me, h, e, f), None, false, told, h.c.since);
    assert Recent(after) == Recent(before) + If(Accepts(h, e, f), SipAccept);
    assert AwaitsEngine(after) <==> Asks(h.c.state, e);
    assert AwaitsEngine(before) <==> e == MED_AVL || e == MED_UNAVL;
  }

  lemma PostedOnStay(me: CallId, h: Here, e: Event, f: Faults)
    requires e != GEN_ERROR && Moves(h.c.state, e) == h.c.state
    ensures var posted := Posted(me, h, e, f);
            && ((MED_AVL in posted || MED_UNAVL in posted) <==> Asks(h.c.state, e))
            && (h.c.state == RINGING ==> (Asks(h.c.state, e) <==> Accepts(h, e, f)))
    ensures IsSetup(h.c.state) ==> e != MED_AVL && e != MED_UNAVL
  {
    hide GetsPorts;
  }

  lemma CallingTold(h: Here, e: Event, f: Faults)
    requires e != GEN_ERROR && Moves(h.c.state, e) == CALLING && h.c.state != CALLING
    ensures Invites(h, e, f) ==> LastIs(h.c.told + Told(h, e, f), SipInvite)
    ensures !Invites(h, e, f) ==> Troubled(h, e, f)
  {
    hide Allot;
  }

  lemma ActiveTold(h: Here, e: Event, f: Faults)
    requires e != GEN_ERROR && Moves(h.c.state, e) == ACTIVE && h.c.state != ACTIVE
    ensures IsSetup(h.c.state) && e == MED_AVL && Told(h, e, f) == if f.start then [] else [MedStart]
    ensures !f.start ==> (h.c.told + [MedStart])[..|h.c.told|] == h.c.told
  {
    hide Allot;
  }

  lemma StayingTold(h: Here, e: Event, f: Faults)
    requires e != GEN_ERROR && Moves(h.c.state, e) == h.c.state
    ensures Told(h, e, f) == If(Accepts(h, e, f), SipAccept)
    ensures Accepts(h, e, f) ==> (h.c.state == RINGING && e == GUI_ACCEPT) || h.c.state == INACTIVE
  {
    hide Allot;
  }

  ghost predicate AllTell(w: World) {
    forall id <- w.calls :: TellsOk(w.calls[id])
  }

  lemma MoveTells(w: World, m: Move)
    requires Inv(w) && AllTell(w) && Enabled(w, m)
    ensures AllTell(Next(w, m))
  {
    hide TellsOk, Handle, CallOk, Considerate;
    match m
    case NewCall(_, noContext) => NewTells(noContext);
    case Arrive(id, e) => ArriveTells(w.calls[id], e);
    case Turn(id, f) =>
      assert CallOk(id, See(w, id));
      TurnTells(id, See(w, id), f);
  }

  lemma NewTells(noContext: bool)
    ensures TellsOk(NewCallData(if noContext then ERROR else INACTIVE))
  {}

  lemma ArriveTells(c: CallData, e: Event)
    requires TellsOk(c) && c.queue == [] && Outside(e)
    ensures TellsOk(c.(queue := [e]))
  {
    assert Recent(c.(queue := [e])) == Recent(c);
  }

  lemma {:induction false} ReachableTells(ports: GoodPorts, moves: seq<Move>)
    ensures AllTell(CallControl.Run(ports, moves))
  {
    hide AllTell, Next, Inv;
    if moves == [] {
      assert AllTell(CallControl.Run(ports, moves)) by { NobodyTells(ports); }
    } else {
      var before, m := moves[..|moves| - 1], moves[|moves| - 1];
      ReachableTells(ports, before);
      Reachable(ports, before);
      if Enabled(CallControl.Run(ports, before), m) {
        MoveTells(CallControl.Run(ports, before), m);
      }
    }
  }

  lemma NobodyTells(ports: GoodPorts)
    ensures AllTell(CallControl.Run(ports, []))
  {}

  /** A connected call has been answered and then had its engine started, and told nothing since:
      in every reachable world, of every active call with no event of its own to handle. */
  lemma ConnectedAfterAnswer(ports: GoodPorts, moves: seq<Move>, id: CallId)
    requires var w := CallControl.Run(ports, moves);
             id in w.calls && w.calls[id].state == ACTIVE && w.calls[id].queue == []
    ensures IsConnected(CallControl.Run(ports, moves).calls[id].told)
  {
    ReachableTells(ports, moves);
    assert TellsOk(CallControl.Run(ports, moves).calls[id]);
  }

  /** A call is declined exactly when the user rejects one that rings, and it has not been accepted
      since it does; or when one that has just come in offers no codec. */
  lemma RejectedUnanswered(ports: GoodPorts, moves: seq<Move>, id: CallId, f: Faults)
    requires Enabled(CallControl.Run(ports, moves), Turn(id, f))
    ensures var w := CallControl.Run(ports, moves);
            var c, c' := w.calls[id], Next(w, Turn(id, f)).calls[id]; var e := c.queue[0];
            && c.since <= |c.told| <= |c'.told|
            && (SipDecline in c'.told[|c.told|..] <==>
                  (c.state == RINGING && e == GUI_CANCEL) || (c.state == INACTIVE && e == SIP_NN))
            && (c.state == RINGING && e == GUI_CANCEL ==> Recent(c) == [])
  {
    var w := CallControl.Run(ports, moves);
    ReachableTells(ports, moves);
    Reachable(ports, moves);
    hide TellsOk, Handle;
    assert TellsOk(w.calls[id]) && CallOk(id, See(w, id));
    NoneRecent(id, See(w, id));
    DeclineOf(id, See(w, id), f);
  }

  lemma NoneRecent(me: CallId, h: Here)
    requires TellsOk(h.c) && CallOk(me, h) && h.c.queue != []
    ensures h.c.since <= |h.c.told| && (h.c.state == RINGING && h.c.queue[0] == GUI_CANCEL ==> Recent(h.c) == [])
  {}

  lemma DeclineOf(me: CallId, h: Here, f: Faults)
    requires CallOk(me, h) && h.c.queue != []
    ensures var h' := Handle(me, h, f); var e := h.c.queue[0];
            && |h.c.told| <= |h'.c.told|
            && (SipDecline in h'.c.told[|h.c.told|..] <==>
                  (h.c.state == RINGING && e == GUI_CANCEL) || (h.c.state == INACTIVE && e == SIP_NN))
  {
    hide CallOk, Trigger, Ready, Told;
    var h0, e := h.(c := h.c.(queue := h.c.queue[1..])), h.c.queue[0];
    OkParts(me, h);
    if e == GEN_ERROR {
      ErrorTold(me, h0, f);
    } else {
      TellsExactly(me, h0, e, f);
      NewlyTold(h0, e, f);
      assert (h.c.told + Told(h0, e, f))[|h.c.told|..] == Told(h0, e, f);
    }
  }

  lemma NewlyTold(h: Here, e: Event, f: Faults)
    ensures SipDecline in Told(h, e, f) <==> Rejects(h.c.state, e)
    ensures SipHangup in Told(h, e, f) <==> HangsUp(h.c.state, e)
    ensures SipAccept in Told(h, e, f) <==> Accepts(h, e, f)
    ensures MedStop in Told(h, e, f) <==> Stops(h, e, f)
  {
    hide Answer, Engine, Farewell, Accepts, Stops, Rejects, HangsUp;
    OneOfEach(h, e, f);
    AnswerHas(h, e, f);
    EngineHas(h, e, f);
    FarewellHas(h.c.state, e);
  }

  lemma AnswerHas(h: Here, e: Event, f: Faults)
    ensures SipAccept in Answer(h, e, f) <==> Accepts(h, e, f)
    ensures forall a <- Answer(h, e, f) :: a in {SipAccept, SipMute, SipCallback, SipInvite}
  {
    hide Accepts, Mutes, CallsBack, Invites;
  }

  lemma EngineHas(h: Here, e: Event, f: Faults)
    ensures MedStop in Engine(h, e, f) <==> Stops(h, e, f)
    ensures forall a <- Engine(h, e, f) :: a in {MedStart, MedStop}
  {
    hide Starts, Stops;
    OneOfEach(h, e, f);
  }

  lemma FarewellHas(s: State, e: Event)
    ensures SipDecline in Farewell(s, e) <==> Rejects(s, e)
    ensures SipHangup in Farewell(s, e) <==> HangsUp(s, e)
    ensures forall a <- Farewell(s, e) :: a in {SipDecline, SipHangup}
  {}

  /** A call that ends tells SIP so, except when the other side has ended it, when SIP has nothing
      of it any more, or when it ends by its own error: then nobody is told, and ports and engine
      are kept. */
  lemma EndIsTold(ports: GoodPorts, moves: seq<Move>, id: CallId, f: Faults)
    requires Enabled(CallControl.Run(ports, moves), Turn(id, f))
    ensures var w := CallControl.Run(ports, moves); var w' := Next(w, Turn(id, f));
            var c, c' := w.calls[id], w'.calls[id]; var e := c.queue[0];
            !Over(c.state) && Over(c'.state) ==>
              if e == GEN_ERROR then
                c'.told == c.told && c'.media == c.media && w'.owner == w.owner && w'.ports == w.ports
              else
                && |c.told| <= |c'.told|
                && ((SipHangup in c'.told[|c.told|..] || SipDecline in c'.told[|c.told|..]) <==>
                    (e != SIP_HANGUP && c.state != MISSED))
  {
    var w := CallControl.Run(ports, moves);
    ReachableTells(ports, moves);
    Reachable(ports, moves);
    hide TellsOk, Handle;
    assert CallOk(id, See(w, id));
    EndOf(id, See(w, id), f);
  }

  lemma EndOf(me: CallId, h: Here, f: Faults)
    requires CallOk(me, h) && h.c.queue != []
    ensures var h' := Handle(me, h, f); var e := h.c.queue[0];
            !Over(h.c.state) && Over(h'.c.state) ==>
              if e == GEN_ERROR then
                h'.c.told == h.c.told && h'.c.media == h.c.media && h'.owner == h.owner && h'.ports == h.ports
              else
                && |h.c.told| <= |h'.c.told|
                && ((SipHangup in h'.c.told[|h.c.told|..] || SipDecline in h'.c.told[|h.c.told|..]) <==>
                    (e != SIP_HANGUP && h.c.state != MISSED))
  {
    hide CallOk, Trigger, Ready, Told, Moves, Over;
    var h0, e := h.(c := h.c.(queue := h.c.queue[1..])), h.c.queue[0];
    OkParts(me, h);
    if e == GEN_ERROR {
      ErrorTold(me, h0, f);
    } else if !Over(h.c.state) && Over(Trigger(me, h0, e, f).c.state) {
      StateAfter(me, h0, e, f);
      TellsExactly(me, h0, e, f);
      NewlyTold(h0, e, f);
      EndsBy(h.c.state, e);
      assert (h.c.told + Told(h0, e, f))[|h.c.told|..] == Told(h0, e, f);
    }
  }

  lemma EndsBy(s: State, e: Event)
    requires !Over(s) && Over(Moves(s, e))
    ensures (HangsUp(s, e) || Rejects(s, e)) <==> (e != SIP_HANGUP && s != MISSED)
  {}
}
