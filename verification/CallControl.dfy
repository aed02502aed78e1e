/**
  Calls that share one media engine and one port manager (bonephone/Call.java,
  IPT_Event.java, MediaControl.java).

  A call queues the events that its own actions post while one event is handled.  One
  handled event - one trigger() of the state machine - is one step here; the steps of
  different calls interleave freely.
 */
module CallControl {
  import opened Options
  import opened PortManagers
  import opened StateMachines

  type CallId = nat
  type GoodPorts = p: Ports | ValidPorts(p) witness Ports([], 0, 0)

  /** `crashed` stands for an exception nobody catches: the event lock is never released.  `told`
      are the commands given to SIP and to the media engine, oldest first, the first `since` of
      them before the call came to its present state. */
  datatype CallData = CallData(
    state: State,
    queue: seq<Event>,
    media: Option<Port>,
    crashed: bool,
    told: seq<Action>,
    since: nat)

  function NewCallData(s: State): CallData {
    CallData(s, [], None, false, [], 0)
  }

  /** One call, together with the two things it shares with the others. */
  datatype Here = Here(c: CallData, owner: Option<CallId>, ports: GoodPorts)

  /** What the outside world does to one trigger(): which calls throw, and whether the user
      has switched automatic answering on. */
  datatype Faults = Faults(lsdp: bool, start: bool, callback: bool, mute: bool, autoAnswer: bool)

  function Post(h: Here, e: Event): Here {
    h.(c := h.c.(queue := h.c.queue + [e]))
  }

  function Tell(h: Here, a: Action): Here {
    h.(c := h.c.(told := h.c.told + [a]))
  }

  function Crash(h: Here): Here {
    h.(c := h.c.(crashed := true))
  }

  /** MediaControl.isAvailable: reserve the engine if nobody has it. */
  function Reserve(me: CallId, owner: Option<CallId>): (Option<CallId>, bool) {
    if owner == None then (Some(me), true) else (owner, owner == Some(me))
  }

  /** Call.action: the state after it and whether it reported success. */
  function Act(me: CallId, h: Here, a: Action, f: Faults): (Here, bool) {
    match a
    case MedLsdp =>
      var (ports, port) := Allot(h.ports);
      var h1 := h.(ports := ports);
      if port == None || f.lsdp then (Post(h1, GEN_ERROR), false)
      else (h1.(c := h1.c.(media := port)), true)
    case MedStart =>
      if f.start || h.c.media == None || h.owner == None then (Post(h, GEN_ERROR), false) else (Tell(h, a), true)
    case MedAvl =>
      var (owner, mine) := Reserve(me, h.owner);
      (Post(h.(owner := owner), if mine then MED_AVL else MED_UNAVL), true)
    case MedStop =>
      var h1 := Tell(h.(owner := None), a);
      (match h1.c.media
       case None => (Crash(h1), false)
       case Some(port) => (h1.(ports := Release(h1.ports, port), c := h1.c.(media := None)), true))
    case SipInvite => if h.c.media == None then (Crash(Tell(h, a)), false) else (Tell(h, a), true)
    case SipCallback => if f.callback then (Post(h, GEN_ERROR), false) else (Tell(h, a), true)
    case SipMute => if f.mute then (h, false) else (Tell(h, a), true)
    case SipHangup | SipDecline | SipAccept => (Tell(h, a), true)
  }

  /** The actions of a cell, up to the first that fails. */
  function ActAll(me: CallId, h: Here, acts: seq<Action>, f: Faults): Here
    decreases |acts|
  {
    if acts == [] then h
    else
      var (h1, success) := Act(me, h, acts[0], f);
      if success then ActAll(me, h1, acts[1..], f) else h1
  }

  /** Entering a state tells the call's panel, which may answer a ringing call. */
  function Enter(h: Here, next: Option<State>, f: Faults): Here {
    if h.c.crashed || next == None || next.value == h.c.state then h
    else
      var h1 := h.(c := h.c.(state := next.value, since := |h.c.told|));
      if next == Some(RINGING) && f.autoAnswer then Post(h1, GUI_ACCEPT) else h1
  }

  function Trigger(me: CallId, h: Here, e: Event, f: Faults): Here {
    var cell := Transition(h.c.state, e);
    Enter(ActAll(me, h, cell.actions, f), cell.next, f)
  }

  /** One turn of the draining loop: fetch the oldest event and handle it. */
  function Handle(me: CallId, h: Here, f: Faults): Here
    requires h.c.queue != []
  {
    Trigger(me, h.(c := h.c.(queue := h.c.queue[1..])), h.c.queue[0], f)
  }

  // ------------------------------------------------- draining ends, by rank of events

  /** An event posts only events of lower rank, and together they weigh less than it. */
  function Rank(e: Event): nat {
    match e
    case SIP_NY => 5
    case GUI_ACCEPT => 3
    case MED_AVL | GUI_UNMUTE | GUI_CALLBACK | SIP_N0 => 2
    case _ => 1
  }

  function Weight(queue: seq<Event>): nat {
    if queue == [] then 0 else Rank(queue[0]) + Weight(queue[1..])
  }

  lemma {:induction false} WeightOfPost(queue: seq<Event>, e: Event)
    ensures Weight(queue + [e]) == Weight(queue) + Rank(e)
  {
    if queue == [] {
      assert queue + [e] == [e];
    } else {
      assert (queue + [e])[1..] == queue[1..] + [e];
      WeightOfPost(queue[1..], e);
    }
  }

  /** What one action may append to the call's queue. */
  lemma ActPosts(me: CallId, h: Here, a: Action, f: Faults)
    ensures var (h', success) := Act(me, h, a, f);
            && h'.c.state == h.c.state
            && (a == MedAvl ==> Weight(h'.c.queue) <= Weight(h.c.queue) + 2)
            && (a == MedLsdp || a == MedStart || a == SipCallback ==>
                  Weight(h'.c.queue) == Weight(h.c.queue) + if success then 0 else 1)
            && (a in {MedStop, SipInvite, SipMute, SipHangup, SipDecline, SipAccept} ==> h'.c.queue == h.c.queue)
  {
    WeightOfPost(h.c.queue, GEN_ERROR);
    WeightOfPost(h.c.queue, MED_AVL);
    WeightOfPost(h.c.queue, MED_UNAVL);
  }

  lemma ActAllOf1(me: CallId, h: Here, a: Action, f: Faults)
    ensures ActAll(me, h, [a], f) == Act(me, h, a, f).0
  {
    assert [a][1..] == [];
  }

  lemma ActAllOf2(me: CallId, h: Here, a: Action, b: Action, f: Faults)
    ensures var (h1, success) := Act(me, h, a, f);
            ActAll(me, h, [a, b], f) == if success then Act(me, h1, b, f).0 else h1
  {
    assert [a, b][1..] == [b];
    ActAllOf1(me, Act(me, h, a, f).0, b, f);
  }

  lemma ActAllOf3(me: CallId, h: Here, a: Action, b: Action, c: Action, f: Faults)
    ensures var (h1, ok1) := Act(me, h, a, f);
            ActAll(me, h, [a, b, c], f) == if ok1 then ActAll(me, h1, [b, c], f) else h1
  {
    assert [a, b, c][1..] == [b, c];
  }

  /** The actions of a cell, spelled out: there are never more than three. */
  lemma ActAllOf(me: CallId, h: Here, acts: seq<Action>, f: Faults)
    requires |acts| <= 3
    ensures acts == [] ==> ActAll(me, h, acts, f) == h
    ensures |acts| == 1 ==> ActAll(me, h, acts, f) == Act(me, h, acts[0], f).0
    ensures |acts| == 2 ==>
              var (h1, ok1) := Act(me, h, acts[0], f);
              ActAll(me, h, acts, f) == if ok1 then Act(me, h1, acts[1], f).0 else h1
    ensures |acts| == 3 ==>
              var (h1, ok1) := Act(me, h, acts[0], f);
              if !ok1 then ActAll(me, h, acts, f) == h1
              else
                var (h2, ok2) := Act(me, h1, acts[1], f);
                ActAll(me, h, acts, f) == if ok2 then Act(me, h2, acts[2], f).0 else h2
  {
    if |acts| == 1 {
      assert acts == [acts[0]];
      ActAllOf1(me, h, acts[0], f);
    } else if |acts| == 2 {
      assert acts == [acts[0], acts[1]];
      ActAllOf2(me, h, acts[0], acts[1], f);
    } else if |acts| == 3 {
      assert acts == [acts[0], acts[1], acts[2]];
      ActAllOf3(me, h, acts[0], acts[1], acts[2], f);
      ActAllOf2(me, Act(me, h, acts[0], f).0, acts[1], acts[2], f);
    }
  }

  predicate Quiet(a: Action) {
    a in {MedStop, SipInvite, SipMute, SipHangup, SipDecline, SipAccept}
  }

  /** Which actions the table ever combines, and so what handling an event can post. */
  lemma CellShape(s: State, e: Event)
    ensures var acts := Transition(s, e).actions;
            && |acts| <= 3
            && (|acts| == 3 ==> acts == [SipCallback, MedLsdp, SipInvite] && Rank(e) == 2)
            && (|acts| == 2 ==>
                  || (Quiet(acts[0]) && Quiet(acts[1]))
                  || (acts[0] == MedLsdp && Quiet(acts[1]) && Rank(e) == 2)
                  || (acts == [SipAccept, MedAvl] && Rank(e) == 3))
            && (|acts| == 1 ==>
                  Quiet(acts[0]) || (acts == [MedLsdp] && e == SIP_NY) || (acts == [MedStart] && Rank(e) == 2)
                  || (acts == [MedAvl] && e == SIP_NY))
            && (Transition(s, e).next == Some(RINGING) ==> e == SIP_NY && acts == [MedLsdp])
            && Rank(e) >= 1
  {}

  lemma TriggerPosts(me: CallId, h: Here, e: Event, f: Faults)
    ensures Weight(Trigger(me, h, e, f).c.queue) < Weight(h.c.queue) + Rank(e)
  {
    hide Transition, Act, ActAll;
    var cell := Transition(h.c.state, e);
    var acts := cell.actions;
    CellShape(h.c.state, e);
    ActAllOf(me, h, acts, f);
    if acts != [] {
      ActPosts(me, h, acts[0], f);
      var (h1, ok1) := Act(me, h, acts[0], f);
      if |acts| >= 2 {
        ActPosts(me, h1, acts[1], f);
        var (h2, ok2) := Act(me, h1, acts[1], f);
        if |acts| == 3 {
          ActPosts(me, h2, acts[2], f);
        }
      }
    }
    WeightOfPost(ActAll(me, h, acts, f).c.queue, GUI_ACCEPT);
  }

  /** Handling the oldest event leaves the queue lighter, whatever it posts. */
  lemma HandleLightens(me: CallId, h: Here, f: Faults)
    requires h.c.queue != []
    ensures Weight(Handle(me, h, f).c.queue) < Weight(h.c.queue)
  {
    TriggerPosts(me, h.(c := h.c.(queue := h.c.queue[1..])), h.c.queue[0], f);
  }

  /** The draining loop of IPT_Event.set, the n-th turn suffering the n-th faults. */
  function Drain(me: CallId, h: Here, faults: nat -> Faults, n: nat): (Here, nat)
    decreases Weight(h.c.queue)
  {
    if h.c.queue == [] || h.c.crashed then (h, n)
    else
      HandleLightens(me, h, faults(n));
      Drain(me, Handle(me, h, faults(n)), faults, n + 1)
  }

  lemma DrainTurn(me: CallId, h: Here, faults: nat -> Faults, n: nat)
    requires h.c.queue != [] && !h.c.crashed
    ensures Drain(me, h, faults, n) == Drain(me, Handle(me, h, faults(n)), faults, n + 1)
  {
    hide Handle;
  }

  lemma DrainEnds(me: CallId, h: Here, faults: nat -> Faults, n: nat)
    requires h.c.queue == [] || h.c.crashed
    ensures Drain(me, h, faults, n) == (h, n)
  {}

  // ------------------------------------------------ one call, seen from all others

  /** The pair a port names is within the range and marked busy. */
  predicate Held(p: Ports, port: Port) {
    var q := port - p.first;
    0 <= q < |p.busy| - 1 && p.busy[q] && p.busy[q + 1]
  }

  predicate Shape(queue: seq<Event>) {
    |queue| <= 1 || queue == [GEN_ERROR, GUI_ACCEPT]
  }

  predicate CallOk(me: CallId, h: Here) {
    var c := h.c;
    && !c.crashed
    && Shape(c.queue)
    && (c.media.Some? ==> Held(h.ports, c.media.value))
    && (MED_AVL in c.queue ==> h.owner == Some(me) && (c.state == CALLING || c.state == RINGING))
    && (c.state == ACTIVE ==> h.owner == Some(me) && c.media.Some?)
    && ((c.state == CALLING || c.state == RINGING) && c.media == None ==>
          c.queue != [] && c.queue[0] == GEN_ERROR)
  }

  /** What a step of one call leaves to the others: their engine and their port pairs. */
  ghost predicate Considerate(me: CallId, h: Here, h': Here) {
    && h'.ports.first == h.ports.first && |h'.ports.busy| == |h.ports.busy|
    && (h.owner.Some? && h.owner.value != me ==> h'.owner == h.owner)
    && (h'.c.media.Some? && h'.c.media != h.c.media ==> !Held(h.ports, h'.c.media.value))
    && forall port: Port :: Held(h.ports, port) && h.c.media != Some(port) ==> Held(h'.ports, port)
  }

  lemma AllotConsiderate(p: GoodPorts)
    ensures var (p', port) := Allot(p);
            && p'.first == p.first && |p'.busy| == |p.busy|
            && (port.Some? ==> !Held(p, port.value) && Held(p', port.value))
            && (forall held: Port :: Held(p, held) ==> Held(p', held))
  {
    GetPortGives(p);
  }

  lemma ReleaseConsiderate(p: GoodPorts, port: Port)
    ensures var p' := Release(p, port);
            && p'.first == p.first && |p'.busy| == |p.busy|
            && (forall held: Port :: Held(p, held) && held != port ==> Held(p', held))
  {}

  /** A call about to handle `e` with nothing else in its queue. */
  predicate Ready(me: CallId, h: Here, e: Event) {
    var c := h.c;
    && !c.crashed && c.queue == [] && e != GEN_ERROR
    && (c.media.Some? ==> Held(h.ports, c.media.value))
    && (e == MED_AVL ==> h.owner == Some(me) && (c.state == CALLING || c.state == RINGING))
    && (c.state == ACTIVE ==> h.owner == Some(me))
    && (c.state == CALLING || c.state == RINGING || c.state == ACTIVE ==> c.media.Some?)
  }

  /** A failed MED_LSDP leaves the call as it was, with GEN_ERROR at the head of its queue. */
  lemma LsdpOk(me: CallId, h: Here, f: Faults)
    requires h.c.queue == []
    ensures var (h', success) := Act(me, h, MedLsdp, f);
            && Considerate(me, h, h') && h'.owner == h.owner
            && h'.c == (if success then h.c.(media := h'.c.media) else h.c.(queue := [GEN_ERROR]))
            && (success ==> h'.c.media.Some? && Held(h'.ports, h'.c.media.value))
            && (h.c.media.Some? && Held(h.ports, h.c.media.value) && !success ==> Held(h'.ports, h.c.media.value))
  {
    AllotConsiderate(h.ports);
  }

  lemma StopOk(me: CallId, h: Here, f: Faults)
    requires h.c.media.Some? && h.owner == Some(me)
    ensures var (h', success) := Act(me, h, MedStop, f);
            && success && Considerate(me, h, h') && h'.owner == None
            && h'.c == h.c.(media := None, told := h.c.told + [MedStop])
  {
    ReleaseConsiderate(h.ports, h.c.media.value);
  }

  /** A call apart from what it has told others. */
  function Apart(h: Here): Here {
    h.(c := h.c.(told := [], since := 0))
  }

  /** The actions of an idle call other than MED_LSDP leave it alone; a failed callback posts. */
  lemma IdleAct(me: CallId, h: Here, a: Action, f: Faults)
    requires a in {SipAccept, SipInvite, SipHangup, SipDecline, SipCallback} && (a == SipInvite ==> h.c.media.Some?)
    ensures Act(me, h, a, f) ==
              if a == SipCallback && f.callback then (Post(h, GEN_ERROR), false) else (Tell(h, a), true)
  {}

  /** Which actions the cells of an idle call hold. */
  lemma IdleCells(s: State, e: Event)
    requires s == INACTIVE || s == MISSED
    ensures var acts := Transition(s, e).actions;
            || acts == [] || acts == [SipHangup] || acts == [SipDecline] || acts == [MedLsdp]
            || (s == INACTIVE && (acts == [MedLsdp, SipAccept] || acts == [MedLsdp, SipInvite]))
            || (s == MISSED && acts == [SipCallback, MedLsdp, SipInvite])
    ensures s == MISSED && MedLsdp in Transition(s, e).actions ==> Transition(s, e).actions[0] == SipCallback
  {}

  lemma LsdpMedia(me: CallId, h: Here, f: Faults)
    ensures Act(me, h, MedLsdp, f).1 ==> Act(me, h, MedLsdp, f).0.c.media.Some?
  {}

  /** The cells that ask for a port pair do nothing else to the call. */
  lemma LsdpCells(me: CallId, h: Here, e: Event, f: Faults)
    requires h.c.state == INACTIVE || h.c.state == MISSED
    ensures var acts := Transition(h.c.state, e).actions;
            Apart(ActAll(me, h, acts, f)) ==
              Apart(if MedLsdp !in acts then h
                    else if h.c.state == MISSED && f.callback then Post(h, GEN_ERROR)
                    else Act(me, h, MedLsdp, f).0)
  {
    hide Transition, Act, ActAll;
    var acts := Transition(h.c.state, e).actions;
    IdleCells(h.c.state, e);
    ActAllOf(me, h, acts, f);
    var h0 := if |acts| == 3 then Tell(h, SipCallback) else h;
    LsdpMedia(me, h0, f);
    LsdpApart(me, h, h0, f);
    if acts != [] && acts[0] != MedLsdp {
      IdleAct(me, h, acts[0], f);
    }
    if |acts| >= 2 && Act(me, h0, MedLsdp, f).1 {
      IdleAct(me, Act(me, h0, MedLsdp, f).0, acts[|acts| - 1], f);
    }
  }

  lemma LsdpApart(me: CallId, h: Here, h1: Here, f: Faults)
    requires Apart(h) == Apart(h1)
    ensures Apart(Act(me, h, MedLsdp, f).0) == Apart(Act(me, h1, MedLsdp, f).0)
    ensures Act(me, h, MedLsdp, f).1 == Act(me, h1, MedLsdp, f).1
  {
    hide Allot;
  }

  lemma FromIdle(me: CallId, h: Here, e: Event, f: Faults)
    requires Ready(me, h, e) && (h.c.state == INACTIVE || h.c.state == MISSED)
    ensures var h' := Trigger(me, h, e, f); CallOk(me, h') && Considerate(me, h, h')
  {
    hide Act, ActAll, Held;
    var cell := Transition(h.c.state, e);
    var h1 := ActAll(me, h, cell.actions, f);
    LsdpCells(me, h, e, f);
    if MedLsdp in cell.actions && !(h.c.state == MISSED && f.callback) {
      LsdpOk(me, h, f);
      EnterOk(me, h, h1, cell.next, f);
    } else {
      assert cell.next in {None, Some(CALLING), Some(DELETE), Some(ERROR)};
    }
  }

  /** Entering CALLING or RINGING after MED_LSDP, whether that succeeded or not. */
  lemma EnterOk(me: CallId, h: Here, h1: Here, next: Option<State>, f: Faults)
    requires Considerate(me, h, h1) && !h1.c.crashed
    requires h1.c.state == INACTIVE || h1.c.state == MISSED
    requires next in {None, Some(CALLING), Some(RINGING)}
    requires h1.c.queue == [GEN_ERROR] || (h1.c.queue == [] && h1.c.media.Some?)
    requires h1.c.media.Some? ==> Held(h1.ports, h1.c.media.value)
    ensures var h' := Enter(h1, next, f); CallOk(me, h') && Considerate(me, h, h')
  {}

  /** The cells of a call that is being set up. */
  lemma SetupCells(s: State, e: Event)
    requires (s == CALLING || s == RINGING) && e != GEN_ERROR
    ensures var cell := Transition(s, e);
            || (cell.next == None && cell.actions in {[], [MedAvl], [SipAccept, MedAvl]})
            || (cell.next == Some(ACTIVE) && cell.actions == [MedStart] && e == MED_AVL)
            || (cell.next in {Some(INACTIVE), Some(ERROR), Some(DELETE), Some(MISSED)} && e != MED_AVL
                && cell.actions in {[], [SipMute], [SipHangup], [SipDecline]})
    ensures e == MED_AVL ==> Transition(s, e).next == Some(ACTIVE)
  {}

  /** Some actions tell SIP something and leave all else alone. */
  lemma PlainAct(me: CallId, h: Here, a: Action, f: Faults)
    requires a in {SipMute, SipHangup, SipDecline, SipAccept}
    ensures Act(me, h, a, f) == if a == SipMute && f.mute then (h, false) else (Tell(h, a), true)
  {}

  lemma AvlApart(me: CallId, h: Here, h1: Here, f: Faults)
    requires Apart(h) == Apart(h1)
    ensures Apart(Act(me, h, MedAvl, f).0) == Apart(Act(me, h1, MedAvl, f).0)
  {}

  lemma SetupActs(me: CallId, h: Here, e: Event, f: Faults)
    requires (h.c.state == CALLING || h.c.state == RINGING) && e != GEN_ERROR
    ensures var cell := Transition(h.c.state, e); var h1 := ActAll(me, h, cell.actions, f);
            if cell.next == Some(ACTIVE) then e == MED_AVL && h1 == Act(me, h, MedStart, f).0
            else if cell.next == None then
              e != MED_AVL && (Apart(h1) == Apart(h) || Apart(h1) == Apart(Act(me, h, MedAvl, f).0))
            else Apart(h1) == Apart(h) && cell.next in {Some(INACTIVE), Some(ERROR), Some(DELETE), Some(MISSED)}
  {
    hide Transition, Act, ActAll;
    var acts := Transition(h.c.state, e).actions;
    SetupCells(h.c.state, e);
    ActAllOf(me, h, acts, f);
    if acts != [] && acts[0] in {SipMute, SipHangup, SipDecline, SipAccept} {
      PlainAct(me, h, acts[0], f);
      AvlApart(me, h, Tell(h, acts[0]), f);
    }
  }

  lemma FromSetup(me: CallId, h: Here, e: Event, f: Faults)
    requires Ready(me, h, e) && (h.c.state == CALLING || h.c.state == RINGING)
    ensures var h' := Trigger(me, h, e, f); CallOk(me, h') && Considerate(me, h, h')
  {
    hide Transition, ActAll, Held;
    SetupActs(me, h, e, f);
  }

  /** The cells of an active call: any that leaves it stops the engine. */
  lemma ActiveCells(e: Event)
    requires e != GEN_ERROR
    ensures var cell := Transition(ACTIVE, e);
            || (cell.next == None && cell.actions == [])
            || (cell.next in {Some(MUTING), Some(INACTIVE), Some(ERROR), Some(DELETE)}
                && cell.actions in {[MedStop], [MedStop, SipHangup], [SipMute, MedStop], [SipAccept, MedStop]})
  {}

  lemma ActiveActs(me: CallId, h: Here, e: Event, f: Faults)
    requires h.c.state == ACTIVE && e != GEN_ERROR
    ensures var cell := Transition(ACTIVE, e); var h1 := ActAll(me, h, cell.actions, f);
            if cell.next == None then h1 == h
            else
              && (Apart(h1) == Apart(h) || Apart(h1) == Apart(Act(me, h, MedStop, f).0))
              && cell.next in {Some(MUTING), Some(INACTIVE), Some(ERROR), Some(DELETE)}
  {
    hide Transition, Act, ActAll;
    var acts := Transition(ACTIVE, e).actions;
    ActiveCells(e);
    ActAllOf(me, h, acts, f);
    if |acts| == 2 {
      if acts[0] == MedStop {
        PlainAct(me, Act(me, h, MedStop, f).0, acts[1], f);
      } else {
        PlainAct(me, h, acts[0], f);
        StopApart(me, h, Tell(h, acts[0]), f);
      }
    }
  }

  lemma StopApart(me: CallId, h: Here, h1: Here, f: Faults)
    requires Apart(h) == Apart(h1)
    ensures Apart(Act(me, h, MedStop, f).0) == Apart(Act(me, h1, MedStop, f).0)
  {}

  lemma FromActive(me: CallId, h: Here, e: Event, f: Faults)
    requires Ready(me, h, e) && h.c.state == ACTIVE
    ensures var h' := Trigger(me, h, e, f); CallOk(me, h') && Considerate(me, h, h')
  {
    hide Transition, Act, ActAll, Held;
    StopOk(me, h, f);
    ActiveActs(me, h, e, f);
  }

  lemma FromRest(me: CallId, h: Here, e: Event, f: Faults)
    requires Ready(me, h, e) && h.c.state in {MUTING, ERROR, DELETE}
    ensures var h' := Trigger(me, h, e, f); CallOk(me, h') && Considerate(me, h, h')
  {
    hide Allot, Release, Held;
    ActAllOf(me, h, Transition(h.c.state, e).actions, f);
  }

  lemma ErrorOk(me: CallId, h: Here)
    requires CallOk(me, h) && h.c.queue != [] && h.c.queue[0] == GEN_ERROR
    ensures forall f :: var h' := Trigger(me, h.(c := h.c.(queue := h.c.queue[1..])), GEN_ERROR, f);
                        CallOk(me, h') && Considerate(me, h, h')
  {
    assert h.c.queue[1..] == [] || h.c.queue[1..] == [GUI_ACCEPT];
  }

  lemma HandleOk(me: CallId, h: Here, f: Faults)
    requires CallOk(me, h) && h.c.queue != []
    ensures var h' := Handle(me, h, f); CallOk(me, h') && Considerate(me, h, h')
  {
    hide Trigger;
    var h0 := h.(c := h.c.(queue := h.c.queue[1..]));
    var e := h.c.queue[0];
    if e == GEN_ERROR {
      ErrorOk(me, h);
    } else {
      assert Ready(me, h0, e);
      match h.c.state
      case INACTIVE | MISSED => FromIdle(me, h0, e, f);
      case CALLING | RINGING => FromSetup(me, h0, e, f);
      case ACTIVE => FromActive(me, h0, e, f);
      case _ => FromRest(me, h0, e, f);
    }
  }

  lemma ConsiderateTwice(me: CallId, h: Here, h1: Here, h2: Here)
    requires Considerate(me, h, h1) && Considerate(me, h1, h2)
    ensures Considerate(me, h, h2)
  {
    forall port: Port | Held(h.ports, port) && h.c.media != Some(port)
      ensures Held(h2.ports, port)
    {
      assert Held(h1.ports, port) && h1.c.media != Some(port);
    }
  }

  /** Run to completion: from a call in order, draining handles every event and everything
      those post, ends with an empty queue, and no exception gets out of it. */
  lemma {:induction false} DrainOk(me: CallId, h: Here, faults: nat -> Faults, n: nat)
    requires CallOk(me, h)
    ensures var (h', _) := Drain(me, h, faults, n);
            CallOk(me, h') && h'.c.queue == [] && Considerate(me, h, h')
    decreases Weight(h.c.queue)
  {
    if h.c.queue != [] {
      HandleLightens(me, h, faults(n));
      HandleOk(me, h, faults(n));
      var h1 := Handle(me, h, faults(n));
      DrainOk(me, h1, faults, n + 1);
      ConsiderateTwice(me, h, h1, Drain(me, h1, faults, n + 1).0);
    }
  }

  // ------------------------------------------------------- any number of calls

  datatype World = World(calls: map<CallId, CallData>, owner: Option<CallId>, ports: GoodPorts)

  datatype Move =
    | NewCall(id: CallId, noContext: bool)   // noContext: creating the SIP call context threw
    | Arrive(id: CallId, event: Event)       // from the GUI or the SIP user agent
    | Turn(id: CallId, faults: Faults)       // one trigger() of this call's draining loop

  predicate Outside(e: Event) {
    e != MED_AVL && e != MED_UNAVL
  }

  function See(w: World, id: CallId): Here
    requires id in w.calls
  {
    Here(w.calls[id], w.owner, w.ports)
  }

  /** An outside event comes to a call that has drained its queue; turns of different calls
      follow each other in any order. */
  predicate Enabled(w: World, m: Move) {
    match m
    case NewCall(id, _) => id !in w.calls
    case Arrive(id, e) => id in w.calls && w.calls[id].queue == [] && !w.calls[id].crashed && Outside(e)
    case Turn(id, _) => id in w.calls && w.calls[id].queue != [] && !w.calls[id].crashed
  }

  function Next(w: World, m: Move): World
    requires Enabled(w, m)
  {
    match m
    case NewCall(id, noContext) =>
      w.(calls := w.calls[id := NewCallData(if noContext then ERROR else INACTIVE)])
    case Arrive(id, e) => w.(calls := w.calls[id := w.calls[id].(queue := [e])])
    case Turn(id, f) =>
      var h := Handle(id, See(w, id), f);
      World(w.calls[id := h.c], h.owner, h.ports)
  }

  /** A world with no calls, an idle engine and a port manager just created. */
  function Run(ports: GoodPorts, moves: seq<Move>): World {
    if moves == [] then World(map[], None, ports)
    else
      var w := Run(ports, moves[..|moves| - 1]);
      var m := moves[|moves| - 1];
      if Enabled(w, m) then Next(w, m) else w
  }

  ghost predicate Inv(w: World) {
    && (forall id <- w.calls :: CallOk(id, See(w, id)))
    && (forall i <- w.calls, j <- w.calls ::
          i != j && w.calls[i].media.Some? ==> w.calls[i].media != w.calls[j].media)
  }

  /** A considerate step of call `me` keeps every other call in order. */
  lemma OthersOk(w: World, me: CallId, other: CallId, h': Here)
    requires Inv(w) && me in w.calls && other in w.calls && other != me
    requires Considerate(me, See(w, me), h')
    ensures CallOk(other, Here(w.calls[other], h'.owner, h'.ports))
    ensures w.calls[other].media.Some? ==> w.calls[other].media != h'.c.media
  {
    var c := w.calls[other];
    assert CallOk(other, See(w, other));
    if c.media.Some? {
      assert Held(w.ports, c.media.value) && w.calls[me].media != c.media;
    }
  }

  lemma TurnKeepsInv(w: World, id: CallId, f: Faults)
    requires Inv(w) && Enabled(w, Turn(id, f))
    ensures Inv(Next(w, Turn(id, f)))
  {
    var h' := Handle(id, See(w, id), f);
    var w' := Next(w, Turn(id, f));
    assert CallOk(id, See(w, id));
    HandleOk(id, See(w, id), f);
    forall other <- w.calls | other != id
      ensures CallOk(other, See(w', other))
      ensures w.calls[other].media.Some? ==> w.calls[other].media != h'.c.media
    {
      OthersOk(w, id, other, h');
    }
  }

  lemma InvKept(w: World, m: Move)
    requires Inv(w) && Enabled(w, m)
    ensures Inv(Next(w, m))
  {
    var w' := Next(w, m);
    match m
    case NewCall(id, _) =>
      forall i <- w'.calls ensures CallOk(i, See(w', i)) {
        if i != id { assert CallOk(i, See(w, i)); }
      }
    case Arrive(id, e) =>
      forall i <- w'.calls ensures CallOk(i, See(w', i)) {
        assert CallOk(i, See(w, i));
      }
    case Turn(id, f) => TurnKeepsInv(w, id, f);
  }

  lemma {:induction false} Reachable(ports: GoodPorts, moves: seq<Move>)
    ensures Inv(Run(ports, moves))
  {
    if moves != [] {
      Reachable(ports, moves[..|moves| - 1]);
      var w := Run(ports, moves[..|moves| - 1]);
      if Enabled(w, moves[|moves| - 1]) {
        InvKept(w, moves[|moves| - 1]);
      }
    }
  }

  /** A call that is active, or about to become so, owns the media engine; so at most one
      call in the whole world is active. */
  lemma OneOwner(ports: GoodPorts, moves: seq<Move>)
    ensures var w := Run(ports, moves);
            && (forall id <- w.calls ::
                  w.calls[id].state == ACTIVE || MED_AVL in w.calls[id].queue ==> w.owner == Some(id))
            && (forall i <- w.calls, j <- w.calls ::
                  w.calls[i].state == ACTIVE && w.calls[j].state == ACTIVE ==> i == j)
  {
    Reachable(ports, moves);
    var w := Run(ports, moves);
    forall id <- w.calls
      ensures w.calls[id].state == ACTIVE || MED_AVL in w.calls[id].queue ==> w.owner == Some(id)
    {
      assert CallOk(id, See(w, id));
    }
  }

  /** No two calls ever share a port pair, and every pair a call holds is marked busy; a
      drained call that is calling, ringing or active has one; no exception is ever lost. */
  lemma PortsExclusive(ports: GoodPorts, moves: seq<Move>)
    ensures var w := Run(ports, moves);
            forall i <- w.calls :: var c := w.calls[i];
              && !c.crashed
              && (c.media.Some? ==> Held(w.ports, c.media.value))
              && (c.queue == [] && c.state in {CALLING, RINGING, ACTIVE} ==> c.media.Some?)
              && (forall j <- w.calls :: i != j && c.media.Some? ==> w.calls[j].media != c.media)
  {
    Reachable(ports, moves);
    var w := Run(ports, moves);
    forall i <- w.calls
      ensures CallOk(i, See(w, i))
    {}
  }

  /** In particular no turn of one call - a MED_STOP among them - frees the pair of another. */
  lemma TurnSparesOthers(ports: GoodPorts, moves: seq<Move>, id: CallId, other: CallId, f: Faults)
    requires var w := Run(ports, moves);
             Enabled(w, Turn(id, f)) && other in w.calls && other != id && w.calls[other].media.Some?
    ensures var w := Run(ports, moves);
            Held(Next(w, Turn(id, f)).ports, w.calls[other].media.value)
  {
    Reachable(ports, moves);
    var w := Run(ports, moves);
    assert CallOk(id, See(w, id));
    HandleOk(id, See(w, id), f);
    OthersOk(w, id, other, Handle(id, See(w, id), f));
  }

  /** A call in ERROR or DELETE runs no action and stays in one of the two. */
  lemma ErrorAndDeleteClosed(me: CallId, h: Here, e: Event, f: Faults)
    requires h.c.state == ERROR || h.c.state == DELETE
    ensures var h' := Trigger(me, h, e, f);
            && (h'.c.state == ERROR || h'.c.state == DELETE)
            && h' == h.(c := h.c.(state := h'.c.state, since := h'.c.since))
  {}
}
