/**
  The mutable objects behind CallControl: the event queue, the media engine's owner and
  the call, whose event source locks itself while it drains.  Each method is proved to
  compute the step that CallControl reasons about.
 */
module CallObjects {
  import opened Options
  import opened PortManagers
  import opened StateMachines
  import opened CallControl

  /** bonephone/Queue.java */
  class Queue {
    var data: seq<Event>

    constructor ()
      ensures data == []
    {
      data := [];
    }

    method Insert(e: Event)
      modifies this
      ensures data == old(data) + [e]
    {
      data := data + [e];
    }

    method Fetch() returns (e: Option<Event>)
      modifies this
      ensures old(data) == [] ==> e == None && data == []
      ensures old(data) != [] ==> e == Some(old(data)[0]) && data == old(data)[1..]
    {
      if |data| == 0 { return None; }
      e := Some(data[0]);
      data := data[1..];
    }

    method Size() returns (n: nat)
      ensures n == |data|
    {
      n := |data|;
    }
  }

  /** An outside event that comes to a call in order is handled to the end. */
  lemma SetDrains(id: CallId, h: Here, e: Event, faults: nat -> Faults, n: nat)
    ensures h.c.queue == [] && CallOk(id, h) && Outside(e) ==>
              var h' := Drain(id, Post(h, e), faults, n).0;
              CallOk(id, h') && h'.c.queue == [] && !h'.c.crashed
  {
    hide Drain;
    if h.c.queue == [] && CallOk(id, h) && Outside(e) {
      DrainOk(id, Post(h, e), faults, n);
    }
  }

  /** bonephone/MediaControl.java, as far as the ownership of the engine goes. */
  class MediaControl {
    var rat: bool               // an engine process exists
    var owner: Option<CallId>

    ghost predicate Valid()
      reads this
    {
      rat <==> owner.Some?
    }

    constructor ()
      ensures Valid() && owner == None
    {
      rat, owner := false, None;
    }

    method IsAvailable(referrer: CallId) returns (mine: bool)
      requires Valid()
      modifies this
      ensures Valid() && (owner, mine) == Reserve(referrer, old(owner))
    {
      if rat && owner == Some(referrer) { return true; }
      if rat { return false; }
      rat := true;
      owner := Some(referrer);
      return true;
    }

    method Stop()
      modifies this
      ensures Valid() && owner == None
    {
      rat := false;
      owner := None;
    }
  }

  class Call {
    const id: CallId
    const evq: Queue
    const engine: MediaControl
    const ports: PortManager
    const stm: StateMachine
    const faults: nat -> Faults

    var state: State
    var localmedia: Option<Port>
    var locked: bool
    var crashed: bool
    var turns: nat              // events handled so far

    ghost var posted: seq<Event>   // every event ever set, oldest first
    ghost var handled: seq<Event>  // every event whose handling has begun, oldest first
    ghost var handling: bool       // an event's handler is running
    ghost var told: seq<Action>    // commands to SIP and to the engine, oldest first
    ghost var since: nat           // how many of them before the present state

    /** Events are handled in the order they were set, and an unlocked call has none left. */
    ghost predicate Valid()
      reads this, evq, engine, ports, ports.portbusy, stm
    {
      && engine.Valid() && ValidPorts(ports.View())
      && stm.Configured()
      && posted == handled + evq.data
      && (!locked ==> evq.data == [] && !handling && !crashed)
    }

    ghost function View(): Here
      requires ValidPorts(ports.View())
      reads this, evq, engine, ports, ports.portbusy
    {
      Here(CallData(state, evq.data, localmedia, crashed, told, since), engine.owner, ports.View())
    }

    constructor (id: CallId, engine: MediaControl, ports: PortManager, stm: StateMachine,
                 faults: nat -> Faults, noContext: bool)
      requires engine.Valid() && ValidPorts(ports.View())
      requires stm.Configured()
      ensures Valid() && !locked && posted == [] && turns == 0
      ensures View() ==
                Here(NewCallData(if noContext then ERROR else INACTIVE), engine.owner, ports.View())
      ensures fresh(evq) && this.engine == engine && this.ports == ports && this.faults == faults && this.id == id
    {
      this.id, this.engine, this.ports, this.stm, this.faults := id, engine, ports, stm, faults;
      evq := new Queue();
      state := if noContext then ERROR else INACTIVE;
      localmedia, locked, crashed, turns := None, false, false, 0;
      posted, handled, handling, told, since := [], [], false, [], 0;
    }

    /** IPT_Event.set.  Called while the lock is held it only queues; otherwise it drains the
        queue and releases the lock, unless a handler crashed.  For a call in order none does. */
    method Set(e: Event)
      requires Valid() && !crashed
      modifies this, evq, engine, ports, ports.portbusy
      ensures Valid()
      ensures old(posted) + [e] <= posted
      ensures old(locked) ==>
                && View() == Post(old(View()), e)
                && locked && posted == old(posted) + [e]
                && handled == old(handled) && handling == old(handling) && turns == old(turns)
      ensures !old(locked) ==>
                && (View(), turns) == Drain(id, Post(old(View()), e), faults, old(turns))
                && (!crashed ==> !locked && evq.data == [] && handled == posted)
      ensures !old(locked) && old(CallOk(id, View())) && Outside(e) ==>
                CallOk(id, View()) && !crashed && !locked && evq.data == [] && handled == posted
      decreases if locked then 0 else 4
    {
      hide Drain, Handle, Weight, CallOk, ValidPorts, Outside, StateMachine.Configured, PortManager.View;
      SetDrains(id, View(), e, faults, turns);
      evq.Insert(e);
      posted := posted + [e];
      if locked { return; }
      locked := true;
      var pending := evq.Size();
      while pending > 0 && !crashed
        invariant Valid() && locked && (!crashed ==> !handling)
        invariant pending == |evq.data|
        invariant old(posted) + [e] <= posted
        invariant Drain(id, View(), faults, turns) == Drain(id, Post(old(View()), e), faults, old(turns))
        decreases Weight(evq.data)
      {
        DrainTurn(id, View(), faults, turns);
        TakeTurn();
        pending := evq.Size();
      }
      DrainEnds(id, View(), faults, turns);
      if !crashed {
        locked := false;
      }
    }

    /** The body of that loop. */
    method TakeTurn()
      requires Valid() && locked && !handling && !crashed && evq.data != []
      modifies this, evq, engine, ports, ports.portbusy
      ensures Valid() && locked && (!crashed ==> !handling)
      ensures View() == Handle(id, old(View()), faults(old(turns))) && turns == old(turns) + 1
      ensures handled == old(handled) + [old(evq.data)[0]]
      ensures Weight(evq.data) < Weight(old(evq.data))
      ensures old(posted) <= posted
      decreases 3
    {
      HandleLightens(id, View(), faults(turns));
      var event := FetchNext();
      Trigger(event, faults(turns - 1));
    }

    method FetchNext() returns (event: Event)
      requires Valid() && locked && !handling && !crashed && evq.data != []
      modifies this, evq
      ensures Valid() && locked && !handling && !crashed
      ensures event == old(evq.data)[0]
      ensures View() == (var h := old(View()); h.(c := h.c.(queue := h.c.queue[1..])))
      ensures handled == old(handled) + [event] && turns == old(turns) + 1 && posted == old(posted)
    {
      var next := evq.Fetch();
      event := next.value;
      handled := handled + [event];
      turns := turns + 1;
    }

    /** StateMachine.trigger.  It is never entered while another event is being handled. */
    method Trigger(e: Event, f: Faults)
      requires Valid() && locked && !handling && !crashed
      modifies this, evq, engine, ports, ports.portbusy
      ensures Valid() && locked && (!crashed ==> !handling)
      ensures View() == CallControl.Trigger(id, old(View()), e, f)
      ensures old(posted) <= posted
      ensures handled == old(handled) && turns == old(turns)
      decreases 2
    {
      hide ActAll, Act, ValidPorts, PortManager.View, Enter;
      handling := true;
      var cell := Cell(stm.stable, state, e);
      RunActions(cell.actions, f);
      NotEntered(View(), cell.next, f);
      if crashed { return; }
      EnterNext(cell.next, f);
      handling := false;
    }

    /** The new state is set and shown to the call's panel. */
    method EnterNext(next: Option<State>, f: Faults)
      requires Valid() && locked && handling && !crashed
      modifies this, evq, engine, ports, ports.portbusy
      ensures Valid() && locked && handling && !crashed
      ensures View() == Enter(old(View()), next, f)
      ensures old(posted) <= posted
      ensures handled == old(handled) && turns == old(turns)
      decreases 1
    {
      hide ValidPorts, PortManager.View;
      if next.Some? && next.value != state {
        state := next.value;
        since := |told|;
        if state == RINGING && f.autoAnswer {
          Set(GUI_ACCEPT);
        }
      }
    }

    method RunActions(actions: seq<Action>, f: Faults)
      requires Valid() && locked && handling && !crashed
      modifies this, evq, engine, ports, ports.portbusy
      ensures Valid() && locked && handling
      ensures View() == ActAll(id, old(View()), actions, f)
      ensures old(posted) <= posted
      ensures handled == old(handled) && turns == old(turns) && state == old(state)
      decreases 1, 2
    {
      var success, i := true, 0;
      while i < |actions| && success
        invariant 0 <= i <= |actions|
        invariant Valid() && locked && handling && (crashed ==> !success)
        invariant state == old(state)
        invariant ActAll(id, old(View()), actions, f) ==
                    if success then ActAll(id, View(), actions[i..], f) else View()
        invariant old(posted) <= posted
        invariant handled == old(handled) && turns == old(turns)
      {
        success := DoAction(actions[i], f);
        i := i + 1;
      }
    }

    /** The case MED_LSDP of action. */
    method FindPorts(f: Faults) returns (success: bool)
      requires Valid() && locked && handling && !crashed
      modifies this, evq, engine, ports, ports.portbusy
      ensures Valid() && locked && handling && !crashed
      ensures (View(), success) == Act(id, old(View()), MedLsdp, f)
      ensures old(posted) <= posted
      ensures handled == old(handled) && turns == old(turns) && state == old(state)
      decreases 1, 0
    {
      hide Allot, ValidPorts, StateMachine.Configured, PortManager.View;
      var port := ports.GetPort();
      success := port != None && !f.lsdp;
      if success {
        localmedia := port;
      } else {
        Set(GEN_ERROR);
      }
    }

    /** The case MED_STOP. */
    method StopMedia(f: Faults) returns (success: bool)
      requires Valid() && locked && handling && !crashed
      modifies this, evq, engine, ports, ports.portbusy
      ensures Valid() && locked && handling && (crashed ==> !success)
      ensures (View(), success) == Act(id, old(View()), MedStop, f)
      ensures posted == old(posted) && handled == old(handled) && turns == old(turns) && state == old(state)
    {
      hide Release, ValidPorts, StateMachine.Configured, PortManager.View;
      engine.Stop();
      told := told + [MedStop];
      success := localmedia != None;
      if success {
        ports.FreePort(localmedia.value);
        localmedia := None;
      } else {
        crashed := true;
      }
    }

    /** Call.action */
    method DoAction(a: Action, f: Faults) returns (success: bool)
      requires Valid() && locked && handling && !crashed
      modifies this, evq, engine, ports, ports.portbusy
      ensures Valid() && locked && handling && (crashed ==> !success)
      ensures (View(), success) == Act(id, old(View()), a, f)
      ensures old(posted) <= posted
      ensures handled == old(handled) && turns == old(turns) && state == old(state)
      decreases 1, 1
    {
      hide Allot, Release, ValidPorts, StateMachine.Configured, PortManager.View;
      success := true;
      match a {
        case MedLsdp =>
          success := FindPorts(f);
        case MedStart =>
          if f.start || localmedia == None || !engine.rat {
            Set(GEN_ERROR);
            success := false;
          } else {
            told := told + [a];
          }
        case MedAvl =>
          var mine := engine.IsAvailable(id);
          if mine { Set(MED_AVL); } else { Set(MED_UNAVL); }
        case MedStop =>
          success := StopMedia(f);
        case SipInvite =>
          told := told + [a];
          if localmedia == None {
            crashed := true;
            success := false;
          }
        case SipCallback =>
          if f.callback {
            Set(GEN_ERROR);
            success := false;
          } else {
            told := told + [a];
          }
        case SipMute =>
          if f.mute {
            success := false;
          } else {
            told := told + [a];
          }
        case SipHangup | SipDecline | SipAccept =>
          told := told + [a];
      }
    }
  }

  /** A crashed call enters nothing. */
  lemma NotEntered(h: Here, next: Option<State>, f: Faults)
    ensures h.c.crashed ==> Enter(h, next, f) == h
  {}
}
