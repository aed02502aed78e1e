/**
  The table-driven machine of bonephone/StateMachine.java and the table that Call.init
  (bonephone/Call.java:413-510) writes into it.
 */
module StateMachines {
  import opened Options

  datatype Event =
    | GUI_CANCEL | GUI_ACCEPT | GUI_UNMUTE | GUI_MUTE | GUI_HUP | GUI_CALLBACK
    | SIP_N0 | SIP_N0000 | SIP_NN | SIP_NY | SIP_HANGUP | SIP_ERROR
    | MED_AVL | MED_UNAVL | GEN_ERROR

  datatype State = INACTIVE | CALLING | DELETE | MUTING | ACTIVE | RINGING | MISSED | ERROR

  datatype Action =
    | MedLsdp | MedAvl | MedStart | MedStop
    | SipHangup | SipDecline | SipInvite | SipCallback | SipAccept | SipMute

  /** A cell: the actions to take and the state to enter, `None` for no change. */
  datatype Entry = Entry(actions: seq<Action>, next: Option<State>)

  const STAY := Entry([], None)

  /** What the finished table says. */
  function Transition(s: State, e: Event): Entry {
    match (s, e)
    case (_, GEN_ERROR) => Entry([], Some(ERROR))

    case (INACTIVE, SIP_N0) => Entry([MedLsdp, SipAccept], None)
    case (INACTIVE, SIP_NY) => Entry([MedLsdp], Some(RINGING))
    case (INACTIVE, GUI_CANCEL) => Entry([SipHangup], Some(DELETE))
    case (INACTIVE, GUI_HUP) => Entry([SipHangup], Some(DELETE))
    case (INACTIVE, SIP_NN) => Entry([SipDecline], Some(ERROR))
    case (INACTIVE, GUI_UNMUTE) => Entry([MedLsdp, SipInvite], Some(CALLING))

    case (CALLING, MED_UNAVL) => Entry([SipMute], Some(INACTIVE))
    case (CALLING, SIP_ERROR) => Entry([SipHangup], Some(ERROR))
    case (CALLING, SIP_NN) => Entry([SipHangup], Some(ERROR))
    case (CALLING, SIP_HANGUP) => Entry([], Some(ERROR))
    case (CALLING, GUI_CANCEL) => Entry([SipHangup], Some(DELETE))
    case (CALLING, MED_AVL) => Entry([MedStart], Some(ACTIVE))
    case (CALLING, SIP_NY) => Entry([MedAvl], None)

    case (RINGING, MED_UNAVL) => Entry([SipMute], Some(INACTIVE))
    case (RINGING, GUI_ACCEPT) => Entry([SipAccept, MedAvl], None)
    case (RINGING, MED_AVL) => Entry([MedStart], Some(ACTIVE))
    case (RINGING, GUI_CANCEL) => Entry([SipDecline], Some(DELETE))
    case (RINGING, SIP_ERROR) => Entry([SipHangup], Some(ERROR))
    case (RINGING, SIP_HANGUP) => Entry([], Some(MISSED))

    case (ACTIVE, GUI_MUTE) => Entry([SipMute, MedStop], Some(MUTING))
    case (ACTIVE, SIP_N0000) => Entry([SipAccept, MedStop], Some(INACTIVE))
    case (ACTIVE, SIP_ERROR) => Entry([MedStop, SipHangup], Some(ERROR))
    case (ACTIVE, SIP_HANGUP) => Entry([MedStop], Some(DELETE))
    case (ACTIVE, GUI_HUP) => Entry([MedStop, SipHangup], Some(DELETE))

    case (MUTING, SIP_N0) => Entry([SipAccept], Some(INACTIVE))
    case (MUTING, SIP_N0000) => Entry([SipAccept], Some(INACTIVE))
    case (MUTING, SIP_NY) => Entry([SipAccept], Some(INACTIVE))
    case (MUTING, SIP_NN) => Entry([SipAccept], Some(INACTIVE))
    case (MUTING, SIP_ERROR) => Entry([SipHangup], Some(ERROR))
    case (MUTING, GUI_HUP) => Entry([SipHangup], Some(DELETE))

    case (MISSED, GUI_CALLBACK) => Entry([SipCallback, MedLsdp, SipInvite], Some(CALLING))
    case (MISSED, GUI_CANCEL) => Entry([], Some(DELETE))
    case (MISSED, SIP_ERROR) => Entry([], Some(ERROR))

    case (ERROR, GUI_CANCEL) => Entry([], Some(DELETE))

    case _ => STAY
  }

  type Table = map<(State, Event), Entry>

  /** A cell nothing was written to keeps its state and does nothing. */
  function Cell(t: Table, s: State, e: Event): Entry {
    if (s, e) in t then t[(s, e)] else STAY
  }

  class StateMachine {
    var stable: Table
    var lastState: State
    var lastEvent: Event

    /** The table is the one of a call. */
    ghost predicate Configured()
      reads this
    {
      forall s: State, e: Event {:trigger Cell(stable, s, e)} :: Cell(stable, s, e) == Transition(s, e)
    }

    constructor ()
      ensures stable == map[]
    {
      stable, lastState, lastEvent := map[], INACTIVE, GUI_CANCEL;
    }

    method AddPath(state: State, event: Event, next: Option<State>)
      modifies this
      ensures stable == old(stable)[(state, event) := Entry([], next)]
      ensures lastState == state && lastEvent == event
    {
      stable := stable[(state, event) := Entry([], next)];
      lastState, lastEvent := state, event;
    }

    method AddAction(a: Action)
      modifies this`stable
      ensures var cell := Cell(old(stable), lastState, lastEvent);
              stable == old(stable)[(lastState, lastEvent) := Entry(cell.actions + [a], cell.next)]
    {
      var cell := Cell(stable, lastState, lastEvent);
      stable := stable[(lastState, lastEvent) := Entry(cell.actions + [a], cell.next)];
    }

    method AddGlobalPath(event: Event, dst: State)
      modifies this`stable
      ensures forall s: State, e: Event ::
                Cell(stable, s, e) == if e == event then Entry([], Some(dst)) else Cell(old(stable), s, e)
    {
      stable := stable + map s: State | true :: (s, event) := Entry([], Some(dst));
    }

    /** One addPath and the addActions that follow it. */
    method AddRow(state: State, event: Event, next: Option<State>, actions: seq<Action>)
      modifies this
      ensures forall s: State, e: Event ::
                Cell(stable, s, e) == if s == state && e == event then Entry(actions, next) else Cell(old(stable), s, e)
    {
      AddPath(state, event, next);
      for i := 0 to |actions|
        invariant lastState == state && lastEvent == event
        invariant stable == old(stable)[(state, event) := Entry(actions[..i], next)]
      {
        AddAction(actions[i]);
        assert actions[..i] + [actions[i]] == actions[..i + 1];
      }
      assert actions[..|actions|] == actions;
    }

    /** Call.init writes the whole table, one source state after the other. */
    method Configure()
      requires stable == map[]
      modifies this
      ensures Configured()
    {
      AddGlobalPath(GEN_ERROR, ERROR);
      ConfigureInactive();
      ConfigureCalling();
      ConfigureRinging();
      ConfigureActive();
      ConfigureMuting();
      ConfigureRest();
    }

    method ConfigureInactive()
      requires forall s: State :: Cell(stable, s, GEN_ERROR) == Entry([], Some(ERROR))
      requires forall s: State, e: Event :: (s == INACTIVE) && e != GEN_ERROR ==> Cell(stable, s, e) == STAY
      modifies this
      ensures forall s: State, e: Event ::
                Cell(stable, s, e) == if s == INACTIVE then Transition(s, e) else Cell(old(stable), s, e)
    {
      hide Cell;
      AddRow(INACTIVE, SIP_N0, None, [MedLsdp, SipAccept]);
      AddRow(INACTIVE, SIP_NY, Some(RINGING), [MedLsdp]);
      AddRow(INACTIVE, GUI_CANCEL, Some(DELETE), [SipHangup]);
      AddRow(INACTIVE, GUI_HUP, Some(DELETE), [SipHangup]);
      AddRow(INACTIVE, SIP_NN, Some(ERROR), [SipDecline]);
      AddRow(INACTIVE, GUI_UNMUTE, Some(CALLING), [MedLsdp, SipInvite]);
    }

    method ConfigureCalling()
      requires forall s: State :: Cell(stable, s, GEN_ERROR) == Entry([], Some(ERROR))
      requires forall s: State, e: Event :: (s == CALLING) && e != GEN_ERROR ==> Cell(stable, s, e) == STAY
      modifies this
      ensures forall s: State, e: Event ::
                Cell(stable, s, e) == if s == CALLING then Transition(s, e) else Cell(old(stable), s, e)
    {
      hide Cell;
      AddRow(CALLING, MED_UNAVL, Some(INACTIVE), [SipMute]);
      AddRow(CALLING, SIP_ERROR, Some(ERROR), [SipHangup]);
      AddRow(CALLING, SIP_NN, Some(ERROR), [SipHangup]);
      AddRow(CALLING, SIP_HANGUP, Some(ERROR), []);
      AddRow(CALLING, GUI_CANCEL, Some(DELETE), [SipHangup]);
      AddRow(CALLING, MED_AVL, Some(ACTIVE), [MedStart]);
      AddRow(CALLING, SIP_NY, None, [MedAvl]);
    }

    method ConfigureRinging()
      requires forall s: State :: Cell(stable, s, GEN_ERROR) == Entry([], Some(ERROR))
      requires forall s: State, e: Event :: (s == RINGING) && e != GEN_ERROR ==> Cell(stable, s, e) == STAY
      modifies this
      ensures forall s: State, e: Event ::
                Cell(stable, s, e) == if s == RINGING then Transition(s, e) else Cell(old(stable), s, e)
    {
      hide Cell;
      AddRow(RINGING, MED_UNAVL, Some(INACTIVE), [SipMute]);
      AddRow(RINGING, GUI_ACCEPT, None, [SipAccept, MedAvl]);
      AddRow(RINGING, MED_AVL, Some(ACTIVE), [MedStart]);
      AddRow(RINGING, GUI_CANCEL, Some(DELETE), [SipDecline]);
      AddRow(RINGING, SIP_ERROR, Some(ERROR), [SipHangup]);
      AddRow(RINGING, SIP_HANGUP, Some(MISSED), []);
    }

    method ConfigureActive()
      requires forall s: State :: Cell(stable, s, GEN_ERROR) == Entry([], Some(ERROR))
      requires forall s: State, e: Event :: (s == ACTIVE) && e != GEN_ERROR ==> Cell(stable, s, e) == STAY
      modifies this
      ensures forall s: State, e: Event ::
                Cell(stable, s, e) == if s == ACTIVE then Transition(s, e) else Cell(old(stable), s, e)
    {
      hide Cell;
      AddRow(ACTIVE, GUI_MUTE, Some(MUTING), [SipMute, MedStop]);
      AddRow(ACTIVE, SIP_N0000, Some(INACTIVE), [SipAccept, MedStop]);
      AddRow(ACTIVE, SIP_ERROR, Some(ERROR), [MedStop, SipHangup]);
      AddRow(ACTIVE, SIP_HANGUP, Some(DELETE), [MedStop]);
      AddRow(ACTIVE, GUI_HUP, Some(DELETE), [MedStop, SipHangup]);
    }

    method ConfigureMuting()
      requires forall s: State :: Cell(stable, s, GEN_ERROR) == Entry([], Some(ERROR))
      requires forall s: State, e: Event :: (s == MUTING) && e != GEN_ERROR ==> Cell(stable, s, e) == STAY
      modifies this
      ensures forall s: State, e: Event ::
                Cell(stable, s, e) == if s == MUTING then Transition(s, e) else Cell(old(stable), s, e)
    {
      hide Cell;
      AddRow(MUTING, SIP_N0, Some(INACTIVE), [SipAccept]);
      AddRow(MUTING, SIP_N0000, Some(INACTIVE), [SipAccept]);
      AddRow(MUTING, SIP_NY, Some(INACTIVE), [SipAccept]);
      AddRow(MUTING, SIP_NN, Some(INACTIVE), [SipAccept]);
      AddRow(MUTING, SIP_ERROR, Some(ERROR), [SipHangup]);
      AddRow(MUTING, GUI_HUP, Some(DELETE), [SipHangup]);
    }

    method ConfigureRest()
      requires forall s: State :: Cell(stable, s, GEN_ERROR) == Entry([], Some(ERROR))
      requires forall s: State, e: Event :: (s == MISSED || s == ERROR) && e != GEN_ERROR ==> Cell(stable, s, e) == STAY
      modifies this
      ensures forall s: State, e: Event ::
                Cell(stable, s, e) == if s == MISSED || s == ERROR then Transition(s, e) else Cell(old(stable), s, e)
    {
      hide Cell;
      AddRow(MISSED, GUI_CALLBACK, Some(CALLING), [SipCallback, MedLsdp, SipInvite]);
      AddRow(MISSED, GUI_CANCEL, Some(DELETE), []);
      AddRow(MISSED, SIP_ERROR, Some(ERROR), []);
      AddRow(ERROR, GUI_CANCEL, Some(DELETE), []);
    }
  }
}
