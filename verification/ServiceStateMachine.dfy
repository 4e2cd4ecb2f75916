/** Lifecycle and activity of the service, with the tables that guard them. */
module ServiceStates {
  import opened Wrappers

  datatype Lifecycle = Stopped | GateConnecting | Running

  datatype Activity = Idle | GateChecking | Listening | Retrieving | Generating | Displaying

  datatype InvalidTransition = IllegalLifecycle | IllegalActivity | NotStopped

  function LifecycleSuccessors(from: Lifecycle): set<Lifecycle> {
    match from
    case Stopped => {GateConnecting}
    case GateConnecting => {Running, Stopped}
    case Running => {Stopped}
  }

  function ActivitiesOf(lifecycle: Lifecycle): set<Activity> {
    match lifecycle
    case Stopped => {Idle}
    case GateConnecting => {GateChecking}
    case Running => {Listening, Retrieving, Generating, Displaying}
  }

  function InitialActivity(lifecycle: Lifecycle): Activity {
    match lifecycle
    case Stopped => Idle
    case GateConnecting => GateChecking
    case Running => Listening
  }

  function ActivitySuccessors(from: Activity): set<Activity> {
    match from
    case Listening => {Retrieving}
    case Retrieving => {Generating, Displaying, Listening}
    case Generating => {Displaying, Listening}
    case Displaying => {Listening}
    case _ => {}
  }

  /** The one lifecycle an activity belongs to. */
  function LifecycleOf(activity: Activity): Lifecycle {
    match activity
    case Idle => Stopped
    case GateChecking => GateConnecting
    case Listening | Retrieving | Generating | Displaying => Running
  }

  /** The tables read edge by edge. */
  lemma ServiceTables(from: Lifecycle, to: Lifecycle, a: Activity, b: Activity)
    ensures to in LifecycleSuccessors(from) <==>
      (from, to) in {
        (Stopped, GateConnecting), (GateConnecting, Running), (GateConnecting, Stopped), (Running, Stopped)}
    ensures a in ActivitiesOf(from) <==> LifecycleOf(a) == from
    ensures b in ActivitySuccessors(a) <==> (a, b) in {
      (Listening, Retrieving), (Retrieving, Generating), (Retrieving, Displaying), (Retrieving, Listening),
      (Generating, Displaying), (Generating, Listening), (Displaying, Listening)}
    ensures InitialActivity(from) in ActivitiesOf(from) && (from == Running ==> InitialActivity(from) == Listening)
  {
  }

  /** Whether `SetActivity(to)` is accepted. */
  predicate ActivityLegal(lifecycle: Lifecycle, from: Activity, to: Activity) {
    && to in ActivitiesOf(lifecycle)
    && (lifecycle == Running && from != to ==> to in ActivitySuccessors(from))
  }

  class ServiceStateMachine {
    var lifecycle: Lifecycle
    var activity: Activity
    var stopReason: Option<nat>
    var recoverableError: Option<nat>

    /** Activity always belongs to its lifecycle; errors are kept only while stopped. */
    ghost predicate Valid()
      reads this
    {
      && activity in ActivitiesOf(lifecycle)
      && (lifecycle != Stopped ==> stopReason == None && recoverableError == None)
    }

    constructor ()
      ensures Valid()
      ensures lifecycle == Stopped && activity == Idle
      ensures stopReason == None && recoverableError == None
    {
      lifecycle, activity := Stopped, Idle;
      stopReason, recoverableError := None, None;
    }

    method TransitionToLifecycle(to: Lifecycle, reason: Option<nat>, error: Option<nat>)
      returns (r: Result<(), InvalidTransition>)
      requires Valid()
      modifies this
      ensures Valid()
      ensures r.Ok? <==> to in LifecycleSuccessors(old(lifecycle))
      ensures r.Ok? ==>
        && lifecycle == to
        && activity == InitialActivity(to)
        && stopReason == (if to == Stopped then reason else None)
        && recoverableError == (if to == Stopped then error else None)
      ensures r.Err? ==> unchanged(this) && r.error == IllegalLifecycle
    {
      if to !in LifecycleSuccessors(lifecycle) {
        return Err(IllegalLifecycle);
      }
      lifecycle := to;
      activity := InitialActivity(to);
      if to == Stopped {
        stopReason, recoverableError := reason, error;
      } else {
        stopReason, recoverableError := None, None;
      }
      r := Ok(());
    }

    method RecordRecoverableError(sourceError: nat, error: nat) returns (r: Result<(), InvalidTransition>)
      requires Valid()
      modifies this`stopReason, this`recoverableError
      ensures Valid()
      ensures r.Ok? <==> lifecycle == Stopped
      ensures r.Ok? ==> stopReason == Some(sourceError) && recoverableError == Some(error)
      ensures r.Err? ==> unchanged(this) && r.error == NotStopped
    {
      if lifecycle != Stopped {
        return Err(NotStopped);
      }
      stopReason, recoverableError := Some(sourceError), Some(error);
      r := Ok(());
    }

    method SetActivity(to: Activity) returns (r: Result<(), InvalidTransition>)
      requires Valid()
      modifies this`activity
      ensures Valid()
      ensures r.Ok? <==> ActivityLegal(lifecycle, old(activity), to)
      ensures activity == if r.Ok? then to else old(activity)
    {
      if to !in ActivitiesOf(lifecycle) {
        return Err(IllegalActivity);
      }
      if lifecycle == Running && activity != to {
        if to !in ActivitySuccessors(activity) {
          return Err(IllegalActivity);
        }
      }
      activity := to;
      r := Ok(());
    }
  }
}
