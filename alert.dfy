/** The client's alert reducer: the list of alerts on screen, grown by SET_ALERT and
    shrunk by REMOVE_ALERT. Every case returns a new list and leaves its input alone. */
module AlertReducer {
  import opened Options

  /** The payload `setAlert` dispatches. */
  datatype Alert = Alert(msg: string, alertType: string, id: string)

  /** The actions the reducer receives; Other is any action whose type is neither constant. */
  datatype Action =
    | SetAlert(payload: Alert)
    | RemoveAlert(id: string)
    | Other(kind: string)

  const InitialState: seq<Alert> := []

  /** `state.filter(alert => alert.id !== id)` */
  function Without(state: seq<Alert>, id: string): (r: seq<Alert>)
    ensures |r| <= |state|
    ensures forall a :: a in r <==> a in state && a.id != id
  {
    if state == [] then []
    else (if state[0].id != id then [state[0]] else []) + Without(state[1..], id)
  }

  /** The reducer on a given state. */
  function Reduce(state: seq<Alert>, action: Action): seq<Alert>
  {
    match action
    case SetAlert(a) => state + [a]
    case RemoveAlert(id) => Without(state, id)
    case Other(_) => state
  }

  /** The exported reducer: Redux passes no state (None) on its first call. */
  function Reducer(state: Option<seq<Alert>>, action: Action): seq<Alert>
  {
    Reduce(if state.Some? then state.value else InitialState, action)
  }

  /** Whether some alert in the list carries this id. */
  predicate HasId(state: seq<Alert>, id: string)
  {
    exists i :: 0 <= i < |state| && state[i].id == id
  }

  /** The store starts from the empty list. */
  lemma StartsEmpty(kind: string)
    ensures Reducer(None, Other(kind)) == []
  {
  }

  /** SET_ALERT appends its payload at the end and leaves the earlier alerts as they were. */
  lemma SetAlertAppends(state: seq<Alert>, a: Alert)
    ensures var r := Reduce(state, SetAlert(a));
      |r| == |state| + 1 && r[..|state|] == state && r[|state|] == a
  {
  }

  /** Any other action returns the state unchanged. */
  lemma OtherKeepsState(state: seq<Alert>, kind: string)
    ensures Reduce(state, Other(kind)) == state
  {
  }

  /** The filter works alert by alert: filtering a concatenation filters each part and keeps
      them in order. With the singleton case this says REMOVE_ALERT keeps every other alert,
      in its original order, and drops every alert with the id. */
  lemma {:induction false} WithoutConcat(s: seq<Alert>, t: seq<Alert>, id: string)
    ensures Without(s + t, id) == Without(s, id) + Without(t, id)
  {
    if s == [] {
      assert s + t == t;
    } else {
      assert (s + t)[1..] == s[1..] + t;
      WithoutConcat(s[1..], t, id);
    }
  }

  /** On one alert the filter keeps it exactly when its id differs. */
  lemma WithoutOne(a: Alert, id: string)
    ensures Without([a], id) == if a.id == id then [] else [a]
  {
    assert [a][1..] == [];
  }

  /** REMOVE_ALERT keeps exactly the alerts with other ids and leaves none with the id. */
  lemma RemoveAlertKeepsOthers(state: seq<Alert>, id: string)
    ensures forall x :: x in Reduce(state, RemoveAlert(id)) <==> x in state && x.id != id
    ensures !HasId(Reduce(state, RemoveAlert(id)), id)
  {
  }

  /** REMOVE_ALERT with an id no alert has returns the list unchanged. */
  lemma {:induction false} RemoveAlertMissing(state: seq<Alert>, id: string)
    requires !HasId(state, id)
    ensures Reduce(state, RemoveAlert(id)) == state
  {
    if state != [] {
      RemoveAlertMissing(state[1..], id);
    }
  }

  /** REMOVE_ALERT twice with the same id is REMOVE_ALERT once. */
  lemma RemoveAlertIdempotent(state: seq<Alert>, id: string)
    ensures Reduce(Reduce(state, RemoveAlert(id)), RemoveAlert(id)) == Reduce(state, RemoveAlert(id))
  {
    RemoveAlertKeepsOthers(state, id);
    RemoveAlertMissing(Without(state, id), id);
  }

  /** An alert whose id is not yet on screen, set and then removed, leaves the list as it was. */
  lemma SetThenRemove(state: seq<Alert>, a: Alert)
    requires !HasId(state, a.id)
    ensures Reduce(Reduce(state, SetAlert(a)), RemoveAlert(a.id)) == state
  {
    WithoutConcat(state, [a], a.id);
    WithoutOne(a, a.id);
    RemoveAlertMissing(state, a.id);
  }
}
