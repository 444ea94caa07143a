/** The guarded state machine of include/collectivefabric/lifecycle.hpp. */
module Lifecycle {

  datatype State =
    | Created | Planned | Reserved | Dispatched | Running | Completing
    | Succeeded | Failed | Aborted | Cancelled | Stale

  predicate Allowed(from: State, to: State) {
    match from
    case Created => to == Planned || to == Failed || to == Cancelled || to == Aborted
    case Planned => to == Reserved || to == Failed || to == Cancelled
    case Reserved => to == Dispatched || to == Failed || to == Cancelled
    case Dispatched => to == Running || to == Failed || to == Aborted || to == Cancelled
    case Running => to == Completing || to == Failed || to == Aborted || to == Cancelled
    case Completing => to == Succeeded || to == Failed || to == Aborted
    case Succeeded => to == Stale
    case Failed => to == Stale
    case Aborted => false
    case Cancelled => false
    case Stale => false
  }

  predicate Terminal(s: State) { s == Succeeded || s == Failed || s == Aborted || s == Cancelled || s == Stale }

  /** How many moves can still follow. */
  function Height(s: State): nat {
    match s
    case Created => 7
    case Planned => 6
    case Reserved => 5
    case Dispatched => 4
    case Running => 3
    case Completing => 2
    case Succeeded => 1
    case Failed => 1
    case Aborted => 0
    case Cancelled => 0
    case Stale => 0
  }

  ghost predicate IsPath(path: seq<State>) {
    path != [] && forall i :: 0 <= i < |path| - 1 ==> Allowed(path[i], path[i + 1])
  }

  /** No path has more moves than the height of its start, seven at most; and the bound is met. */
  lemma {:induction false} PathBounded(path: seq<State>)
    requires IsPath(path)
    ensures |path| - 1 <= Height(path[0]) - Height(path[|path| - 1]) <= 7
    decreases |path|
  {
    if |path| > 1 {
      PathBounded(path[..|path| - 1]);
    }
  }

  lemma LongestPath()
    ensures IsPath([Created, Planned, Reserved, Dispatched, Running, Completing, Succeeded, Stale])
  {
  }

  /** Where any number of guarded moves can lead. */
  predicate Later(s: State, t: State) {
    || s == t
    || (Height(t) < Height(s)
        && (Terminal(s) ==> (s == Succeeded || s == Failed) && t == Stale)
        && !(s == Completing && t == Cancelled))
  }

  /** The next state on the way to success. */
  function Onward(s: State): State {
    match s
    case Created => Planned
    case Planned => Reserved
    case Reserved => Dispatched
    case Dispatched => Running
    case Running => Completing
    case _ => Succeeded
  }

  lemma OnwardStep(s: State, t: State)
    requires Later(s, t) && s != t && !Allowed(s, t)
    ensures Allowed(s, Onward(s)) && Later(Onward(s), t) && Height(Onward(s)) < Height(s)
  {
  }

  /** A witness: straight to t if allowed, else one step onward first. */
  lemma Route(s: State, t: State) returns (path: seq<State>)
    requires Later(s, t)
    ensures IsPath(path) && path[0] == s && path[|path| - 1] == t
    decreases Height(s)
  {
    hide Later, Allowed, Height;
    if s == t {
      path := [s];
    } else if Allowed(s, t) {
      path := [s, t];
    } else {
      OnwardStep(s, t);
      var rest := Route(Onward(s), t);
      path := [s] + rest;
    }
  }

  /** Later is exactly reachability by guarded moves. */
  lemma LaterIsReachable(s: State, t: State)
    ensures Later(s, t) <==> exists path :: IsPath(path) && path[0] == s && path[|path| - 1] == t
  {
    if Later(s, t) {
      var path := Route(s, t);
    }
    forall path | IsPath(path) && path[0] == s && path[|path| - 1] == t
      ensures Later(s, t)
    {
      PathIsLater(path);
    }
  }

  lemma {:induction false} PathIsLater(path: seq<State>)
    requires IsPath(path)
    ensures Later(path[0], path[|path| - 1])
    decreases |path|
  {
    if |path| > 1 {
      var front := path[..|path| - 1];
      PathIsLater(front);
      AllowedIsLater(front[|front| - 1], path[|path| - 1]);
      LaterTransitive(path[0], front[|front| - 1], path[|path| - 1]);
    }
  }

  lemma LaterTransitive(s: State, t: State, u: State)
    requires Later(s, t) && Later(t, u)
    ensures Later(s, u)
  {
  }

  lemma AllowedIsLater(s: State, t: State)
    requires Allowed(s, t)
    ensures Later(s, t) && s != t
  {
  }

  class StateMachine {
    var state: State

    constructor (s: State)
      ensures state == s
    {
      state := s;
    }

    /** The move is made or refused; a refusal changes nothing. */
    method TransitionTo(to: State) returns (ok: bool)
      modifies this
      ensures ok == Allowed(old(state), to)
      ensures state == if ok then to else old(state)
    {
      ok := Allowed(state, to);
      if ok {
        state := to;
      }
    }
  }
}
