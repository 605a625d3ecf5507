/** The single-flight cache of the CLI path (internal/transport/cli_discovery.go). */
module Discovery {
  import opened Basics
  import Runs

  /** What a discovery, and so a caller, returns. */
  datatype Result = Result(path: string, err: Option<string>)

  /** A result the cache keeps: no error, and a path that is not empty. */
  predicate Keeps(r: Result) {
    r.err.None? && r.path != ""
  }

  /** c.path after a flight came back with `r`. */
  function CachedAfter(path: string, r: Result): string {
    if r.err.None? then r.path else path
  }

  class Flight {
    var done: bool
    var result: Result

    constructor ()
      ensures !done
    {
      done, result := false, Result("", None);
    }
  }

  datatype Entry = Hit | Join | Lead

  class CliDiscoveryCache {
    var path: string
    var inFlight: Flight?

    constructor ()
      ensures path == "" && inFlight == null
    {
      path, inFlight := "", null;
    }

    /** find up to its first unlock: answer from the cache, join the flight, or start one. */
    method Enter() returns (entry: Entry, flight: Flight?)
      modifies this`inFlight
      ensures entry.Hit? <==> path != ""
      ensures entry.Join? <==> path == "" && old(inFlight) != null
      ensures entry.Join? ==> flight == inFlight
      ensures entry.Lead? ==> flight != null && fresh(flight) && !flight.done && inFlight == flight
      ensures !entry.Lead? ==> inFlight == old(inFlight)
    {
      if path != "" {
        return Hit, null;
      }
      if inFlight != null {
        return Join, inFlight;
      }
      flight := new Flight();
      inFlight := flight;
      return Lead, flight;
    }

    /** The leader's second section, once its discovery is back. */
    method Finish(flight: Flight, r: Result)
      modifies this, flight
      ensures path == CachedAfter(old(path), r) && inFlight == null
      ensures flight.done && flight.result == r
    {
      if r.err.None? {
        path := r.path;
      }
      flight.result := r;
      inFlight := null;
      flight.done := true;
    }
  }

  // ------------------------------------------------- any number of callers

  datatype Caller = Leading(f: nat) | Waiting(f: nat) | Returned(r: Result, from: Option<nat>)

  /** `flights` are all the discoveries ever started: None while one runs. */
  datatype State = State(
    path: string,
    inFlight: Option<nat>,
    flights: seq<Option<Result>>,
    callers: map<nat, Caller>)

  datatype Action =
    | Find(c: nat)
    | Discovered(c: nat, r: Result)
    | Wake(c: nat)

  const FRESH := State("", None, [], map[])

  function Step(s: State, a: Action): State {
    match a
    case Find(c) =>
      if c in s.callers then s
      else if s.path != "" then s.(callers := s.callers[c := Returned(Result(s.path, None), None)])
      else if s.inFlight.Some? then s.(callers := s.callers[c := Waiting(s.inFlight.value)])
      else
        s.(inFlight := Some(|s.flights|), flights := s.flights + [None],
           callers := s.callers[c := Leading(|s.flights|)])
    case Discovered(c, r) =>
      if c in s.callers && s.callers[c].Leading? && s.callers[c].f < |s.flights| then
        var f := s.callers[c].f;
        State(CachedAfter(s.path, r), None, s.flights[f := Some(r)], s.callers[c := Returned(r, Some(f))])
      else s
    case Wake(c) =>
      if c in s.callers && s.callers[c].Waiting? && s.callers[c].f < |s.flights| && s.flights[s.callers[c].f].Some? then
        var f := s.callers[c].f;
        s.(callers := s.callers[c := Returned(s.flights[f].value, Some(f))])
      else s
  }

  predicate Leads(s: State, c: nat) {
    c in s.callers && s.callers[c].Leading?
  }

  ghost predicate CallerSound(s: State, c: nat) {
    c in s.callers ==>
      match s.callers[c]
      case Leading(f) => s.inFlight == Some(f)
      case Waiting(f) => f < |s.flights|
      case Returned(r, from) =>
        if from.Some? then from.value < |s.flights| && s.flights[from.value] == Some(r)
        else s.path != "" && r == Result(s.path, None)
  }

  ghost predicate Inv(s: State) {
    && (forall f :: 0 <= f < |s.flights| ==> (s.flights[f].None? <==> s.inFlight == Some(f)))
    && (s.inFlight.Some? ==> s.inFlight.value < |s.flights| && s.path == "")
    && (s.inFlight.Some? ==> exists c :: Leads(s, c))
    && (forall c, d :: Leads(s, c) && Leads(s, d) ==> c == d)
    && (forall c :: CallerSound(s, c))
    && (forall f :: 0 <= f < |s.flights| && s.flights[f].Some? && Keeps(s.flights[f].value) ==>
          s.path == s.flights[f].value.path)
    && (s.path != "" ==> exists f :: 0 <= f < |s.flights| && s.flights[f] == Some(Result(s.path, None)))
  }

  lemma NobodyLeads(s: State)
    requires Inv(s) && s.inFlight.None?
    ensures forall c :: !Leads(s, c)
  {
    forall c ensures !Leads(s, c) {
      assert CallerSound(s, c);
    }
  }

  lemma StepKeepsInv(s: State, a: Action)
    requires Inv(s)
    ensures Inv(Step(s, a))
  {
    var s' := Step(s, a);
    assert CallerSound(s, a.c);
    if a.Discovered? && s' != s {
      assert Leads(s, a.c);
      var f := s.callers[a.c].f;
      assert CachedAfter(s.path, a.r) != "" ==> s'.flights[f] == Some(Result(s'.path, None));
    } else if a.Find? && s'.inFlight != s.inFlight {
      assert Leads(s', a.c);
      NobodyLeads(s);
    } else if s.inFlight.Some? {
      var c :| Leads(s, c);
      assert Leads(s', c);
    }
    CallersStaySound(s, a);
    assert forall c :: Leads(s', c) ==> Leads(s, c) || c == a.c;
  }

  lemma CallersStaySound(s: State, a: Action)
    requires Inv(s)
    ensures forall c :: CallerSound(Step(s, a), c)
  {
    var s' := Step(s, a);
    assert CallerSound(s, a.c);
    forall c ensures CallerSound(s', c) {
      assert CallerSound(s, c);
      if c != a.c && Leads(s, c) {
        assert Leads(s', c) && !Leads(s, a.c);
      }
    }
  }

  lemma Reachable(acts: seq<Action>)
    ensures Inv(Runs.Exec(Step, FRESH, acts))
  {
    forall s, a | Inv(s) ensures Inv(Step(s, a)) {
      StepKeepsInv(s, a);
    }
    Runs.Invariant(Step, Inv, FRESH, acts);
  }

  /**
   In every interleaving at most one discovery runs at a time, and whoever came back
   from a flight, as its leader or as a waiter, has that flight's result.
   */
  lemma SingleFlight(acts: seq<Action>, c: nat, d: nat)
    ensures var s := Runs.Exec(Step, FRESH, acts);
            && (Leads(s, c) && Leads(s, d) ==> c == d)
            && (forall f, g :: 0 <= f < |s.flights| && 0 <= g < |s.flights| && s.flights[f].None? && s.flights[g].None? ==> f == g)
            && (c in s.callers && s.callers[c].Returned? && s.callers[c].from.Some? ==>
                  s.callers[c].from.value < |s.flights| && s.flights[s.callers[c].from.value] == Some(s.callers[c].r))
  {
    Reachable(acts);
    assert CallerSound(Runs.Exec(Step, FRESH, acts), c);
  }

  /**
   What the leader's discovery came back with is what the leader returns, and what
   everyone who waits for that flight returns when woken.
   */
  lemma EveryoneGetsTheDiscovery(acts: seq<Action>, c: nat, r: Result, w: nat)
    requires Leads(Runs.Exec(Step, FRESH, acts), c)
    ensures var s := Runs.Exec(Step, FRESH, acts);
            var t := Step(s, Discovered(c, r));
            && t.callers[c] == Returned(r, Some(s.callers[c].f))
            && (w in s.callers && s.callers[w] == Waiting(s.callers[c].f) ==>
                  Step(t, Wake(w)).callers[w] == Returned(r, Some(s.callers[c].f)))
            && (r.err.None? ==> t.path == r.path) && (r.err.Some? ==> t.path == s.path)
  {
    Reachable(acts);
    assert CallerSound(Runs.Exec(Step, FRESH, acts), c);
  }

  /**
   A new caller starts a discovery exactly when none is running and none so far
   found a non-empty path: failures, and successes with an empty path, are not cached.
   */
  lemma StartsAnewIff(acts: seq<Action>, c: nat)
    requires c !in Runs.Exec(Step, FRESH, acts).callers
    ensures var s := Runs.Exec(Step, FRESH, acts);
            Leads(Step(s, Find(c)), c) <==>
              forall f :: 0 <= f < |s.flights| ==> s.flights[f].Some? && !Keeps(s.flights[f].value)
  {
    Reachable(acts);
  }

  /** Every caller is served: from the cache once a discovery found a path, or by the flight that is running, or by its own. */
  lemma EveryCallerIsServed(acts: seq<Action>, c: nat, f: nat)
    requires var s := Runs.Exec(Step, FRESH, acts); c !in s.callers && f < |s.flights|
    ensures var s, t := Runs.Exec(Step, FRESH, acts), Runs.Exec(Step, FRESH, acts + [Find(c)]);
            && (s.flights[f].None? ==> c in t.callers && t.callers[c] == Waiting(f))
            && (s.flights[f].Some? && Keeps(s.flights[f].value) ==>
                  c in t.callers && t.callers[c] == Returned(s.flights[f].value, None))
  {
    Reachable(acts);
    Runs.Split(Step, FRESH, acts, [Find(c)]);
    Runs.Follow(Step, Runs.Exec(Step, FRESH, acts), [Find(c)]);
  }

  /** The cache holds `path` for good: no discovery runs, and caller c, if it came, got `path` from the cache. */
  ghost predicate Settled(s: State, flights: seq<Option<Result>>, path: string, c: nat) {
    && path != "" && s.path == path && s.flights == flights && s.inFlight.None?
    && (forall d :: !Leads(s, d))
    && (c in s.callers ==> s.callers[c] == Returned(Result(path, None), None))
  }

  lemma StepKeepsSettled(s: State, a: Action, flights: seq<Option<Result>>, path: string, c: nat)
    requires Settled(s, flights, path, c)
    ensures Settled(Step(s, a), flights, path, c)
  {
    assert !Leads(s, a.c);
    assert forall d :: Leads(Step(s, a), d) ==> Leads(s, d);
  }

  /** After a discovery found a non-empty path, no other ever starts and every later caller gets that path. */
  lemma CachedForGood(acts: seq<Action>, more: seq<Action>, f: nat, c: nat)
    requires var s := Runs.Exec(Step, FRESH, acts);
             && f < |s.flights| && s.flights[f].Some? && Keeps(s.flights[f].value)
             && c !in s.callers
    ensures var s := Runs.Exec(Step, FRESH, acts);
            var t := Runs.Exec(Step, FRESH, acts + more);
            && t.flights == s.flights && t.path == s.flights[f].value.path
            && (c in t.callers ==> t.callers[c] == Returned(s.flights[f].value, None))
  {
    var s := Runs.Exec(Step, FRESH, acts);
    Reachable(acts);
    NobodyLeads(s);
    var settled := (t: State) => Settled(t, s.flights, s.path, c);
    forall t, a | settled(t) ensures settled(Step(t, a)) {
      StepKeepsSettled(t, a, s.flights, s.path, c);
    }
    Runs.Invariant(Step, settled, s, more);
    Runs.Split(Step, FRESH, acts, more);
  }
}
