/** Switch routing: a validated tree of routes, tried in order, first match wins. */
module Routing {
  import opened Wrappers

  datatype ActionError = Cancelled | ClientGone | Failed(message: string)

  datatype Job = Job(data: string, cancelled: bool, clientPresent: bool)

  datatype CheckResult = Pass | Refused(reason: string, silent: bool)

  /** Transforms hand back the job they changed. */
  datatype TransformResult = Continue(job: Job) | Refused(reason: string, silent: bool)

  datatype TargetResult = Complete(reply: string) | Reject(reason: string, silent: bool)

  type Outcome = Result<TargetResult, ActionError>

  /** A dispatch that is over: a reply or an error. */
  type Final = Result<string, ActionError>

  /** An action may sit behind a dispatcher, which either runs the work or fails on its own. */
  type Gate = Option<Job -> Option<ActionError>>

  datatype Action =
    | Check(evaluate: Job -> Result<CheckResult, ActionError>, gate: Gate, silence: Option<bool>)
    | Transform(execute: Job -> Result<TransformResult, ActionError>, gate: Gate, silence: Option<bool>)
    | Target(dispatch: Job -> Outcome, gate: Gate, silence: Option<bool>)
    | Nested(switch: Switch)
  {
    predicate Terminal() { Target? || Nested? }
  }

  datatype Route = Route(name: string, actions: seq<Action>)

  datatype Switch = Switch(routes: seq<Route>)

  // -------------------------------------------------------------- validation

  datatype RoutingError =
    | EmptyRoute(route: string)
    | Unreachable(route: string, index: nat)
    | MissingTarget(route: string)

  /** What an error says of the route it names. */
  ghost predicate Faulty(r: Route, e: RoutingError) {
    && e.route == r.name
    && match e
       case EmptyRoute(_) => r.actions == []
       case Unreachable(_, index) =>
         && index + 1 < |r.actions| && r.actions[index].Terminal()
         && forall k | 0 <= k < index :: !r.actions[k].Terminal()
       case MissingTarget(_) => r.actions != [] && forall a | a in r.actions :: !a.Terminal()
  }

  /** A route ends in a target or a switch and has none before. */
  ghost predicate Sound(r: Route) {
    && r.actions != []
    && forall k | 0 <= k < |r.actions| :: r.actions[k].Terminal() <==> k == |r.actions| - 1
  }

  ghost function AllRoutes(sw: Switch): set<Route>
    decreases sw, 1
  {
    set i, r | 0 <= i < |sw.routes| && r in Family(sw.routes[i]) :: r
  }

  /** A route and every route nested in it. */
  ghost function Family(r: Route): set<Route>
    decreases r, 0
  {
    {r} + set k, x | 0 <= k < |r.actions| && r.actions[k].Nested? && x in AllRoutes(r.actions[k].switch) :: x
  }

  method ValidateRoute(route: Route) returns (error: Option<RoutingError>)
    ensures error.None? <==> forall r | r in Family(route) :: Sound(r)
    ensures error.Some? ==> exists r | r in Family(route) :: Faulty(r, error.value)
    decreases route, 0
  {
    if route.actions == [] {
      assert route in Family(route) && Faulty(route, EmptyRoute(route.name)) && !Sound(route);
      return Some(EmptyRoute(route.name));
    }
    for index := 0 to |route.actions|
      invariant forall k | 0 <= k < index :: !route.actions[k].Terminal()
    {
      var action := route.actions[index];
      if action.Nested? {
        var nested := Validate(action.switch);
        assert forall r | r in AllRoutes(action.switch) :: r in Family(route);
        if nested.Some? {
          return nested;
        }
      }
      if action.Terminal() && index + 1 != |route.actions| {
        assert route in Family(route) && Faulty(route, Unreachable(route.name, index)) && !Sound(route);
        return Some(Unreachable(route.name, index));
      }
      if action.Terminal() {
        assert Sound(route);
        return None;
      }
    }
    assert !route.actions[|route.actions| - 1].Terminal();
    assert route in Family(route) && Faulty(route, MissingTarget(route.name)) && !Sound(route);
    return Some(MissingTarget(route.name));
  }

  method Validate(sw: Switch) returns (error: Option<RoutingError>)
    ensures error.None? <==> forall r | r in AllRoutes(sw) :: Sound(r)
    ensures error.Some? ==> exists r | r in AllRoutes(sw) :: Faulty(r, error.value)
    decreases sw, 1
  {
    for i := 0 to |sw.routes|
      invariant forall j, r | 0 <= j < i && r in Family(sw.routes[j]) :: Sound(r)
    {
      error := ValidateRoute(sw.routes[i]);
      assert forall r | r in Family(sw.routes[i]) :: r in AllRoutes(sw);
      if error.Some? {
        return;
      }
    }
    error := None;
  }

  // ----------------------------------------------------------------- meaning

  /** What one action does with the job that reaches it. */
  datatype Reaction = Goes(job: Job) | Turns(reason: string, silent: bool) | Ends(final: Final) | Enters

  function Refusal(gate: Gate, job: Job): Option<ActionError> {
    if gate.Some? then gate.value(job) else None
  }

  function Quiet(silence: Option<bool>, silent: bool): bool {
    if silence.Some? then silence.value else silent
  }

  function React(a: Action, job: Job): Reaction {
    if job.cancelled then Ends(Err(Cancelled)) else
    match a
    case Check(evaluate, gate, silence) =>
      if Refusal(gate, job).Some? then Ends(Err(Refusal(gate, job).value)) else
      (match evaluate(job)
       case Err(e) => Ends(Err(e))
       case Ok(Pass) => Goes(job)
       case Ok(Refused(reason, silent)) => Turns(reason, Quiet(silence, silent)))
    case Transform(execute, gate, silence) =>
      if Refusal(gate, job).Some? then Ends(Err(Refusal(gate, job).value)) else
      (match execute(job)
       case Err(e) => Ends(Err(e))
       case Ok(Continue(changed)) => Goes(changed)
       case Ok(Refused(reason, silent)) => Turns(reason, Quiet(silence, silent)))
    case Target(dispatch, gate, silence) =>
      if gate.None? && !job.clientPresent then Ends(Err(ClientGone)) else
      if Refusal(gate, job).Some? then Ends(Err(Refusal(gate, job).value)) else
      (match dispatch(job)
       case Ok(Reject(reason, silent)) => Turns(reason, Quiet(silence, silent))
       case Ok(Complete(reply)) => Ends(Ok(reply))
       case Err(e) => Ends(Err(e)))
    case Nested(_) => Enters
  }

  /** An action of the tree and the actions that come before it on the way from the root. */
  datatype Node = Node(before: seq<Action>, action: Action)

  /** Every action of the tree, depth first. */
  function Nodes(before: seq<Action>, sw: Switch): seq<Node>
    decreases sw, |sw.routes| + 1
  {
    NodesFrom(before, sw, 0)
  }

  function NodesFrom(before: seq<Action>, sw: Switch, i: nat): seq<Node>
    requires i <= |sw.routes|
    decreases sw, |sw.routes| - i
  {
    if i == |sw.routes| then []
    else RouteNodes(before, sw.routes[i], 0) + NodesFrom(before, sw, i + 1)
  }

  function RouteNodes(before: seq<Action>, r: Route, k: nat): seq<Node>
    requires k <= |r.actions|
    decreases r, |r.actions| - k
  {
    if k == |r.actions| then [] else
      var a := r.actions[k];
      [Node(before, a)] + (if a.Nested? then Nodes(before, a.switch) else [])
      + RouteNodes(before + [a], r, k + 1)
  }

  /** The job as it comes out of a run of actions, if all of them let it through. */
  function Advance(before: seq<Action>, job: Job): Option<Job> {
    if before == [] then Some(job) else
      var so := Advance(before[..|before| - 1], job);
      if so.None? then None else
      match React(before[|before| - 1], so.value)
      case Goes(changed) => Some(changed)
      case _ => None
  }

  /** What a node does to a job that starts at the root; nothing if it is not reached. */
  function At(n: Node, job: Job): Option<Reaction> {
    var here := Advance(n.before, job);
    if here.None? then None else Some(React(n.action, here.value))
  }

  /** The first node in depth-first order that ends the dispatch. */
  function Decisive(nodes: seq<Node>, job: Job): Option<Final> {
    if nodes == [] then None else
      match At(nodes[0], job)
      case Some(Ends(final)) => Some(final)
      case _ => Decisive(nodes[1..], job)
  }

  /** The reasons of all nodes that are reached and turn the job away aloud, depth first. */
  function Reasons(nodes: seq<Node>, job: Job): seq<string> {
    if nodes == [] then [] else
      match At(nodes[0], job)
      case Some(Turns(reason, false)) => [reason] + Reasons(nodes[1..], job)
      case _ => Reasons(nodes[1..], job)
  }

  function Join(reasons: seq<string>): string {
    if reasons == [] then "" else if |reasons| == 1 then reasons[0]
    else reasons[0] + "; " + Join(reasons[1..])
  }

  function Verdict(reasons: seq<string>): TargetResult {
    if reasons == [] then Reject("no route matched the request", true) else Reject(Join(reasons), false)
  }

  function Finished(final: Final): Outcome {
    if final.Ok? then Ok(Complete(final.value)) else Err(final.error)
  }

  function Meaning(sw: Switch, job: Job): Outcome {
    var nodes := Nodes([], sw);
    if Decisive(nodes, job).Some? then Finished(Decisive(nodes, job).value)
    else Ok(Verdict(Reasons(nodes, job)))
  }

  /** The decisive node is reached from the original job, ends it, and none before it does. */
  lemma {:induction false} DecisiveIsFirst(nodes: seq<Node>, job: Job, final: Final)
    ensures Decisive(nodes, job) == Some(final) <==>
            exists i | 0 <= i < |nodes| ::
              && At(nodes[i], job) == Some(Ends(final))
              && forall j | 0 <= j < i :: !Stops(nodes[j], job)
  {
    if nodes != [] {
      DecisiveIsFirst(nodes[1..], job, final);
      if i :| 0 <= i < |nodes| && At(nodes[i], job) == Some(Ends(final)) && forall j | 0 <= j < i :: !Stops(nodes[j], job) {
        if i > 0 {
          assert !Stops(nodes[0], job) && nodes[1..][i - 1] == nodes[i];
          assert forall j | 0 <= j < i - 1 :: nodes[1..][j] == nodes[j + 1];
        } else {
          assert Decisive(nodes, job) == Some(final);
        }
      }
      if Decisive(nodes, job) == Some(final) && !Stops(nodes[0], job) {
        var i :| 0 <= i < |nodes[1..]| && At(nodes[1..][i], job) == Some(Ends(final))
          && forall j | 0 <= j < i :: !Stops(nodes[1..][j], job);
        forall j | 0 <= j < i + 1 ensures !Stops(nodes[j], job) {
          assert j > 0 ==> nodes[j] == nodes[1..][j - 1];
        }
        assert nodes[i + 1] == nodes[1..][i];
      }
    }
  }

  predicate Stops(n: Node, job: Job) {
    At(n, job).Some? && At(n, job).value.Ends?
  }

  /** A cancelled job is never looked at by any action: if the tree has one, the answer is Cancelled. */
  lemma CancelledJob(sw: Switch, job: Job)
    requires job.cancelled && exists i | 0 <= i < |sw.routes| :: sw.routes[i].actions != []
    ensures Meaning(sw, job) == Err(Cancelled)
  {
    var i :| 0 <= i < |sw.routes| && sw.routes[i].actions != [];
    CancelledFrom(sw, 0, i, job);
  }

  lemma {:induction false} CancelledFrom(sw: Switch, at: nat, i: nat, job: Job)
    requires job.cancelled && at <= i < |sw.routes| && sw.routes[i].actions != []
    ensures Decisive(NodesFrom([], sw, at), job) == Some(Err(Cancelled))
    decreases i - at
  {
    var r := sw.routes[at];
    if r.actions == [] {
      assert NodesFrom([], sw, at) == NodesFrom([], sw, at + 1);
      CancelledFrom(sw, at + 1, i, job);
    } else {
      assert NodesFrom([], sw, at)[0] == Node([], r.actions[0]);
    }
  }

  // ------------------------------------------------------------------ lemmas

  lemma {:induction false} Concat(a: seq<Node>, b: seq<Node>, job: Job)
    ensures Decisive(a + b, job) == if Decisive(a, job).Some? then Decisive(a, job) else Decisive(b, job)
    ensures Reasons(a + b, job) == Reasons(a, job) + Reasons(b, job)
  {
    if a == [] {
      assert a + b == b;
    } else {
      assert (a + b)[1..] == a[1..] + b;
      Concat(a[1..], b, job);
    }
  }

  /** Joining a joined group is joining flat. */
  lemma {:induction false} JoinFlat(a: seq<string>, b: seq<string>)
    requires b != []
    ensures Join(a + [Join(b)]) == Join(a + b)
  {
    if a == [] {
      assert a + [Join(b)] == [Join(b)] && a + b == b;
    } else {
      JoinFlat(a[1..], b);
      assert (a + b)[1..] == a[1..] + b && (a + [Join(b)])[1..] == a[1..] + [Join(b)];
    }
  }

  /** The same nodes further down: each prefix is longer by what came before. */
  ghost predicate Shifted(deep: seq<Node>, nodes: seq<Node>, before: seq<Action>) {
    && |deep| == |nodes|
    && forall i | 0 <= i < |nodes| ::
         deep[i].action == nodes[i].action && deep[i].before == before + nodes[i].before
  }

  lemma {:induction false} NodesShift(more: seq<Action>, before: seq<Action>, sw: Switch, i: nat)
    requires i <= |sw.routes|
    ensures Shifted(NodesFrom(more + before, sw, i), NodesFrom(before, sw, i), more)
    decreases sw, |sw.routes| - i
  {
    if i < |sw.routes| {
      RouteShift(more, before, sw.routes[i], 0);
      NodesShift(more, before, sw, i + 1);
    }
  }

  lemma {:induction false} RouteShift(more: seq<Action>, before: seq<Action>, r: Route, k: nat)
    requires k <= |r.actions|
    ensures Shifted(RouteNodes(more + before, r, k), RouteNodes(before, r, k), more)
    decreases r, |r.actions| - k
  {
    if k < |r.actions| {
      var a := r.actions[k];
      if a.Nested? {
        NodesShift(more, before, a.switch, 0);
      }
      assert more + before + [a] == more + (before + [a]);
      RouteShift(more, before + [a], r, k + 1);
    }
  }

  lemma {:induction false} AdvanceAfter(more: seq<Action>, before: seq<Action>, job: Job)
    ensures Advance(more + before, job)
         == if Advance(more, job).None? then None else Advance(before, Advance(more, job).value)
  {
    if before == [] {
      assert more + before == more;
    } else {
      assert (more + before)[..|more + before| - 1] == more + before[..|before| - 1];
      AdvanceAfter(more, before[..|before| - 1], job);
    }
  }

  /** Nodes below a prefix act on the job that comes out of it; if none does, they do nothing. */
  lemma {:induction false} Below(deep: seq<Node>, nodes: seq<Node>, before: seq<Action>, job: Job)
    requires Shifted(deep, nodes, before)
    ensures Advance(before, job).None? ==> Decisive(deep, job) == None && Reasons(deep, job) == []
    ensures Advance(before, job).Some? ==>
              && Decisive(deep, job) == Decisive(nodes, Advance(before, job).value)
              && Reasons(deep, job) == Reasons(nodes, Advance(before, job).value)
  {
    if nodes != [] {
      AdvanceAfter(before, nodes[0].before, job);
      Below(deep[1..], nodes[1..], before, job);
    }
  }

  /** The nodes of a route from its k-th action on: that action, what is nested in it, and the rest. */
  lemma RouteSplit(r: Route, k: nat, job: Job)
    requires k < |r.actions|
    ensures var before, a := r.actions[..k], r.actions[k];
      var here, inner := At(Node(before, a), job), if a.Nested? then Nodes(before, a.switch) else [];
      var all, rest := RouteNodes(before, r, k), RouteNodes(r.actions[..k + 1], r, k + 1);
      && Decisive(all, job) == (if here.Some? && here.value.Ends? then Some(here.value.final)
                                else if Decisive(inner, job).Some? then Decisive(inner, job) else Decisive(rest, job))
      && Reasons(all, job) == (if here.Some? && here.value.Turns? && !here.value.silent then [here.value.reason] else [])
                              + Reasons(inner, job) + Reasons(rest, job)
  {
    var before, a := r.actions[..k], r.actions[k];
    assert r.actions[..k + 1] == before + [a];
    var inner := if a.Nested? then Nodes(before, a.switch) else [];
    var rest := RouteNodes(before + [a], r, k + 1);
    Concat([Node(before, a)] + inner, rest, job);
    Concat([Node(before, a)], inner, job);
    assert [Node(before, a)][1..] == [];
  }

  lemma AdvanceStep(r: Route, k: nat, job: Job)
    requires k < |r.actions|
    ensures Advance(r.actions[..k + 1], job) ==
      var so := Advance(r.actions[..k], job);
      if so.None? then None
      else var here := React(r.actions[k], so.value);
        if here.Goes? then Some(here.job) else None
  {
    assert r.actions[..k + 1][..k] == r.actions[..k];
  }

  lemma Unreached(r: Route, k: nat, job: Job)
    requires k <= |r.actions| && Advance(r.actions[..k], job).None?
    ensures Decisive(RouteNodes(r.actions[..k], r, k), job) == None && Reasons(RouteNodes(r.actions[..k], r, k), job) == []
  {
    var before := r.actions[..k];
    RouteShift(before, [], r, k);
    assert before + [] == before;
    Below(RouteNodes(before, r, k), RouteNodes([], r, k), before, job);
  }

  lemma NestedBelow(before: seq<Action>, sw: Switch, job: Job, current: Job)
    requires Advance(before, job) == Some(current)
    ensures Decisive(Nodes(before, sw), job) == Decisive(Nodes([], sw), current)
    ensures Reasons(Nodes(before, sw), job) == Reasons(Nodes([], sw), current)
  {
    NodesShift(before, [], sw, 0);
    assert before + [] == before;
    Below(Nodes(before, sw), Nodes([], sw), before, job);
  }

  /** The action at hand turns the job away or ends the dispatch: nothing after it is reached. */
  lemma RouteStops(r: Route, k: nat, job: Job, current: Job)
    requires k < |r.actions| && Advance(r.actions[..k], job) == Some(current)
    requires var here := React(r.actions[k], current); here.Turns? || here.Ends?
    ensures var here, rest := React(r.actions[k], current), RouteNodes(r.actions[..k], r, k);
      && (here.Turns? ==>
            Decisive(rest, job) == None && Reasons(rest, job) == if here.silent then [] else [here.reason])
      && (here.Ends? ==> Decisive(rest, job) == Some(here.final))
  {
    RouteSplit(r, k, job);
    AdvanceStep(r, k, job);
    Unreached(r, k + 1, job);
    assert React(r.actions[k], current).Turns? ==> !r.actions[k].Nested?;
  }

  /** The action at hand lets the job through. */
  lemma RouteGoes(r: Route, k: nat, job: Job, current: Job)
    requires k < |r.actions| && Advance(r.actions[..k], job) == Some(current)
    requires React(r.actions[k], current).Goes?
    ensures var rest, after := RouteNodes(r.actions[..k], r, k), RouteNodes(r.actions[..k + 1], r, k + 1);
      && Advance(r.actions[..k + 1], job) == Some(React(r.actions[k], current).job)
      && Decisive(rest, job) == Decisive(after, job) && Reasons(rest, job) == Reasons(after, job)
  {
    RouteSplit(r, k, job);
    AdvanceStep(r, k, job);
    assert !r.actions[k].Nested?;
  }

  /** The action at hand is a nested switch: it decides for the rest of the route. */
  lemma RouteEnters(r: Route, k: nat, job: Job, current: Job)
    requires k < |r.actions| && Advance(r.actions[..k], job) == Some(current)
    requires React(r.actions[k], current).Enters?
    ensures var a, rest := r.actions[k], RouteNodes(r.actions[..k], r, k);
      && a.Nested?
      && Decisive(rest, job) == Decisive(Nodes([], a.switch), current)
      && Reasons(rest, job) == Reasons(Nodes([], a.switch), current)
  {
    assert r.actions[k].Nested?;
    RouteSplit(r, k, job);
    AdvanceStep(r, k, job);
    Unreached(r, k + 1, job);
    NestedBelow(r.actions[..k], r.actions[k].switch, job, current);
  }

  /** No job gets past the end of a sound route. */
  lemma SoundStops(r: Route, job: Job)
    requires Sound(r)
    ensures Advance(r.actions, job).None?
  {
    var last := r.actions[|r.actions| - 1];
    assert last.Terminal();
  }

  // ------------------------------------- what a dispatch means, action by action

  ghost predicate Opens(gate: Gate, job: Job) {
    gate.None? || gate.value(job).None?
  }

  ghost predicate Shuts(gate: Gate, job: Job, e: ActionError) {
    gate.Some? && gate.value(job) == Some(e)
  }

  /** A check lets a job through as it is, a transform as the job it hands back; nothing else lets one through. */
  ghost predicate LetsThrough(a: Action, job: Job, onward: Job) {
    && !job.cancelled
    && match a
       case Check(evaluate, gate, _) => Opens(gate, job) && evaluate(job) == Ok(Pass) && onward == job
       case Transform(execute, gate, _) => Opens(gate, job) && execute(job) == Ok(Continue(onward))
       case Target(_, _, _) => false
       case Nested(_) => false
  }

  /**
   * An action settles the dispatch: with the gate's error, with its own error, with a target's
   * reply; with Cancelled for a cancelled job, and with ClientGone at a target without a gate.
   */
  ghost predicate Settles(a: Action, job: Job, final: Final) {
    if job.cancelled then final == Err(Cancelled) else
    match a
    case Check(evaluate, gate, _) =>
      final.Err? && (Shuts(gate, job, final.error) || (Opens(gate, job) && evaluate(job) == Err(final.error)))
    case Transform(execute, gate, _) =>
      final.Err? && (Shuts(gate, job, final.error) || (Opens(gate, job) && execute(job) == Err(final.error)))
    case Target(dispatch, gate, _) =>
      if gate.None? && !job.clientPresent then final == Err(ClientGone)
      else if final.Ok? then Opens(gate, job) && dispatch(job) == Ok(Complete(final.value))
      else Shuts(gate, job, final.error) || (Opens(gate, job) && dispatch(job) == Err(final.error))
    case Nested(_) => false
  }

  /** The configured silence decides, and without one the rejection's own flag. */
  ghost predicate Heard(silence: Option<bool>, flag: bool) {
    silence == Some(false) || (silence == None && !flag)
  }

  /** An action turns the job away for this reason, aloud or not. */
  ghost predicate TurnsAway(a: Action, job: Job, reason: string, aloud: bool) {
    && !job.cancelled
    && match a
       case Check(evaluate, gate, silence) =>
         Opens(gate, job) && evaluate(job).Ok? && evaluate(job).value.Refused?
         && evaluate(job).value.reason == reason && (aloud <==> Heard(silence, evaluate(job).value.silent))
       case Transform(execute, gate, silence) =>
         Opens(gate, job) && execute(job).Ok? && execute(job).value.Refused?
         && execute(job).value.reason == reason && (aloud <==> Heard(silence, execute(job).value.silent))
       case Target(dispatch, gate, silence) =>
         (gate.Some? || job.clientPresent) && Opens(gate, job) && dispatch(job).Ok? && dispatch(job).value.Reject?
         && dispatch(job).value.reason == reason && (aloud <==> Heard(silence, dispatch(job).value.silent))
       case Nested(_) => false
  }

  /** The job that comes out of a run of actions, one after the other. */
  ghost predicate Arrives(before: seq<Action>, job: Job, here: Job) {
    if before == [] then here == job
    else
      var front, last := before[..|before| - 1], before[|before| - 1];
      exists mid :: Arrives(front, job, mid) && LetsThrough(last, mid, here)
  }

  ghost predicate SettlesAt(n: Node, job: Job, final: Final) {
    exists here :: Arrives(n.before, job, here) && Settles(n.action, here, final)
  }

  ghost predicate TurnsAt(n: Node, job: Job, reason: string) {
    exists here :: Arrives(n.before, job, here) && TurnsAway(n.action, here, reason, true)
  }

  /** The first action in depth-first order that is reached and settles the dispatch. */
  ghost predicate FirstSettles(nodes: seq<Node>, job: Job, i: nat, final: Final) {
    i < |nodes| && SettlesAt(nodes[i], job, final) && forall j, f | 0 <= j < i :: !SettlesAt(nodes[j], job, f)
  }

  /** The reasons of the actions that are reached and turn the job away aloud, in depth-first order. */
  ghost predicate Tells(nodes: seq<Node>, job: Job, told: seq<string>) {
    if nodes == [] then told == []
    else if exists reason :: TurnsAt(nodes[0], job, reason) then
      told != [] && TurnsAt(nodes[0], job, told[0]) && Tells(nodes[1..], job, told[1..])
    else Tells(nodes[1..], job, told)
  }

  /** What a dispatch of this job over this tree must answer. */
  ghost predicate Answers(sw: Switch, job: Job, r: Outcome) {
    var nodes := Nodes([], sw);
    match r
    case Ok(Complete(reply)) => exists i: nat :: FirstSettles(nodes, job, i, Ok(reply))
    case Err(e) => exists i: nat :: FirstSettles(nodes, job, i, Err(e))
    case Ok(Reject(reason, silent)) =>
      && (forall i, f | 0 <= i < |nodes| :: !SettlesAt(nodes[i], job, f))
      && exists told :: Tells(nodes, job, told)
           && if told == [] then silent && reason == "no route matched the request" else !silent && reason == Join(told)
  }

  lemma ReactIs(a: Action, job: Job)
    ensures forall onward :: LetsThrough(a, job, onward) <==> React(a, job) == Goes(onward)
    ensures forall final :: Settles(a, job, final) <==> React(a, job) == Ends(final)
    ensures forall reason, aloud :: TurnsAway(a, job, reason, aloud) <==> React(a, job) == Turns(reason, !aloud)
  {
  }

  lemma {:induction false} AdvanceIs(before: seq<Action>, job: Job)
    ensures forall here :: Arrives(before, job, here) <==> Advance(before, job) == Some(here)
  {
    if before != [] {
      var n := |before| - 1;
      AdvanceIs(before[..n], job);
      forall here ensures Arrives(before, job, here) <==> Advance(before, job) == Some(here) {
        var so := Advance(before[..n], job);
        if so.Some? {
          ReactIs(before[n], so.value);
          assert Arrives(before[..n], job, so.value);
        }
      }
    }
  }

  lemma AtIs(n: Node, job: Job)
    ensures forall final :: SettlesAt(n, job, final) <==> At(n, job) == Some(Ends(final))
    ensures forall reason :: TurnsAt(n, job, reason) <==> At(n, job) == Some(Turns(reason, false))
  {
    AdvanceIs(n.before, job);
    var here := Advance(n.before, job);
    if here.Some? {
      ReactIs(n.action, here.value);
      assert Arrives(n.before, job, here.value);
    }
  }

  lemma {:induction false} ReasonsAreTold(nodes: seq<Node>, job: Job)
    ensures Tells(nodes, job, Reasons(nodes, job))
  {
    if nodes != [] {
      AtIs(nodes[0], job);
      ReasonsAreTold(nodes[1..], job);
      if At(nodes[0], job).Some? && At(nodes[0], job).value.Turns? && !At(nodes[0], job).value.silent {
        assert TurnsAt(nodes[0], job, At(nodes[0], job).value.reason);
        assert Reasons(nodes, job)[1..] == Reasons(nodes[1..], job);
      }
    }
  }

  lemma DecisiveSettles(nodes: seq<Node>, job: Job, final: Final)
    requires Decisive(nodes, job) == Some(final)
    ensures exists i: nat :: FirstSettles(nodes, job, i, final)
  {
    DecisiveIsFirst(nodes, job, final);
    var i :| 0 <= i < |nodes| && At(nodes[i], job) == Some(Ends(final)) && forall j | 0 <= j < i :: !Stops(nodes[j], job);
    AtIs(nodes[i], job);
    forall j, f | 0 <= j < i ensures !SettlesAt(nodes[j], job, f) {
      AtIs(nodes[j], job);
      assert !Stops(nodes[j], job);
    }
    assert FirstSettles(nodes, job, i, final);
  }

  lemma {:induction false} NothingSettles(nodes: seq<Node>, job: Job)
    requires Decisive(nodes, job) == None
    ensures forall i, f | 0 <= i < |nodes| :: !SettlesAt(nodes[i], job, f)
  {
    if nodes != [] {
      AtIs(nodes[0], job);
      NothingSettles(nodes[1..], job);
      forall i, f | 0 <= i < |nodes| ensures !SettlesAt(nodes[i], job, f) {
        assert i > 0 ==> nodes[i] == nodes[1..][i - 1];
      }
    }
  }

  lemma MeaningAnswers(sw: Switch, job: Job)
    ensures Answers(sw, job, Meaning(sw, job))
  {
    var nodes := Nodes([], sw);
    if Decisive(nodes, job).Some? {
      DecisiveSettles(nodes, job, Decisive(nodes, job).value);
    } else {
      NothingSettles(nodes, job);
      ReasonsAreTold(nodes, job);
    }
  }

  // ---------------------------------------------------------------- dispatch

  /** How one route ended: the whole dispatch is decided, or the next route is tried. */
  datatype RouteEnd = Decided(final: Final) | Rejected(reason: string) | Silenced | FellOff

  function Told(end: RouteEnd): seq<string> {
    if end.Rejected? then [end.reason] else []
  }

  /** How a nested switch ends the route it closes. */
  function AfterNested(outcome: Outcome): RouteEnd {
    match outcome
    case Err(e) => Decided(Err(e))
    case Ok(Complete(reply)) => Decided(Ok(reply))
    case Ok(Reject(reason, silent)) => if silent then Silenced else Rejected(reason)
  }

  lemma NestedMeans(sw: Switch, job: Job)
    ensures var end := AfterNested(Meaning(sw, job));
      && Decisive(Nodes([], sw), job) == (if end.Decided? then Some(end.final) else None)
      && (!end.Decided? ==> Alike(Told(end), Reasons(Nodes([], sw), job)))
      && !end.FellOff?
  {
  }

  /** Two lists that read the same once joined. */
  ghost predicate Alike(a: seq<string>, b: seq<string>) {
    Join(a) == Join(b) && (a == [] <==> b == [])
  }

  /** One route over the original job; transforms change a copy that later routes never see. */
  method DispatchRoute(r: Route, job: Job) returns (end: RouteEnd)
    ensures Decisive(RouteNodes([], r, 0), job) == if end.Decided? then Some(end.final) else None
    ensures !end.Decided? ==> Alike(Told(end), Reasons(RouteNodes([], r, 0), job))
    ensures Sound(r) ==> !end.FellOff?
    decreases r, 0
  {
    var current := job;
    ghost var all := RouteNodes([], r, 0);
    for k := 0 to |r.actions|
      invariant Advance(r.actions[..k], job) == Some(current)
      invariant Decisive(all, job) == Decisive(RouteNodes(r.actions[..k], r, k), job)
      invariant Reasons(all, job) == Reasons(RouteNodes(r.actions[..k], r, k), job)
    {
      match React(r.actions[k], current) {
        case Goes(changed) =>
          RouteGoes(r, k, job, current);
          current := changed;
        case Turns(reason, silent) =>
          RouteStops(r, k, job, current);
          return if silent then Silenced else Rejected(reason);
        case Ends(final) =>
          RouteStops(r, k, job, current);
          return Decided(final);
        case Enters =>
          RouteEnters(r, k, job, current);
          var outcome := Dispatch(r.actions[k].switch, current);
          NestedMeans(r.actions[k].switch, current);
          return AfterNested(outcome);
      }
    }
    assert r.actions[..|r.actions|] == r.actions;
    if Sound(r) {
      SoundStops(r, job);
    }
    return FellOff;
  }

  /** The interpreter computes the depth-first meaning, on every tree and job. */
  method Dispatch(sw: Switch, job: Job) returns (r: Outcome)
    ensures r == Meaning(sw, job) && Answers(sw, job, r)
    decreases sw, 1
  {
    MeaningAnswers(sw, job);
    var rejections: seq<string> := [];
    ghost var reasons: seq<string> := [];
    assert reasons + Reasons(Nodes([], sw), job) == Reasons(Nodes([], sw), job);
    for i := 0 to |sw.routes|
      invariant Remaining(sw, i, reasons, job) == Meaning(sw, job)
      invariant Alike(rejections, reasons)
    {
      ghost var more := Reasons(RouteNodes([], sw.routes[i], 0), job);
      RemainingStep(sw, i, reasons, job);
      var end := DispatchRoute(sw.routes[i], job);
      if end.Decided? {
        return Finished(end.final);
      }
      AlikeMore(rejections, reasons, Told(end), more);
      rejections, reasons := rejections + Told(end), reasons + more;
    }
    assert Reasons(NodesFrom([], sw, |sw.routes|), job) == [] && reasons + [] == reasons;
    return Ok(Verdict(rejections));
  }

  /** What is left to decide from the i-th route on, with the reasons gathered so far. */
  ghost function Remaining(sw: Switch, i: nat, reasons: seq<string>, job: Job): Outcome
    requires i <= |sw.routes|
  {
    var rest := NodesFrom([], sw, i);
    if Decisive(rest, job).Some? then Finished(Decisive(rest, job).value)
    else Ok(Verdict(reasons + Reasons(rest, job)))
  }

  lemma RemainingStep(sw: Switch, i: nat, reasons: seq<string>, job: Job)
    requires i < |sw.routes|
    ensures var nodes := RouteNodes([], sw.routes[i], 0);
      Remaining(sw, i, reasons, job) ==
        if Decisive(nodes, job).Some? then Finished(Decisive(nodes, job).value)
        else Remaining(sw, i + 1, reasons + Reasons(nodes, job), job)
  {
    var nodes, rest := RouteNodes([], sw.routes[i], 0), NodesFrom([], sw, i + 1);
    Concat(nodes, rest, job);
    assert reasons + (Reasons(nodes, job) + Reasons(rest, job)) == reasons + Reasons(nodes, job) + Reasons(rest, job);
  }

  lemma AlikeMore(a: seq<string>, b: seq<string>, told: seq<string>, reasons: seq<string>)
    requires Alike(a, b) && Alike(told, reasons) && |told| <= 1
    ensures Alike(a + told, b + reasons)
  {
    if told == [] {
      assert a + told == a && b + reasons == b;
    } else {
      assert told == [Join(reasons)];
      JoinFlat(b, reasons);
      JoinLast(a, told[0]);
      JoinLast(b, told[0]);
    }
  }

  lemma {:induction false} JoinLast(a: seq<string>, last: string)
    ensures Join(a + [last]) == if a == [] then last else Join(a) + "; " + last
  {
    if a == [] {
      assert a + [last] == [last];
    } else {
      assert (a + [last])[1..] == a[1..] + [last];
      JoinLast(a[1..], last);
      if |a| > 1 {
        assert a[0] + "; " + (Join(a[1..]) + "; " + last) == (a[0] + "; " + Join(a[1..])) + "; " + last;
      }
    }
  }
}
