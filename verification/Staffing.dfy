/** The flood on thread pools that can run out of workers (dnet/router.c, dnet/client.c,
    netw/client.c).

    All links of a router share one loop.  Each runner waits in one coroutine at a time, for a
    request or for the answer to one it has sent, and that coroutine keeps a worker; the message
    handlers are coroutines of the same loop and wait for nothing.  So handlers run as long as
    the pool has more workers than the router has links (Starvation.SettlesIffFewWait), and once
    as many runners wait as there are workers none runs any more. */
module Staffing {
  import opened Codec
  import opened Topology
  import opened Flood
  import opened Rest

  /** `clients` are the sessions whose loop has more workers than coroutines that wait.
      `workers` is the size of the pool of each router. */
  datatype Staff = Staff(clients: set<Endpoint>, workers: nat -> nat)

  /** There is a worker for the handlers of e while the runners wait. */
  predicate Staffed(t: seq<Endpoint>, f: Staff, e: Endpoint) {
    if e.owner.Router? then |Links(t, e.owner.router)| < f.workers(e.owner.router) else e in f.clients
  }

  predicate Allowed(t: seq<Endpoint>, f: Staff, s: Net, step: Step) {
    Enabled(t, s, step) && (step.Receive? ==> Staffed(t, f, Last(s.live[step.k].path)))
  }

  ghost predicate StaffedRun(t: seq<Endpoint>, f: Staff, from: Net, steps: seq<Step>, to: Net)
    decreases |steps|
  {
    if steps == [] then from == to
    else Allowed(t, f, from, steps[0]) && StaffedRun(t, f, Next(t, from, steps[0]), steps[1..], to)
  }

  /** Nothing but a new broadcast can happen. */
  ghost predicate Stalled(t: seq<Endpoint>, f: Staff, s: Net) {
    forall step: Step | !step.Inject? :: !Allowed(t, f, s, step)
  }

  /** The copy has arrived where no worker is left for its handler. */
  predicate Unattended(t: seq<Endpoint>, f: Staff, tok: Token) {
    tok.stage == Down && tok.path != [] && !Staffed(t, f, Last(tok.path))
  }

  lemma {:induction false} StaffedIsRun(t: seq<Endpoint>, f: Staff, from: Net, steps: seq<Step>, to: Net)
    requires StaffedRun(t, f, from, steps, to)
    ensures Run(t, from, steps, to)
    decreases |steps|
  {
    if steps != [] {
      hide Next, Enabled;
      StaffedIsRun(t, f, Next(t, from, steps[0]), steps[1..], to);
    }
  }

  /** Nothing moves any more if and only if every copy under way waits unnoticed at a link or
      unattended at an endpoint. */
  lemma StalledShape(t: seq<Endpoint>, f: Staff, s: Net)
    requires Inv(t, s)
    ensures Stalled(t, f, s) <==>
      forall k | 0 <= k < |s.live| :: Unnoticed(s, s.live[k]) || Unattended(t, f, s.live[k])
  {
    if Stalled(t, f, s) {
      forall k | 0 <= k < |s.live|
        ensures Unnoticed(s, s.live[k]) || Unattended(t, f, s.live[k])
      {
        if !Unnoticed(s, s.live[k]) { var step := TokenMoves(t, s, k); }
      }
    }
  }

  // ---- Every arrival has been handled ----

  /** Every endpoint at which the trail arrived over a server is staffed. */
  ghost predicate Handled(t: seq<Endpoint>, f: Staff, path: seq<Endpoint>) {
    forall i | 0 <= i < |path| && i % 2 == 1 :: Staffed(t, f, path[i])
  }

  /** The part of its trail that a copy has behind it. */
  function Behind(tok: Token): seq<Endpoint> {
    if tok.stage == Down && tok.path != [] then tok.path[..|tok.path| - 1] else tok.path
  }

  ghost predicate Passed(t: seq<Endpoint>, f: Staff, s: Net) {
    && (forall tok | tok in s.live :: Handled(t, f, Behind(tok)))
    && (forall tok | tok in s.done :: tok.stage != Down && Handled(t, f, tok.path))
  }

  lemma {:induction false} ChildrenPassed(t: seq<Endpoint>, f: Staff, stage: Stage, parent: Token, outs: seq<(Endpoint, Packet)>)
    requires Handled(t, f, parent.path) && (stage == Down || |parent.path| % 2 == 0)
    ensures forall c | c in Children(stage, parent, outs) :: Handled(t, f, Behind(c))
  {
    if outs != [] {
      ChildrenPassed(t, f, stage, parent, outs[1..]);
    }
  }

  /** A copy that a server, a runner or a handler takes in has only staffed arrivals behind. */
  lemma TakenPassed(t: seq<Endpoint>, f: Staff, s: Net, step: Step)
    requires Inv(t, s) && Passed(t, f, s) && Allowed(t, f, s, step) && !step.Inject?
    ensures Handled(t, f, s.live[step.k].path)
    ensures step.Take? ==> |s.live[step.k].path| % 2 == 0
  {
    hide Balanced, PacketOK, Staffed;
    var tok := s.live[step.k];
    assert tok in s.live && TokenOK(t, s.origins, tok);
    assert Handled(t, f, Behind(tok));
    forall i | 0 <= i < |tok.path| && i % 2 == 1
      ensures Staffed(t, f, tok.path[i])
    {
      assert i < |Behind(tok)| ==> Behind(tok)[i] == tok.path[i];
    }
  }

  lemma PassedNext(t: seq<Endpoint>, f: Staff, s: Net, step: Step)
    requires Inv(t, s) && Passed(t, f, s) && Allowed(t, f, s, step)
    ensures Passed(t, f, Next(t, s, step))
  {
    if step.Inject? {
      hide Inv;
      assert Behind(Next(t, s, step).live[|s.live|]) == [step.client];
      assert Handled(t, f, [step.client]);
    } else {
      TakenPassed(t, f, s, step);
      var tok := s.live[step.k];
      if step.Serve? {
        ChildrenPassed(t, f, Down, tok, ServerCopies(t, Last(tok.path), tok.pkt));
      } else if step.Take? {
        ChildrenPassed(t, f, Outbox, tok, RouterCopies(t, Last(tok.path), tok.pkt));
      }
      TokensPassed(t, f, s, step);
    }
  }

  /** One token is replaced by its children, by itself further on, or by nothing. */
  lemma TokensPassed(t: seq<Endpoint>, f: Staff, s: Net, step: Step)
    requires Passed(t, f, s) && Enabled(t, s, step) && !step.Inject? && Handled(t, f, s.live[step.k].path)
    requires step.Serve? ==> forall c |
      c in Children(Down, s.live[step.k], ServerCopies(t, Last(s.live[step.k].path), s.live[step.k].pkt)) ::
      Handled(t, f, Behind(c))
    requires step.Take? ==> forall c |
      c in Children(Outbox, s.live[step.k], RouterCopies(t, Last(s.live[step.k].path), s.live[step.k].pkt)) ::
      Handled(t, f, Behind(c))
    ensures Passed(t, f, Next(t, s, step))
  {
    hide Handled, ServerCopies, RouterCopies, Children;
  }

  lemma {:induction false} PassedRun(t: seq<Endpoint>, f: Staff, from: Net, steps: seq<Step>, to: Net)
    requires Inv(t, from) && Passed(t, f, from) && StaffedRun(t, f, from, steps, to)
    ensures Inv(t, to) && Passed(t, f, to)
    decreases |steps|
  {
    if steps != [] {
      hide Inv, Passed, Next, Enabled;
      InvNext(t, from, steps[0]);
      PassedNext(t, f, from, steps[0]);
      PassedRun(t, f, Next(t, from, steps[0]), steps[1..], to);
    }
  }
}
