/**
 Who owns an adapter connection: a takeover that dialed it, the registry it was published in, or
 the evictor that removed it. The steps of all of them interleave in any order.
 */
module Connections {
  import opened Base

  type Conn = nat

  datatype Machine = Machine(
    dialed: set<Conn>,                  // opened by a takeover that has not published or closed it
    registry: map<string, Conn>,        // published, by session
    removed: set<Conn>,                 // taken out of the registry by an evictor that will close it
    closed: multiset<Conn>,
    known: set<Conn>)

  datatype ConnectionStep =
    | Dials(conn: Conn)
    | Abandons(conn: Conn)              // the takeover failed: it closes its connection
    | Publishes(session: string, conn: Conn)
    | Removes(session: string)
    | Closes(conn: Conn)                // the evictor closes what it removed

  const EMPTY: Machine := Machine({}, map[], {}, multiset{}, {})

  function Next(m: Machine, step: ConnectionStep): Machine {
    match step
    case Dials(c) => if c in m.known then m else m.(dialed := m.dialed + {c}, known := m.known + {c})
    case Abandons(c) => if c in m.dialed then m.(dialed := m.dialed - {c}, closed := m.closed + multiset{c}) else m
    case Publishes(s, c) => if c in m.dialed then m.(dialed := m.dialed - {c}, registry := m.registry[s := c]) else m
    case Removes(s) =>
      if s in m.registry then m.(registry := m.registry - {s}, removed := m.removed + {m.registry[s]}) else m
    case Closes(c) => if c in m.removed then m.(removed := m.removed - {c}, closed := m.closed + multiset{c}) else m
  }

  function Run(m: Machine, steps: seq<ConnectionStep>): Machine
    decreases |steps|
  {
    if steps == [] then m else Run(Next(m, steps[0]), steps[1..])
  }

  lemma {:induction false} RunAppend(m: Machine, a: seq<ConnectionStep>, b: seq<ConnectionStep>)
    ensures Run(m, a + b) == Run(Run(m, a), b)
    decreases |a|
  {
    if a == [] {
      assert a + b == b;
    } else {
      assert (a + b)[1..] == a[1..] + b;
      RunAppend(Next(m, a[0]), a[1..], b);
    }
  }

  /** A connection has one owner at a time, and is closed at most once. */
  ghost predicate Owned(m: Machine) {
    && (forall c <- m.dialed :: c in m.known && c !in m.removed && m.closed[c] == 0)
    && (forall s <- m.registry :: var c := m.registry[s];
          c in m.known && c !in m.dialed && c !in m.removed && m.closed[c] == 0)
    && (forall s, t :: s in m.registry && t in m.registry && m.registry[s] == m.registry[t] ==> s == t)
    && (forall c <- m.removed :: c in m.known && m.closed[c] == 0)
    && (forall c :: m.closed[c] <= 1 && (m.closed[c] == 1 ==> c in m.known))
  }

  lemma StepOwned(m: Machine, step: ConnectionStep)
    requires Owned(m)
    ensures Owned(Next(m, step))
  {
    match step
    case Dials(_) =>
    case Abandons(_) =>
    case Publishes(_, _) =>
    case Removes(_) =>
    case Closes(_) =>
  }

  /** On every run, whatever takeovers and evictors do to each other, no connection is closed twice or while published. */
  lemma {:induction false} ClosedAtMostOnce(m: Machine, steps: seq<ConnectionStep>)
    requires Owned(m)
    ensures Owned(Run(m, steps))
    ensures forall c :: Run(m, steps).closed[c] <= 1
    ensures forall s <- Run(m, steps).registry :: Run(m, steps).closed[Run(m, steps).registry[s]] == 0
    decreases |steps|
  {
    if steps != [] {
      StepOwned(m, steps[0]);
      ClosedAtMostOnce(Next(m, steps[0]), steps[1..]);
    }
  }

  /** A step another thread can take: one that leaves what this thread dialed or removed to this thread. */
  predicate Others(step: ConnectionStep, mine: set<Conn>) {
    !((step.Abandons? || step.Publishes? || step.Closes?) && step.conn in mine)
  }

  predicate AllOthers(steps: seq<ConnectionStep>, mine: set<Conn>) {
    forall i :: 0 <= i < |steps| ==> Others(steps[i], mine)
  }

  lemma {:induction false} OthersLeaveMine(m: Machine, steps: seq<ConnectionStep>, mine: set<Conn>)
    requires Owned(m) && AllOthers(steps, mine) && forall c <- mine :: c in m.dialed || c in m.removed
    ensures var after := Run(m, steps);
      && m.known <= after.known && (forall c <- mine :: c in m.dialed ==> c in after.dialed)
      && (forall c <- mine :: c in m.removed ==> c in after.removed)
      && (forall c :: m.closed[c] <= after.closed[c])
    decreases |steps|
  {
    if steps != [] {
      assert Others(steps[0], mine);
      StepOwned(m, steps[0]);
      OthersLeaveMine(Next(m, steps[0]), steps[1..], mine);
    }
  }

  lemma OneStep(m: Machine, step: ConnectionStep)
    ensures Run(m, [step]) == Next(m, step)
  {
    assert [step][1..] == [];
  }
}
