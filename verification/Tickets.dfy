/** Support tickets and the least-loaded assignment of new ones to the staff. */
module Tickets {
  import opened Prelude

  type Agent = string

  datatype TicketStatus = OPEN | IN_PROGRESS | RESOLVED | CLOSED

  datatype Ticket = Ticket(subject: string, raisedBy: string, assignedTo: Option<Agent>, status: TicketStatus)

  /** Open work of an agent, as the aggregation over tickets counts it. */
  function OpenCount(tickets: seq<Ticket>, agent: Agent): nat {
    if tickets == [] then 0
    else OpenCount(tickets[..|tickets| - 1], agent) + (if IsOpenFor(tickets[|tickets| - 1], agent) then 1 else 0)
  }

  predicate IsOpenFor(ticket: Ticket, agent: Agent) {
    (ticket.status == OPEN || ticket.status == IN_PROGRESS) && ticket.assignedTo == Some(agent)
  }

  /** A new ticket adds to its own agent's work while it is open or in progress, and to nobody else's. */
  lemma {:induction false} OneMoreTicket(tickets: seq<Ticket>, ticket: Ticket, agent: Agent)
    ensures OpenCount(tickets + [ticket], agent)
         == OpenCount(tickets, agent) + (if ticket.assignedTo == Some(agent) && ticket.status != RESOLVED && ticket.status != CLOSED then 1 else 0)
  {
    assert (tickets + [ticket])[..|tickets|] == tickets;
  }

  /** The first agent in the list that nobody in the list undercuts. */
  ghost predicate IsLeastLoaded(best: Agent, tickets: seq<Ticket>, staff: seq<Agent>) {
    exists i :: 0 <= i < |staff| && staff[i] == best
      && (forall j | 0 <= j < i :: OpenCount(tickets, staff[j]) > OpenCount(tickets, best))
      && (forall j | i <= j < |staff| :: OpenCount(tickets, staff[j]) >= OpenCount(tickets, best))
  }

  method PickAgent(tickets: seq<Ticket>, staff: seq<Agent>) returns (bestStaff: Agent)
    requires staff != []
    ensures IsLeastLoaded(bestStaff, tickets, staff)
  {
    bestStaff := staff[0];
    var minCount := OpenCount(tickets, bestStaff);
    ghost var at := 0;
    for n := 0 to |staff|
      invariant 0 <= at < |staff| && (at < n || at == n == 0) && staff[at] == bestStaff
      invariant minCount == OpenCount(tickets, bestStaff)
      invariant forall j | 0 <= j < at :: OpenCount(tickets, staff[j]) > minCount
      invariant forall j | at <= j < n :: OpenCount(tickets, staff[j]) >= minCount
    {
      var c := OpenCount(tickets, staff[n]);
      if c < minCount {
        bestStaff := staff[n];
        minCount := c;
        at := n;
      }
    }
  }

  class SupportDesk {
    var tickets: seq<Ticket>

    constructor ()
      ensures tickets == []
    {
      tickets := [];
    }

    method CreateTicket(subject: string, raisedBy: string, staff: seq<Agent>) returns (ticket: Ticket)
      modifies this`tickets
      ensures tickets == old(tickets) + [ticket]
      ensures ticket == Ticket(subject, raisedBy, ticket.assignedTo, OPEN)
      ensures staff == [] ==> ticket.assignedTo == None
      ensures staff != [] ==> ticket.assignedTo.Some? && IsLeastLoaded(ticket.assignedTo.value, old(tickets), staff)
    {
      var assignedTo: Option<Agent> := None;
      if |staff| > 0 {
        var best := PickAgent(tickets, staff);
        assignedTo := Some(best);
      }
      ticket := Ticket(subject, raisedBy, assignedTo, OPEN);
      tickets := tickets + [ticket];
    }
  }

  // ----- runs of creations with a fixed staff list -----

  /** Ticket n is open and went to the agent who was least loaded when it came in. */
  ghost predicate WentToLeastLoaded(tickets: seq<Ticket>, n: nat, staff: seq<Agent>)
    requires n < |tickets|
  {
    && tickets[n].status == OPEN && tickets[n].assignedTo.Some?
    && IsLeastLoaded(tickets[n].assignedTo.value, tickets[..n], staff)
  }

  /** `after` is `before` and new tickets, each assigned so. */
  ghost predicate IsRun(before: seq<Ticket>, after: seq<Ticket>, staff: seq<Agent>) {
    before <= after && forall n: nat | |before| <= n < |after| :: WentToLeastLoaded(after, n, staff)
  }

  ghost predicate SpreadAtMost(tickets: seq<Ticket>, staff: seq<Agent>, d: int) {
    forall a, b | a in staff && b in staff :: OpenCount(tickets, a) - OpenCount(tickets, b) <= d
  }

  /** A new ticket goes to an agent at the minimum, so it cannot widen a spread beyond one. */
  lemma {:induction false} OneTicketSpread(tickets: seq<Ticket>, ticket: Ticket, staff: seq<Agent>, d: int)
    requires ticket.status == OPEN && ticket.assignedTo.Some? && IsLeastLoaded(ticket.assignedTo.value, tickets, staff)
    requires SpreadAtMost(tickets, staff, d) && d >= 1
    ensures SpreadAtMost(tickets + [ticket], staff, d)
  {
    var best := ticket.assignedTo.value;
    forall a, b | a in staff && b in staff ensures OpenCount(tickets + [ticket], a) - OpenCount(tickets + [ticket], b) <= d {
      assert (tickets + [ticket])[..|tickets|] == tickets;
      assert OpenCount(tickets, b) >= OpenCount(tickets, best);
    }
  }

  /** The spread never exceeds the larger of its starting value and one. */
  lemma {:induction false} SpreadStaysBounded(before: seq<Ticket>, after: seq<Ticket>, staff: seq<Agent>, d: int)
    requires IsRun(before, after, staff) && SpreadAtMost(before, staff, d)
    ensures SpreadAtMost(after, staff, MaxInt(d, 1))
    decreases |after|
  {
    if |after| == |before| {
      assert after == before;
    } else {
      var n := |after| - 1;
      ShorterRun(before, after, staff);
      SpreadStaysBounded(before, after[..n], staff, d);
      OneTicketSpread(after[..n], after[n], staff, MaxInt(d, 1));
    }
  }

  lemma {:induction false} ShorterRun(before: seq<Ticket>, after: seq<Ticket>, staff: seq<Agent>)
    requires IsRun(before, after, staff) && |after| > |before|
    ensures var n := |after| - 1;
      && IsRun(before, after[..n], staff) && WentToLeastLoaded(after, n, staff)
      && after == after[..n] + [after[n]]
  {
    var init := after[..|after| - 1];
    forall n: nat | |before| <= n < |init| ensures WentToLeastLoaded(init, n, staff) {
      assert WentToLeastLoaded(after, n, staff);
      assert init[n] == after[n] && init[..n] == after[..n];
    }
  }

  // ----- uneven loads even out -----

  ghost predicate Distinct(staff: seq<Agent>) {
    forall i, j | 0 <= i < j < |staff| :: staff[i] != staff[j]
  }

  /** How many tickets the staff is short of everyone having `level`. */
  function Deficit(tickets: seq<Ticket>, staff: seq<Agent>, level: nat): int {
    if staff == [] then 0 else level - OpenCount(tickets, staff[0]) + Deficit(tickets, staff[1..], level)
  }

  ghost predicate NobodyAbove(tickets: seq<Ticket>, staff: seq<Agent>, level: nat) {
    forall i | 0 <= i < |staff| :: OpenCount(tickets, staff[i]) <= level
  }

  lemma {:induction false} DeficitAfterTicket(tickets: seq<Ticket>, ticket: Ticket, staff: seq<Agent>, level: nat)
    requires ticket.status == OPEN && ticket.assignedTo.Some? && Distinct(staff)
    ensures Deficit(tickets + [ticket], staff, level)
         == Deficit(tickets, staff, level) - (if ticket.assignedTo.value in staff then 1 else 0)
  {
    assert (tickets + [ticket])[..|tickets|] == tickets;
    if staff != [] {
      DeficitAfterTicket(tickets, ticket, staff[1..], level);
      assert staff == [staff[0]] + staff[1..];
      assert staff[0] !in staff[1..];
    }
  }

  lemma {:induction false} DeficitCoversEach(tickets: seq<Ticket>, staff: seq<Agent>, level: nat, i: nat)
    requires NobodyAbove(tickets, staff, level) && i < |staff|
    ensures 0 <= level - OpenCount(tickets, staff[i]) <= Deficit(tickets, staff, level)
    decreases |staff|
  {
    assert forall k | 0 <= k < |staff| - 1 :: staff[1..][k] == staff[k + 1];
    if i > 0 { DeficitCoversEach(tickets, staff[1..], level, i - 1); }
    else if |staff| > 1 { DeficitCoversEach(tickets, staff[1..], level, 0); }
  }

  /** Once as many tickets have come in as the staff was short of its busiest member, all loads are within one. */
  lemma {:induction false} LoadsEvenOut(before: seq<Ticket>, after: seq<Ticket>, staff: seq<Agent>, level: nat)
    requires staff != [] && Distinct(staff) && IsRun(before, after, staff) && NobodyAbove(before, staff, level)
    requires |after| - |before| >= Deficit(before, staff, level)
    ensures SpreadAtMost(after, staff, 1)
  {
    CatchingUp(before, after, staff, level);
    if NobodyAbove(after, staff, level) && Deficit(after, staff, level) <= 0 {
      forall a, b | a in staff && b in staff ensures OpenCount(after, a) - OpenCount(after, b) <= 1 {
        var i :| 0 <= i < |staff| && staff[i] == a;
        var j :| 0 <= j < |staff| && staff[j] == b;
        DeficitCoversEach(after, staff, level, i);
        DeficitCoversEach(after, staff, level, j);
      }
    }
  }

  /** The loads are within one of each other, or every ticket so far went towards the level. */
  ghost predicate OnTrack(before: seq<Ticket>, after: seq<Ticket>, staff: seq<Agent>, level: nat) {
    SpreadAtMost(after, staff, 1)
    || (NobodyAbove(after, staff, level)
        && Deficit(after, staff, level) == Deficit(before, staff, level) - (|after| - |before|))
  }

  lemma {:induction false} CatchingUp(before: seq<Ticket>, after: seq<Ticket>, staff: seq<Agent>, level: nat)
    requires Distinct(staff) && IsRun(before, after, staff) && NobodyAbove(before, staff, level)
    ensures OnTrack(before, after, staff, level)
    decreases |after|
  {
    if |after| == |before| {
      assert after == before;
    } else {
      var n := |after| - 1;
      ShorterRun(before, after, staff);
      CatchingUp(before, after[..n], staff, level);
      StayingOnTrack(before, after[..n], after[n], staff, level);
    }
  }

  lemma StayingOnTrack(before: seq<Ticket>, tickets: seq<Ticket>, ticket: Ticket, staff: seq<Agent>, level: nat)
    requires ticket.status == OPEN && ticket.assignedTo.Some? && IsLeastLoaded(ticket.assignedTo.value, tickets, staff)
    requires Distinct(staff) && OnTrack(before, tickets, staff, level)
    ensures OnTrack(before, tickets + [ticket], staff, level)
  {
    if SpreadAtMost(tickets, staff, 1) {
      OneTicketSpread(tickets, ticket, staff, 1);
    } else {
      TicketTowardsLevel(tickets, ticket, staff, level);
    }
  }

  lemma TicketTowardsLevel(tickets: seq<Ticket>, ticket: Ticket, staff: seq<Agent>, level: nat)
    requires ticket.status == OPEN && ticket.assignedTo.Some? && IsLeastLoaded(ticket.assignedTo.value, tickets, staff)
    requires Distinct(staff) && NobodyAbove(tickets, staff, level) && !SpreadAtMost(tickets, staff, 1)
    ensures NobodyAbove(tickets + [ticket], staff, level)
    ensures Deficit(tickets + [ticket], staff, level) == Deficit(tickets, staff, level) - 1
  {
    var best := ticket.assignedTo.value;
    DeficitAfterTicket(tickets, ticket, staff, level);
    var a, b :| a in staff && b in staff && OpenCount(tickets, a) - OpenCount(tickets, b) > 1;
    assert OpenCount(tickets, best) <= OpenCount(tickets, b);
    assert OpenCount(tickets, a) <= level;
    assert (tickets + [ticket])[..|tickets|] == tickets;
  }
}
