/** The call table: tickets, their four states and the guarded moves between them.
    The moves are functions of the table; the machines that interleave them take
    them as their steps, and the table object performs them in place. */
module Calls {
  import opened Names

  datatype TicketState = Admitted | Committed | Cancelled | Expired

  /** The activation a ticket runs on. */
  datatype Owner = Owner(logical: Name, instance: nat, generation: nat, epoch: nat)

  /** A dependency child; `limit` is the depth limit in force when it was admitted. */
  datatype Dep = Dep(parent: nat, consumer: nat, session: string, depth: nat, limit: nat, remote: bool)

  /** `drains` tells the withdraw policy: Drain sets deadlines, Cancel never does. */
  datatype Ticket = Ticket(owner: Owner, drains: bool, state: TicketState, deadline: Option<nat>, dep: Option<Dep>)

  type TicketMap = map<nat, Ticket>

  predicate IsAdmitted(tickets: TicketMap, id: nat) {
    id in tickets && tickets[id].state == Admitted
  }

  // ---- the moves ----

  function Opened(owner: Owner, drains: bool): Ticket {
    Ticket(owner, drains, Admitted, None, None)
  }

  function Described(tickets: TicketMap, id: nat, dep: Dep): TicketMap {
    if id in tickets then tickets[id := tickets[id].(dep := Some(dep))] else tickets
  }

  /** The guarded moves (accept, expire, cancel): only an Admitted ticket leaves. */
  function Leave(tickets: TicketMap, id: nat, to: TicketState): TicketMap {
    if IsAdmitted(tickets, id) then tickets[id := tickets[id].(state := to)] else tickets
  }

  /** The unguarded move. */
  function Force(tickets: TicketMap, id: nat, to: TicketState): TicketMap {
    if id in tickets then tickets[id := tickets[id].(state := to)] else tickets
  }

  function DrainUntil(tickets: TicketMap, id: nat, until: nat): TicketMap {
    if IsAdmitted(tickets, id) then tickets[id := tickets[id].(deadline := Some(until))] else tickets
  }

  /** Several tickets marked under one lock. */
  function Marked(tickets: TicketMap, who: set<nat>, to: TicketState): TicketMap {
    map id | id in tickets :: if id in who then tickets[id].(state := to) else tickets[id]
  }

  /** The open tickets whose parent is `parent`: its direct children only. */
  function OpenChildren(tickets: TicketMap, parent: nat): set<nat> {
    set id | id in tickets && IsAdmitted(tickets, id) && tickets[id].dep.Some? && tickets[id].dep.value.parent == parent
  }

  function OpenForConsumer(tickets: TicketMap, consumer: nat): set<nat> {
    set id | id in tickets && IsAdmitted(tickets, id)
      && tickets[id].dep.Some? && tickets[id].dep.value.consumer == consumer
  }

  function Overdue(tickets: TicketMap, now: nat): set<nat> {
    set id | id in tickets && IsAdmitted(tickets, id) && tickets[id].deadline.Some? && now >= tickets[id].deadline.value
  }

  /** Every ticket of `b` was in `a`, and none regained its authority. */
  ghost predicate OnlyLeaves(a: TicketMap, b: TicketMap) {
    forall id :: id in b ==> id in a && (b[id].state == Admitted ==> a[id].state == Admitted)
  }

  const CHAIN_OWNER := Owner("c", 1, 1, 1)

  /** Tickets 1, 2 and 3, each the parent of the next. */
  const CHAIN: TicketMap := map[
    1 := Opened(CHAIN_OWNER, false),
    2 := Opened(CHAIN_OWNER, false).(dep := Some(Dep(1, 1, "s", 1, 4, false))),
    3 := Opened(CHAIN_OWNER, false).(dep := Some(Dep(2, 1, "s", 2, 4, false)))]

  /** Revoking the open children of a ticket leaves an open grandchild Admitted. */
  lemma GrandchildStaysOpen()
    ensures var after := Marked(CHAIN, OpenChildren(CHAIN, 1), Cancelled);
      !IsAdmitted(after, 2) && IsAdmitted(after, 3)
  {
    assert OpenChildren(CHAIN, 1) == {2};
  }

  class CallsTable {
    var tickets: TicketMap
    var next: nat

    ghost predicate Valid()
      reads this
    {
      forall id :: id in tickets ==> id < next
    }

    constructor ()
      ensures Valid() && tickets == map[] && next == 1
    {
      tickets, next := map[], 1;
    }

    /** Ids are never reused, so a new ticket is under no earlier one's id. */
    method Alloc(owner: Owner, drains: bool) returns (id: nat)
      requires Valid()
      modifies this
      ensures Valid() && id == old(next) && id !in old(tickets) && next == id + 1
      ensures tickets == old(tickets)[id := Opened(owner, drains)]
    {
      id := next;
      next := next + 1;
      tickets := tickets[id := Ticket(owner, drains, Admitted, None, None)];
    }

    method SetDepMeta(id: nat, dep: Dep) returns (ok: bool)
      requires Valid()
      modifies this`tickets
      ensures Valid() && (ok <==> id in old(tickets)) && tickets == Described(old(tickets), id, dep)
      ensures tickets == if ok then old(tickets)[id := old(tickets)[id].(dep := Some(dep))] else old(tickets)
    {
      ok := id in tickets;
      if ok {
        tickets := tickets[id := tickets[id].(dep := Some(dep))];
      }
    }

    method LeaveAdmitted(id: nat, to: TicketState) returns (ok: bool)
      requires Valid()
      modifies this`tickets
      ensures Valid() && tickets == Leave(old(tickets), id, to)
      ensures ok <==> id in old(tickets) && old(tickets)[id].state == Admitted
      ensures tickets == if ok then old(tickets)[id := old(tickets)[id].(state := to)] else old(tickets)
    {
      ok := id in tickets && tickets[id].state == Admitted;
      if ok {
        tickets := tickets[id := tickets[id].(state := to)];
      }
    }

    method SetState(id: nat, to: TicketState) returns (ok: bool)
      requires Valid()
      modifies this`tickets
      ensures Valid() && (ok <==> id in old(tickets)) && tickets == Force(old(tickets), id, to)
      ensures tickets == if ok then old(tickets)[id := old(tickets)[id].(state := to)] else old(tickets)
    {
      ok := id in tickets;
      if ok {
        tickets := tickets[id := tickets[id].(state := to)];
      }
    }

    method SetDrainUntil(id: nat, until: nat) returns (ok: bool)
      requires Valid()
      modifies this`tickets
      ensures Valid() && (ok <==> id in old(tickets)) && tickets == DrainUntil(old(tickets), id, until)
      ensures tickets == if ok && old(tickets)[id].state == Admitted
                         then old(tickets)[id := old(tickets)[id].(deadline := Some(until))] else old(tickets)
    {
      ok := id in tickets;
      if ok && tickets[id].state == Admitted {
        tickets := tickets[id := tickets[id].(deadline := Some(until))];
      }
    }

    method Remove(id: nat) returns (r: Option<Ticket>)
      requires Valid()
      modifies this`tickets
      ensures Valid() && tickets == old(tickets) - {id}
      ensures r == if id in old(tickets) then Some(old(tickets)[id]) else None
    {
      r := if id in tickets then Some(tickets[id]) else None;
      tickets := tickets - {id};
    }

    /** Marks a set of tickets one by one and reports them. */
    method MarkEach(who: set<nat>, to: TicketState) returns (out: seq<nat>)
      requires Valid() && forall id :: id in who ==> id in tickets
      modifies this`tickets
      ensures Valid() && tickets == Marked(old(tickets), who, to)
      ensures NoDup(out) && Elems(out) == who
    {
      out := [];
      var rest := who;
      while rest != {}
        invariant rest <= who && Elems(out) == who - rest && NoDup(out)
        invariant tickets == Marked(old(tickets), who - rest, to)
      {
        var id :| id in rest;
        NoDupSnoc(out, id);
        assert Elems(out + [id]) == Elems(out) + {id};
        rest := rest - {id};
        tickets := tickets[id := tickets[id].(state := to)];
        out := out + [id];
      }
    }

    /** Revokes the open children of an ended ticket. It does not reach theirs. */
    method RevokeDescendants(parent: nat) returns (out: seq<nat>)
      requires Valid()
      modifies this`tickets
      ensures Valid() && tickets == Marked(old(tickets), OpenChildren(old(tickets), parent), Cancelled)
      ensures NoDup(out) && Elems(out) == OpenChildren(old(tickets), parent)
      ensures OpenChildren(tickets, parent) == {}
      ensures tickets.Keys == old(tickets).Keys
      ensures forall id :: id in tickets ==>
        var was := old(tickets)[id];
        tickets[id] == if was.state == Admitted && was.dep.Some? && was.dep.value.parent == parent
                       then was.(state := Cancelled) else was
    {
      out := MarkEach(OpenChildren(tickets, parent), Cancelled);
    }

    method RevokeChildrenOfConsumer(consumer: nat) returns (out: seq<nat>)
      requires Valid()
      modifies this`tickets
      ensures Valid() && tickets == Marked(old(tickets), OpenForConsumer(old(tickets), consumer), Cancelled)
      ensures NoDup(out) && Elems(out) == OpenForConsumer(old(tickets), consumer)
      ensures OpenForConsumer(tickets, consumer) == {}
      ensures tickets.Keys == old(tickets).Keys
      ensures forall id :: id in tickets ==>
        var was := old(tickets)[id];
        tickets[id] == if was.state == Admitted && was.dep.Some? && was.dep.value.consumer == consumer
                       then was.(state := Cancelled) else was
    {
      out := MarkEach(OpenForConsumer(tickets, consumer), Cancelled);
    }

    method ExpireOverdue(now: nat) returns (out: seq<nat>)
      requires Valid()
      modifies this`tickets
      ensures Valid() && tickets == Marked(old(tickets), Overdue(old(tickets), now), Expired)
      ensures NoDup(out) && Elems(out) == Overdue(old(tickets), now)
      ensures Overdue(tickets, now) == {}
      ensures tickets.Keys == old(tickets).Keys
      ensures forall id :: id in tickets ==>
        var was := old(tickets)[id];
        tickets[id] == if was.state == Admitted && was.deadline.Some? && was.deadline.value <= now
                       then was.(state := Expired) else was
    {
      out := MarkEach(Overdue(tickets, now), Expired);
    }
  }
}
