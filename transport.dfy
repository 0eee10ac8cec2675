/**
 * The part of the socket transport the handlers observe: which connections
 * are live and which connections belong to each room's broadcast group.
 * Every join, leave and size read the handlers perform is appended to a trace,
 * so that the order of those calls can be stated.
 */
module Transport {
  import opened Domain

  /** The members of a group; a group the adapter does not hold is empty. */
  function Members(groups: map<RoomId, set<ConnId>>, id: RoomId): set<ConnId>
  {
    if id in groups then groups[id] else {}
  }

  /** The groups after `c` joins group `id`. */
  function Joined(groups: map<RoomId, set<ConnId>>, id: RoomId, c: ConnId): (g: map<RoomId, set<ConnId>>)
    ensures Members(g, id) == Members(groups, id) + {c}
    ensures g - {id} == groups - {id}
  {
    groups[id := Members(groups, id) + {c}]
  }

  /** The groups after `c` leaves group `id`; the adapter forgets a group that becomes empty. */
  function Left(groups: map<RoomId, set<ConnId>>, id: RoomId, c: ConnId): (g: map<RoomId, set<ConnId>>)
    ensures Members(g, id) == Members(groups, id) - {c}
    ensures g - {id} == groups - {id}
    ensures id in g ==> g[id] != {}
  {
    var rest := Members(groups, id) - {c};
    if rest == {} then groups - {id} else groups[id := rest]
  }

  /** The groups after a closed connection has been taken out of every group. */
  function Dropped(groups: map<RoomId, set<ConnId>>, c: ConnId): (g: map<RoomId, set<ConnId>>)
    ensures forall id :: Members(g, id) == Members(groups, id) - {c}
  {
    map id | id in groups && groups[id] - {c} != {} :: groups[id] - {c}
  }

  class Adapter {
    var groups: map<RoomId, set<ConnId>>
    var live: set<ConnId>
    var trace: seq<GroupOp>

    constructor ()
      ensures groups == map[] && live == {} && trace == []
    {
      groups := map[];
      live := {};
      trace := [];
    }

    /** A new connection is accepted; it is in no group yet. */
    method Connect(c: ConnId)
      modifies this
      ensures live == old(live) + {c}
      ensures groups == old(groups) && trace == old(trace)
    {
      live := live + {c};
    }

    /** A connection closes: the transport removes it from all its groups before the handler runs. */
    method Drop(c: ConnId)
      modifies this
      ensures live == old(live) - {c}
      ensures groups == Dropped(old(groups), c)
      ensures trace == old(trace)
    {
      live := live - {c};
      groups := Dropped(groups, c);
    }

    /** Whether the transport still holds an open socket with this id. */
    method IsLive(c: ConnId) returns (b: bool)
      ensures b <==> c in live
    {
      b := c in live;
    }

    /** Whether the socket's own room list includes group `id`. */
    method InGroup(c: ConnId, id: RoomId) returns (b: bool)
      ensures b <==> c in Members(groups, id)
    {
      b := c in Members(groups, id);
    }

    method Join(c: ConnId, id: RoomId)
      modifies this
      ensures groups == Joined(old(groups), id, c)
      ensures live == old(live) && trace == old(trace) + [Add(c, id)]
    {
      groups := Joined(groups, id, c);
      trace := trace + [Add(c, id)];
    }

    method Leave(c: ConnId, id: RoomId)
      modifies this
      ensures groups == Left(old(groups), id, c)
      ensures live == old(live) && trace == old(trace) + [Remove(c, id)]
    {
      groups := Left(groups, id, c);
      trace := trace + [Remove(c, id)];
    }

    /** The group's size as the adapter reports it (0 for a group it does not hold). */
    method Size(id: RoomId) returns (n: nat)
      modifies this
      ensures n == |Members(groups, id)|
      ensures groups == old(groups) && live == old(live) && trace == old(trace) + [Count(id, n)]
    {
      n := |Members(groups, id)|;
      trace := trace + [Count(id, n)];
    }

    /** The connections an emit to group `id` reaches, leaving out the sender `except`. */
    method Recipients(id: RoomId, except: Option<ConnId>) returns (to: set<ConnId>)
      ensures except.None? ==> to == Members(groups, id)
      ensures except.Some? ==> to == Members(groups, id) - {except.value}
    {
      to := if except.Some? then Members(groups, id) - {except.value} else Members(groups, id);
    }
  }
}
