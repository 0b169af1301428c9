/** Blocking of gateway events. Users on the block list do not reach the
    bot's event processors; their message and guild-member events are routed
    to dedicated "blocked event" listeners instead. The list is a table with
    a cache in front of it. */
module Events {
  import opened Wrappers
  import opened Ledger

  // ----------------------------------------------------------- block list

  /** `BlockedUserModel`: the `blocked_user` table (the blocked IDs) and its
      cache, which answers "is blocked" for the IDs it still remembers. */
  class BlockList {
    var table: set<int>
    var cache: map<int, bool>

    /** The cache never disagrees with the table. */
    ghost predicate Valid()
      reads this
    {
      forall u :: u in cache ==> cache[u] == (u in table)
    }

    constructor (table: set<int>)
      ensures Valid() && this.table == table && cache == map[]
    {
      this.table := table;
      cache := map[];
    }

    /** `is_blocked`: a cached answer is returned as it is; otherwise the
        table is asked and the answer is cached. */
    method IsBlocked(u: int) returns (blocked: bool)
      requires Valid()
      modifies this
      ensures Valid()
      ensures blocked == (u in table)
      ensures table == old(table)
      ensures u in old(cache) ==> cache == old(cache)
      ensures cache == old(cache)[u := u in table]
    {
      if u in cache {
        return cache[u];
      }
      blocked := u in table;
      cache := cache[u := blocked];
    }

    /** `block`: true exactly when the user was not blocked before. */
    method Block(u: int) returns (changed: bool)
      requires Valid()
      modifies this
      ensures Valid()
      ensures changed == (u !in old(table))
      ensures table == old(table) + {u}
      ensures cache == old(cache)[u := true]
    {
      var blocked := IsBlocked(u);
      if !blocked {
        table := table + {u};
        cache := cache[u := true];
        return true;
      }
      return false;
    }

    /** `unblock`: true exactly when the user was blocked before. */
    method Unblock(u: int) returns (changed: bool)
      requires Valid()
      modifies this
      ensures Valid()
      ensures changed == (u in old(table))
      ensures table == old(table) - {u}
      ensures cache == old(cache)[u := false]
    {
      var blocked := IsBlocked(u);
      if blocked {
        table := table - {u};
        cache := cache[u := false];
        return true;
      }
      return false;
    }

    /** A cache entry expires. */
    method Evict(u: int)
      requires Valid()
      modifies this
      ensures Valid()
      ensures table == old(table) && cache == old(cache) - {u}
    {
      cache := cache - {u};
    }
  }

  /** Blocking, then asking, answers "blocked"; unblocking, then asking,
      answers "not blocked"; a second block or unblock changes nothing. */
  method BlockScenario(list: BlockList, u: int) returns (first: bool, again: bool, afterBlock: bool,
                                                        released: bool, afterUnblock: bool)
    requires list.Valid()
    modifies list
    ensures list.Valid()
    ensures first == (u !in old(list.table)) && !again && afterBlock
    ensures released && !afterUnblock
    ensures list.table == old(list.table) - {u}
  {
    first := list.Block(u);
    again := list.Block(u);
    afterBlock := list.IsBlocked(u);
    released := list.Unblock(u);
    afterUnblock := list.IsBlocked(u);
  }

  // ---------------------------------------------------------------- events

  /** The parts of a gateway payload that can name a user: `user_id`,
      `author_id`, and the `id` of the `user` and `author` objects (an outer
      `None` is an absent object, an inner one an object without `id`). */
  datatype Payload = Payload(
    userId: Option<int>,
    authorId: Option<int>,
    user: Option<Option<int>>,
    author: Option<Option<int>>)

  datatype Event = Event(resolvedName: string, payload: Payload)

  /** The coroutines an event can be dispatched to. */
  datatype Listener =
    | Processor(name: string)
    | ContributorEvent
    | BlockedEvent(eventName: string)

  /** The ID a field holds, if any. */
  function Found(o: Option<int>): set<int> {
    if o.Some? then {o.value} else {}
  }

  /** The ID an object's `id` field holds, if the object and its field are
      there. */
  function FoundIn(o: Option<Option<int>>): set<int> {
    if o.Some? then Found(o.value) else {}
  }

  /** The IDs found in the payload, each once. */
  function CollectIds(p: Payload): (ids: set<int>)
    ensures forall x :: x in ids <==>
      p.userId == Some(x) || p.authorId == Some(x) || p.user == Some(Some(x)) || p.author == Some(Some(x))
  {
    Found(p.userId) + Found(p.authorId) + FoundIn(p.user) + FoundIn(p.author)
  }

  /** The first part of `BlockEventsAdapter.__call__`: the IDs gathered
      one place after the other. */
  method Collect(p: Payload) returns (ids: set<int>)
    ensures ids == CollectIds(p)
  {
    ids := {};
    if p.userId.Some? {
      ids := ids + {p.userId.value};
    }
    assert ids == Found(p.userId);
    if p.authorId.Some? {
      ids := ids + {p.authorId.value};
    }
    assert ids == Found(p.userId) + Found(p.authorId);
    if p.user.Some? && p.user.value.Some? {
      ids := ids + {p.user.value.value};
    }
    assert ids == Found(p.userId) + Found(p.authorId) + FoundIn(p.user);
    if p.author.Some? && p.author.value.Some? {
      ids := ids + {p.author.value.value};
    }
  }

  /** The event names that have a blocked-event listener. */
  const BlockedEventNames: set<string> := {
    "raw_message_create", "raw_message_update", "raw_message_delete",
    "raw_guild_member_add", "raw_guild_member_update", "raw_guild_member_remove"
  }

  /** The blocked-event listener for an event name, if it has one. */
  function BlockedListeners(name: string): (r: set<Listener>)
    ensures r == {} <==> name !in BlockedEventNames
    ensures forall l :: l in r ==> l == BlockedEvent(name)
  {
    if name in BlockedEventNames then {BlockedEvent(name)} else {}
  }

  /** The contributor listener, when some ID belongs to a contributor. */
  function ContributorListeners(ids: set<int>, contributors: set<int>): set<Listener> {
    if ids * contributors != {} then {ContributorEvent} else {}
  }

  /** The listeners of an event none of whose users is blocked. */
  function PlainDispatch(processor: string, ids: set<int>, contributors: set<int>): (r: set<Listener>)
    ensures Processor(processor) in r
    ensures ContributorEvent in r <==> ids * contributors != {}
    ensures forall l :: l in r ==> l == Processor(processor) || l == ContributorEvent
  {
    {Processor(processor)} + ContributorListeners(ids, contributors)
  }

  /** The users whose block state decides: everyone but the owner. */
  function Suspects(ids: set<int>, owner: Option<int>): set<int> {
    if owner.Some? then ids - {owner.value} else ids
  }

  predicate NoneBlocked(seen: set<int>, owner: Option<int>, table: set<int>) {
    Suspects(seen, owner) * table == {}
  }

  /** Visiting one more ID: it joins the visited ones, and the contributor
      listener and the "none blocked" fact are updated accordingly. */
  lemma VisitOne(ids: set<int>, todo: set<int>, id: int, owner: Option<int>, table: set<int>, contributors: set<int>)
    requires todo <= ids && id in todo
    ensures ids - (todo - {id}) == (ids - todo) + {id}
    ensures NoneBlocked(ids - (todo - {id}), owner, table) <==>
      NoneBlocked(ids - todo, owner, table) && (owner == Some(id) || id !in table)
    ensures ContributorListeners(ids - (todo - {id}), contributors) ==
      ContributorListeners(ids - todo, contributors) + (if id in contributors then {ContributorEvent} else {})
  {
    var before, after := ids - todo, ids - (todo - {id});
    assert after == before + {id};
    assert Suspects(after, owner) == Suspects(before, owner) + (if owner == Some(id) then {} else {id});
    if owner != Some(id) && id in table {
      assert id in Suspects(after, owner) * table;
    }
    if id in contributors {
      assert id in after * contributors;
    }
  }

  /** The configuration the adapter reads, and the daily event counter. */
  class Gate {
    const blocked: BlockList
    /** The Discord IDs of the contributors. */
    const contributors: set<int>
    /** The owner's Discord ID. */
    const owner: Option<int>
    /** The events counted today. */
    var dailyEvents: int

    constructor (blocked: BlockList, contributors: set<int>, owner: Option<int>)
      ensures this.blocked == blocked && this.contributors == contributors && this.owner == owner
      ensures dailyEvents == 0
    {
      this.blocked := blocked;
      this.contributors := contributors;
      this.owner := owner;
      dailyEvents := 0;
    }

    /** The loop of `BlockEventsAdapter.__call__`. The IDs are visited in
        no particular order: the contributor listener is added for every
        contributor visited, the owner is then skipped, and the first
        blocked ID ends the visit. */
    method Visit(ids: set<int>) returns (listeners: set<Listener>, hit: bool)
      requires blocked.Valid()
      modifies blocked
      ensures blocked.Valid() && blocked.table == old(blocked.table)
      ensures hit <==> Suspects(ids, owner) * blocked.table != {}
      ensures !hit ==> listeners == ContributorListeners(ids, contributors)
      ensures hit ==> listeners <= ContributorListeners(ids, contributors)
    {
      listeners := {};
      ghost var table := blocked.table;
      var todo := ids;
      while todo != {}
        invariant todo <= ids
        invariant blocked.Valid() && blocked.table == table
        invariant NoneBlocked(ids - todo, owner, table)
        invariant listeners == ContributorListeners(ids - todo, contributors)
        decreases todo
      {
        HasElement(todo);
        var id :| id in todo;
        VisitOne(ids, todo, id, owner, table, contributors);
        todo := todo - {id};
        if id in contributors {
          listeners := listeners + {ContributorEvent};
        }
        if owner == Some(id) {
          continue;
        }
        hit := blocked.IsBlocked(id);
        if hit {
          assert id in Suspects(ids, owner) * table;
          return;
        }
      }
      hit := false;
      assert ids - todo == ids;
    }

    /** `BlockEventsAdapter.__call__` for the adapter wrapping `processor`:
        the listeners the event is handed to. */
    method Dispatch(processor: string, event: Event) returns (run: set<Listener>)
      requires blocked.Valid()
      modifies this, blocked
      ensures blocked.Valid() && blocked.table == old(blocked.table)
      ensures dailyEvents == old(dailyEvents) + 1
      ensures var ids := CollectIds(event.payload);
        Processor(processor) in run <==> Suspects(ids, owner) * blocked.table == {}
      ensures var ids := CollectIds(event.payload);
        Suspects(ids, owner) * blocked.table == {} ==> run == PlainDispatch(processor, ids, contributors)
      ensures var ids := CollectIds(event.payload);
        Suspects(ids, owner) * blocked.table != {} ==>
          && BlockedListeners(event.resolvedName) <= run
          && run <= BlockedListeners(event.resolvedName) + ContributorListeners(ids, contributors)
    {
      var ids := Collect(event.payload);
      dailyEvents := dailyEvents + 1;

      var listeners, hit := Visit(ids);
      if hit {
        assert Processor(processor) !in listeners;
        run := listeners + BlockedListeners(event.resolvedName);
        return;
      }
      run := listeners + {Processor(processor)};
    }
  }

  // -------------------------------------------------------------- adapter

  /** An event processor as registered with the bot, possibly wrapped. */
  datatype Handler = Original(name: string) | BlockEventsAdapter(inner: Handler)

  /** The bot's processors by event name. */
  class Bot {
    var processors: map<string, Handler>

    constructor (processors: map<string, Handler>)
      ensures this.processors == processors
    {
      this.processors := processors;
    }

    /** `apply_block_events_adapter`: every processor is wrapped once, under
        the same name. */
    method ApplyBlockEventsAdapter()
      modifies this
      ensures processors.Keys == old(processors.Keys)
      ensures forall name :: name in processors ==> processors[name] == BlockEventsAdapter(old(processors[name]))
    {
      var todo := processors.Keys;
      while todo != {}
        invariant todo <= processors.Keys && processors.Keys == old(processors.Keys)
        invariant forall name :: name in processors && name !in todo ==>
          processors[name] == BlockEventsAdapter(old(processors[name]))
        invariant forall name :: name in todo ==> processors[name] == old(processors[name])
        decreases todo
      {
        var name :| name in todo;
        processors := processors[name := BlockEventsAdapter(processors[name])];
        todo := todo - {name};
      }
    }
  }
}
