/**
 resolver/ipfs_resolver.go: one resolver of the network, over its two caches, its pending queries and
 its backend. Clocks, the event manager and the randomness of signing are parameters of each call.
 */
module Resolver {
  import opened Address
  import opened Cache
  import opened Crypto
  import opened Errors
  import opened Message
  import Messages = Message
  import opened Names
  import opened Node
  import opened Wrappers

  // Ten seconds, in nanoseconds: how long a resolution stays in the cache.
  const RESOLUTION_TTL := 10_000_000_000

  datatype State = State(
    resources: map<string, CacheRecord<Address>>,
    resolutions: map<string, CacheRecord<Message>>,
    pending: set<string>,
    backend: map<string, CacheRecord<string>>
  )

  const FRESH := State(map[], map[], {}, map[])

  // ---------- the calls as functions of the state ----------

  predicate IsManaged(s: State, addr: string, now: int) {
    Find(s.resources, addr, now).Some? && Find(s.resources, addr, now).value.HasKeys()
  }

  function Added(p: Primitives, s: State, name: string, value: string, now: int): (State, Option<Error>) {
    match QueryAddress(p, name)
    case Err(e) => (s, Some(e))
    case Ok(addr) =>
      if IsManaged(s, addr, now) then (s.(backend := Put(s.backend, name, value, 0, now)), None)
      else (s, Some(ErrUnmanagedAddress))
  }

  // subscribe: a resource that is already there is kept. `up` says whether the event manager of a
  // new one could be built.
  function Subscribed(s: State, addr: Address, now: int, up: bool): (State, Option<Address>) {
    match Find(s.resources, addr.address, now)
    case Some(res) => (s, Some(res))
    case None =>
      if up then (s.(resources := Put(s.resources, addr.address, addr, 0, now)), Some(addr)) else (s, None)
  }

  // Manage. A nil key pair is a nil-pointer panic.
  function Managed(s: State, addr: Address, now: int, up: bool): (State, Option<Error>) {
    if addr.keys.None? then (s, Some(Panic))
    else if addr.keys.value.privateKey == "" then (s, Some(ErrNoPrivateKey))
    else
      var (s', res) := Subscribed(s, addr, now, up);
      (s', if res.Some? then None else Some(ErrEventManager))
  }

  function Removed(s: State, addr: string, now: int): State {
    if Find(s.resources, addr, now).Some? then s.(resources := s.resources - {addr}) else s
  }

  function Cached(s: State, ref: string, now: int): Option<Message> {
    Find(s.resolutions, ref, now)
  }

  // The response handleQuery builds, once the name resolved to a value under managed keys.
  function Response(p: Primitives, request: Message, value: string, keys: KeyPair,
                    stamp: string, random: int): Message
  {
    Messages.Signed(p, Message(stamp, request.address, RESPONSE, Query(value, GetID(p, request)), "", ""), keys, random)
  }

  // handleQuery: the query becomes pending; the message, if any, goes to sendResolution.
  function HandleQuery(p: Primitives, s: State, msg: Message, now: int, up: bool, stamp: string, random: int)
    : (State, Option<Message>)
  {
    var s1 := s.(pending := s.pending + {GetID(p, msg)});
    match Find(s1.backend, msg.payload.data, now)
    case None => (s1, None)
    case Some(value) =>
      var (s2, res) := Subscribed(s1, Address(None, msg.address), now, up);
      if res.None? || !res.value.HasKeys() then (s2, None)
      else
        var rec := Response(p, msg, value, res.value.keys.value, stamp, random);
        (s2, if Verified(p, rec) then Some(rec) else None)
  }

  // handleResolution: the newest resolution wins, and the query is no longer pending.
  function HandleResolution(w: World, s: State, msg: Message, now: int): State {
    if !Verified(w.crypto, msg) then s
    else
      var ref := msg.payload.reference;
      var cached := Cached(s, ref, now);
      var s1 := if cached.None? || Older(w, cached.value, msg)
                then s.(resolutions := Put(s.resolutions, ref, msg, RESOLUTION_TTL, now)) else s;
      s1.(pending := s1.pending - {ref})
  }

  function Dispatch(w: World, s: State, msg: Message, now: int, up: bool, stamp: string, random: int)
    : (State, Option<Message>)
  {
    if msg.kind == REQUEST then HandleQuery(w.crypto, s, msg, now, up, stamp, random)
    else if msg.kind == RESPONSE then (HandleResolution(w, s, msg, now), None)
    else (s, None)
  }

  // The local part of Resolve, before the network is asked.
  datatype Resolution = Answer(value: string) | Failed(er: Error) | Ask(request: Message)

  function ResolveLocally(p: Primitives, s: State, name: string, now: int): Resolution {
    match RequestFor(p, name)
    case Err(e) => Failed(e)
    case Ok(rec) =>
      if IsManaged(s, rec.address, now) then
        match Find(s.backend, name, now)
        case Some(value) => Answer(value)
        case None => Failed(ErrNameNotFound)
      else
        match Cached(s, GetID(p, rec), now)
        case Some(found) => Answer(found.payload.data)
        case None => Ask(rec)
  }

  // What a resolver does in one step, in any of its goroutines. To subscribe is also what a query does
  // before it publishes, and sendResolution at its end; to forget is its delete of a pending query.
  datatype Action =
    | Adds(name: string, value: string, now: int)
    | Manages(resource: Address, now: int, up: bool)
    | Subscribes(addr: string, now: int, up: bool)
    | Removes(addr: string, now: int)
    | Receives(msg: Message, now: int, up: bool, stamp: string, random: int)
    | Forgets(ref: string)

  function Acted(w: World, s: State, a: Action): State {
    match a
    case Adds(name, value, now) => Added(w.crypto, s, name, value, now).0
    case Manages(resource, now, up) => Managed(s, resource, now, up).0
    case Subscribes(addr, now, up) => Subscribed(s, Address(None, addr), now, up).0
    case Removes(addr, now) => Removed(s, addr, now)
    case Receives(msg, now, up, stamp, random) => Dispatch(w, s, msg, now, up, stamp, random).0
    case Forgets(ref) => s.(pending := s.pending - {ref})
  }

  function ActedAll(w: World, s: State, actions: seq<Action>): State {
    if actions == [] then s
    else Acted(w, ActedAll(w, s, actions[..|actions| - 1]), actions[|actions| - 1])
  }

  lemma ActedOneMore(w: World, s: State, before: seq<Action>, a: Action)
    ensures ActedAll(w, s, before + [a]) == Acted(w, ActedAll(w, s, before), a)
  {
    hide Acted;
    assert (before + [a])[..|before + [a]| - 1] == before;
  }

  // While a query waits the resolver goes on acting, and then the query looks at the cache.
  datatype Turn = Turn(actions: seq<Action>, now: int)

  const EMPTY_MESSAGE := Message("", "", "", Query("", ""), "", "")

  // The polling loop of query: the first turn in which the resolution is in the cache ends it, and
  // the deadline comes after the last.
  function PollTurns(w: World, s: State, key: string, turns: seq<Turn>): (State, Result<Message, Error>)
    decreases |turns|
  {
    if turns == [] then (s, Err(ErrDeadline))
    else
      var s1 := ActedAll(w, s, turns[0].actions);
      match Cached(s1, key, turns[0].now)
      case Some(found) => (s1, Ok(found))
      case None => PollTurns(w, s1, key, turns[1..])
  }

  // query. When publishing fails, the answer is an empty message and no error.
  function Queried(w: World, s: State, request: Message, now: int, up: bool, emitted: bool, turns: seq<Turn>)
    : (State, Result<Message, Error>)
  {
    var (s1, res) := Subscribed(s, Address(None, request.address), now, up);
    if res.None? then (s1, Err(ErrEventManager))
    else if !emitted then (s1, Ok(EMPTY_MESSAGE))
    else PollTurns(w, s1, GetID(w.crypto, request), turns)
  }

  function Resolved(w: World, s: State, name: string, now: int, up: bool, emitted: bool, turns: seq<Turn>)
    : (State, Result<string, Error>)
  {
    match ResolveLocally(w.crypto, s, name, now)
    case Answer(value) => (s, Ok(value))
    case Failed(er) => (s, Err(er))
    case Ask(request) =>
      var (s1, r) := Queried(w, s, request, now, up, emitted, turns);
      (s1, if r.Err? then Err(r.error) else Ok(r.value.payload.data))
  }

  // ---------- the resolver itself ----------

  class IpfsResolver {
    const w: World
    const resourceCache: MemoryCache<Address>
    const resolutionCache: MemoryCache<Message>
    const backend: MemoryCache<string>
    var pending: set<string>

    ghost predicate Valid() {
      resourceCache.defaultTTL == 0 && resolutionCache.defaultTTL == RESOLUTION_TTL && backend.defaultTTL == 0
    }

    ghost function Contents(): State
      reads this, resourceCache, resolutionCache, backend
    {
      State(resourceCache.data, resolutionCache.data, pending, backend.data)
    }

    constructor (w: World)
      ensures Valid() && Contents() == FRESH && this.w == w
      ensures fresh(resourceCache) && fresh(resolutionCache) && fresh(backend)
    {
      this.w := w;
      resourceCache := new MemoryCache(0);
      resolutionCache := new MemoryCache(RESOLUTION_TTL);
      backend := new MemoryCache(0);
      pending := {};
    }

    method Add(name: string, value: string, now: int) returns (er: Option<Error>)
      requires Valid()
      modifies backend
      ensures (Contents(), er) == Added(w.crypto, old(Contents()), name, value, now)
    {
      var addr := QueryAddress(w.crypto, name);
      if addr.Err? {
        return Some(addr.error);
      }
      var managed := IsManagedNow(addr.value, now);
      if !managed {
        return Some(ErrUnmanagedAddress);
      }
      backend.Add(name, value, now);
      return None;
    }

    method IsManagedNow(addr: string, now: int) returns (r: bool)
      ensures r == IsManaged(Contents(), addr, now)
    {
      var res := resourceCache.Get(addr, now);
      return res.Some? && res.value.HasKeys();
    }

    method Subscribe(addr: Address, now: int, up: bool) returns (res: Option<Address>)
      requires Valid()
      modifies resourceCache
      ensures (Contents(), res) == Subscribed(old(Contents()), addr, now, up)
    {
      res := resourceCache.Get(addr.address, now);
      if res.Some? {
        return;
      }
      if !up {
        return None;
      }
      resourceCache.Add(addr.address, addr, now);
      return Some(addr);
    }

    method Manage(addr: Address, now: int, up: bool) returns (er: Option<Error>)
      requires Valid()
      modifies resourceCache
      ensures (Contents(), er) == Managed(old(Contents()), addr, now, up)
    {
      if addr.keys.None? {
        return Some(Panic);
      }
      if addr.keys.value.privateKey == "" {
        return Some(ErrNoPrivateKey);
      }
      var res := Subscribe(addr, now, up);
      return if res.Some? then None else Some(ErrEventManager);
    }

    method Remove(addr: string, now: int)
      modifies resourceCache
      ensures Contents() == Removed(old(Contents()), addr, now)
    {
      var res := resourceCache.Get(addr, now);
      if res.Some? {
        resourceCache.Delete(addr);
      }
    }

    method ResolveLocal(name: string, now: int) returns (r: Resolution)
      requires Valid()
      ensures r == ResolveLocally(w.crypto, Contents(), name, now)
    {
      var rec := RequestFor(w.crypto, name);
      if rec.Err? {
        return Failed(rec.error);
      }
      var managed := IsManagedNow(rec.value.address, now);
      if managed {
        var value := backend.Get(name, now);
        if value.None? {
          return Failed(ErrNameNotFound);
        }
        return Answer(value.value);
      }
      var found := resolutionCache.Get(GetID(w.crypto, rec.value), now);
      if found.Some? {
        return Answer(found.value.payload.data);
      }
      return Ask(rec.value);
    }

    method Handle(msg: Message, now: int, up: bool, stamp: string, random: int) returns (r: Option<Message>)
      requires Valid()
      modifies this, resourceCache, resolutionCache
      ensures (Contents(), r) == Dispatch(w, old(Contents()), msg, now, up, stamp, random)
    {
      if msg.kind == REQUEST {
        r := HandleQueryMessage(msg, now, up, stamp, random);
      } else if msg.kind == RESPONSE {
        HandleResolutionMessage(msg, now);
        r := None;
      } else {
        r := None;
      }
    }

    method HandleQueryMessage(msg: Message, now: int, up: bool, stamp: string, random: int) returns (r: Option<Message>)
      requires Valid()
      modifies this, resourceCache
      ensures (Contents(), r) == HandleQuery(w.crypto, old(Contents()), msg, now, up, stamp, random)
    {
      pending := pending + {GetID(w.crypto, msg)};
      var value := backend.Get(msg.payload.data, now);
      if value.None? {
        return None;
      }
      var res := Subscribe(Address(None, msg.address), now, up);
      if res.None? || !res.value.HasKeys() {
        return None;
      }
      var rec := Response(w.crypto, msg, value.value, res.value.keys.value, stamp, random);
      if !Verified(w.crypto, rec) {
        return None;
      }
      return Some(rec);
    }

    method HandleResolutionMessage(msg: Message, now: int)
      requires Valid()
      modifies this, resolutionCache
      ensures Contents() == HandleResolution(w, old(Contents()), msg, now)
    {
      if !Verified(w.crypto, msg) {
        return;
      }
      var ref := msg.payload.reference;
      var cached := resolutionCache.Get(ref, now);
      if cached.None? || Older(w, cached.value, msg) {
        resolutionCache.Add(ref, msg, now);
      }
      pending := pending - {ref};
    }

    // The delete of canSendResolution. Other handlers can run between its look at the pending queries
    // and the delete.
    method DeletePending(ref: string)
      modifies this
      ensures Contents() == old(Contents()).(pending := old(pending) - {ref})
    {
      pending := pending - {ref};
    }

    // query, with what the resolver does before each look at the cache.
    method QueryNetwork(request: Message, now: int, up: bool, emitted: bool, turns: seq<Turn>)
      returns (r: Result<Message, Error>)
      requires Valid()
      modifies this, resourceCache, resolutionCache, backend
      ensures (Contents(), r) == Queried(w, old(Contents()), request, now, up, emitted, turns)
    {
      var res := Subscribe(Address(None, request.address), now, up);
      if res.None? {
        return Err(ErrEventManager);
      }
      if !emitted {
        return Ok(EMPTY_MESSAGE);
      }
      var key := GetID(w.crypto, request);
      ghost var start := Contents();
      for i := 0 to |turns|
        invariant PollTurns(w, start, key, turns) == PollTurns(w, Contents(), key, turns[i..])
      {
        ActAll(turns[i].actions);
        assert turns[i..][1..] == turns[i + 1..];
        var found := resolutionCache.Get(key, turns[i].now);
        if found.Some? {
          return Ok(found.value);
        }
      }
      return Err(ErrDeadline);
    }

    method ActAll(actions: seq<Action>)
      requires Valid()
      modifies this, resourceCache, resolutionCache, backend
      ensures Contents() == ActedAll(w, old(Contents()), actions)
    {
      hide Acted;
      for j := 0 to |actions|
        invariant Contents() == ActedAll(w, old(Contents()), actions[..j])
      {
        assert actions[..j + 1][..j] == actions[..j];
        Act(actions[j]);
      }
      assert actions[..|actions|] == actions;
    }

    method Act(a: Action)
      requires Valid()
      modifies this, resourceCache, resolutionCache, backend
      ensures Contents() == Acted(w, old(Contents()), a)
    {
      hide Added, Managed, Subscribed, Removed, Dispatch;
      match a
      case Adds(name, value, now) => var _ := Add(name, value, now);
      case Manages(resource, now, up) => var _ := Manage(resource, now, up);
      case Subscribes(addr, now, up) => var _ := Subscribe(Address(None, addr), now, up);
      case Removes(addr, now) => Remove(addr, now);
      case Receives(msg, now, up, stamp, random) => var _ := Handle(msg, now, up, stamp, random);
      case Forgets(ref) => DeletePending(ref);
    }

    method Resolve(name: string, now: int, up: bool, emitted: bool, turns: seq<Turn>) returns (r: Result<string, Error>)
      requires Valid()
      modifies this, resourceCache, resolutionCache, backend
      ensures (Contents(), r) == Resolved(w, old(Contents()), name, now, up, emitted, turns)
    {
      hide Queried, ResolveLocally;
      var local := ResolveLocal(name, now);
      match local
      case Answer(value) => return Ok(value);
      case Failed(er) => return Err(er);
      case Ask(request) =>
        var found := QueryNetwork(request, now, up, emitted, turns);
        if found.Err? {
          return Err(found.error);
        }
        return Ok(found.value.payload.data);
    }
  }

  // ---------- where an answer comes from ----------

  // What the look at the cache in turn j finds.
  function Look(w: World, s: State, key: string, turns: seq<Turn>, j: nat): Option<Message>
    requires j < |turns|
    decreases j
  {
    var s1 := ActedAll(w, s, turns[0].actions);
    if j == 0 then Cached(s1, key, turns[0].now) else Look(w, s1, key, turns[1..], j - 1)
  }

  // Turn k is the first to find something, and finds m.
  ghost predicate FirstFinds(w: World, s: State, key: string, turns: seq<Turn>, k: int, m: Message) {
    0 <= k < |turns| && Look(w, s, key, turns, k) == Some(m)
    && forall j :: 0 <= j < k ==> Look(w, s, key, turns, j).None?
  }

  lemma LaterTurn(w: World, s: State, key: string, turns: seq<Turn>, k: int, m: Message)
    requires turns != [] && Look(w, s, key, turns, 0).None?
    requires FirstFinds(w, ActedAll(w, s, turns[0].actions), key, turns[1..], k, m)
    ensures FirstFinds(w, s, key, turns, k + 1, m)
  {
    hide ActedAll, Cached;
    var s1 := ActedAll(w, s, turns[0].actions);
    forall j | 0 < j < |turns| ensures Look(w, s, key, turns, j) == Look(w, s1, key, turns[1..], j - 1) {
    }
  }

  // The polling loop ends in the first turn that finds the resolution, and with the deadline exactly
  // when no turn does.
  lemma {:induction false} PollsUntilCached(w: World, s: State, key: string, turns: seq<Turn>)
    ensures match PollTurns(w, s, key, turns).1
            case Ok(m) => exists k :: FirstFinds(w, s, key, turns, k, m)
            case Err(e) => e == ErrDeadline && forall j :: 0 <= j < |turns| ==> Look(w, s, key, turns, j).None?
    decreases |turns|
  {
    hide ActedAll, Cached;
    if turns != [] {
      var s1, rest := ActedAll(w, s, turns[0].actions), turns[1..];
      if Cached(s1, key, turns[0].now).Some? {
        var m := Cached(s1, key, turns[0].now).value;
        assert PollTurns(w, s, key, turns).1 == Ok(m);
        assert Look(w, s, key, turns, 0) == Some(m);
        assert FirstFinds(w, s, key, turns, 0, m);
      } else {
        PollsUntilCached(w, s1, key, rest);
        if PollTurns(w, s1, key, rest).1.Ok? {
          var m := PollTurns(w, s1, key, rest).1.value;
          var k :| FirstFinds(w, s1, key, rest, k, m);
          LaterTurn(w, s, key, turns, k, m);
          assert PollTurns(w, s, key, turns).1 == Ok(m);
        }
      }
    }
  }

  // A query that was published and succeeds answers with what its first successful look found.
  lemma QueryAnswers(w: World, s: State, request: Message, now: int, up: bool, turns: seq<Turn>)
    ensures var (s1, res) := Subscribed(s, Address(None, request.address), now, up);
            var r := Queried(w, s, request, now, up, true, turns).1;
            if res.None? then r == Err(ErrEventManager)
            else if r.Ok? then exists k :: FirstFinds(w, s1, GetID(w.crypto, request), turns, k, r.value)
            else r == Err(ErrDeadline)
  {
    hide PollTurns, FirstFinds, GetID;
    PollsUntilCached(w, Subscribed(s, Address(None, request.address), now, up).0, GetID(w.crypto, request), turns);
  }

  // What Resolve answers in every case.
  lemma ResolvedExactly(w: World, s: State, name: string, now: int, up: bool, emitted: bool, turns: seq<Turn>)
    ensures var r := Resolved(w, s, name, now, up, emitted, turns).1;
            match ResolveLocally(w.crypto, s, name, now)
            case Answer(value) => r == Ok(value)
            case Failed(e) => r == Err(e)
            case Ask(request) =>
              var (s1, res) := Subscribed(s, Address(None, request.address), now, up);
              if res.None? then r == Err(ErrEventManager)
              else if !emitted then r == Ok("")
              else if r.Ok? then
                exists k, m :: FirstFinds(w, s1, GetID(w.crypto, request), turns, k, m) && r.value == m.payload.data
              else
                r == Err(ErrDeadline)
                && forall j :: 0 <= j < |turns| ==> Look(w, s1, GetID(w.crypto, request), turns, j).None?
  {
    hide PollTurns, FirstFinds, GetID, ResolveLocally, Look;
    if ResolveLocally(w.crypto, s, name, now).Ask? {
      var request := ResolveLocally(w.crypto, s, name, now).request;
      var s1 := Subscribed(s, Address(None, request.address), now, up).0;
      PollsUntilCached(w, s1, GetID(w.crypto, request), turns);
    }
  }

  // ---------- answering ----------

  lemma ResponseFields(p: Primitives, request: Message, value: string, keys: KeyPair, stamp: string, random: int)
    ensures var rec := Response(p, request, value, keys, stamp, random);
            rec.kind == RESPONSE && rec.address == request.address && rec.timestamp == stamp
            && rec.payload == Query(value, GetID(p, request))
  {
    hide GetID;
  }

  // What a resolver answers to a query: the value it holds for the name, with a reference to the query,
  // dated and signed so that it verifies; and nothing, unless it holds a value and has both keys.
  lemma RespondsExactly(p: Primitives, s: State, msg: Message, now: int, up: bool, stamp: string, random: int)
    ensures var (s', r) := HandleQuery(p, s, msg, now, up, stamp, random);
            && GetID(p, msg) in s'.pending
            && (r.Some? ==>
                  var (held, rec) := (Find(s.backend, msg.payload.data, now), r.value);
                  held.Some? && IsManaged(s, msg.address, now) && Verified(p, rec)
                  && rec.kind == "QUERY.NAME.RESPONSE" && rec.address == msg.address && rec.timestamp == stamp
                  && rec.payload == Query(held.value, GetID(p, msg)))
  {
    hide GetID, Verified, Response;
    var (res, held) := (Find(s.resources, msg.address, now), Find(s.backend, msg.payload.data, now));
    if res.Some? && res.value.HasKeys() && held.Some? {
      ResponseFields(p, msg, held.value, res.value.keys.value, stamp, random);
    }
  }

  // With a generated key pair and a value for the name it does answer.
  lemma OwnerResponds(p: Primitives, s: State, msg: Message, d: nat, now: int, up: bool, stamp: string, random: int)
    requires CurveLaws(p) && 0 < d < ORDER && Find(s.backend, msg.payload.data, now).Some?
    requires Find(s.resources, msg.address, now).Some?
    requires Find(s.resources, msg.address, now).value.keys == Some(NewKeyPair(p, d))
    ensures var (s', r) := HandleQuery(p, s, msg, now, up, stamp, random);
            r.Some? && s' == s.(pending := s.pending + {GetID(p, msg)})
  {
    hide GetID, Verified, NewKeyPair, Messages.Signed;
    var (x, y) := p.publicPoint(d);
    KeyRoundTrip(p, d);
    var unsigned := Message(stamp, msg.address, RESPONSE,
                            Query(Find(s.backend, msg.payload.data, now).value, GetID(p, msg)), "", "");
    SignedMessageVerifies(p, unsigned, d, random);
  }

  // ---------- adding and removing ----------

  // What Add accepted is what Resolve then answers for that name, as long as its address is managed; other
  // names are answered as before. It accepts exactly the names of managed addresses, and changes nothing
  // when it refuses one.
  lemma AddedIsAnswered(p: Primitives, s: State, name: string, value: string, now: int, other: string, later: int)
    ensures var (s', er) := Added(p, s, name, value, now);
            && (er.Some? ==> s' == s)
            && er == (if RequestFor(p, name).Err? then Some(RequestFor(p, name).error)
                      else if !IsManaged(s, RequestFor(p, name).value.address, now) then Some(ErrUnmanagedAddress)
                      else None)
            && ResolveLocally(p, s', other, later)
               == if er == None && other == name && IsManaged(s, RequestFor(p, name).value.address, later)
                  then Answer(value) else ResolveLocally(p, s, other, later)
  {
    hide GetID, QueryAddress;
  }

  lemma FreshResolverAsks(p: Primitives, name: string, now: int, ref: string, later: int)
    requires RequestFor(p, name).Ok?
    ensures ResolveLocally(p, FRESH, name, now) == Ask(RequestFor(p, name).value) && Cached(FRESH, ref, later).None?
  {
    hide GetID, RequestFor;
  }

  // A new resolver that manages an address and adds a name has both from then on.
  lemma AddedAfterManaging(w: World, addr: Address, name: string, value: string, managed: int, added: int, now: int)
    requires RequestFor(w.crypto, name).Ok? && RequestFor(w.crypto, name).value.address == addr.address
    requires addr.HasKeys()
    ensures var s := Acted(w, Acted(w, FRESH, Manages(addr, managed, true)), Adds(name, value, added));
            Find(s.resources, addr.address, now) == Some(addr) && Find(s.backend, name, now) == Some(value)
  {
    hide Validity;
  }

  // A managed address is never asked of the network.
  lemma ManagedIsLocal(p: Primitives, s: State, name: string, now: int)
    requires RequestFor(p, name).Ok? && IsManaged(s, RequestFor(p, name).value.address, now)
    ensures !ResolveLocally(p, s, name, now).Ask?
    ensures Find(s.backend, name, now).None? <==> ResolveLocally(p, s, name, now) == Failed(ErrNameNotFound)
  {
    hide GetID, QueryAddress;
  }

  lemma RemovedIsGone(s: State, addr: string, now: int, other: string)
    ensures Find(Removed(s, addr, now).resources, addr, now).None?
    ensures Find(s.resources, addr, now).None? ==> Removed(s, addr, now) == s
    ensures other != addr ==> Find(Removed(s, addr, now).resources, other, now) == Find(s.resources, other, now)
    ensures Removed(s, addr, now) == s.(resources := Removed(s, addr, now).resources)
  {
  }

  // ---------- refused responses ----------

  // A response that does not verify changes nothing. One with an unreadable timestamp does not replace a
  // cached one, nor is one with an unreadable timestamp ever replaced while it is cached.
  lemma NotCached(w: World, s: State, msg: Message, now: int)
    ensures !Verified(w.crypto, msg) ==> HandleResolution(w, s, msg, now) == s
    ensures var cached := Cached(s, msg.payload.reference, now);
            cached.Some? && (w.parseTime(cached.value.timestamp).None? || w.parseTime(msg.timestamp).None?) ==>
              HandleResolution(w, s, msg, now).resolutions == s.resolutions
  {
    hide Verified;
  }

  // ---------- managing ----------

  // An address is managed after Manage exactly when a resource with both keys was subscribed before,
  // or none was and both keys are given. Manage reports no failure, and leaves the address unmanaged,
  // exactly when a resource without keys was subscribed before, or only the private key is given.
  lemma ManageExactly(s: State, addr: Address, now: int, up: bool)
    ensures var (s', er) := Managed(s, addr, now, up);
            var before := Find(s.resources, addr.address, now);
            var hasPrivateKey := addr.keys.Some? && addr.keys.value.privateKey != "";
            (IsManaged(s', addr.address, now)
             <==> if before.Some? then before.value.HasKeys() else up && addr.HasKeys())
            && (er == None && !IsManaged(s', addr.address, now) <==>
                  hasPrivateKey && if before.Some? then !before.value.HasKeys() else up && !addr.HasKeys())
            && er == (if addr.keys.None? then Some(Panic)
                      else if !hasPrivateKey then Some(ErrNoPrivateKey)
                      else if before.None? && !up then Some(ErrEventManager) else None)
            && (before.Some? ==> s' == s)
  {
  }

  // ---------- newest wins ----------

  // A valid response to one query is handled.
  predicate Resolves(p: Primitives, a: Action, ref: string) {
    a.Receives? && a.msg.kind == RESPONSE && Verified(p, a.msg) && a.msg.payload.reference == ref
  }

  ghost predicate AnyResolves(p: Primitives, actions: seq<Action>, ref: string) {
    exists a :: a in actions && Resolves(p, a, ref)
  }

  function Instant(w: World, m: Message): int {
    if w.parseTime(m.timestamp).Some? then w.parseTime(m.timestamp).value else 0
  }

  // The newest of the valid responses; among equally new ones, the first.
  ghost predicate FirstNewest(w: World, ref: string, actions: seq<Action>, k: int) {
    0 <= k < |actions| && Resolves(w.crypto, actions[k], ref)
    && (forall j :: 0 <= j < |actions| && Resolves(w.crypto, actions[j], ref) ==>
          Instant(w, actions[j].msg) <= Instant(w, actions[k].msg)
          && (j < k ==> Instant(w, actions[j].msg) < Instant(w, actions[k].msg)))
  }

  // No response finds the resolution it competes with expired. Each has a readable timestamp, and is
  // handled from `start` on when it is the first, and else before the newest one so far expires.
  ghost predicate Unexpired(w: World, ref: string, actions: seq<Action>, start: int)
    decreases |actions|
  {
    actions == [] ||
    var before, last := actions[..|actions| - 1], actions[|actions| - 1];
    Unexpired(w, ref, before, start)
    && (Resolves(w.crypto, last, ref) ==>
          w.parseTime(last.msg.timestamp).Some?
          && (if AnyResolves(w.crypto, before, ref)
              then forall j :: FirstNewest(w, ref, before, j) ==> last.now <= before[j].now + RESOLUTION_TTL
              else start <= last.now))
  }

  lemma {:induction false} Readable(w: World, ref: string, actions: seq<Action>, start: int, j: int)
    requires Unexpired(w, ref, actions, start) && 0 <= j < |actions| && Resolves(w.crypto, actions[j], ref)
    ensures w.parseTime(actions[j].msg.timestamp).Some?
    decreases |actions|
  {
    hide Resolves;
    if j < |actions| - 1 {
      Readable(w, ref, actions[..|actions| - 1], start, j);
    }
  }

  ghost predicate CachedAs(s: State, ref: string, a: Action) {
    a.Receives? && ref in s.resolutions
    && s.resolutions[ref] == CacheRecord(Some(a.now + RESOLUTION_TTL), a.msg)
  }

  ghost predicate NothingCached(s: State, ref: string, start: int) {
    forall now :: now >= start ==> Cached(s, ref, now).None?
  }

  // Nothing else a resolver does touches the cached resolution of the query.
  lemma OthersLeaveCached(w: World, s: State, ref: string, a: Action)
    requires !Resolves(w.crypto, a, ref)
    ensures ref in Acted(w, s, a).resolutions <==> ref in s.resolutions
    ensures ref in s.resolutions ==> Acted(w, s, a).resolutions[ref] == s.resolutions[ref]
  {
    hide Verified, GetID, RequestFor, Response;
  }

  lemma StaysEmpty(w: World, s: State, ref: string, a: Action, start: int)
    requires !Resolves(w.crypto, a, ref) && NothingCached(s, ref, start)
    ensures NothingCached(Acted(w, s, a), ref, start)
  {
    hide Resolves, Acted;
    OthersLeaveCached(w, s, ref, a);
    forall now | now >= start ensures Cached(Acted(w, s, a), ref, now).None? {
      assert Cached(s, ref, now).None?;
    }
  }

  lemma FirstIsCached(w: World, s: State, ref: string, a: Action, start: int)
    requires Resolves(w.crypto, a, ref) && NothingCached(s, ref, start) && a.now >= start
    ensures CachedAs(Acted(w, s, a), ref, a)
  {
    hide Verified;
    assert Cached(s, ref, a.now).None?;
  }

  lemma NewerIsCached(w: World, s: State, ref: string, old_: Action, a: Action)
    requires Resolves(w.crypto, a, ref) && CachedAs(s, ref, old_)
    requires w.parseTime(old_.msg.timestamp).Some? && w.parseTime(a.msg.timestamp).Some?
    requires a.now <= old_.now + RESOLUTION_TTL
    ensures CachedAs(Acted(w, s, a), ref, if Instant(w, old_.msg) < Instant(w, a.msg) then a else old_)
  {
    hide Verified;
  }

  // The newest so far stays the newest unless a newer response comes.
  lemma NewestSoFar(w: World, ref: string, before: seq<Action>, j: int, last: Action)
    requires AnyResolves(w.crypto, before, ref) ==> FirstNewest(w, ref, before, j)
    ensures Resolves(w.crypto, last, ref) ==> last.Receives?
    ensures var actions := before + [last];
            if !AnyResolves(w.crypto, before, ref)
            then Resolves(w.crypto, last, ref) ==> FirstNewest(w, ref, actions, |before|)
            else 0 <= j < |before| && before[j].Receives? && Resolves(w.crypto, before[j], ref)
                 && var newer := Resolves(w.crypto, last, ref) && Instant(w, before[j].msg) < Instant(w, last.msg);
                    FirstNewest(w, ref, actions, if newer then |before| else j)
  {
    hide Instant, Verified;
  }

  // Whatever the resolver does in between, of all valid responses to a query the newest is cached.
  lemma {:induction false} NewestWins(w: World, s: State, ref: string, actions: seq<Action>, start: int)
    returns (k: int)
    requires Unexpired(w, ref, actions, start) && NothingCached(s, ref, start)
    ensures if AnyResolves(w.crypto, actions, ref)
            then FirstNewest(w, ref, actions, k) && CachedAs(ActedAll(w, s, actions), ref, actions[k])
            else NothingCached(ActedAll(w, s, actions), ref, start)
    decreases |actions|
  {
    hide Resolves, Acted, Instant, Cached, NothingCached, FirstNewest;
    k := -1;
    if actions != [] {
      var before, last := actions[..|actions| - 1], actions[|actions| - 1];
      assert actions == before + [last];
      var j := NewestWins(w, s, ref, before, start);
      NewestSoFar(w, ref, before, j, last);
      var s1 := ActedAll(w, s, before);
      if !Resolves(w.crypto, last, ref) {
        OthersLeaveCached(w, s1, ref, last);
        if NothingCached(s1, ref, start) {
          StaysEmpty(w, s1, ref, last, start);
        }
        k := j;
      } else if AnyResolves(w.crypto, before, ref) {
        Readable(w, ref, before, start, j);
        NewerIsCached(w, s1, ref, actions[j], last);
        k := if Instant(w, actions[j].msg) < Instant(w, last.msg) then |actions| - 1 else j;
      } else {
        FirstIsCached(w, s1, ref, last, start);
        k := |actions| - 1;
      }
    }
  }

  // What was said of the responses in terms of when they were handled, said of the cache: each response
  // after the first finds a resolution there.
  ghost predicate StaysCached(w: World, s: State, ref: string, actions: seq<Action>, start: int)
    decreases |actions|
  {
    actions == [] ||
    var before, last := actions[..|actions| - 1], actions[|actions| - 1];
    StaysCached(w, s, ref, before, start)
    && (Resolves(w.crypto, last, ref) ==>
          w.parseTime(last.msg.timestamp).Some?
          && (if AnyResolves(w.crypto, before, ref) then Cached(ActedAll(w, s, before), ref, last.now).Some?
              else start <= last.now))
  }

  lemma OneFirstNewest(w: World, ref: string, actions: seq<Action>, j: int, k: int)
    requires FirstNewest(w, ref, actions, j) && FirstNewest(w, ref, actions, k)
    ensures j == k
  {
    hide Resolves, Instant;
  }

  lemma FoundWhileFresh(s: State, ref: string, a: Action, now: int)
    requires CachedAs(s, ref, a)
    ensures Cached(s, ref, now).Some? <==> now <= a.now + RESOLUTION_TTL
  {
  }

  // The hypothesis of NewestWins is exactly that nothing is found expired.
  lemma {:induction false} UnexpiredExactly(w: World, s: State, ref: string, actions: seq<Action>, start: int)
    requires NothingCached(s, ref, start)
    ensures Unexpired(w, ref, actions, start) <==> StaysCached(w, s, ref, actions, start)
    decreases |actions|
  {
    hide Resolves, Instant, Cached, NothingCached, FirstNewest, ActedAll, AnyResolves, CachedAs;
    if actions != [] {
      var before, last := actions[..|actions| - 1], actions[|actions| - 1];
      UnexpiredExactly(w, s, ref, before, start);
      if Unexpired(w, ref, before, start) && Resolves(w.crypto, last, ref) && AnyResolves(w.crypto, before, ref) {
        var j := NewestWins(w, s, ref, before, start);
        NewestSoFar(w, ref, before, j, last);
        FoundWhileFresh(ActedAll(w, s, before), ref, before[j], last.now);
        forall k | FirstNewest(w, ref, before, k) ensures k == j {
          OneFirstNewest(w, ref, before, j, k);
        }
      }
    }
  }

  // After ten seconds the resolution has expired, nothing is cached, and all begins anew.
  lemma ExpiredIsNothing(s: State, ref: string, a: Action)
    requires CachedAs(s, ref, a)
    ensures NothingCached(s, ref, a.now + 10_000_000_000 + 1)
  {
  }

  // Every response to the query that the first resolver handles, the second one handles too.
  ghost predicate Covers(p: Primitives, ref: string, xs: seq<Action>, ys: seq<Action>) {
    forall x :: x in xs && Resolves(p, x, ref) ==> exists y :: y in ys && Resolves(p, y, ref) && y.msg == x.msg
  }

  lemma CoveredToo(p: Primitives, ref: string, xs: seq<Action>, ys: seq<Action>)
    requires Covers(p, ref, xs, ys) && AnyResolves(p, xs, ref)
    ensures AnyResolves(p, ys, ref)
  {
    hide Resolves;
    var x :| x in xs && Resolves(p, x, ref);
  }

  lemma SameNewest(w: World, ref: string, xs: seq<Action>, i: int, ys: seq<Action>, j: int)
    requires FirstNewest(w, ref, xs, i) && FirstNewest(w, ref, ys, j) && Covers(w.crypto, ref, xs, ys)
    ensures Instant(w, xs[i].msg) <= Instant(w, ys[j].msg)
  {
    hide Instant;
    assert xs[i] in xs;
    var y :| y in ys && Resolves(w.crypto, y, ref) && y.msg == xs[i].msg;
    var k :| 0 <= k < |ys| && ys[k] == y;
  }

  // Resolvers that handled the same responses, in whatever order, as often as they came and whatever
  // they did besides, have resolutions of the same instant in their caches.
  lemma OrderDoesNotMatter(w: World, ref: string, s: State, xs: seq<Action>, start: int,
                           t: State, ys: seq<Action>, start': int)
    requires Unexpired(w, ref, xs, start) && NothingCached(s, ref, start)
    requires Unexpired(w, ref, ys, start') && NothingCached(t, ref, start')
    requires Covers(w.crypto, ref, xs, ys) && Covers(w.crypto, ref, ys, xs)
    requires AnyResolves(w.crypto, xs, ref)
    ensures ref in ActedAll(w, s, xs).resolutions && ref in ActedAll(w, t, ys).resolutions
    ensures Instant(w, ActedAll(w, s, xs).resolutions[ref].value)
         == Instant(w, ActedAll(w, t, ys).resolutions[ref].value)
  {
    hide Resolves, Instant, ActedAll, Unexpired, NothingCached, Covers;
    CoveredToo(w.crypto, ref, xs, ys);
    var i := NewestWins(w, s, ref, xs, start);
    var j := NewestWins(w, t, ref, ys, start');
    SameNewest(w, ref, xs, i, ys, j);
    SameNewest(w, ref, ys, j, xs, i);
  }
}
