/**
 Resolvers that all run ipfs_resolver.go, over a network that drops, duplicates and reorders: what was
 published once may be delivered to anyone, at any time, any number of times, or never.
 */
module Network {
  import opened Address
  import opened Cache
  import opened Crypto
  import opened Message
  import opened Names
  import opened Node
  import opened Resolver
  import opened Wrappers

  // ---------- the network as a state machine ----------

  // A goroutine of sendResolution: it sleeps, looks its query up, deletes it, and publishes.
  datatype Stage = Waiting | Found | Cleared
  datatype Task = Task(at: nat, msg: Message, stage: Stage)

  datatype Net = Net(resolvers: seq<State>, sent: set<Message>, tasks: multiset<Task>)

  // One call or one event handler at one resolver; a goroutine of sendResolution takes three steps.
  // Clocks need not agree, nor go forward.
  datatype Step =
    | StepAdd(at: nat, name: string, value: string, now: int)
    | StepManage(at: nat, addr: Address, now: int, up: bool)
    | StepSubscribe(at: nat, name: string, now: int, up: bool)
    | StepRemove(at: nat, name: string, now: int)
    | StepAsk(at: nat, name: string, now: int, up: bool, emitted: bool)
    | StepDeliver(at: nat, msg: Message, now: int, up: bool, stamp: string, random: int)
    | StepLoad(task: Task)
    | StepDelete(task: Task)
    | StepEmit(task: Task, now: int, up: bool, emitted: bool)

  function At(step: Step): nat {
    if step.StepLoad? || step.StepDelete? || step.StepEmit? then step.task.at else step.at
  }

  predicate Enabled(p: Primitives, s: Net, step: Step) {
    && At(step) < |s.resolvers|
    && match step
       case StepAsk(at, name, now, _, _) => ResolveLocally(p, s.resolvers[at], name, now).Ask?
       case StepDeliver(_, msg, _, _, _, _) => msg in s.sent
       case StepLoad(task) => task in s.tasks && task.stage == Waiting
       case StepDelete(task) => task in s.tasks && task.stage == Found
       case StepEmit(task, _, _, _) => task in s.tasks && task.stage == Cleared
       case _ => true
  }

  // What the step makes its resolver do.
  function Doing(p: Primitives, step: Step): Option<Action> {
    match step
    case StepAdd(_, name, value, now) => Some(Adds(name, value, now))
    case StepManage(_, addr, now, up) => Some(Manages(addr, now, up))
    case StepSubscribe(_, name, now, up) => Some(Subscribes(name, now, up))
    case StepRemove(_, name, now) => Some(Removes(name, now))
    case StepAsk(_, name, now, up, _) =>
      (match RequestFor(p, name)
       case Ok(rec) => Some(Subscribes(rec.address, now, up))
       case Err(_) => None)
    case StepDeliver(_, msg, now, up, stamp, random) => Some(Receives(msg, now, up, stamp, random))
    case StepLoad(_) => None
    case StepDelete(task) => Some(Forgets(task.msg.payload.reference))
    case StepEmit(task, now, up, _) => Some(Subscribes(task.msg.address, now, up))
  }

  // The resolver a step touches, afterwards.
  function Local(w: World, s: State, step: Step): State {
    match Doing(w.crypto, step)
    case None => s
    case Some(a) => Acted(w, s, a)
  }

  // What a step publishes. A failed publication of a query makes Resolve answer with the empty text.
  function Published(w: World, s: State, step: Step): set<Message> {
    match step
    case StepAsk(_, name, now, up, emitted) =>
      (match ResolveLocally(w.crypto, s, name, now)
       case Ask(rec) =>
         if emitted && Subscribed(s, Address(None, rec.address), now, up).1.Some? then {rec} else {}
       case _ => {})
    case StepEmit(task, now, up, emitted) =>
      if emitted && Subscribed(s, Address(None, task.msg.address), now, up).1.Some? then {task.msg} else {}
    case _ => {}
  }

  // A step publishes its query or response, and nothing when publishing fails or there is no resource to
  // publish through.
  lemma PublishedExactly(w: World, s: State, step: Step, m: Message)
    ensures m in Published(w, s, step)
       <==> (step.StepAsk? || step.StepEmit?) && step.emitted
            && (if step.StepEmit? then m == step.task.msg
                else ResolveLocally(w.crypto, s, step.name, step.now) == Ask(m))
            && (step.up || Find(s.resources, m.address, step.now).Some?)
  {
    hide ResolveLocally;
  }

  function Tasks(w: World, s: State, tasks: multiset<Task>, step: Step): multiset<Task> {
    match step
    case StepDeliver(at, msg, now, up, stamp, random) =>
      (match Dispatch(w, s, msg, now, up, stamp, random).1
       case None => tasks
       case Some(rec) => tasks + multiset{Task(at, rec, Waiting)})
    case StepLoad(task) =>
      tasks - multiset{task}
      + (if task.msg.payload.reference in s.pending then multiset{task.(stage := Found)} else multiset{})
    case StepDelete(task) => tasks - multiset{task} + multiset{task.(stage := Cleared)}
    case StepEmit(task, _, _, _) => tasks - multiset{task}
    case _ => tasks
  }

  function Next(w: World, s: Net, step: Step): Net
    requires Enabled(w.crypto, s, step)
  {
    var r := s.resolvers[At(step)];
    Net(s.resolvers[At(step) := Local(w, r, step)], s.sent + Published(w, r, step), Tasks(w, r, s.tasks, step))
  }

  ghost predicate IsStart(s: Net) {
    s.sent == {} && s.tasks == multiset{} && forall i :: 0 <= i < |s.resolvers| ==> s.resolvers[i] == FRESH
  }

  ghost predicate IsStep(w: World, s: Net, step: Step, s': Net) {
    Enabled(w.crypto, s, step) && s' == Next(w, s, step)
  }

  // Steps from state to state, beginning anywhere.
  ghost predicate IsPath(w: World, states: seq<Net>, steps: seq<Step>) {
    |states| == |steps| + 1 && forall t :: 0 <= t < |steps| ==> IsStep(w, states[t], steps[t], states[t + 1])
  }

  ghost predicate IsRun(w: World, states: seq<Net>, steps: seq<Step>) {
    IsPath(w, states, steps) && IsStart(states[0])
  }

  // ---------- where values come from ----------

  // Some resolver manages the address of the name and has the value under exactly that name.
  ghost predicate Holds(p: Primitives, s: Net, j: int, now: int, name: string, value: string) {
    0 <= j < |s.resolvers| && RequestFor(p, name).Ok?
    && IsManaged(s.resolvers[j], RequestFor(p, name).value.address, now)
    && Find(s.resolvers[j].backend, name, now) == Some(value)
  }

  ghost predicate HeldBy(p: Primitives, states: seq<Net>, n: int, name: string, value: string) {
    exists t, j, now :: 0 <= t <= n < |states| && Holds(p, states[t], j, now, name, value)
  }

  ghost predicate SoundRequest(p: Primitives, m: Message) {
    RequestFor(p, m.payload.data) == Ok(m)
  }

  // A response refers to a published request, and carries a value held for the name it asks about.
  ghost predicate Answers(p: Primitives, states: seq<Net>, n: int, m: Message, request: Message) {
    0 <= n < |states| && request in states[n].sent && SoundRequest(p, request)
    && m.payload.reference == GetID(p, request)
    && HeldBy(p, states, n, request.payload.data, m.payload.data)
  }

  ghost predicate SoundResponse(p: Primitives, states: seq<Net>, n: int, m: Message) {
    m.kind == RESPONSE && exists request :: Answers(p, states, n, m, request)
  }

  ghost predicate SoundMessage(p: Primitives, states: seq<Net>, n: int, m: Message) {
    SoundRequest(p, m) || SoundResponse(p, states, n, m)
  }

  // A cached resolution is signed, sits under its own reference, and is sound.
  ghost predicate SoundRecord(p: Primitives, states: seq<Net>, n: int, ref: string, m: Message) {
    Verified(p, m) && m.payload.reference == ref && SoundResponse(p, states, n, m)
  }

  ghost predicate SoundCache(p: Primitives, states: seq<Net>, n: int, s: State) {
    forall ref :: ref in s.resolutions ==> SoundRecord(p, states, n, ref, s.resolutions[ref].value)
  }

  ghost predicate SoundNet(p: Primitives, states: seq<Net>, n: int, s: Net) {
    && (forall m :: m in s.sent ==> SoundMessage(p, states, n, m))
    && (forall task :: task in s.tasks ==> SoundResponse(p, states, n, task.msg))
    && (forall i :: 0 <= i < |s.resolvers| ==> SoundCache(p, states, n, s.resolvers[i]))
  }

  ghost predicate Sound(p: Primitives, states: seq<Net>, n: int) {
    0 <= n < |states| && SoundNet(p, states, n, states[n])
  }

  // ---------- soundness is kept ----------

  lemma HeldLater(p: Primitives, states: seq<Net>, n: int, name: string, value: string)
    requires HeldBy(p, states, n, name, value) && n + 1 < |states|
    ensures HeldBy(p, states, n + 1, name, value)
  {
    var t, j, now :| 0 <= t <= n < |states| && Holds(p, states[t], j, now, name, value);
    assert Holds(p, states[t], j, now, name, value);
  }

  lemma SoundLater(p: Primitives, states: seq<Net>, n: int, m: Message)
    requires SoundResponse(p, states, n, m) && 0 <= n && n + 1 < |states| && states[n].sent <= states[n + 1].sent
    ensures SoundResponse(p, states, n + 1, m)
  {
    var request :| Answers(p, states, n, m, request);
    HeldLater(p, states, n, request.payload.data, m.payload.data);
    assert Answers(p, states, n + 1, m, request);
  }

  lemma CacheLater(p: Primitives, states: seq<Net>, n: int, s: State)
    requires SoundCache(p, states, n, s) && 0 <= n && n + 1 < |states| && states[n].sent <= states[n + 1].sent
    ensures SoundCache(p, states, n + 1, s)
  {
    forall ref | ref in s.resolutions ensures SoundRecord(p, states, n + 1, ref, s.resolutions[ref].value) {
      SoundLater(p, states, n, s.resolutions[ref].value);
    }
  }

  lemma ResponseIsSound(w: World, states: seq<Net>, n: int, i: nat, msg: Message, now: int, up: bool,
                        stamp: string, random: int)
    requires 0 <= n < |states| && i < |states[n].resolvers| && msg in states[n].sent && SoundRequest(w.crypto, msg)
    requires HandleQuery(w.crypto, states[n].resolvers[i], msg, now, up, stamp, random).1.Some?
    ensures SoundResponse(w.crypto, states, n,
                          HandleQuery(w.crypto, states[n].resolvers[i], msg, now, up, stamp, random).1.value)
  {
    hide GetID, HandleQuery, RequestFor;
    var p, s := w.crypto, states[n].resolvers[i];
    var rec := HandleQuery(p, s, msg, now, up, stamp, random).1.value;
    RespondsExactly(p, s, msg, now, up, stamp, random);
    var name := msg.payload.data;
    assert Holds(p, states[n], i, now, name, rec.payload.data);
    assert HeldBy(p, states, n, name, rec.payload.data);
    assert Answers(p, states, n, rec, msg);
  }

  // Only a query makes a resolver schedule a message, and then a sound one.
  lemma DispatchIsSound(w: World, states: seq<Net>, n: int, i: nat, msg: Message, now: int, up: bool,
                        stamp: string, random: int)
    requires 0 <= n < |states| && i < |states[n].resolvers|
             && msg in states[n].sent && SoundMessage(w.crypto, states, n, msg)
    requires Dispatch(w, states[n].resolvers[i], msg, now, up, stamp, random).1.Some?
    ensures SoundResponse(w.crypto, states, n, Dispatch(w, states[n].resolvers[i], msg, now, up, stamp, random).1.value)
  {
    hide HandleQuery, HandleResolution, SoundRequest, Answers;
    ResponseIsSound(w, states, n, i, msg, now, up, stamp, random);
  }

  // A step leaves the cache of resolutions alone, or handles a published resolution.
  lemma CacheChanges(w: World, s: State, step: Step)
    ensures Local(w, s, step).resolutions == s.resolutions
         || (step.StepDeliver? && step.msg.kind == RESPONSE && Verified(w.crypto, step.msg)
             && exists now :: Local(w, s, step).resolutions
                              == Put(s.resolutions, step.msg.payload.reference, step.msg, RESOLUTION_TTL, now))
  {
    hide Verified, GetID, RequestFor, Response;
  }

  lemma RequestIsNoResponse(p: Primitives, m: Message)
    requires SoundRequest(p, m)
    ensures m.kind == REQUEST && m.kind != RESPONSE
  {
  }

  lemma CacheStaysSound(w: World, states: seq<Net>, n: int, i: nat, step: Step)
    requires Sound(w.crypto, states, n) && n + 1 < |states| && IsStep(w, states[n], step, states[n + 1])
    requires i < |states[n].resolvers|
    ensures |states[n + 1].resolvers| == |states[n].resolvers|
    ensures SoundCache(w.crypto, states, n + 1, states[n + 1].resolvers[i])
  {
    hide Verified, GetID, RequestFor, Local, Published, Tasks;
    var p, s := w.crypto, states[n].resolvers[i];
    assert SoundCache(p, states, n, s);
    CacheLater(p, states, n, s);
    if i == At(step) {
      CacheChanges(w, s, step);
      if Local(w, s, step).resolutions != s.resolutions {
        assert SoundMessage(p, states, n, step.msg);
        if SoundRequest(p, step.msg) {
          RequestIsNoResponse(p, step.msg);
        }
        SoundLater(p, states, n, step.msg);
      }
    }
  }

  lemma SentStaysSound(w: World, states: seq<Net>, n: int, step: Step, m: Message)
    requires Sound(w.crypto, states, n) && n + 1 < |states| && IsStep(w, states[n], step, states[n + 1])
    requires m in states[n + 1].sent
    ensures SoundMessage(w.crypto, states, n + 1, m)
  {
    hide Verified, GetID, Local, Tasks, QueryAddress, Subscribed, IsManaged;
    var p := w.crypto;
    if m in states[n].sent {
      assert SoundMessage(p, states, n, m);
      if !SoundRequest(p, m) {
        SoundLater(p, states, n, m);
      }
    } else if step.StepEmit? {
      assert step.task in states[n].tasks;
      SoundLater(p, states, n, m);
    }
  }

  // A task after a step is one from before, at some stage, or one a delivery scheduled.
  lemma TaskOrigin(w: World, s: Net, step: Step, s': Net, task: Task)
    requires IsStep(w, s, step, s') && task in s'.tasks
    ensures (exists t :: t in s.tasks && t.msg == task.msg)
         || (step.StepDeliver?
             && Dispatch(w, s.resolvers[step.at], step.msg, step.now, step.up, step.stamp, step.random).1
                == Some(task.msg))
  {
    hide Local, Published, Dispatch;
    if task in s.tasks {
    } else if step.StepLoad? || step.StepDelete? {
      assert step.task in s.tasks && step.task.msg == task.msg;
    }
  }

  lemma TasksStaySound(w: World, states: seq<Net>, n: int, step: Step, task: Task)
    requires Sound(w.crypto, states, n) && n + 1 < |states| && IsStep(w, states[n], step, states[n + 1])
    requires task in states[n + 1].tasks
    ensures SoundResponse(w.crypto, states, n + 1, task.msg)
  {
    hide Local, Published, Tasks, Dispatch, SoundResponse, SoundMessage;
    TaskOrigin(w, states[n], step, states[n + 1], task);
    if exists t :: t in states[n].tasks && t.msg == task.msg {
    } else {
      assert SoundMessage(w.crypto, states, n, step.msg);
      DispatchIsSound(w, states, n, step.at, step.msg, step.now, step.up, step.stamp, step.random);
    }
    SoundLater(w.crypto, states, n, task.msg);
  }

  lemma StepKeepsSound(w: World, states: seq<Net>, n: int, step: Step)
    requires Sound(w.crypto, states, n) && n + 1 < |states| && IsStep(w, states[n], step, states[n + 1])
    ensures Sound(w.crypto, states, n + 1)
  {
    hide SoundMessage, SoundResponse, SoundCache, Local, Published, Tasks;
    var s' := states[n + 1];
    forall m | m in s'.sent ensures SoundMessage(w.crypto, states, n + 1, m) {
      SentStaysSound(w, states, n, step, m);
    }
    forall task | task in s'.tasks ensures SoundResponse(w.crypto, states, n + 1, task.msg) {
      TasksStaySound(w, states, n, step, task);
    }
    forall i | 0 <= i < |s'.resolvers| ensures SoundCache(w.crypto, states, n + 1, s'.resolvers[i]) {
      CacheStaysSound(w, states, n, i, step);
    }
  }

  lemma StartIsSound(p: Primitives, states: seq<Net>)
    requires states != [] && IsStart(states[0])
    ensures Sound(p, states, 0)
  {
  }

  lemma {:induction false} RunIsSound(w: World, states: seq<Net>, steps: seq<Step>, n: nat)
    requires IsRun(w, states, steps) && n < |states|
    ensures Sound(w.crypto, states, n)
    decreases n
  {
    hide Enabled, Next, SoundMessage, SoundResponse;
    if n == 0 {
      StartIsSound(w.crypto, states);
    } else {
      hide Sound;
      RunIsSound(w, states, steps, n - 1);
      StepKeepsSound(w, states, n - 1, steps[n - 1]);
    }
  }

  // ---------- protocol safety ----------

  // SHA-256 does not give the query of the name the hash of another message published in the run.
  ghost predicate NoConfusion(p: Primitives, s: Net, name: string) {
    RequestFor(p, name).Ok?
    && forall m {:trigger Preimage(m)} :: m in s.sent ==>
         var (x, y) := (Preimage(m), Preimage(RequestFor(p, name).value));
         p.sha256(x) == p.sha256(y) ==> x == y
  }

  // Safety: in every run, what a resolver finds in its cache for the query of a name, which is what
  // Resolve answers for a name whose address it does not manage, is a value that some resolver
  // managing the address held, then or before, under exactly that name.
  lemma AnswersWereHeld(w: World, states: seq<Net>, steps: seq<Step>, n: nat, i: nat, name: string, now: int)
    requires IsRun(w, states, steps) && n < |states| && i < |states[n].resolvers|
    requires NoConfusion(w.crypto, states[n], name)
    requires Cached(states[n].resolvers[i], GetID(w.crypto, RequestFor(w.crypto, name).value), now).Some?
    ensures HeldBy(w.crypto, states, n, name,
                   Cached(states[n].resolvers[i],
                          GetID(w.crypto, RequestFor(w.crypto, name).value), now).value.payload.data)
  {
    hide Verified, GetID, Preimage, IsRun, HeldBy, QueryAddress;
    var p, s := w.crypto, states[n].resolvers[i];
    var ref := GetID(p, RequestFor(p, name).value);
    RunIsSound(w, states, steps, n);
    assert SoundCache(p, states, n, s);
    assert SoundRecord(p, states, n, ref, s.resolutions[ref].value);
    var m := s.resolutions[ref].value;
    var request :| Answers(p, states, n, m, request);
    IdentifierIsHash(p, request, RequestFor(p, name).value);
    RequestTextInjective(p, request.payload.data, name);
  }

  // ---------- a call of Resolve in a run ----------

  // What resolver i does in the steps from `from` to `end`.
  function Doings(p: Primitives, steps: seq<Step>, i: nat, from: nat, end: nat): seq<Action>
    requires from <= end <= |steps|
    decreases end
  {
    if from == end then []
    else
      Doings(p, steps, i, from, end - 1)
      + if At(steps[end - 1]) == i && Doing(p, steps[end - 1]).Some? then [Doing(p, steps[end - 1]).value] else []
  }

  // A step changes one resolver, and loses nothing that was published.
  lemma StepIsLocal(w: World, s: Net, step: Step, s': Net)
    requires IsStep(w, s, step, s')
    ensures At(step) < |s.resolvers| == |s'.resolvers| && s.sent <= s'.sent
    ensures s'.resolvers[At(step)] == Local(w, s.resolvers[At(step)], step)
    ensures forall i :: 0 <= i < |s.resolvers| && i != At(step) ==> s'.resolvers[i] == s.resolvers[i]
  {
    hide Local, Published, Tasks;
  }

  // A resolver's state only changes by what it does.
  lemma {:induction false} RunActs(w: World, states: seq<Net>, steps: seq<Step>, i: nat, from: nat, end: nat)
    requires IsPath(w, states, steps) && from <= end <= |steps| && i < |states[from].resolvers|
    ensures i < |states[end].resolvers|
    ensures states[end].resolvers[i] == ActedAll(w, states[from].resolvers[i], Doings(w.crypto, steps, i, from, end))
    decreases end
  {
    hide Acted, Doing, IsStep, At;
    if from < end {
      RunActs(w, states, steps, i, from, end - 1);
      StepIsLocal(w, states[end - 1], steps[end - 1], states[end]);
      var before, step := Doings(w.crypto, steps, i, from, end - 1), steps[end - 1];
      if At(step) == i && Doing(w.crypto, step).Some? {
        ActedOneMore(w, states[from].resolvers[i], before, Doing(w.crypto, step).value);
      } else {
        assert before + [] == before;
      }
    }
  }

  // A query looks at the cache in state n of the run, by the clock of its resolver.
  datatype Glance = Glance(n: nat, now: int)

  predicate InOrder(looks: seq<Glance>, from: nat, end: nat) {
    looks == [] || (from <= looks[0].n <= end && InOrder(looks[1..], looks[0].n, end))
  }

  // The turns of a query that looks at the cache in those states: between them, its resolver does what
  // the run makes it do.
  function Turns(p: Primitives, steps: seq<Step>, i: nat, from: nat, looks: seq<Glance>): (turns: seq<Turn>)
    requires InOrder(looks, from, |steps|)
    ensures |turns| == |looks|
    decreases |looks|
  {
    if looks == [] then []
    else [Turn(Doings(p, steps, i, from, looks[0].n), looks[0].now)] + Turns(p, steps, i, looks[0].n, looks[1..])
  }

  // Resolver i calls Resolve in state n. If it has to ask the network, that is the next step of the
  // run; then it looks at its cache, again and again, and whatever else happens.
  ghost predicate Calls(w: World, states: seq<Net>, steps: seq<Step>, n: nat, i: nat, name: string, now: int, up: bool,
                        emitted: bool, looks: seq<Glance>)
  {
    IsPath(w, states, steps) && n < |states| && i < |states[n].resolvers| && InOrder(looks, n + 1, |steps|)
    && (ResolveLocally(w.crypto, states[n].resolvers[i], name, now).Ask? ==>
          n < |steps| && steps[n] == StepAsk(i, name, now, up, emitted))
  }

  // A look in a turn is a look at the cache of that state of the run.
  lemma {:induction false} LookInRun(w: World, states: seq<Net>, steps: seq<Step>, i: nat, from: nat,
                                     looks: seq<Glance>, key: string, j: nat)
    requires IsPath(w, states, steps) && from <= |steps| && i < |states[from].resolvers|
    requires InOrder(looks, from, |steps|) && j < |looks|
    ensures from <= looks[j].n <= |steps| && i < |states[looks[j].n].resolvers|
    ensures Look(w, states[from].resolvers[i], key, Turns(w.crypto, steps, i, from, looks), j)
         == Cached(states[looks[j].n].resolvers[i], key, looks[j].now)
    decreases j
  {
    hide IsPath, Doings, ActedAll, Cached;
    RunActs(w, states, steps, i, from, looks[0].n);
    if j > 0 {
      LookInRun(w, states, steps, i, looks[0].n, looks[1..], key, j - 1);
    }
  }

  lemma {:induction false} SentGrows(w: World, states: seq<Net>, steps: seq<Step>, a: nat, b: nat)
    requires IsPath(w, states, steps) && a <= b < |states|
    ensures states[a].sent <= states[b].sent
    decreases b
  {
    hide IsStep, Local, At;
    if a < b {
      SentGrows(w, states, steps, a, b - 1);
      StepIsLocal(w, states[b - 1], steps[b - 1], states[b]);
    }
  }

  // The state of the resolver once it has asked is the one in which its query starts to wait.
  lemma AskSubscribes(w: World, states: seq<Net>, steps: seq<Step>, n: nat, i: nat, name: string, now: int, up: bool,
                      emitted: bool, looks: seq<Glance>)
    requires Calls(w, states, steps, n, i, name, now, up, emitted, looks)
    requires ResolveLocally(w.crypto, states[n].resolvers[i], name, now).Ask?
    ensures RequestFor(w.crypto, name).Ok? && n + 1 < |states| && i < |states[n + 1].resolvers|
    ensures var request := RequestFor(w.crypto, name).value;
            ResolveLocally(w.crypto, states[n].resolvers[i], name, now) == Ask(request)
            && states[n + 1].resolvers[i]
               == Subscribed(states[n].resolvers[i], Address(None, request.address), now, up).0
  {
    hide GetID, RequestFor, IsStep, InOrder;
    StepIsLocal(w, states[n], steps[n], states[n + 1]);
  }

  // Look k is the first that finds the message.
  ghost predicate FoundAt(states: seq<Net>, i: nat, looks: seq<Glance>, key: string, k: int, m: Message) {
    0 <= k < |looks|
    && (forall j :: 0 <= j <= k ==> looks[j].n < |states| && i < |states[looks[j].n].resolvers|)
    && Cached(states[looks[k].n].resolvers[i], key, looks[k].now) == Some(m)
    && (forall j :: 0 <= j < k ==> Cached(states[looks[j].n].resolvers[i], key, looks[j].now).None?)
  }

  // What a published query of the run returns is what it found in its cache in the state of one of its
  // looks, the first that found something.
  lemma QueryLooks(w: World, states: seq<Net>, steps: seq<Step>, i: nat, n: nat, looks: seq<Glance>, key: string)
    requires IsPath(w, states, steps) && n <= |steps| && i < |states[n].resolvers| && InOrder(looks, n, |steps|)
    ensures var r := PollTurns(w, states[n].resolvers[i], key, Turns(w.crypto, steps, i, n, looks)).1;
            r.Ok? ==> exists k :: FoundAt(states, i, looks, key, k, r.value)
  {
    hide PollTurns, Look, Cached, IsStep, IsStart;
    var s, turns := states[n].resolvers[i], Turns(w.crypto, steps, i, n, looks);
    var r := PollTurns(w, s, key, turns).1;
    PollsUntilCached(w, s, key, turns);
    if r.Ok? {
      var k :| FirstFinds(w, s, key, turns, k, r.value);
      forall j | 0 <= j <= k
        ensures looks[j].n < |states| && i < |states[looks[j].n].resolvers|
        ensures Look(w, s, key, turns, j) == Cached(states[looks[j].n].resolvers[i], key, looks[j].now)
      {
        LookInRun(w, states, steps, i, n, looks, key, j);
      }
      assert FoundAt(states, i, looks, key, k, r.value);
    }
  }

  // The value was held when look k of a call found it, k being the first look that found anything.
  ghost predicate FoundAndHeld(p: Primitives, states: seq<Net>, i: nat, looks: seq<Glance>,
                               name: string, k: int, value: string)
  {
    RequestFor(p, name).Ok? && 0 <= k < |looks|
    && (exists m :: FoundAt(states, i, looks, GetID(p, RequestFor(p, name).value), k, m) && m.payload.data == value)
    && HeldBy(p, states, looks[k].n, name, value)
  }

  lemma SameQueries(w: World, states: seq<Net>, steps: seq<Step>, n: nat, name: string)
    requires IsRun(w, states, steps) && n < |states| && NoConfusion(w.crypto, states[|states| - 1], name)
    ensures NoConfusion(w.crypto, states[n], name)
  {
    hide IsPath, GetID, Preimage, RequestFor;
    SentGrows(w, states, steps, n, |states| - 1);
  }

  lemma FoundIsHeld(w: World, states: seq<Net>, steps: seq<Step>, i: nat, looks: seq<Glance>,
                    name: string, k: int, m: Message)
    requires IsRun(w, states, steps) && NoConfusion(w.crypto, states[|states| - 1], name)
    requires RequestFor(w.crypto, name).Ok?
    requires FoundAt(states, i, looks, GetID(w.crypto, RequestFor(w.crypto, name).value), k, m)
    ensures FoundAndHeld(w.crypto, states, i, looks, name, k, m.payload.data)
  {
    hide IsRun, GetID, HeldBy, Cached, NoConfusion, RequestFor;
    SameQueries(w, states, steps, looks[k].n, name);
    AnswersWereHeld(w, states, steps, looks[k].n, i, name, looks[k].now);
  }

  lemma LocalAnswerIsSafe(w: World, states: seq<Net>, steps: seq<Step>, n: nat, i: nat, name: string, now: int)
    requires IsRun(w, states, steps) && n < |states| && i < |states[n].resolvers|
    requires NoConfusion(w.crypto, states[n], name)
    requires ResolveLocally(w.crypto, states[n].resolvers[i], name, now).Answer?
    ensures HeldBy(w.crypto, states, n, name, ResolveLocally(w.crypto, states[n].resolvers[i], name, now).value)
  {
    hide Verified, GetID, Preimage, IsRun, QueryAddress, NoConfusion;
    var p, s := w.crypto, states[n].resolvers[i];
    assert RequestFor(p, name).Ok?;
    if IsManaged(s, RequestFor(p, name).value.address, now) {
      assert Holds(p, states[n], i, now, name, ResolveLocally(p, s, name, now).value);
    } else {
      AnswersWereHeld(w, states, steps, n, i, name, now);
    }
  }

  // Safety of Resolve. In every run, and whatever happens while it waits, a call of Resolve that
  // succeeds answers without the network, with a value held then or before; or, when publishing the
  // query failed, with the empty text; or with a value held when it was found. Held means: by a
  // resolver managing the address, under exactly that name.
  lemma ResolveIsSafe(w: World, states: seq<Net>, steps: seq<Step>, n: nat, i: nat, name: string, now: int, up: bool,
                      emitted: bool, looks: seq<Glance>)
    requires Calls(w, states, steps, n, i, name, now, up, emitted, looks) && IsStart(states[0])
    requires NoConfusion(w.crypto, states[|states| - 1], name)
    ensures var s := states[n].resolvers[i];
            var r := Resolved(w, s, name, now, up, emitted, Turns(w.crypto, steps, i, n + 1, looks)).1;
            r.Ok? ==>
              if ResolveLocally(w.crypto, s, name, now).Answer? then HeldBy(w.crypto, states, n, name, r.value)
              else if !emitted then r.value == ""
              else exists k :: FoundAndHeld(w.crypto, states, i, looks, name, k, r.value)
  {
    hide Verified, GetID, Preimage, IsPath, QueryAddress, PollTurns, NoConfusion, HeldBy, FoundAt,
         FoundAndHeld, InOrder;
    var p, s := w.crypto, states[n].resolvers[i];
    var local := ResolveLocally(p, s, name, now);
    if local.Answer? {
      SameQueries(w, states, steps, n, name);
      LocalAnswerIsSafe(w, states, steps, n, i, name, now);
    } else if local.Ask? && emitted && Subscribed(s, Address(None, local.request.address), now, up).1.Some? {
      AskSubscribes(w, states, steps, n, i, name, now, up, emitted, looks);
      var key := GetID(p, RequestFor(p, name).value);
      var r := PollTurns(w, states[n + 1].resolvers[i], key, Turns(p, steps, i, n + 1, looks)).1;
      QueryLooks(w, states, steps, i, n + 1, looks, key);
      if r.Ok? {
        var k :| FoundAt(states, i, looks, key, k, r.value);
        FoundIsHeld(w, states, steps, i, looks, name, k, r.value);
      }
    }
  }

  // ---------- a query is answered ----------

  // What the steps of sendResolution and of the deliveries do to messages and tasks.
  lemma DeliveredQuery(w: World, s: Net, j: nat, msg: Message, now: int, up: bool,
                       stamp: string, random: int, rec: Message)
    requires j < |s.resolvers| && msg in s.sent && msg.kind == REQUEST
    requires HandleQuery(w.crypto, s.resolvers[j], msg, now, up, stamp, random).1 == Some(rec)
    ensures var step := StepDeliver(j, msg, now, up, stamp, random);
            && Enabled(w.crypto, s, step) && Task(j, rec, Waiting) in Next(w, s, step).tasks
            && |Next(w, s, step).resolvers| == |s.resolvers|
            && Next(w, s, step).resolvers[j] == HandleQuery(w.crypto, s.resolvers[j], msg, now, up, stamp, random).0
  {
    hide HandleQuery, HandleResolution, ResolveLocally, RequestFor;
  }

  lemma LoadedTask(w: World, s: Net, j: nat, rec: Message)
    requires Task(j, rec, Waiting) in s.tasks && j < |s.resolvers|
    requires rec.payload.reference in s.resolvers[j].pending
    ensures Enabled(w.crypto, s, StepLoad(Task(j, rec, Waiting)))
    ensures Next(w, s, StepLoad(Task(j, rec, Waiting))).resolvers == s.resolvers
    ensures Task(j, rec, Found) in Next(w, s, StepLoad(Task(j, rec, Waiting))).tasks
  {
    assert s.resolvers[j := s.resolvers[j]] == s.resolvers;
  }

  lemma DeletedTask(w: World, s: Net, j: nat, rec: Message)
    requires Task(j, rec, Found) in s.tasks && j < |s.resolvers|
    ensures Enabled(w.crypto, s, StepDelete(Task(j, rec, Found)))
    ensures Task(j, rec, Cleared) in Next(w, s, StepDelete(Task(j, rec, Found))).tasks
    ensures Next(w, s, StepDelete(Task(j, rec, Found))).resolvers
         == s.resolvers[j := s.resolvers[j].(pending := s.resolvers[j].pending - {rec.payload.reference})]
  {
  }

  lemma EmittedTask(w: World, s: Net, j: nat, rec: Message, now: int, up: bool)
    requires Task(j, rec, Cleared) in s.tasks && j < |s.resolvers|
    requires up || Find(s.resolvers[j].resources, rec.address, now).Some?
    ensures Enabled(w.crypto, s, StepEmit(Task(j, rec, Cleared), now, up, true))
    ensures rec in Next(w, s, StepEmit(Task(j, rec, Cleared), now, up, true)).sent
  {
  }

  // The clocks and circumstances of a query and its answer.
  datatype Exchange = Exchange(
    asked: int, askerUp: bool,                             // when the query is published, and
    handled: int, handlerUp: bool, stamp: string, random: int, // handled by a resolver that manages the address,
    sent: int, senderUp: bool,                             // when the response is published
    received: int, receiverUp: bool                        // and handled by the asking resolver
  )

  function Steps(e: Exchange, i: nat, j: nat, name: string, request: Message, rec: Message): seq<Step> {
    [StepAsk(i, name, e.asked, e.askerUp, true),
     StepDeliver(j, request, e.handled, e.handlerUp, e.stamp, e.random),
     StepLoad(Task(j, rec, Waiting)),
     StepDelete(Task(j, rec, Found)),
     StepEmit(Task(j, rec, Cleared), e.sent, e.senderUp, true),
     StepDeliver(i, rec, e.received, e.receiverUp, "", 0)]
  }

  // Resolver j has keys for the address of the name and holds the value; both can publish; and nothing is
  // cached at resolver i when the response comes.
  ghost predicate CanAnswer(w: World, s: Net, e: Exchange, i: nat, j: nat, name: string, value: string, d: nat) {
    && CurveLaws(w.crypto) && 0 < d < ORDER && i < |s.resolvers| && j < |s.resolvers| && i != j
    && ResolveLocally(w.crypto, s.resolvers[i], name, e.asked).Ask?
    && RequestFor(w.crypto, name).Ok?
    && var (asker, owner, request) := (s.resolvers[i], s.resolvers[j], RequestFor(w.crypto, name).value);
       && (e.askerUp || Find(asker.resources, request.address, e.asked).Some?)
       && (e.senderUp || Find(owner.resources, request.address, e.sent).Some?)
       && Find(owner.resources, request.address, e.handled).Some?
       && Find(owner.resources, request.address, e.handled).value.keys == Some(NewKeyPair(w.crypto, d))
       && Find(owner.backend, name, e.handled) == Some(value)
       && Cached(asker, GetID(w.crypto, request), e.received).None?
  }

  // The query is published, and reaches the owner, who answers; the first two steps.
  lemma QueryArrives(w: World, s: Net, e: Exchange, i: nat, j: nat, name: string, value: string, d: nat)
    returns (rec: Message, s1: Net, s2: Net)
    requires CanAnswer(w, s, e, i, j, name, value, d)
    ensures var request := RequestFor(w.crypto, name).value; var steps := Steps(e, i, j, name, request, rec);
            && IsStep(w, s, steps[0], s1) && IsStep(w, s1, steps[1], s2)
            && Task(j, rec, Waiting) in s2.tasks && Verified(w.crypto, rec) && rec.kind == RESPONSE
            && rec.address == request.address && rec.payload == Query(value, GetID(w.crypto, request))
            && |s2.resolvers| == |s.resolvers| && s2.resolvers[i].resolutions == s.resolvers[i].resolutions
            && s2.resolvers[j].resources == s.resolvers[j].resources
            && GetID(w.crypto, request) in s2.resolvers[j].pending
  {
    hide GetID, Verified, HandleQuery, Tasks, QueryAddress, NewKeyPair, CurveLaws;
    var (p, request) := (w.crypto, RequestFor(w.crypto, name).value);
    var step1 := StepAsk(i, name, e.asked, e.askerUp, true);
    s1 := Next(w, s, step1);
    StepIsLocal(w, s, step1, s1);
    var step2 := StepDeliver(j, request, e.handled, e.handlerUp, e.stamp, e.random);
    OwnerResponds(p, s1.resolvers[j], request, d, e.handled, e.handlerUp, e.stamp, e.random);
    RespondsExactly(p, s1.resolvers[j], request, e.handled, e.handlerUp, e.stamp, e.random);
    rec := HandleQuery(p, s1.resolvers[j], request, e.handled, e.handlerUp, e.stamp, e.random).1.value;
    s2 := Next(w, s1, step2);
    StepIsLocal(w, s1, step2, s2);
    DeliveredQuery(w, s1, j, request, e.handled, e.handlerUp, e.stamp, e.random, rec);
  }

  // The waiting response is found pending and published; the next three steps.
  lemma ResponseLeaves(w: World, s: Net, j: nat, rec: Message, now: int, up: bool) returns (s1: Net, s2: Net, s3: Net)
    requires j < |s.resolvers| && Task(j, rec, Waiting) in s.tasks && rec.payload.reference in s.resolvers[j].pending
    requires up || Find(s.resolvers[j].resources, rec.address, now).Some?
    ensures IsStep(w, s, StepLoad(Task(j, rec, Waiting)), s1) && IsStep(w, s1, StepDelete(Task(j, rec, Found)), s2)
    ensures IsStep(w, s2, StepEmit(Task(j, rec, Cleared), now, up, true), s3)
    ensures rec in s3.sent && |s3.resolvers| == |s.resolvers|
    ensures forall i :: 0 <= i < |s.resolvers| && i != j ==> s3.resolvers[i] == s.resolvers[i]
  {
    hide Local, Published, Tasks, Next, Enabled;
    LoadedTask(w, s, j, rec);
    s1 := Next(w, s, StepLoad(Task(j, rec, Waiting)));
    DeletedTask(w, s1, j, rec);
    s2 := Next(w, s1, StepDelete(Task(j, rec, Found)));
    EmittedTask(w, s2, j, rec, now, up);
    s3 := Next(w, s2, StepEmit(Task(j, rec, Cleared), now, up, true));
    StepIsLocal(w, s2, StepEmit(Task(j, rec, Cleared), now, up, true), s3);
  }

  lemma ResponseArrives(w: World, s: Net, i: nat, rec: Message, now: int, up: bool) returns (s1: Net)
    requires i < |s.resolvers| && rec in s.sent && rec.kind == RESPONSE && Verified(w.crypto, rec)
    requires Cached(s.resolvers[i], rec.payload.reference, now).None?
    ensures IsStep(w, s, StepDeliver(i, rec, now, up, "", 0), s1)
    ensures i < |s1.resolvers| && s1.resolvers[i].resolutions
         == Put(s.resolvers[i].resolutions, rec.payload.reference, rec, RESOLUTION_TTL, now)
  {
    hide Verified;
    s1 := Next(w, s, StepDeliver(i, rec, now, up, "", 0));
  }

  // Queries are answered: when a resolver asks for a name, and its query and the owner's response get
  // through, then it has the value in its cache, and looking there finds it until it expires.
  lemma QueryIsAnswered(w: World, s: Net, e: Exchange, i: nat, j: nat, name: string, value: string, d: nat)
    returns (rec: Message, states: seq<Net>)
    requires CanAnswer(w, s, e, i, j, name, value, d)
    ensures var request := RequestFor(w.crypto, name).value;
            IsPath(w, states, Steps(e, i, j, name, request, rec)) && states[0] == s && i < |states[6].resolvers|
            && rec.payload.data == value
            && forall look :: look <= e.received + RESOLUTION_TTL ==>
                 Cached(states[6].resolvers[i], GetID(w.crypto, request), look) == Some(rec)
  {
    hide GetID, Verified, IsStep, RequestFor, Subscribed, NewKeyPair, CurveLaws, ResolveLocally;
    var request := RequestFor(w.crypto, name).value;
    var s1, s2, s3, s4, s5, s6;
    rec, s1, s2 := QueryArrives(w, s, e, i, j, name, value, d);
    s3, s4, s5 := ResponseLeaves(w, s2, j, rec, e.sent, e.senderUp);
    s6 := ResponseArrives(w, s5, i, rec, e.received, e.receiverUp);
    states := [s, s1, s2, s3, s4, s5, s6];
  }

  // So a call of Resolve that looks at its cache then answers the value.
  lemma ResolveIsAnswered(w: World, s: Net, e: Exchange, i: nat, j: nat, name: string, value: string, d: nat, look: int)
    returns (rec: Message, states: seq<Net>)
    requires CanAnswer(w, s, e, i, j, name, value, d) && look <= e.received + RESOLUTION_TTL
    ensures var steps := Steps(e, i, j, name, RequestFor(w.crypto, name).value, rec);
            IsPath(w, states, steps) && states[0] == s
            && Resolved(w, s.resolvers[i], name, e.asked, e.askerUp, true,
                        Turns(w.crypto, steps, i, 1, [Glance(6, look)])).1 == Ok(value)
  {
    hide GetID, IsStep, RequestFor, NewKeyPair, CurveLaws, ResolveLocally, Doings, ActedAll;
    rec, states := QueryIsAnswered(w, s, e, i, j, name, value, d);
    var (p, looks) := (w.crypto, [Glance(6, look)]);
    var steps := Steps(e, i, j, name, RequestFor(p, name).value, rec);
    assert looks[1..] == [] && InOrder(looks, 1, |steps|);
    AskSubscribes(w, states, steps, 0, i, name, e.asked, e.askerUp, true, looks);
    LookInRun(w, states, steps, i, 1, looks, GetID(p, RequestFor(p, name).value), 0);
  }

  // From the start it takes no more than that the owner manages its address and adds the name.
  lemma OwnerCanAnswer(w: World, s: Net, e: Exchange, i: nat, j: nat, addr: Address, d: nat,
                       name: string, value: string, managed: int, added: int)
    returns (s1: Net, s2: Net)
    requires CurveLaws(w.crypto) && 0 < d < ORDER && addr.keys == Some(NewKeyPair(w.crypto, d))
    requires RequestFor(w.crypto, name).Ok? && RequestFor(w.crypto, name).value.address == addr.address
    requires IsStart(s) && i < |s.resolvers| && j < |s.resolvers| && i != j && e.askerUp
    ensures IsStep(w, s, StepManage(j, addr, managed, true), s1) && IsStep(w, s1, StepAdd(j, name, value, added), s2)
    ensures CanAnswer(w, s2, e, i, j, name, value, d)
  {
    hide GetID, RequestFor, NewKeyPair, CurveLaws, Tasks, Published, Acted, ResolveLocally, Cached;
    KeyRoundTrip(w.crypto, d);
    s1 := Next(w, s, StepManage(j, addr, managed, true));
    s2 := Next(w, s1, StepAdd(j, name, value, added));
    assert s2.resolvers[i] == FRESH;
    FreshResolverAsks(w.crypto, name, e.asked, GetID(w.crypto, RequestFor(w.crypto, name).value), e.received);
    AddedAfterManaging(w, addr, name, value, managed, added, e.handled);
    AddedAfterManaging(w, addr, name, value, managed, added, e.sent);
  }

  // What the other calls do to who is managed and subscribed.
  lemma SubscribedAndRemoved(w: World, s: State, at: nat, name: string, now: int, up: bool)
    ensures !IsManaged(Local(w, s, StepRemove(at, name, now)), name, now)
    ensures Find(Local(w, s, StepSubscribe(at, name, now, up)).resources, name, now).Some?
       <==> up || Find(s.resources, name, now).Some?
    ensures IsManaged(Local(w, s, StepSubscribe(at, name, now, up)), name, now) <==> IsManaged(s, name, now)
  {
  }

  // ---------- newest wins, on the network ----------

  // In this part of the run the valid responses to the query that reach resolver i have readable
  // timestamps and find nothing expired; nothing was cached before.
  ghost predicate Listens(w: World, states: seq<Net>, steps: seq<Step>, i: nat, from: nat, end: nat,
                          ref: string, start: int)
  {
    from <= end <= |steps| && |states| == |steps| + 1 && i < |states[from].resolvers|
    && NothingCached(states[from].resolvers[i], ref, start)
    && Unexpired(w, ref, Doings(w.crypto, steps, i, from, end), start)
  }

  // Of those responses the newest is cached, whatever else the network and the resolver do.
  lemma NewestIsCached(w: World, states: seq<Net>, steps: seq<Step>, i: nat, from: nat, end: nat,
                       ref: string, start: int)
    returns (k: int)
    requires IsRun(w, states, steps) && Listens(w, states, steps, i, from, end, ref, start)
    ensures i < |states[end].resolvers|
    ensures var handled := Doings(w.crypto, steps, i, from, end);
            if AnyResolves(w.crypto, handled, ref)
            then FirstNewest(w, ref, handled, k) && CachedAs(states[end].resolvers[i], ref, handled[k])
            else NothingCached(states[end].resolvers[i], ref, start)
  {
    hide IsStep, IsStart, Doings, ActedAll, Resolves, NothingCached, Unexpired;
    RunActs(w, states, steps, i, from, end);
    k := NewestWins(w, states[from].resolvers[i], ref, Doings(w.crypto, steps, i, from, end), start);
  }

  // Convergence: two resolvers that the same responses reached, in any order and number, have
  // resolutions of the same instant in their caches.
  lemma ResolversConverge(w: World, states: seq<Net>, steps: seq<Step>, ref: string,
                          i: nat, from: nat, end: nat, start: int, j: nat, from': nat, end': nat, start': int)
    requires IsRun(w, states, steps)
    requires Listens(w, states, steps, i, from, end, ref, start)
             && Listens(w, states, steps, j, from', end', ref, start')
    requires Covers(w.crypto, ref, Doings(w.crypto, steps, i, from, end), Doings(w.crypto, steps, j, from', end'))
    requires Covers(w.crypto, ref, Doings(w.crypto, steps, j, from', end'), Doings(w.crypto, steps, i, from, end))
    requires AnyResolves(w.crypto, Doings(w.crypto, steps, i, from, end), ref)
    ensures i < |states[end].resolvers| && ref in states[end].resolvers[i].resolutions
    ensures j < |states[end'].resolvers| && ref in states[end'].resolvers[j].resolutions
    ensures Instant(w, states[end].resolvers[i].resolutions[ref].value)
         == Instant(w, states[end'].resolvers[j].resolutions[ref].value)
  {
    hide IsStep, IsStart, Doings, ActedAll, Resolves, Unexpired, NothingCached, Instant, Covers;
    var xs, ys := Doings(w.crypto, steps, i, from, end), Doings(w.crypto, steps, j, from', end');
    RunActs(w, states, steps, i, from, end);
    RunActs(w, states, steps, j, from', end');
    OrderDoesNotMatter(w, ref, states[from].resolvers[i], xs, start, states[from'].resolvers[j], ys, start');
  }

  // ---------- response suppression ----------

  // The step records the query as pending at the resolver.
  ghost predicate Records(p: Primitives, step: Step, i: nat, ref: string) {
    step.StepDeliver? && step.at == i && step.msg.kind == REQUEST && GetID(p, step.msg) == ref
  }

  // The step handles a valid resolution of the query, or is the resolver's own delete of it.
  ghost predicate Clears(p: Primitives, step: Step, i: nat, ref: string) {
    || (step.StepDeliver? && step.at == i && step.msg.kind == RESPONSE && Verified(p, step.msg)
        && step.msg.payload.reference == ref)
    || (step.StepDelete? && step.task.at == i && step.task.msg.payload.reference == ref)
  }

  lemma PendingChanges(w: World, s: State, step: Step, ref: string)
    ensures ref in Local(w, s, step).pending <==>
            Records(w.crypto, step, At(step), ref) || (ref in s.pending && !Clears(w.crypto, step, At(step), ref))
  {
    hide Verified, GetID, RequestFor, Response;
  }

  lemma ElsewhereOnly(p: Primitives, step: Step, i: nat, ref: string)
    requires At(step) != i
    ensures !Records(p, step, i, ref) && !Clears(p, step, i, ref)
  {
  }

  // A query is found pending exactly when it was recorded after the last time it was cleared.
  lemma {:induction false} PendingExactly(w: World, states: seq<Net>, steps: seq<Step>, n: nat, i: nat, ref: string)
    requires IsRun(w, states, steps) && n < |states| && i < |states[n].resolvers|
    ensures ref in states[n].resolvers[i].pending <==>
            exists t :: 0 <= t < n && Records(w.crypto, steps[t], i, ref)
                        && forall u :: t < u < n ==> !Clears(w.crypto, steps[u], i, ref)
    decreases n
  {
    hide Records, Clears, Local, IsStep, At;
    if n > 0 {
      StepIsLocal(w, states[n - 1], steps[n - 1], states[n]);
      PendingExactly(w, states, steps, n - 1, i, ref);
      if At(steps[n - 1]) == i {
        PendingChanges(w, states[n - 1].resolvers[i], steps[n - 1], ref);
      } else {
        ElsewhereOnly(w.crypto, steps[n - 1], i, ref);
      }
    }
  }

  // In step u the goroutine of the response found its query pending.
  ghost predicate FoundPending(states: seq<Net>, steps: seq<Step>, u: int, task: Task) {
    0 <= u < |steps| && u < |states| && steps[u] == StepLoad(task.(stage := Waiting))
    && task.at < |states[u].resolvers| && task.msg.payload.reference in states[u].resolvers[task.at].pending
  }

  // How a goroutine got past the look at the pending queries: there, or by its delete after it.
  lemma TaskAdvances(w: World, s: Net, step: Step, s': Net, task: Task)
    requires IsStep(w, s, step, s') && task in s'.tasks && task.stage != Waiting
    ensures task in s.tasks
         || (step == StepLoad(task.(stage := Waiting)) && At(step) < |s.resolvers|
             && task.msg.payload.reference in s.resolvers[At(step)].pending)
         || (step == StepDelete(task.(stage := Found)) && step.task in s.tasks)
  {
    hide Local, Published, Dispatch;
  }

  lemma LoadsItsTask(step: Step)
    requires step.StepLoad?
    ensures At(step) == step.task.at
  {
  }

  lemma {:induction false} AdvancedWasPending(w: World, states: seq<Net>, steps: seq<Step>, n: nat, task: Task)
    requires IsRun(w, states, steps) && n < |states| && task in states[n].tasks && task.stage != Waiting
    ensures exists u :: u < n && FoundPending(states, steps, u, task)
    decreases n
  {
    hide IsStep, At;
    if n > 0 {
      var (s, step) := (states[n - 1], steps[n - 1]);
      TaskAdvances(w, s, step, states[n], task);
      if task in s.tasks {
        AdvancedWasPending(w, states, steps, n - 1, task);
      } else if step == StepLoad(task.(stage := Waiting)) {
        LoadsItsTask(step);
        assert FoundPending(states, steps, n - 1, task);
      } else {
        AdvancedWasPending(w, states, steps, n - 1, step.task);
        var u :| u < n - 1 && FoundPending(states, steps, u, step.task);
        assert FoundPending(states, steps, u, task);
      }
    }
  }

  // Suppression: a response is only published after its goroutine found the query pending, that is, after
  // it was recorded and not cleared since.
  lemma OnlyPendingIsSent(w: World, states: seq<Net>, steps: seq<Step>, n: nat)
    requires IsRun(w, states, steps) && n < |steps| && steps[n].StepEmit?
    ensures exists u, t :: u < n && FoundPending(states, steps, u, steps[n].task) && 0 <= t < u
              && Records(w.crypto, steps[t], steps[n].task.at, steps[n].task.msg.payload.reference)
              && forall v :: t < v < u ==>
                   !Clears(w.crypto, steps[v], steps[n].task.at, steps[n].task.msg.payload.reference)
  {
    hide Records, Clears, Local, Published, Tasks;
    assert IsStep(w, states[n], steps[n], states[n + 1]);
    var task := steps[n].task;
    AdvancedWasPending(w, states, steps, n, task);
    var u :| u < n && FoundPending(states, steps, u, task);
    PendingExactly(w, states, steps, u, task.at, task.msg.payload.reference);
  }
}
