/** Runs from scripts: who emits which event on top of which two others is all it takes to stage a run. */
module Scripts {
  import opened Prelude
  import opened Dag
  import opened Timestamps
  import opened Storage
  import opened Replicas
  import opened Cluster

  // Event `k` carries payload `k`, and this hash makes it its id.
  function ByPayload(c: Content): Id { c.payload }

  /** Some run ends in `w`. */
  ghost predicate Reached(w: World) {
    exists actions, trace :: Run(ByPayload, actions, trace) && trace[|actions|] == w
  }

  /** Some run takes its last step, `a`, from `w` to `w'`. */
  ghost predicate Follows(w: World, a: Action, w': World) {
    exists actions, trace :: LastStep(actions, trace, w, a, w')
  }

  ghost predicate LastStep(actions: seq<Action>, trace: seq<World>, w: World, a: Action, w': World) {
    && Run(ByPayload, actions, trace) && actions != [] && actions[|actions| - 1] == a
    && trace[|actions| - 1] == w && trace[|actions|] == w'
  }

  lemma RunOf(w: World, a: Action, w': World) returns (actions: seq<Action>, trace: seq<World>, i: nat)
    requires Follows(w, a, w')
    ensures Run(ByPayload, actions, trace) && i + 1 == |actions|
    ensures actions[i] == a && trace[i] == w && trace[i + 1] == w'
  {
    actions, trace :| LastStep(actions, trace, w, a, w');
    i := |actions| - 1;
  }

  lemma Extended(actions: seq<Action>, trace: seq<World>, a: Action)
    requires Run(ByPayload, actions, trace) && Enabled(trace[|actions|], a)
    ensures Run(ByPayload, actions + [a], trace + [Act(ByPayload, trace[|actions|], a)])
  {
    var actions', trace' := actions + [a], trace + [Act(ByPayload, trace[|actions|], a)];
    forall i | 0 <= i < |actions'| ensures Step(ByPayload, trace'[i], actions'[i], trace'[i + 1]) {
      if i < |actions| { assert Step(ByPayload, trace[i], actions[i], trace[i + 1]); }
    }
  }

  lemma ReachedStep(w: World, a: Action) returns (w': World)
    requires Reached(w) && Enabled(w, a)
    ensures w' == Act(ByPayload, w, a) && Reached(w') && Follows(w, a, w')
  {
    w' := Act(ByPayload, w, a);
    var actions, trace :| Run(ByPayload, actions, trace) && trace[|actions|] == w;
    Extended(actions, trace, a);
    assert LastStep(actions + [a], trace + [w'], w, a, w');
  }

  // ---- Scripts: who emits which event on top of which two others ----

  datatype Script = Script(creator: Id -> NodeId, parents: Id -> seq<Id>)

  /** The latest event of `n` among its genesis and the first `k`. */
  function LastOwn(s: Script, n: NodeId, k: nat): Id {
    if k == 0 then n else if k - 1 != n && s.creator(k - 1) == n then k - 1 else LastOwn(s, n, k - 1)
  }

  /** `own` is the latest event of `n` among the first `k`, `other` somebody else's. */
  ghost predicate MayJoin(s: Script, n: NodeId, k: nat, own: Id, other: Id) {
    n < 4 && own == LastOwn(s, n, k) && other < k && s.creator(other) != n && own != other
  }

  ghost predicate Joins(s: Script, k: nat) {
    |s.parents(k)| == 2 && MayJoin(s, s.creator(k), k, s.parents(k)[0], s.parents(k)[1])
  }

  /** Four genesis events, then events on top of their creator's latest and one other. The recent window is not full. */
  ghost predicate Playable(s: Script, top: nat) {
    && 4 <= top < RECENT_LIMIT
    && (forall k: nat {:trigger s.creator(k)} :: k < 4 ==> s.creator(k) == k && s.parents(k) == [])
    && forall k: nat {:trigger Joins(s, k)} :: 4 <= k < top ==> Joins(s, k)
  }

  ghost predicate FitsAt(s: Script, d: Graph, x: Id) {
    && x in d && d[x].id == x
    && d[x].source == s.creator(x) && d[x].creator == s.creator(x) && d[x].parents == s.parents(x)
  }

  /** `d` is the first `k` events. */
  ghost predicate Scripted(s: Script, d: Graph, k: nat) {
    (forall x: nat :: x in d ==> x < k) && forall x: nat :: x < k ==> FitsAt(s, d, x)
  }

  lemma ScriptGrows(s: Script, d: Graph, k: nat, e: Event)
    requires Scripted(s, d, k) && FitsAt(s, d[k := e], k)
    ensures Scripted(s, d[k := e], k + 1) && Extends(d, d[k := e])
  {
    var grown := d[k := e];
    forall x: nat | x < k ensures FitsAt(s, grown, x) { assert FitsAt(s, d, x); }
  }

  // ---- What a node holds ----

  /** The rows of node `n`: its genesis, then the first `k` events in order. */
  function LogOf(n: NodeId, k: nat): (log: seq<Id>)
    ensures |log| <= k + 1
  {
    if k == 0 then [n] else LogOf(n, k - 1) + if k - 1 == n then [] else [k - 1]
  }

  lemma {:induction false} LogHas(n: NodeId, k: nat, x: Id)
    requires x == n || x < k
    ensures x in LogOf(n, k)
    decreases k
  {
    if k > 0 && (x == n || x < k - 1) { LogHas(n, k - 1, x); }
  }

  /** Node `n` holds its genesis and the first `k` events. */
  ghost predicate Caught(w: World, n: NodeId, k: nat) {
    n in w.nodes && Holding(w.nodes[n].tables, w.issued, n, k)
  }

  ghost predicate Holding(t: Tables, issued: Graph, n: NodeId, k: nat) {
    t.log == LogOf(n, k) && (forall x: nat :: x in t.events <==> x == n || x < k) && Extends(t.events, issued)
  }

  /** Storing the next event, or one's own genesis again. */
  lemma HoldingNext(t: Tables, issued: Graph, issued': Graph, n: NodeId, k: nat, env: Envelope)
    requires Holding(t, issued, n, k) && Extends(issued, issued') && env.event.id == k
    requires k in issued' && issued'[k] == env.event
    ensures Holding(Stored(t, env), issued', n, k + 1)
  {
  }

  /** A node that misses event `k` receives it. */
  lemma Catch(w: World, n: NodeId, k: nat) returns (w': World)
    requires Reached(w) && Caught(w, n, k) && k in w.issued && w.issued[k].id == k
    ensures Reached(w') && w'.issued == w.issued && w'.made == w.made
    ensures Caught(w', n, k + 1)
    ensures forall other, j :: other != n && Caught(w, other, j) ==> Caught(w', other, j)
  {
    w' := ReachedStep(w, Receive(n, k, [], None));
    HoldingNext(w.nodes[n].tables, w.issued, w.issued, n, k, Envelope(w.issued[k], [], None));
  }

  lemma CatchUp(w: World, n: NodeId, k: nat) returns (w': World)
    requires Reached(w) && k in w.issued && w.issued[k].id == k && (Caught(w, n, k) || Caught(w, n, k + 1))
    ensures Reached(w') && w'.issued == w.issued && w'.made == w.made
    ensures Caught(w', n, k + 1)
    ensures forall other, j :: other != n && Caught(w, other, j) ==> Caught(w', other, j)
  {
    if Caught(w, n, k + 1) { w' := w; } else { w' := Catch(w, n, k); }
  }

  /** Everybody runs, and holds the genesis events and the first `k` events. */
  ghost predicate Synced(w: World, k: nat) {
    Reached(w) && Caught(w, 0, k) && Caught(w, 1, k) && Caught(w, 2, k) && Caught(w, 3, k)
  }

  lemma AllSynced(w: World, k: nat)
    requires Synced(w, k)
    ensures forall n: nat :: n < 4 ==> Caught(w, n, k)
  {
    forall n: nat | n < 4 ensures Caught(w, n, k) { assert n == 0 || n == 1 || n == 2 || n == 3; }
  }

  /** Event `k` reaches everybody. */
  lemma CatchAll(w: World, k: nat) returns (w': World)
    requires Reached(w) && k in w.issued && w.issued[k].id == k
    requires forall n: nat :: n < 4 ==> Caught(w, n, k) || Caught(w, n, k + 1)
    ensures Synced(w', k + 1) && w'.issued == w.issued && w'.made == w.made
  {
    var a := CatchUp(w, 0, k);
    var b := CatchUp(a, 1, k);
    var c := CatchUp(b, 2, k);
    w' := CatchUp(c, 3, k);
  }

  // ---- Boots ----

  /** Every content has its own payload, and no payload is `k` or above yet. */
  ghost predicate OnePerPayload(made: set<Content>, k: nat) {
    && (forall c :: c in made ==> c.payload < k)
    && forall a, b :: a in made && b in made && a.payload == b.payload ==> a == b
  }

  /** Nodes 0 to `k - 1` are up, each with its genesis. */
  ghost predicate Booting(s: Script, w: World, k: nat) {
    && Reached(w) && (forall n: nat :: n in w.nodes <==> n < k) && (forall n: nat :: n < k ==> Caught(w, n, 0))
    && Scripted(s, w.issued, k) && OnePerPayload(w.made, k)
  }

  lemma BootAll(s: Script, top: nat, k: nat) returns (w: World)
    requires Playable(s, top) && k <= 4
    ensures Booting(s, w, k)
    decreases k
  {
    if k == 0 {
      w := START;
      var none: seq<Action> := [];
      assert Run(ByPayload, none, [w]) && [w][|none|] == w;
    } else {
      var before := BootAll(s, top, k - 1);
      w := BootOne(s, top, before, k - 1);
    }
  }

  lemma BootOne(s: Script, top: nat, w: World, n: NodeId) returns (w': World)
    requires Playable(s, top) && n < 4 && Booting(s, w, n)
    ensures Booting(s, w', n + 1)
  {
    var e := EventOf(ByPayload, GenesisContent(n, 0.0, n));
    w' := ReachedStep(w, Boot(n, 0.0, n));
    assert w'.issued == w.issued[n := e] && s.creator(n) == n;
    ScriptGrows(s, w.issued, n, e);
    BootedHolds(w, w', n, e);
  }

  lemma BootedHolds(w: World, w': World, n: NodeId, e: Event)
    requires n !in w.nodes && e == EventOf(ByPayload, GenesisContent(n, 0.0, n)) && Extends(w.issued, w'.issued)
    requires w'.nodes == w.nodes[n := Booted(ByPayload, n, 0.0, n)] && w'.issued == w.issued[n := e]
    ensures Caught(w', n, 0)
    ensures forall c :: c != n && Caught(w, c, 0) ==> Caught(w', c, 0)
  {
    assert w'.nodes[n].tables.log == [n] && w'.nodes[n].tables.events == map[n := e];
  }

  // ---- Emissions ----

  ghost predicate Issuer(s: Script, d: Graph, x: Id) {
    x in d && d[x].source == s.creator(x)
  }

  ghost predicate Issuers(s: Script, d: Graph, k: nat) {
    forall x: nat :: x < k ==> Issuer(s, d, x)
  }

  lemma FewerIssuers(s: Script, d: Graph, k: nat)
    requires k > 0 && Issuers(s, d, k)
    ensures Issuers(s, d, k - 1) && Issuer(s, d, k - 1)
  {
  }

  lemma SourceAppend(d: Graph, log: seq<Id>, x: Id, n: NodeId)
    ensures BySource(d, log + [x], n) == BySource(d, log, n) + if x in d && d[x].source == n then [x] else []
  {
    assert (log + [x])[..|log|] == log;
  }

  ghost predicate EndsIn(log: seq<Id>, x: Id) {
    log != [] && log[|log| - 1] == x
  }

  lemma OwnFirst(s: Script, d: Graph, n: NodeId)
    requires Issuer(s, d, n) && s.creator(n) == n
    ensures EndsIn(BySource(d, LogOf(n, 0), n), LastOwn(s, n, 0))
  {
    SourceAppend(d, [], n, n);
    assert [] + [n] == [n];
  }

  lemma OwnLastStep(s: Script, d: Graph, n: NodeId, k: nat)
    requires k > 0 && Issuer(s, d, k - 1) && EndsIn(BySource(d, LogOf(n, k - 1), n), LastOwn(s, n, k - 1))
    ensures EndsIn(BySource(d, LogOf(n, k), n), LastOwn(s, n, k))
  {
    var below := LogOf(n, k - 1);
    if k - 1 == n {
      assert LogOf(n, k) == below;
    } else {
      assert LogOf(n, k) == below + [k - 1];
      SourceAppend(d, below, k - 1, n);
    }
  }

  lemma {:induction false} OwnLast(s: Script, d: Graph, n: NodeId, k: nat)
    requires Issuer(s, d, n) && s.creator(n) == n && Issuers(s, d, k)
    ensures EndsIn(BySource(d, LogOf(n, k), n), LastOwn(s, n, k))
    decreases k
  {
    if k == 0 {
      OwnFirst(s, d, n);
    } else {
      FewerIssuers(s, d, k);
      OwnLast(s, d, n, k - 1);
      OwnLastStep(s, d, n, k);
    }
  }

  lemma {:induction false} ForeignHas(d: Graph, recent: seq<Id>, me: NodeId, taken: seq<Id>, x: Id)
    requires x in recent && x in d && d[x].source != me && x !in taken
    ensures x in Foreign(d, recent, me, taken)
    decreases |recent|
  {
    if x in recent[..|recent| - 1] { ForeignHas(d, recent[..|recent| - 1], me, taken, x); }
  }

  /** Node `n` holds the first `k` events of the script, its own genesis being one of them. */
  ghost predicate Ready(s: Script, w: World, n: NodeId, k: nat) {
    n < 4 <= k < RECENT_LIMIT && s.creator(n) == n && Scripted(s, w.issued, k) && Caught(w, n, k)
  }

  lemma HeldIssuers(s: Script, w: World, n: NodeId, k: nat)
    requires Ready(s, w, n, k)
    ensures Issuers(s, w.nodes[n].tables.events, k)
  {
    forall x: nat | x < k ensures Issuer(s, w.nodes[n].tables.events, x) { assert FitsAt(s, w.issued, x); }
  }

  lemma OwnParent(s: Script, w: World, n: NodeId, k: nat)
    requires Ready(s, w, n, k)
    ensures SelfParent(w.nodes[n], n) == [LastOwn(s, n, k)]
  {
    HeldIssuers(s, w, n, k);
    OwnLast(s, w.nodes[n].tables.events, n, k);
  }

  lemma OtherParent(s: Script, w: World, n: NodeId, k: nat, own: Id, other: Id)
    requires Ready(s, w, n, k) && MayJoin(s, n, k, own, other)
    ensures other in Candidates(w.nodes[n], n)
  {
    var r := w.nodes[n];
    OwnParent(s, w, n, k);
    HeldIssuers(s, w, n, k);
    assert Issuer(s, r.tables.events, other);
    InRecent(r.tables, n, k, other);
    ForeignHas(r.tables.events, Recent(r.tables, RECENT_LIMIT), n, [own], other);
  }

  lemma InRecent(t: Tables, n: NodeId, k: nat, x: Id)
    requires t.log == LogOf(n, k) && k < RECENT_LIMIT && x < k
    ensures x in Recent(t, RECENT_LIMIT)
  {
    LogHas(n, k, x);
    var i :| 0 <= i < |t.log| && t.log[i] == x;
    assert Recent(t, RECENT_LIMIT)[|t.log| - 1 - i] == x;
  }

  lemma TwoParents(r: Replica, n: NodeId, own: Id, other: Id)
    requires SelfParent(r, n) == [own]
    ensures ParentsFor(r, n, Some(other)) == [own, other]
  {
    assert [own] + [other] == [own, other];
    assert Filled([own, other], AnchorIds(r)) == [own, other];
  }

  /** Node `n` emits event `k` on top of its latest and `other`. */
  function Next(n: NodeId, k: nat, other: Id): Action {
    Emit(n, C, 0.0, false, k, Some(other))
  }

  function NextEvent(r: Replica, n: NodeId, k: nat, other: Id): Event {
    EventOf(ByPayload, NewContent(r, n, C, 0.0, false, k, Some(other)))
  }

  lemma NewEvent(s: Script, w: World, n: NodeId, k: nat, own: Id, other: Id)
    requires Ready(s, w, n, k) && MayJoin(s, n, k, own, other)
    ensures Enabled(w, Next(n, k, other))
    ensures var e := NextEvent(w.nodes[n], n, k, other);
      e.id == k && e.source == n && e.creator == n && e.parents == [own, other]
  {
    OwnParent(s, w, n, k);
    OtherParent(s, w, n, k, own, other);
    TwoParents(w.nodes[n], n, own, other);
  }

  /** What the emission of `e` changes. */
  ghost predicate Adds(w: World, w': World, n: NodeId, k: nat, e: Event) {
    && n in w.nodes && n in w'.nodes && w'.nodes == w.nodes[n := w'.nodes[n]] && w'.issued == w.issued[k := e]
    && w'.nodes[n].tables == Stored(w.nodes[n].tables, Envelope(e, [Hop(n, Some(0.0))], None))
  }

  lemma Emission(w: World, n: NodeId, k: nat, other: Id) returns (w': World)
    requires Reached(w) && Enabled(w, Next(n, k, other)) && OnePerPayload(w.made, k)
    ensures Reached(w') && Follows(w, Next(n, k, other), w') && OnePerPayload(w'.made, k + 1)
    ensures Adds(w, w', n, k, NextEvent(w.nodes[n], n, k, other))
  {
    w' := ReachedStep(w, Next(n, k, other));
  }

  lemma EmitOne(s: Script, w: World, n: NodeId, k: nat, own: Id, other: Id) returns (w': World, e: Event)
    requires Ready(s, w, n, k) && MayJoin(s, n, k, own, other) && Reached(w) && OnePerPayload(w.made, k)
    ensures Follows(w, Next(n, k, other), w') && Reached(w') && OnePerPayload(w'.made, k + 1) && Adds(w, w', n, k, e)
    ensures e.id == k && e.source == n && e.creator == n && e.parents == [own, other]
  {
    NewEvent(s, w, n, k, own, other);
    e := NextEvent(w.nodes[n], n, k, other);
    w' := Emission(w, n, k, other);
  }

  lemma EverybodyHolds(w: World, w': World, n: NodeId, k: nat, e: Event)
    requires Caught(w, n, k) && e.id == k && Adds(w, w', n, k, e) && Extends(w.issued, w'.issued)
    ensures Caught(w', n, k + 1) && forall c :: c != n && Caught(w, c, k) ==> Caught(w', c, k)
  {
    HoldingNext(w.nodes[n].tables, w.issued, w'.issued, n, k, Envelope(e, [Hop(n, Some(0.0))], None));
  }

  /** Everybody holds the first `k` events of the script. */
  ghost predicate Played(s: Script, w: World, k: nat) {
    Synced(w, k) && Scripted(s, w.issued, k) && OnePerPayload(w.made, k)
  }

  /** Event `k` is out; so far only its creator holds it. */
  ghost predicate Announced(s: Script, w: World, k: nat) {
    && Reached(w) && Scripted(s, w.issued, k + 1) && OnePerPayload(w.made, k + 1)
    && Caught(w, s.creator(k), k + 1) && forall n: nat :: n < 4 ==> Caught(w, n, k) || Caught(w, n, k + 1)
  }

  lemma Announces(s: Script, w: World, w': World, k: nat, e: Event)
    requires Played(s, w, k) && s.creator(k) < 4 && Adds(w, w', s.creator(k), k, e) && FitsAt(s, w.issued[k := e], k)
    requires Reached(w') && OnePerPayload(w'.made, k + 1)
    ensures Announced(s, w', k) && Extends(w.issued, w'.issued)
  {
    AllSynced(w, k);
    ScriptGrows(s, w.issued, k, e);
    EverybodyHolds(w, w', s.creator(k), k, e);
  }

  lemma TurnOf(s: Script, top: nat, w: World, k: nat)
    requires Playable(s, top) && 4 <= k < top && Played(s, w, k)
    ensures Joins(s, k) && Ready(s, w, s.creator(k), k)
  {
    assert Joins(s, k);
    assert s.creator(s.creator(k)) == s.creator(k);
    AllSynced(w, k);
  }

  lemma EmitAt(s: Script, w: World, n: NodeId, k: nat, own: Id, other: Id) returns (w': World)
    requires Played(s, w, k) && Ready(s, w, n, k) && MayJoin(s, n, k, own, other)
    requires s.creator(k) == n && s.parents(k) == [own, other]
    ensures Follows(w, Next(n, k, other), w') && Announced(s, w', k) && Extends(w.issued, w'.issued)
  {
    var e;
    w', e := EmitOne(s, w, n, k, own, other);
    Announces(s, w, w', k, e);
  }

  /** The creator of event `k` emits it. */
  lemma EmitNext(s: Script, top: nat, w: World, k: nat) returns (w': World)
    requires Playable(s, top) && 4 <= k < top && Played(s, w, k)
    ensures Joins(s, k) && Follows(w, Next(s.creator(k), k, s.parents(k)[1]), w')
    ensures Announced(s, w', k) && Extends(w.issued, w'.issued)
  {
    TurnOf(s, top, w, k);
    w' := EmitAt(s, w, s.creator(k), k, s.parents(k)[0], s.parents(k)[1]);
  }

  lemma PlayGenesis(s: Script, top: nat, k: nat) returns (w: World)
    requires Playable(s, top) && k <= 4
    ensures Synced(w, k) && Scripted(s, w.issued, 4) && OnePerPayload(w.made, 4)
    decreases k
  {
    if k == 0 {
      w := BootAll(s, top, 4);
    } else {
      var before := PlayGenesis(s, top, k - 1);
      assert FitsAt(s, before.issued, k - 1);
      w := CatchAll(before, k - 1);
    }
  }

  lemma PlayStep(s: Script, top: nat, w: World, k: nat) returns (w': World)
    requires Playable(s, top) && 4 <= k < top && Played(s, w, k)
    ensures Played(s, w', k + 1)
  {
    var next := EmitNext(s, top, w, k);
    assert FitsAt(s, next.issued, k);
    w' := CatchAll(next, k);
  }

  /** Any playable script is the history of a run in which everybody hears of every event at once. */
  lemma PlayAll(s: Script, top: nat, k: nat) returns (w: World)
    requires Playable(s, top) && 4 <= k <= top
    ensures Played(s, w, k)
    decreases k
  {
    if k == 4 {
      w := PlayGenesis(s, top, 4);
    } else {
      var before := PlayAll(s, top, k - 1);
      w := PlayStep(s, top, before, k - 1);
    }
  }

  /** Node `n` holds exactly the first `k` events. */
  ghost predicate Holds(s: Script, w: World, n: NodeId, k: nat) {
    n in w.nodes && Scripted(s, w.nodes[n].tables.events, k)
  }

  lemma CaughtHolds(s: Script, w: World, n: NodeId, k: nat)
    requires Caught(w, n, k) && n < k && Scripted(s, w.issued, k)
    ensures Holds(s, w, n, k)
  {
    var d := w.nodes[n].tables.events;
    forall x: nat | x < k ensures FitsAt(s, d, x) { assert FitsAt(s, w.issued, x); }
  }

  /** Between `w` and `w'` node `n` has added event `k` to its store. */
  ghost predicate Advances(s: Script, w: World, w': World, n: NodeId, k: nat) {
    && Holds(s, w, n, k) && Holds(s, w', n, k + 1)
    && Extends(w.nodes[n].tables.events, w'.nodes[n].tables.events)
  }

  lemma CaughtAdvances(s: Script, w: World, w': World, n: NodeId, k: nat)
    requires Caught(w, n, k) && n < k && Scripted(s, w.issued, k)
    requires Caught(w', n, k + 1) && Scripted(s, w'.issued, k + 1) && Extends(w.issued, w'.issued)
    ensures Advances(s, w, w', n, k)
  {
    CaughtHolds(s, w, n, k);
    CaughtHolds(s, w', n, k + 1);
  }

  lemma PlayLast(s: Script, top: nat, n: NodeId, k: nat) returns (w: World, a: Action, w': World)
    requires Playable(s, top) && 4 <= k < top && n == s.creator(k)
    ensures Follows(w, a, w') && a.Emit? && a.node == n
    ensures Advances(s, w, w', n, k) && !Collision(ByPayload, w'.made)
  {
    w := PlayAll(s, top, k);
    TurnOf(s, top, w, k);
    w' := EmitAt(s, w, n, k, s.parents(k)[0], s.parents(k)[1]);
    a := Next(n, k, s.parents(k)[1]);
    CaughtAdvances(s, w, w', n, k);
    NoCollision(w'.made, k + 1);
  }

  lemma NoCollision(made: set<Content>, k: nat)
    requires OnePerPayload(made, k)
    ensures !Collision(ByPayload, made)
  {
  }

  /** Any playable script is staged by a collision-free run that stops right after its creator `n` emits event `k`:
      before that `n` holds exactly the first `k` events, afterwards the first `k + 1`. */
  lemma PlayRun(s: Script, top: nat, n: NodeId, k: nat) returns (actions: seq<Action>, trace: seq<World>, i: nat)
    requires Playable(s, top) && 4 <= k < top && n == s.creator(k)
    ensures Run(ByPayload, actions, trace) && !Collision(ByPayload, trace[|actions|].made)
    ensures i + 1 == |actions| && actions[i].Emit? && actions[i].node == n
    ensures Advances(s, trace[i], trace[i + 1], n, k)
  {
    var w, a, w' := PlayLast(s, top, n, k);
    actions, trace, i := RunOf(w, a, w');
  }
}
