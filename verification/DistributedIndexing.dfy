/**
 The protocol and the indexer together. Workers run their passes against the shared stores while claims expire, jobs are
 reclaimed and processes crash; each storage write takes effect only inside the guard. Whatever the interleaving, every
 store is one that a series of passes leaves, each cut somewhere, one after the other.
 */
module DistributedIndexing {
  import opened Coordination
  import opened CoordinationInvariants
  import opened CoordinationRuns
  import IndexStore
  import Indexing
  import IndexingTheorems
  import IndexingConvergence
  import IndexingWrites

  type Store = IndexStore.Store

  /** The pass that the owner of a claim runs: the tree it finds, its mode and commit, and how its calls will end. */
  datatype Assignment = Assignment(tree: map<IndexStore.Path, string>, order: seq<IndexStore.Path>, mode: string,
                                   commit: IndexStore.Commit, weather: Indexing.Weather)

  type Heads = RepoId -> IndexStore.Commit

  type Listing = set<IndexStore.Path> -> seq<IndexStore.Path>

  type Assignments = Job -> Assignment

  /** head is the commit a repository was registered at, listing the order of a deletion loop. */
  datatype Scene = Scene(chunker: Indexing.Chunker, head: Heads, listing: Listing, passes: Assignments)

  ghost predicate ValidScene(c: Scene) {
    && (forall h: Job :: Indexing.Enumerates(c.passes(h).order, c.passes(h).tree.Keys))
    && (forall paths: set<IndexStore.Path> :: Indexing.Enumerates(c.listing(paths), paths))
  }

  /** The store an author's pass found, and how many of its writes it has made. */
  datatype Author = Author(base: Store, done: nat)

  datatype World = World(state: State, stores: map<RepoId, Store>, authors: map<Job, Author>)

  function StoreOf(c: Scene, world: World, r: RepoId): Store {
    if r in world.stores then world.stores[r] else IndexStore.Registered(c.head(r))
  }

  function Gone(c: Scene, h: Job, base: Store): seq<IndexStore.Path> {
    c.listing(Indexing.Doomed(base, c.passes(h).tree))
  }

  /** The writes of an author's pass, fixed by what it read when it began. */
  ghost function WritesOf(c: Scene, h: Job, base: Store): seq<IndexingWrites.Write>
    requires ValidScene(c)
  {
    var a := c.passes(h);
    IndexingWrites.PassWrites(Indexing.PlanOf(c.chunker, base, a.tree, a.mode, a.commit), a.order, Gone(c, h, base), a.weather)
  }

  /** A transaction of the protocol, or an author reading manifest and tombstones, which no guard protects. */
  datatype Action = Protocol(event: Event) | Begin(handle: Job)

  /** Whether an event is a storage write that the guard lets through and for which the author's pass has a write left. */
  ghost predicate Effective(c: Scene, world: World, e: Event)
    requires ValidScene(c)
  {
    && e.StorageWritten?
    && |Step(world.state, e).writes| > |world.state.writes|
    && e.handle in world.authors
    && world.authors[e.handle].done < |WritesOf(c, e.handle, world.authors[e.handle].base)|
  }

  ghost function Act(c: Scene, world: World, a: Action): World
    requires ValidScene(c)
  {
    match a
    case Begin(h) =>
      if h !in world.state.issued then world
      else world.(authors := world.authors[h := Author(StoreOf(c, world, h.repo), 0)])
    case Protocol(e) =>
      var t := Step(world.state, e);
      if Effective(c, world, e) then
        var h := e.handle;
        var author := world.authors[h];
        var store := IndexingWrites.Perform(StoreOf(c, world, h.repo), WritesOf(c, h, author.base)[author.done]);
        World(t, world.stores[h.repo := store], world.authors[h := author.(done := author.done + 1)])
      else world.(state := t)
  }

  ghost function ActAll(c: Scene, world: World, actions: seq<Action>): World
    requires ValidScene(c)
    decreases |actions|
  {
    if actions == [] then world else ActAll(c, Act(c, world, actions[0]), actions[1..])
  }

  // ---------- who can still write ----------

  /** The claim is its job's latest and the job still runs, with or without a live lease. */
  ghost predicate Current(s: State, h: Job) {
    h.id in s.jobs && s.jobs[h.id].status.Running? && s.jobs[h.id].generation == h.generation
  }

  lemma SupersededForGood(s: State, t: State, h: Job)
    requires HandleOk(s, h) && Evolves(s, t) && !Current(s, h)
    ensures !Current(t, h)
  {
    hide AttemptsEvolve;
    assert JobEvolves(s.jobs[h.id], t.jobs[h.id], s.now);
  }

  lemma WriterIsCurrent(s: State, h: Job)
    requires Guards(s) && |Step(s, StorageWritten(h)).writes| > |s.writes|
    ensures h in s.issued && Current(s, h)
  {
    assert Guarding(s, h);
  }

  lemma OneIsCurrent(s: State, h: Job, k: Job)
    requires Handles(s) && Reservation(s) && h in s.issued && k in s.issued
    requires Current(s, h) && Current(s, k) && h.repo == k.repo
    ensures h == k
  {
    assert HandleOk(s, h) && HandleOk(s, k);
  }

  // ---------- every store has a sequential history ----------

  ghost predicate Explained(c: Scene, r: RepoId, s: Store) {
    exists history: seq<IndexingTheorems.Attempt> ::
      IndexingTheorems.Reached(c.chunker, IndexStore.Registered(c.head(r)), history, s)
  }

  lemma {:induction false} HistoryGrows(chunker: Indexing.Chunker, first: Store, history: seq<IndexingTheorems.Attempt>, s: Store,
                                        a: IndexingTheorems.Attempt)
    requires IndexingTheorems.Reached(chunker, first, history, s)
    requires Indexing.Enumerates(a.order, a.tree.Keys) && Indexing.Enumerates(a.gone, Indexing.Doomed(s, a.tree))
    ensures IndexingTheorems.Reached(chunker, first, history + [a],
                                     Indexing.Index(chunker, s, a.tree, a.order, a.gone, a.mode, a.commit, a.weather).store)
    decreases |history|
  {
    hide Indexing.Index, Indexing.Enumerates, Indexing.Doomed;
    if history == [] {
      assert ([] + [a])[0] == a && ([] + [a])[1..] == [];
    } else {
      var b := history[0];
      assert (history + [a])[0] == b && (history + [a])[1..] == history[1..] + [a];
      HistoryGrows(chunker, Indexing.Index(chunker, first, b.tree, b.order, b.gone, b.mode, b.commit, b.weather).store,
                   history[1..], s, a);
    }
  }

  /** An explained store, after any number of an author's writes, is explained by one more pass that was cut there. */
  lemma CutsAreExplained(c: Scene, h: Job, base: Store, n: nat)
    requires ValidScene(c) && Explained(c, h.repo, base) && n <= |WritesOf(c, h, base)|
    ensures Explained(c, h.repo, IndexingWrites.PerformAll(base, WritesOf(c, h, base)[..n]))
  {
    hide IndexingTheorems.Reached, IndexingWrites.PassWrites, IndexingWrites.PerformAll, Indexing.Index, Indexing.Doomed,
         Indexing.Enumerates;
    var first := IndexStore.Registered(c.head(h.repo));
    var history :| IndexingTheorems.Reached(c.chunker, first, history, base);
    var a := c.passes(h);
    var gone := Gone(c, h, base);
    assert Indexing.Enumerates(a.order, a.tree.Keys) && Indexing.Enumerates(gone, Indexing.Doomed(base, a.tree));
    var w := IndexingWrites.EveryCutIsAPass(c.chunker, base, a.tree, a.order, gone, a.mode, a.commit, a.weather, n);
    HistoryGrows(c.chunker, first, history, base, IndexingTheorems.Attempt(a.tree, a.order, gone, a.mode, a.commit, w));
  }

  /** What a current author finds is what its own writes have made of the store it began with. */
  ghost predicate Isolated(c: Scene, world: World, h: Job)
    requires ValidScene(c) && h in world.authors
  {
    var author := world.authors[h];
    && author.done <= |WritesOf(c, h, author.base)|
    && StoreOf(c, world, h.repo) == IndexingWrites.PerformAll(author.base, WritesOf(c, h, author.base)[..author.done])
  }

  ghost predicate AuthorOk(c: Scene, world: World, h: Job)
    requires ValidScene(c) && h in world.authors
  {
    && h in world.state.issued
    && Explained(c, h.repo, world.authors[h].base)
    && (Current(world.state, h) ==> Isolated(c, world, h))
  }

  ghost predicate Sequential(c: Scene, world: World)
    requires ValidScene(c)
  {
    && Inv(world.state)
    && (forall r: RepoId :: Explained(c, r, StoreOf(c, world, r)))
    && (forall h | h in world.authors :: AuthorOk(c, world, h))
  }

  lemma BeginningIsExplained(c: Scene, settings: Settings, now: Time)
    requires ValidScene(c) && ValidSettings(settings)
    ensures Sequential(c, World(Initial(settings, now), map[], map[]))
  {
    hide Inv;
    InitialInv(settings, now);
    var world := World(Initial(settings, now), map[], map[]);
    forall r: RepoId ensures Explained(c, r, StoreOf(c, world, r)) {
      assert IndexingTheorems.Reached(c.chunker, IndexStore.Registered(c.head(r)), [], StoreOf(c, world, r));
    }
  }

  lemma BeginKeeps(c: Scene, world: World, h: Job)
    requires ValidScene(c) && Sequential(c, world)
    ensures Sequential(c, Act(c, world, Begin(h)))
  {
    hide Inv, Explained, WritesOf, IndexingWrites.Perform, Current;
    var next := Act(c, world, Begin(h));
    forall r: RepoId ensures StoreOf(c, next, r) == StoreOf(c, world, r) {
    }
    forall k | k in next.authors ensures AuthorOk(c, next, k) {
      if k == h && h in world.state.issued {
        assert WritesOf(c, h, next.authors[h].base)[..0] == [];
      } else {
        assert AuthorOk(c, world, k);
      }
    }
  }

  lemma AuthorSurvives(c: Scene, world: World, next: World, h: Job)
    requires ValidScene(c) && h in world.authors && AuthorOk(c, world, h)
    requires HandleOk(world.state, h) && Evolves(world.state, next.state)
    requires h in next.authors && next.authors[h] == world.authors[h]
    requires Current(next.state, h) ==> StoreOf(c, next, h.repo) == StoreOf(c, world, h.repo)
    ensures AuthorOk(c, next, h)
  {
    hide Explained, WritesOf, Current, HandleOk, StoreOf, JobsEvolve, AttemptsEvolve;
    if !Current(world.state, h) {
      SupersededForGood(world.state, next.state, h);
    }
  }

  lemma IssuedHandle(s: State, h: Job)
    requires Inv(s) && h in s.issued
    ensures HandleOk(s, h)
  {
    hide Rows, Reservation, History, Guards, Writes, UniqueKeys, Forest, Watching, HandleOk;
  }

  lemma QuietKeeps(c: Scene, world: World, e: Event)
    requires ValidScene(c) && Sequential(c, world) && !Effective(c, world, e)
    ensures Sequential(c, Act(c, world, Protocol(e)))
  {
    hide Inv, Evolves, Step, Explained, AuthorOk, Current, HandleOk, Effective;
    StepInv(world.state, e);
    var next := Act(c, world, Protocol(e));
    assert next == world.(state := Step(world.state, e));
    forall r: RepoId ensures Explained(c, r, StoreOf(c, next, r)) {
      assert StoreOf(c, next, r) == StoreOf(c, world, r);
    }
    forall h | h in next.authors ensures AuthorOk(c, next, h) {
      assert AuthorOk(c, world, h);
      AuthorIssued(c, world, h);
      IssuedHandle(world.state, h);
      AuthorSurvives(c, world, next, h);
    }
  }

  lemma AuthorIssued(c: Scene, world: World, h: Job)
    requires ValidScene(c) && h in world.authors && AuthorOk(c, world, h)
    ensures h in world.state.issued && Explained(c, h.repo, world.authors[h].base)
    ensures Current(world.state, h) ==> Isolated(c, world, h)
  {
    hide Explained, Current, Isolated;
  }

  lemma NextWrite(s: Store, writes: seq<IndexingWrites.Write>, n: nat)
    requires n < |writes|
    ensures IndexingWrites.Perform(IndexingWrites.PerformAll(s, writes[..n]), writes[n])
            == IndexingWrites.PerformAll(s, writes[..n + 1])
  {
    hide IndexingWrites.Perform, IndexingWrites.PerformAll;
    assert writes[..n + 1] == writes[..n] + [writes[n]];
    IndexingWrites.PerformInParts(s, writes[..n], [writes[n]]);
    IndexingWrites.PerformOne(IndexingWrites.PerformAll(s, writes[..n]), writes[n]);
  }

  /** The writer is the one current author of its repository, so its write follows its own writes and nobody else's. */
  lemma WriteKeeps(c: Scene, world: World, k: Job)
    requires ValidScene(c) && Sequential(c, world) && Effective(c, world, StorageWritten(k))
    ensures Sequential(c, Act(c, world, Protocol(StorageWritten(k))))
  {
    hide Inv, Evolves, Step, Explained, AuthorOk, Current, HandleOk, WritesOf, IndexingWrites.Perform, IndexingWrites.PerformAll,
         Handles, Reservation, Guards;
    var e := StorageWritten(k);
    var s, next := world.state, Act(c, world, Protocol(e));
    StepInv(s, e);
    InvWriters(s);
    WriterIsCurrent(s, k);
    assert AuthorOk(c, world, k);
    AuthorIssued(c, world, k);
    var author := world.authors[k];
    NextWrite(author.base, WritesOf(c, k, author.base), author.done);
    CutsAreExplained(c, k, author.base, author.done + 1);
    forall r: RepoId ensures Explained(c, r, StoreOf(c, next, r)) {
      assert r != k.repo ==> StoreOf(c, next, r) == StoreOf(c, world, r);
    }
    forall h | h in next.authors ensures AuthorOk(c, next, h) {
      if h == k {
        IssuedStays(s, next.state, k);
        assert next.authors[k] == author.(done := author.done + 1);
        WriterIsOk(c, next, k);
      } else {
        assert AuthorOk(c, world, h);
        AuthorIssued(c, world, h);
        IssuedHandle(s, h);
        if h.repo == k.repo && Current(next.state, h) {
          if !Current(s, h) {
            SupersededForGood(s, next.state, h);
          }
          OneIsCurrent(s, h, k);
        }
        AuthorSurvives(c, world, next, h);
      }
    }
  }

  lemma WriterIsOk(c: Scene, next: World, k: Job)
    requires ValidScene(c) && k in next.authors && k in next.state.issued && Isolated(c, next, k)
    requires Explained(c, k.repo, next.authors[k].base)
    ensures AuthorOk(c, next, k)
  {
    hide Isolated, Explained, Current;
  }

  lemma IssuedStays(s: State, t: State, h: Job)
    requires Evolves(s, t) && h in s.issued
    ensures h in t.issued
  {
    hide JobsEvolve, AttemptsEvolve;
  }

  lemma InvWriters(s: State)
    requires Inv(s)
    ensures Handles(s) && Reservation(s) && Guards(s)
  {
    hide Rows, Reservation, History, Handles, Guards, Writes, UniqueKeys, Forest, Watching;
  }

  lemma {:induction false} ActionsKeep(c: Scene, world: World, actions: seq<Action>)
    requires ValidScene(c) && Sequential(c, world)
    ensures Sequential(c, ActAll(c, world, actions))
    decreases |actions|
  {
    hide Sequential, Act, Effective;
    if actions != [] {
      match actions[0] {
        case Begin(h) => BeginKeeps(c, world, h);
        case Protocol(e) =>
          if Effective(c, world, e) {
            EffectiveIsWrite(c, world, e);
            WriteKeeps(c, world, e.handle);
          } else {
            QuietKeeps(c, world, e);
          }
      }
      ActionsKeep(c, Act(c, world, actions[0]), actions[1..]);
    }
  }

  lemma EffectiveIsWrite(c: Scene, world: World, e: Event)
    requires ValidScene(c) && Effective(c, world, e)
    ensures e.StorageWritten? && e == StorageWritten(e.handle)
  {
    hide Step, WritesOf;
  }

  // ---------- the two cores together ----------

  ghost function Reached(c: Scene, settings: Settings, now: Time, actions: seq<Action>): World
    requires ValidScene(c)
  {
    ActAll(c, World(Initial(settings, now), map[], map[]), actions)
  }

  ghost function EventsOf(actions: seq<Action>): seq<Event> {
    if actions == [] then []
    else (if actions[0].Protocol? then [actions[0].event] else []) + EventsOf(actions[1..])
  }

  /** The protocol part of a combined run is a run of the protocol, so every theorem about those holds here. */
  lemma {:induction false} ProtocolIsUndisturbed(c: Scene, world: World, actions: seq<Action>)
    requires ValidScene(c)
    ensures ActAll(c, world, actions).state == Run(world.state, EventsOf(actions))
    decreases |actions|
  {
    hide Step, Effective;
    if actions != [] {
      ProtocolIsUndisturbed(c, Act(c, world, actions[0]), actions[1..]);
      if actions[0].Protocol? {
        RunOfMore(world.state, actions[0].event, EventsOf(actions[1..]));
      } else {
        assert [] + EventsOf(actions[1..]) == EventsOf(actions[1..]);
      }
    }
  }

  /** Sequential histories. After any combined run, whatever workers did to one another, each repository's store is what
      some series of passes over an index that was just registered leaves, each cut somewhere; and an author that still is
      its repository's current one finds exactly what its own writes have made of the store that it read. */
  lemma StoresAreSequential(c: Scene, settings: Settings, now: Time, actions: seq<Action>, r: RepoId)
    requires ValidScene(c) && ValidSettings(settings)
    ensures var world := Reached(c, settings, now, actions);
            && (exists history: seq<IndexingTheorems.Attempt> ::
                  IndexingTheorems.Reached(c.chunker, IndexStore.Registered(c.head(r)), history, StoreOf(c, world, r)))
            && forall h | h in world.authors && Current(world.state, h) :: Isolated(c, world, h)
  {
    hide ActAll, Inv, Current, Isolated, IndexingTheorems.Reached;
    var world := Reached(c, settings, now, actions);
    BeginningIsExplained(c, settings, now);
    ActionsKeep(c, World(Initial(settings, now), map[], map[]), actions);
    assert Explained(c, r, StoreOf(c, world, r));
    forall h | h in world.authors && Current(world.state, h) ensures Isolated(c, world, h) {
      assert AuthorOk(c, world, h);
    }
  }

  /** So every store is healthy after any combined run, and one undisturbed pass over a tree without collisions settles it. */
  lemma StoresSettle(c: Scene, settings: Settings, now: Time, actions: seq<Action>, r: RepoId, a: Assignment)
    requires ValidScene(c) && ValidSettings(settings)
    requires IndexingConvergence.Calm(a.weather) && Indexing.Enumerates(a.order, a.tree.Keys)
    requires forall p | p in a.tree :: !IndexingConvergence.Collides(c.chunker, a.tree, p)
    ensures var s := StoreOf(c, Reached(c, settings, now, actions), r);
            && IndexingTheorems.Sound(c.chunker, s)
            && IndexingConvergence.Settled(c.chunker,
                 Indexing.Index(c.chunker, s, a.tree, a.order, c.listing(Indexing.Doomed(s, a.tree)), a.mode, a.commit, a.weather).store,
                 a.tree, a.commit)
  {
    var s := StoreOf(c, Reached(c, settings, now, actions), r);
    var gone := c.listing(Indexing.Doomed(s, a.tree));
    assert Indexing.Enumerates(gone, Indexing.Doomed(s, a.tree));
    hide Reached, IndexingTheorems.Reached, IndexingTheorems.Sound, IndexingConvergence.Settled, IndexingConvergence.Calm,
         Indexing.Index, Indexing.Enumerates, Indexing.Doomed, Isolated, Current;
    StoresAreSequential(c, settings, now, actions, r);
    var history: seq<IndexingTheorems.Attempt> :|
      IndexingTheorems.Reached(c.chunker, IndexStore.Registered(c.head(r)), history, s);
    IndexingConvergence.AnyHistorySettles(c.chunker, c.head(r), history, s, a.tree, a.order, gone, a.mode, a.commit, a.weather);
  }
}
