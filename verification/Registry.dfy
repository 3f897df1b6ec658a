// The hook and interceptor registries, shared by pointer between a client and
// those derived from it, and the slices that builders take from them.
module Registry {
  import opened Wrappers
  import opened Runtime
  import opened Slices

  datatype Interceptor = Interceptor(name: string)

  // What a program does with its clients; `c` says with which one.
  datatype Call =
    | Use(c: nat, hooks: seq<Hook>)
    | Intercept(c: nat, inters: seq<Interceptor>)
    | Create(c: nat)
    | MakeQuery(c: nat)
    | Tx(c: nat)
    | Debug(c: nat)

  // The meaning: one list of hooks and one of interceptors, the kinds of the
  // clients made so far, and what each builder and query took.
  datatype Clients = Clients(
    hooks: seq<Hook>,
    inters: seq<Interceptor>,
    kinds: seq<ClientKind>,
    builders: seq<seq<Hook>>,
    queries: seq<seq<Interceptor>>)

  // Whether the driver is a transaction's, and the debug flag.
  datatype ClientKind = ClientKind(tx: bool, debug: bool)

  // A call on a client that does not exist cannot be made.
  function Called(s: Clients, call: Call): Clients {
    if call.c >= |s.kinds| then s
    else match call
      case Use(_, hooks) => s.(hooks := s.hooks + hooks)
      case Intercept(_, inters) => s.(inters := s.inters + inters)
      case Create(_) => s.(builders := s.builders + [s.hooks])
      case MakeQuery(_) => s.(queries := s.queries + [s.inters])
      case Tx(c) => if s.kinds[c].tx then s else s.(kinds := s.kinds + [ClientKind(true, s.kinds[c].debug)])
      // A debug client's driver is a wrapper, whatever it wraps; its flag stays as it was.
      case Debug(c) => if s.kinds[c].debug then s else s.(kinds := s.kinds + [ClientKind(false, s.kinds[c].debug)])
  }

  function CalledAll(s: Clients, calls: seq<Call>): Clients {
    if calls == [] then s else Called(CalledAll(s, calls[..|calls| - 1]), calls[|calls| - 1])
  }

  // The first n of them.
  function CalledFirst(s: Clients, calls: seq<Call>, n: nat): Clients
    requires n <= |calls|
  {
    if n == 0 then s else Called(CalledFirst(s, calls, n - 1), calls[n - 1])
  }

  lemma {:induction false} FirstIsAll(s: Clients, calls: seq<Call>, n: nat)
    requires n <= |calls|
    ensures CalledFirst(s, calls, n) == CalledAll(s, calls[..n])
  {
    if n > 0 {
      FirstIsAll(s, calls, n - 1);
      assert calls[..n][..n - 1] == calls[..n - 1];
    }
  }

  // The `hooks` and `inters` structs that configs point to.
  class SharedConfig {
    var hooks: Slice<Hook>
    var inters: Slice<Interceptor>

    constructor ()
      ensures Proper(hooks) && Proper(inters) && Elements(hooks) == [] && Elements(inters) == []
      ensures fresh(hooks.cells) && fresh(inters.cells)
    {
      var noHooks, noInters := new Hook[0], new Interceptor[0];
      hooks, inters := Slice(noHooks, 0), Slice(noInters, 0);
    }
  }

  class Client {
    const config: SharedConfig
    const kind: ClientKind

    constructor (config: SharedConfig, kind: ClientKind)
      ensures this.config == config && this.kind == kind
    {
      this.config, this.kind := config, kind;
    }
  }

  // A slice taken from a registry earlier: if it lies in the registry's present
  // array, then within the part that is in use.
  ghost predicate Prefix<T>(taken: Slice<T>, registry: Slice<T>, other: object) {
    && Proper(taken)
    && (taken.cells as object) != other
    && (taken.cells == registry.cells ==> taken.len <= registry.len)
  }

  class Program {
    const config: SharedConfig
    var clients: seq<Client>
    // The slices builders and queries took, which share the registries' arrays.
    var builders: seq<Slice<Hook>>
    var queries: seq<Slice<Interceptor>>

    ghost predicate Valid()
      reads this, config
    {
      && (forall k :: 0 <= k < |clients| ==> clients[k].config == config)
      && Proper(config.hooks) && Proper(config.inters)
      && (config.hooks.cells as object) != config.inters.cells
      && (forall k :: 0 <= k < |builders| ==> Prefix(builders[k], config.hooks, config.inters.cells))
      && (forall k :: 0 <= k < |queries| ==> Prefix(queries[k], config.inters, config.hooks.cells))
    }

    ghost function Arrays(): set<object>
      reads this, config
    {
      {config.hooks.cells, config.inters.cells} + (set b | b in builders :: b.cells as object)
      + (set q | q in queries :: q.cells as object)
    }

    ghost function Taken(): (r: seq<seq<Hook>>)
      requires Valid()
      reads this, config, Arrays()
      ensures |r| == |builders| && forall k :: 0 <= k < |builders| ==> r[k] == Elements(builders[k])
    {
      seq(|builders|, k requires 0 <= k < |builders| && Valid() reads this, config, Arrays() => Elements(builders[k]))
    }

    ghost function Asked(): (r: seq<seq<Interceptor>>)
      requires Valid()
      reads this, config, Arrays()
      ensures |r| == |queries| && forall k :: 0 <= k < |queries| ==> r[k] == Elements(queries[k])
    {
      seq(|queries|, k requires 0 <= k < |queries| && Valid() reads this, config, Arrays() => Elements(queries[k]))
    }

    ghost function Kinds(): (r: seq<ClientKind>)
      reads this
      ensures |r| == |clients| && forall k :: 0 <= k < |clients| ==> r[k] == clients[k].kind
    {
      seq(|clients|, k requires 0 <= k < |clients| reads this => clients[k].kind)
    }

    ghost function Contents(): Clients
      requires Valid()
      reads this, config, Arrays()
    {
      Clients(Elements(config.hooks), Elements(config.inters), Kinds(), Taken(), Asked())
    }

    // NewClient().
    constructor (debug: bool)
      ensures Valid() && fresh(config) && fresh(config.hooks.cells) && fresh(config.inters.cells)
      ensures Contents() == Clients([], [], [ClientKind(false, debug)], [], [])
    {
      var shared := new SharedConfig();
      var root := new Client(shared, ClientKind(false, debug));
      config, clients, builders, queries := shared, [root], [], [];
    }

    // client.Use(hooks...): what earlier builders took is not disturbed, although
    // it lies in the array that is appended to.
    method UseHooks(c: nat, hooks: seq<Hook>)
      requires Valid() && c < |clients|
      modifies config`hooks, config.hooks.cells
      ensures Valid() && fresh(Arrays() - old(Arrays()))
      ensures Contents() == Called(old(Contents()), Use(c, hooks))
      ensures config.hooks.cells == old(config.hooks.cells) || fresh(config.hooks.cells)
    {
      var shared := clients[c].config;
      ghost var was := shared.hooks;
      shared.hooks := Append(shared.hooks, hooks);
      forall k | 0 <= k < |builders| ensures Elements(builders[k]) == old(Elements(builders[k])) {
        if builders[k].cells == was.cells {
          assert Elements(builders[k]) == was.cells[..was.len][..builders[k].len];
        }
      }
      forall k | 0 <= k < |queries| ensures Elements(queries[k]) == old(Elements(queries[k])) {
        assert (queries[k].cells as object) != was.cells;
      }
      assert Taken() == old(Taken()) && Asked() == old(Asked()) && Kinds() == old(Kinds());
    }

    method InterceptQueries(c: nat, inters: seq<Interceptor>)
      requires Valid() && c < |clients|
      modifies config`inters, config.inters.cells
      ensures Valid() && fresh(Arrays() - old(Arrays()))
      ensures Contents() == Called(old(Contents()), Intercept(c, inters))
      ensures config.inters.cells == old(config.inters.cells) || fresh(config.inters.cells)
    {
      var shared := clients[c].config;
      ghost var was := shared.inters;
      shared.inters := Append(shared.inters, inters);
      forall k | 0 <= k < |queries| ensures Elements(queries[k]) == old(Elements(queries[k])) {
        if queries[k].cells == was.cells {
          assert Elements(queries[k]) == was.cells[..was.len][..queries[k].len];
        }
      }
      forall k | 0 <= k < |builders| ensures Elements(builders[k]) == old(Elements(builders[k])) {
        assert (builders[k].cells as object) != was.cells;
      }
      assert Taken() == old(Taken()) && Asked() == old(Asked()) && Kinds() == old(Kinds());
    }

    method NewBuilder(c: nat)
      requires Valid() && c < |clients|
      modifies this`builders
      ensures Valid() && fresh(Arrays() - old(Arrays()))
      ensures Contents() == Called(old(Contents()), Create(c))
    {
      builders := builders + [clients[c].config.hooks];
      assert Taken() == old(Taken()) + [Elements(config.hooks)] && Asked() == old(Asked()) && Kinds() == old(Kinds());
    }

    method NewQuery(c: nat)
      requires Valid() && c < |clients|
      modifies this`queries
      ensures Valid() && fresh(Arrays() - old(Arrays()))
      ensures Contents() == Called(old(Contents()), MakeQuery(c))
    {
      queries := queries + [clients[c].config.inters];
      assert Asked() == old(Asked()) + [Elements(config.inters)] && Taken() == old(Taken()) && Kinds() == old(Kinds());
    }

    // client.Tx() and client.Debug(): the config is copied, the registries are not.
    method Derive(c: nat, kind: ClientKind)
      requires Valid() && c < |clients|
      modifies this`clients
      ensures Valid() && Arrays() == old(Arrays())
      ensures Contents() == old(Contents()).(kinds := old(Contents()).kinds + [kind])
    {
      var client := new Client(clients[c].config, kind);
      clients := clients + [client];
      assert Kinds() == old(Kinds()) + [kind] && Taken() == old(Taken()) && Asked() == old(Asked());
    }

    method Do(call: Call)
      requires Valid()
      modifies this, config, config.hooks.cells, config.inters.cells
      ensures Valid() && Contents() == Called(old(Contents()), call)
      ensures config.hooks.cells == old(config.hooks.cells) || fresh(config.hooks.cells)
      ensures config.inters.cells == old(config.inters.cells) || fresh(config.inters.cells)
    {
      if call.c < |clients| {
        var kind := clients[call.c].kind;
        assert kind == Kinds()[call.c];
        match call
        case Use(c, hooks) => UseHooks(c, hooks);
        case Intercept(c, inters) => InterceptQueries(c, inters);
        case Create(c) => NewBuilder(c);
        case MakeQuery(c) => NewQuery(c);
        case Tx(c) =>
          if !kind.tx {
            Derive(c, ClientKind(true, kind.debug));
          }
        case Debug(c) =>
          if !kind.debug {
            Derive(c, ClientKind(false, kind.debug));
          }
      }
    }
  }

  // Main result, on the heap: any interleaving of calls on any of the clients has
  // its meaning, although all builders' slices share the registries' arrays.
  method Perform(debug: bool, calls: seq<Call>) returns (p: Program)
    ensures p.Valid()
    ensures p.Contents() == CalledAll(Clients([], [], [ClientKind(false, debug)], [], []), calls)
  {
    p := new Program(debug);
    ghost var start := p.Contents();
    for i := 0 to |calls|
      invariant p.Valid() && fresh(p) && fresh(p.config)
      invariant fresh(p.config.hooks.cells) && fresh(p.config.inters.cells)
      invariant p.Contents() == CalledFirst(start, calls, i)
    {
      p.Do(calls[i]);
    }
    FirstIsAll(start, calls, |calls|);
    assert calls[..|calls|] == calls;
  }

  // The kinds of the clients after a program: a transaction of a client that is not one
  // is added with that client's debug flag, and so is a debug client of one without it.
  function KindsAfter(root: ClientKind, calls: seq<Call>): seq<ClientKind> {
    if calls == [] then [root]
    else
      var before := KindsAfter(root, calls[..|calls| - 1]);
      match calls[|calls| - 1]
      case Tx(c) => if c < |before| && !before[c].tx then before + [ClientKind(true, before[c].debug)] else before
      case Debug(c) => if c < |before| && !before[c].debug then before + [ClientKind(false, false)] else before
      case _ => before
  }

  // All hooks registered by a program, in order, through any client that was there.
  function HooksUsed(root: ClientKind, calls: seq<Call>): seq<Hook> {
    if calls == [] then []
    else
      var n := |calls| - 1;
      HooksUsed(root, calls[..n])
      + if calls[n].Use? && calls[n].c < |KindsAfter(root, calls[..n])| then calls[n].hooks else []
  }

  function IntersUsed(root: ClientKind, calls: seq<Call>): seq<Interceptor> {
    if calls == [] then []
    else
      var n := |calls| - 1;
      IntersUsed(root, calls[..n])
      + if calls[n].Intercept? && calls[n].c < |KindsAfter(root, calls[..n])| then calls[n].inters else []
  }

  // For each builder made, the hooks registered before it was.
  function HooksTaken(root: ClientKind, calls: seq<Call>): seq<seq<Hook>> {
    if calls == [] then []
    else
      var n := |calls| - 1;
      HooksTaken(root, calls[..n])
      + if calls[n].Create? && calls[n].c < |KindsAfter(root, calls[..n])| then [HooksUsed(root, calls[..n])] else []
  }

  function IntersTaken(root: ClientKind, calls: seq<Call>): seq<seq<Interceptor>> {
    if calls == [] then []
    else
      var n := |calls| - 1;
      IntersTaken(root, calls[..n])
      + if calls[n].MakeQuery? && calls[n].c < |KindsAfter(root, calls[..n])|
        then [IntersUsed(root, calls[..n])] else []
  }

  // Main result: what any program comes to. The lists are the concatenations of all
  // that was registered, in order and through whichever client, and every builder and
  // query holds the concatenation up to where it was made.
  lemma {:induction false} ProgramMeans(root: ClientKind, calls: seq<Call>)
    ensures CalledAll(Clients([], [], [root], [], []), calls) ==
      Clients(HooksUsed(root, calls), IntersUsed(root, calls), KindsAfter(root, calls),
              HooksTaken(root, calls), IntersTaken(root, calls))
  {
    if calls != [] {
      ProgramMeans(root, calls[..|calls| - 1]);
    }
  }

  // Main result: however a program goes on, the hook and interceptor lists only
  // grow, every client keeps its place, and what was taken by a builder stays as it
  // was.
  lemma {:induction false} OnlyGrows(s: Clients, before: seq<Call>, after: seq<Call>)
    ensures var now, later := CalledAll(s, before), CalledAll(s, before + after);
      && now.hooks <= later.hooks
      && now.inters <= later.inters
      && now.kinds <= later.kinds
      && now.builders <= later.builders
      && now.queries <= later.queries
  {
    if after == [] {
      assert before + after == before;
    } else {
      var n := |after| - 1;
      OnlyGrows(s, before, after[..n]);
      assert (before + after)[..|before + after| - 1] == before + after[..n];
    }
  }

  // Main result: a builder's hooks are exactly those registered when it was
  // created, by any client derived from the root, however the program goes on.
  lemma BuilderTookPrefix(s: Clients, before: seq<Call>, c: nat, after: seq<Call>)
    requires c < |CalledAll(s, before).kinds|
    ensures var atCreate, end := CalledAll(s, before), CalledAll(s, before + [Create(c)] + after);
      && |atCreate.builders| < |end.builders|
      && end.builders[|atCreate.builders|] == atCreate.hooks
      && atCreate.hooks <= end.hooks
  {
    assert (before + [Create(c)])[..|before|] == before;
    OnlyGrows(s, before + [Create(c)], after);
  }
}
