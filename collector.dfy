/** `SymbolCollector`: the worklist that gathers the symbols of a module and
    of everything nested in it. The HIR database is abstracted: for each work
    item it yields the steps that `collect_from_module`, `collect_from_body`,
    `collect_from_impl` or `collect_from_trait` would take (push the symbol a
    lookup produces, or enqueue more work), and it names the bodies and traits
    that become container names. */
module Collector {
  import opened Symbols

  /** `SymbolCollectorWork`; the ids are kept abstract. */
  datatype Work =
    | ModuleWork(moduleId: nat, parent: Option<nat>)
    | BodyWork(bodyId: nat)
    | ImplWork(implId: nat)
    | TraitWork(traitId: nat)

  /** What a lookup yields about one declaration: the parts of its symbol
      that do not depend on the collector, and, for an associated item, the
      name of the module or trait that declares it (`None` for an impl and for
      items that are not associated). */
  datatype Decl = Decl(name: string, kind: FileSymbolKind, loc: DeclarationLocation, ownContainer: Option<string>)

  /** One step of a `collect_from_*` routine: `push_file_symbol` with the
      closure's outcome (`None` when the declaration has no name or source),
      or `self.work.push(..)`. */
  datatype Action = PushSymbol(decl: Option<Decl>) | Enqueue(work: Work)

  /** The database as seen by the collector. `size` is a measure on work
      items under which every item enqueues strictly less than itself: the
      module tree and the block tree of each body are finite. */
  datatype Db = Db(
    actions: Work -> seq<Action>,
    bodyName: nat -> Option<string>,
    traitName: nat -> Option<string>,
    size: Work -> nat)

  /** The symbol pushed for `d` while `current` is the innermost container
      name: an associated item names its own container if it has one
      (`container_name(..).or_else(|| s.current_container_name())`), every
      other declaration takes the current one. */
  function MakeSymbol(d: Decl, current: Option<string>): FileSymbol {
    FileSymbol(d.name, d.loc, d.kind, if d.ownContainer.Some? then d.ownContainer else current)
  }

  function Pushed(a: Action, current: Option<string>): seq<FileSymbol> {
    if a.PushSymbol? && a.decl.Some? then [MakeSymbol(a.decl.value, current)] else []
  }

  /** The symbols that `actions` push, in order. */
  function Emitted(actions: seq<Action>, current: Option<string>): seq<FileSymbol> {
    if |actions| == 0 then []
    else Emitted(actions[..|actions| - 1], current) + Pushed(actions[|actions| - 1], current)
  }

  function Queued(a: Action): seq<Work> {
    if a.Enqueue? then [a.work] else []
  }

  /** The work items that `actions` enqueue, in order. */
  function Spawned(actions: seq<Action>): seq<Work> {
    if |actions| == 0 then []
    else Spawned(actions[..|actions| - 1]) + Queued(actions[|actions| - 1])
  }

  /** The container name a work item is collected under, when `current` is
      the innermost one before it: a module inside a body is named after the
      body (`parent.and_then(def_with_body_id_name)`), a trait after itself,
      and bodies and impls add no name. */
  function ContainerFor(db: Db, w: Work, current: Option<string>): Option<string> {
    var own := match w
      case ModuleWork(_, parent) => if parent.Some? then db.bodyName(parent.value) else None
      case TraitWork(t) => db.traitName(t)
      case _ => None;
    if own.Some? then own else current
  }

  function SumSize(db: Db, ws: seq<Work>): nat {
    if |ws| == 0 then 0 else SumSize(db, ws[..|ws| - 1]) + db.size(ws[|ws| - 1])
  }

  /** Every work item enqueues less than itself. */
  ghost predicate Terminating(db: Db) {
    forall w :: SumSize(db, Spawned(db.actions(w))) < db.size(w)
  }

  lemma {:induction false} SumSizeAppend(db: Db, a: seq<Work>, b: seq<Work>)
    ensures SumSize(db, a + b) == SumSize(db, a) + SumSize(db, b)
    decreases |b|
  {
    if |b| > 0 {
      assert (a + b)[..|a + b| - 1] == a + b[..|b| - 1];
      assert (a + b)[|a + b| - 1] == b[|b| - 1];
      SumSizeAppend(db, a, b[..|b| - 1]);
    } else {
      assert a + b == a;
    }
  }

  /** The symbols `collect` gathers from the stack `work` (top last): pop an
      item, push its symbols under its container name, enqueue its work, and
      go on. Between two items the container-name stack is empty, so each
      item's symbols are named after that item alone. */
  function Drain(db: Db, work: seq<Work>): seq<FileSymbol>
    requires Terminating(db)
    decreases SumSize(db, work)
  {
    if |work| == 0 then []
    else
      var w := work[|work| - 1];
      var rest := work[..|work| - 1];
      SumSizeAppend(db, rest, Spawned(db.actions(w)));
      Emitted(db.actions(w), ContainerFor(db, w, None)) + Drain(db, rest + Spawned(db.actions(w)))
  }

  /** Taking one more step of `actions`. */
  lemma ActionStep(actions: seq<Action>, k: nat, current: Option<string>)
    requires k < |actions|
    ensures Emitted(actions[..k + 1], current) == Emitted(actions[..k], current) + Pushed(actions[k], current)
    ensures Spawned(actions[..k + 1]) == Spawned(actions[..k]) + Queued(actions[k])
  {
    assert actions[..k + 1][..k] == actions[..k];
  }

  /** Popping the top item of a non-empty stack and collecting it: its
      symbols come first, and what is left to do is smaller. */
  lemma DrainStep(db: Db, work: seq<Work>)
    requires Terminating(db) && |work| > 0
    ensures var w, rest := work[|work| - 1], work[..|work| - 1];
            && Drain(db, work) == Emitted(db.actions(w), ContainerFor(db, w, None)) + Drain(db, rest + Spawned(db.actions(w)))
            && SumSize(db, rest + Spawned(db.actions(w))) < SumSize(db, work)
  {
    var w, rest := work[|work| - 1], work[..|work| - 1];
    SumSizeAppend(db, rest, Spawned(db.actions(w)));
  }

  /** A symbol is pushed by `actions` exactly when one of them pushes a
      declaration that yields it. */
  lemma {:induction false} EmittedMembership(actions: seq<Action>, current: Option<string>, s: FileSymbol)
    ensures s in Emitted(actions, current)
        <==> exists d :: PushSymbol(Some(d)) in actions && s == MakeSymbol(d, current)
    decreases |actions|
  {
    if |actions| > 0 {
      var init, last := actions[..|actions| - 1], actions[|actions| - 1];
      assert actions == init + [last];
      EmittedMembership(init, current, s);
      if s in Emitted(actions, current) && s !in Emitted(init, current) {
        assert PushSymbol(Some(last.decl.value)) in actions;
      }
    }
  }

  /** The work items `Drain` pops from the stack `work`, in the order it
      pops them. */
  function Reached(db: Db, work: seq<Work>): seq<Work>
    requires Terminating(db)
    decreases SumSize(db, work)
  {
    if |work| == 0 then []
    else
      var w := work[|work| - 1];
      var rest := work[..|work| - 1];
      SumSizeAppend(db, rest, Spawned(db.actions(w)));
      [w] + Reached(db, rest + Spawned(db.actions(w)))
  }

  /** The items reached from `work` are those on it and those that a reached
      item enqueues. */
  lemma {:induction false} ReachedExactly(db: Db, work: seq<Work>, x: Work)
    requires Terminating(db)
    ensures x in Reached(db, work)
        <==> x in work || exists y :: y in Reached(db, work) && x in Spawned(db.actions(y))
    decreases SumSize(db, work)
  {
    if |work| > 0 {
      var w, rest := work[|work| - 1], work[..|work| - 1];
      var next := rest + Spawned(db.actions(w));
      SumSizeAppend(db, rest, Spawned(db.actions(w)));
      assert work == rest + [w];
      ReachedExactly(db, next, x);
      assert Reached(db, work) == [w] + Reached(db, next);
      if exists y :: y in Reached(db, work) && x in Spawned(db.actions(y)) {
        var y :| y in Reached(db, work) && x in Spawned(db.actions(y));
        if y != w {
          assert y in Reached(db, next);
        }
      }
    }
  }

  /** A symbol is in what `collect` returns exactly when some reached work
      item pushes a declaration that yields it under that item's container
      name. */
  lemma {:induction false} DrainMembership(db: Db, work: seq<Work>, s: FileSymbol)
    requires Terminating(db)
    ensures s in Drain(db, work)
        <==> exists w, d :: w in Reached(db, work) && PushSymbol(Some(d)) in db.actions(w)
                            && s == MakeSymbol(d, ContainerFor(db, w, None))
    decreases SumSize(db, work)
  {
    if |work| > 0 {
      var w, rest := work[|work| - 1], work[..|work| - 1];
      var next := rest + Spawned(db.actions(w));
      SumSizeAppend(db, rest, Spawned(db.actions(w)));
      EmittedMembership(db.actions(w), ContainerFor(db, w, None), s);
      DrainMembership(db, next, s);
      assert Reached(db, work) == [w] + Reached(db, next);
      if exists v, d :: v in Reached(db, work) && PushSymbol(Some(d)) in db.actions(v)
                        && s == MakeSymbol(d, ContainerFor(db, v, None)) {
        var v, d :| v in Reached(db, work) && PushSymbol(Some(d)) in db.actions(v)
                    && s == MakeSymbol(d, ContainerFor(db, v, None));
        if v != w {
          assert v in Reached(db, next);
        }
      }
    }
  }

  lemma AppendAssociative(a: seq<FileSymbol>, b: seq<FileSymbol>, c: seq<FileSymbol>)
    ensures a + b + c == a + (b + c)
  {
  }

  class SymbolCollector {
    const db: Db
    var symbols: seq<FileSymbol>
    var work: seq<Work>
    var containerNameStack: seq<string>

    /** The collector `collect` starts from: nothing collected, the root
        module on the stack, no container name. */
    constructor (db: Db, root: Work)
      ensures this.db == db && symbols == [] && work == [root] && containerNameStack == []
    {
      this.db := db;
      symbols := [];
      work := [root];
      containerNameStack := [];
    }

    /** `current_container_name`: the top of the container-name stack. */
    function CurrentContainerName(): Option<string>
      reads this
    {
      if |containerNameStack| == 0 then None else Some(containerNameStack[|containerNameStack| - 1])
    }

    /** `push_file_symbol`: append the symbol the lookup yields, if any. The
        result only grows, by at most one symbol. */
    method PushFileSymbol(decl: Option<Decl>)
      modifies this
      ensures symbols == old(symbols) + Pushed(PushSymbol(decl), old(CurrentContainerName()))
      ensures old(symbols) <= symbols && |symbols| <= |old(symbols)| + 1
      ensures work == old(work) && containerNameStack == old(containerNameStack)
    {
      if decl.Some? {
        symbols := symbols + [MakeSymbol(decl.value, CurrentContainerName())];
      }
    }

    /** The body of a `collect_from_*` routine: take its steps in order. */
    method RunActions(actions: seq<Action>)
      modifies this
      ensures symbols == old(symbols) + Emitted(actions, old(CurrentContainerName()))
      ensures work == old(work) + Spawned(actions)
      ensures containerNameStack == old(containerNameStack)
    {
      ghost var current := CurrentContainerName();
      for k := 0 to |actions|
        invariant symbols == old(symbols) + Emitted(actions[..k], current)
        invariant work == old(work) + Spawned(actions[..k])
        invariant containerNameStack == old(containerNameStack)
      {
        ActionStep(actions, k, current);
        match actions[k]
        case PushSymbol(d) =>
          PushFileSymbol(d);
        case Enqueue(w) =>
          work := work + [w];
      }
      assert actions[..|actions|] == actions;
    }

    /** `with_container_name`: run `actions` with `containerName`, if any, on
        top of the stack, and leave the stack as it was. */
    method WithContainerName(containerName: Option<string>, actions: seq<Action>)
      modifies this
      ensures symbols == old(symbols)
                         + Emitted(actions, if containerName.Some? then containerName else old(CurrentContainerName()))
      ensures work == old(work) + Spawned(actions)
      ensures containerNameStack == old(containerNameStack)
    {
      if containerName.Some? {
        containerNameStack := containerNameStack + [containerName.value];
        RunActions(actions);
        containerNameStack := containerNameStack[..|containerNameStack| - 1];
      } else {
        RunActions(actions);
      }
    }

    /** `do_work`: collect one work item, under the container name its kind
        calls for. */
    method DoWork(w: Work)
      modifies this
      ensures symbols == old(symbols) + Emitted(db.actions(w), ContainerFor(db, w, old(CurrentContainerName())))
      ensures work == old(work) + Spawned(db.actions(w))
      ensures containerNameStack == old(containerNameStack)
    {
      match w
      case ModuleWork(_, parent) =>
        var parentName := if parent.Some? then db.bodyName(parent.value) else None;
        WithContainerName(parentName, db.actions(w));
      case TraitWork(t) =>
        WithContainerName(db.traitName(t), db.actions(w));
      case BodyWork(_) =>
        RunActions(db.actions(w));
      case ImplWork(_) =>
        RunActions(db.actions(w));
    }

    /** `self.work.pop()`. */
    method PopWork() returns (next: Option<Work>)
      modifies this
      ensures old(work) == [] ==> next == None && work == old(work)
      ensures old(work) != [] ==> next == Some(old(work)[|old(work)| - 1]) && work == old(work)[..|old(work)| - 1]
      ensures symbols == old(symbols) && containerNameStack == old(containerNameStack)
    {
      if |work| == 0 {
        next := None;
      } else {
        next := Some(work[|work| - 1]);
        work := work[..|work| - 1];
      }
    }

    /** `collect`: run the worklist from the module `moduleId` until it is
        empty, and return what was collected. */
    static method Collect(db: Db, moduleId: nat) returns (symbols: seq<FileSymbol>)
      requires Terminating(db)
      ensures symbols == Drain(db, [ModuleWork(moduleId, None)])
    {
      var collector := new SymbolCollector(db, ModuleWork(moduleId, None));
      ghost var all := Drain(db, [ModuleWork(moduleId, None)]);
      while true
        invariant collector.db == db && collector.containerNameStack == []
        invariant all == collector.symbols + Drain(db, collector.work)
        decreases SumSize(db, collector.work)
      {
        ghost var stack := collector.work;
        var next := collector.PopWork();
        if next.None? {
          break;
        }
        var w := next.value;
        DrainStep(db, stack);
        ghost var before := collector.symbols;
        ghost var pushed := Emitted(db.actions(w), ContainerFor(db, w, None));
        collector.DoWork(w);
        assert collector.symbols == before + pushed;
        AppendAssociative(before, pushed, Drain(db, collector.work));
      }
      assert collector.symbols + [] == collector.symbols;
      symbols := collector.symbols;
    }
  }
}
