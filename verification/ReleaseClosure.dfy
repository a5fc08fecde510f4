/** The real-library closure of a product: which libraries it needs, and whether they provide its symbols. */
module ReleaseClosure {
  /** A library of the index: its path, its NEEDED entries and its exported dynamic symbols. */
  datatype Library = Library(path: string, needed: seq<string>, exports: set<string>)

  type Index = map<string, Library>

  datatype Verdict =
    | Resolved(dependencies: map<string, string>)
    | MissingDependency(name: string)
    | Unresolved(missing: set<string>)

  // ---- Reachability ------------------------------------------------------------------------------------------

  /** A chain of NEEDED entries from the product to a name; every link but the last is in the index. */
  predicate Chain(index: Index, needed: seq<string>, path: seq<string>) {
    && path != [] && path[0] in needed
    && forall i :: 0 <= i < |path| - 1 ==> path[i] in index && path[i + 1] in index[path[i]].needed
  }

  ghost predicate Reachable(index: Index, needed: seq<string>, name: string) {
    exists path :: Chain(index, needed, path) && path[|path| - 1] == name
  }

  lemma ReachesNeeded(index: Index, needed: seq<string>, name: string)
    requires name in needed
    ensures Reachable(index, needed, name)
  {
    assert Chain(index, needed, [name]);
  }

  lemma ReachesNext(index: Index, needed: seq<string>, name: string, next: string)
    requires Reachable(index, needed, name) && name in index && next in index[name].needed
    ensures Reachable(index, needed, next)
  {
    var path :| Chain(index, needed, path) && path[|path| - 1] == name;
    var longer := path + [next];
    assert longer[|longer| - 1] == next;
    assert Chain(index, needed, longer);
  }

  /** A set that holds the product's needs and those of its members holds everything reachable. */
  lemma {:induction false} ClosedSetHoldsChain(index: Index, needed: seq<string>, closed: set<string>,
                                               path: seq<string>)
    requires forall name :: name in needed ==> name in closed
    requires forall name, next :: name in closed && name in index && next in index[name].needed ==> next in closed
    requires Chain(index, needed, path)
    ensures path[|path| - 1] in closed
  {
    var n := |path| - 1;
    if n > 0 {
      var front := path[..n];
      assert front[|front| - 1] == path[n - 1];
      ClosedSetHoldsChain(index, needed, closed, front);
    }
  }

  // ---- Symbols -----------------------------------------------------------------------------------------------

  /** Python's replace("@@", "@"). */
  function SingleAt(s: string): string {
    if s == [] then [] else if "@@" <= s then "@" + SingleAt(s[2..]) else [s[0]] + SingleAt(s[1..])
  }

  /** What stands before the first "@". */
  function BeforeAt(s: string): string {
    if s == [] || s[0] == '@' then [] else [s[0]] + BeforeAt(s[1..])
  }

  /** The names under which an export satisfies an import. */
  predicate Provides(export_: string, symbol: string) { symbol == SingleAt(export_) || symbol == BeforeAt(export_) }

  lemma {:induction false} WithoutAt(name: string, rest: string)
    requires '@' !in name
    ensures SingleAt(name + rest) == name + SingleAt(rest) && BeforeAt(name + rest) == name + BeforeAt(rest)
  {
    if name == [] {
      assert name + rest == rest;
    } else {
      var s := name + rest;
      assert s[0] == name[0] && name[0] in name && s[1..] == name[1..] + rest;
      WithoutAt(name[1..], rest);
      assert s[0] != '@';
      assert name == [name[0]] + name[1..];
    }
  }

  /** A default version provides the versioned and the plain name, like any other version. */
  lemma VersionsProvide(name: string, version: string, symbol: string)
    requires '@' !in name && '@' !in version
    ensures Provides(name + "@@" + version, symbol) <==> symbol == name + "@" + version || symbol == name
    ensures Provides(name + "@" + version, symbol) <==> symbol == name + "@" + version || symbol == name
    ensures Provides(name, symbol) <==> symbol == name
  {
    assert version + [] == version && name + [] == name;
    WithoutAt(name, []);
    WithoutAt(version, []);
    var two, one := "@@" + version, "@" + version;
    assert name + "@@" + version == name + two && name + "@" + version == name + one;
    WithoutAt(name, two);
    WithoutAt(name, one);
    assert two[2..] == version && one[1..] == version;
    assert SingleAt(two) == one;
    assert !("@@" <= one) by { assert |version| > 0 ==> one[1] == version[0] && version[0] in version; }
    assert SingleAt(one) == one;
  }

  ghost predicate ProvidedBy(index: Index, names: set<string>, symbol: string) {
    exists name, export_ :: name in names && name in index && export_ in index[name].exports &&
      Provides(export_, symbol)
  }

  lemma ProvidedByOneMore(index: Index, names: set<string>, name: string, symbol: string)
    requires name in index
    ensures ProvidedBy(index, names + {name}, symbol)
      <==> ProvidedBy(index, names, symbol) || symbol in Offered(index[name].exports)
  {
    if ProvidedBy(index, names, symbol) {
      var n, e :| n in names && n in index && e in index[n].exports && Provides(e, symbol);
      assert n in names + {name};
    }
    if symbol in Offered(index[name].exports) {
      var e :| e in index[name].exports && Provides(e, symbol);
      assert name in names + {name};
    }
  }

  function Offered(exports: set<string>): (r: set<string>)
    ensures forall symbol :: symbol in r <==> exists e :: e in exports && Provides(e, symbol)
  {
    (set e | e in exports :: SingleAt(e)) + (set e | e in exports :: BeforeAt(e))
  }

  // ---- The worklist ------------------------------------------------------------------------------------------

  /** Whatever a name found so far needs is found or waiting. */
  ghost predicate Closing(index: Index, needed: seq<string>, found: set<string>, queue: seq<string>) {
    && (forall name :: name in needed ==> name in found || name in queue)
    && (forall name, next :: name in found && name in index && next in index[name].needed ==>
      next in found || next in queue)
  }

  ghost predicate AllReachable(index: Index, needed: seq<string>, found: set<string>, queue: seq<string>) {
    forall name :: name in found || name in queue ==> Reachable(index, needed, name)
  }

  lemma ClosingTakesOne(index: Index, needed: seq<string>, found: set<string>, queue: seq<string>, name: string)
    requires Closing(index, needed, found, queue + [name]) && name in index
    ensures Closing(index, needed, found + {name}, queue + index[name].needed)
    ensures name in found ==> Closing(index, needed, found, queue)
  {
    assert forall other :: other in queue + [name] <==> other in queue || other == name;
  }

  lemma ReachableTakesOne(index: Index, needed: seq<string>, found: set<string>, queue: seq<string>, name: string)
    requires AllReachable(index, needed, found, queue + [name]) && name in index
    ensures AllReachable(index, needed, found + {name}, queue + index[name].needed)
  {
    hide Reachable;
    assert name in queue + [name];
    forall next | next in index[name].needed ensures Reachable(index, needed, next) {
      ReachesNext(index, needed, name, next);
    }
  }

  lemma ClosedIsReachable(index: Index, needed: seq<string>, found: set<string>, name: string)
    requires Closing(index, needed, found, []) && AllReachable(index, needed, found, [])
    ensures Reachable(index, needed, name) <==> name in found
  {
    if Reachable(index, needed, name) {
      var path :| Chain(index, needed, path) && path[|path| - 1] == name;
      ClosedSetHoldsChain(index, needed, found, path);
    }
  }

  /** What holds at the head of the loop. */
  ghost predicate Inv(index: Index, needed: seq<string>, found: set<string>, queue: seq<string>,
                      provided: set<string>)
  {
    && found <= index.Keys
    && Closing(index, needed, found, queue) && AllReachable(index, needed, found, queue)
    && forall symbol :: symbol in provided <==> ProvidedBy(index, found, symbol)
  }

  lemma InvStarts(index: Index, needed: seq<string>)
    ensures Inv(index, needed, {}, needed, {})
  {
    hide Reachable;
    forall name | name in needed ensures Reachable(index, needed, name) {
      ReachesNeeded(index, needed, name);
    }
  }

  lemma InvSkips(index: Index, needed: seq<string>, found: set<string>, queue: seq<string>, provided: set<string>,
                 name: string)
    requires Inv(index, needed, found, queue + [name], provided) && name in found
    ensures Inv(index, needed, found, queue, provided)
  {
    hide Reachable, ProvidedBy;
    ClosingTakesOne(index, needed, found, queue, name);
    assert forall other :: other in queue ==> other in queue + [name];
  }

  lemma InvTakes(index: Index, needed: seq<string>, found: set<string>, queue: seq<string>, provided: set<string>,
                 name: string)
    requires Inv(index, needed, found, queue + [name], provided) && name in index
    ensures Inv(index, needed, found + {name}, queue + index[name].needed, provided + Offered(index[name].exports))
  {
    hide Closing, AllReachable, ProvidedBy, Offered;
    ClosingTakesOne(index, needed, found, queue, name);
    ReachableTakesOne(index, needed, found, queue, name);
    forall symbol ensures ProvidedBy(index, found + {name}, symbol)
      <==> ProvidedBy(index, found, symbol) || symbol in Offered(index[name].exports)
    {
      ProvidedByOneMore(index, found, name, symbol);
    }
  }

  lemma InvReaches(index: Index, needed: seq<string>, found: set<string>, queue: seq<string>, provided: set<string>,
                   name: string)
    requires Inv(index, needed, found, queue, provided) && name in queue
    ensures Reachable(index, needed, name)
  {
    hide Reachable, ProvidedBy;
  }

  /** How many libraries of the index are still unseen. */
  ghost function Unseen(index: Index, found: set<string>): nat { |index.Keys - found| }

  lemma OneLess(index: Index, found: set<string>, name: string)
    requires name in index && name !in found
    ensures Unseen(index, found + {name}) < Unseen(index, found)
  {
    assert index.Keys - found == (index.Keys - (found + {name})) + {name};
  }

  /** Every dependency is recorded with the path the index has for it. */
  predicate Recorded(index: Index, dependencies: map<string, string>) {
    forall name :: name in dependencies ==> name in index && dependencies[name] == index[name].path
  }

  lemma RecordedGrows(index: Index, dependencies: map<string, string>, name: string)
    requires Recorded(index, dependencies) && name in index
    ensures Recorded(index, dependencies[name := index[name].path])
    ensures dependencies[name := index[name].path].Keys == dependencies.Keys + {name}
  {
  }

  /** Pops names until the queue is empty or a name is not in the index. */
  method Close(index: Index, needed: seq<string>) returns (r: Verdict, provided: set<string>)
    ensures r.MissingDependency? || r.Resolved?
    ensures r.MissingDependency? ==> Reachable(index, needed, r.name) && r.name !in index
    ensures r.Resolved? ==> Inv(index, needed, r.dependencies.Keys, [], provided) && Recorded(index, r.dependencies)
  {
    hide Reachable, Inv, Offered, Unseen, Recorded;
    var queue: seq<string>, dependencies: map<string, string> := needed, map[];
    provided := {};
    InvStarts(index, needed);
    NothingRecorded(index);
    assert dependencies.Keys == {};
    while queue != []
      invariant Recorded(index, dependencies)
      invariant Inv(index, needed, dependencies.Keys, queue, provided)
      decreases Unseen(index, dependencies.Keys), |queue|
    {
      var name := queue[|queue| - 1];
      ghost var found, before := dependencies.Keys, queue;
      queue := queue[..|queue| - 1];
      assert before == queue + [name];
      if name in dependencies {
        InvSkips(index, needed, found, queue, provided, name);
        continue;
      }
      InvReaches(index, needed, found, before, provided, name);
      if name !in index { return MissingDependency(name), {}; }
      var library := index[name];
      InvTakes(index, needed, found, queue, provided, name);
      OneLess(index, found, name);
      RecordedGrows(index, dependencies, name);
      dependencies := dependencies[name := library.path];
      queue := queue + library.needed;
      provided := provided + Offered(library.exports);
    }
    return Resolved(dependencies), provided;
  }

  lemma NothingRecorded(index: Index)
    ensures Recorded(index, map[])
  {
  }

  /** Some library of the closure exports the symbol. */
  ghost predicate Offers(index: Index, needed: seq<string>, symbol: string) {
    exists name, export_ :: name in index && export_ in index[name].exports && Provides(export_, symbol) &&
      Reachable(index, needed, name)
  }

  lemma ClosureIsExact(index: Index, needed: seq<string>, found: set<string>, provided: set<string>)
    requires Inv(index, needed, found, [], provided)
    ensures found <= index.Keys && forall name :: name in found <==> Reachable(index, needed, name)
    ensures forall symbol :: symbol in provided <==> Offers(index, needed, symbol)
  {
    hide Reachable, Closing, AllReachable, Provides;
    forall name ensures Reachable(index, needed, name) <==> name in found {
      ClosedIsReachable(index, needed, found, name);
    }
    forall symbol ensures ProvidedBy(index, found, symbol) <==> Offers(index, needed, symbol) {}
  }

  /**
   * On success the dependencies are exactly the names reachable through NEEDED and every strong import
   * has an exporter among them; a missing dependency is a reachable name outside the index; the
   * unresolved imports are exactly those that nothing reachable exports.
   */
  method Resolve(index: Index, needed: seq<string>, undefined: set<string>) returns (r: Verdict)
    ensures r.MissingDependency? ==> Reachable(index, needed, r.name) && r.name !in index
    ensures !r.MissingDependency? ==> forall name :: Reachable(index, needed, name) ==> name in index
    ensures r.Resolved? ==> forall name :: name in r.dependencies <==> Reachable(index, needed, name)
    ensures r.Resolved? ==> Recorded(index, r.dependencies)
    ensures r.Resolved? ==> forall symbol :: symbol in undefined ==> Offers(index, needed, symbol)
    ensures r.Unresolved? ==> r.missing != {}
    ensures r.Unresolved? ==> forall symbol :: symbol in r.missing <==>
      symbol in undefined && !Offers(index, needed, symbol)
  {
    hide Reachable, Inv, Offers;
    var provided;
    r, provided := Close(index, needed);
    if r.MissingDependency? { return r; }
    ClosureIsExact(index, needed, r.dependencies.Keys, provided);
    var missing := undefined - provided;
    if missing != {} { return Unresolved(missing); }
    assert forall symbol :: symbol in undefined ==> symbol !in missing;
  }
}
