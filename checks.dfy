/** What a batch of checks does, shared by the daemon's tick
    (cmd/nyfikend/nyfikend.go) and the client's forced recheck (cli/cli.go).
    Both start one `Check` per page on a fresh error channel and a collector
    that reads as many values as checks were started and logs the non-nil
    ones. The checks run concurrently in the source; here they run one after
    another in dispatch order. */
module Checks {
  import opened Wrappers
  import opened Settings
  import opened Page

  /** The registry, the cache and the values sent on the channel after a
      batch. */
  datatype Batch = Batch(updates: set<string>, files: map<string, string>, reports: seq<Option<PageError>>)

  /** The checks of `ps`, in order, each seeing the state the one before it
      left. */
  function RunChecks(ps: seq<Page>, lib: Lib, world: World, global: Prog,
                     updates: set<string>, files: map<string, string>): (b: Batch)
    ensures |b.reports| == |ps|
  {
    if ps == [] then Batch(updates, files, [])
    else
      var before := RunChecks(ps[..|ps| - 1], lib, world, global, updates, files);
      var o := CheckOf(lib, world, ps[|ps| - 1], global, before.updates, before.files);
      Batch(o.updates, o.files, before.reports + [o.report])
  }

  /** The URLs of `ps`. */
  function Urls(ps: seq<Page>): set<string>
  {
    if ps == [] then {} else Urls(ps[..|ps| - 1]) + {ps[|ps| - 1].reqUrl.text}
  }

  /** The cache file names of `ps`. */
  function CacheNames(ps: seq<Page>): set<string>
  {
    if ps == [] then {} else CacheNames(ps[..|ps| - 1]) + {CacheName(ps[|ps| - 1].reqUrl)}
  }

  /** A batch only records the URLs of its own pages and never drops one. */
  lemma {:induction false} BatchOnlyAddsItsUrls(ps: seq<Page>, lib: Lib, world: World, global: Prog,
                                                updates: set<string>, files: map<string, string>)
    ensures var b := RunChecks(ps, lib, world, global, updates, files);
      updates <= b.updates <= updates + Urls(ps)
  {
    if ps != [] {
      var init := ps[..|ps| - 1];
      BatchOnlyAddsItsUrls(init, lib, world, global, updates, files);
      var before := RunChecks(init, lib, world, global, updates, files);
      CheckOnlyAddsItsUrl(lib, world, ps[|ps| - 1], global, before.updates, before.files);
    }
  }

  /** A batch only writes its own pages' cache files. */
  lemma {:induction false} BatchOnlyWritesItsFiles(ps: seq<Page>, lib: Lib, world: World, global: Prog,
                                                   updates: set<string>, files: map<string, string>)
    ensures var b := RunChecks(ps, lib, world, global, updates, files);
      forall name :: name !in CacheNames(ps) ==>
        (name in b.files <==> name in files) && (name in files ==> b.files[name] == files[name])
  {
    if ps != [] {
      var init := ps[..|ps| - 1];
      BatchOnlyWritesItsFiles(init, lib, world, global, updates, files);
      var before := RunChecks(init, lib, world, global, updates, files);
      CheckOnlyWritesItsFile(lib, world, ps[|ps| - 1], global, before.updates, before.files);
    }
  }

  /** The registry, the cache and the channel hold what the checks of `due`
      leave, starting from `updates` and `files`. */
  ghost predicate Dispatched(due: seq<Page>, lib: Lib, world: World, global: Prog,
                             updates: set<string>, files: map<string, string>,
                             g: Globals, cache: Cache, ch: Channel)
    reads g, cache, ch
  {
    var b := RunChecks(due, lib, world, global, updates, files);
    g.updates == b.updates && cache.files == b.files && ch.sent == b.reports
  }

  /** After a batch over `due`: the registry and the cache hold what the
      checks of `due` leave, and the log has gained their failures. */
  ghost predicate Batched(due: seq<Page>, lib: Lib, world: World, global: Prog,
                         updates: set<string>, files: map<string, string>, lines: seq<PageError>,
                         g: Globals, cache: Cache, log: Log)
    reads g, cache, log
  {
    var b := RunChecks(due, lib, world, global, updates, files);
    g.updates == b.updates && cache.files == b.files && log.lines == lines + Failures(b.reports)
  }

  /** One `go p.Check(errChan)`: the batch so far grows by `p`. */
  method Dispatch(p: Page, ghost due: seq<Page>, lib: Lib, world: World, ghost global: Prog,
                  ghost updates: set<string>, ghost files: map<string, string>,
                  g: Globals, cache: Cache, ch: Channel)
    requires g.global == global
    requires Dispatched(due, lib, world, global, updates, files, g, cache, ch)
    modifies g, cache, ch
    ensures Dispatched(due + [p], lib, world, global, updates, files, g, cache, ch)
    ensures g.global == global && g.saved == old(g.saved)
  {
    assert (due + [p])[..|due|] == due;
    Check(p, lib, world, g, cache, ch);
  }

  /** `for _, p := range pages { go p.Check(errChan) }` on a fresh channel:
      every page is checked in order; returns how many checks were started. */
  method DispatchAll(ps: seq<Page>, lib: Lib, world: World, g: Globals, cache: Cache, ch: Channel)
    returns (n: nat)
    requires ch.sent == []
    modifies g, cache, ch
    ensures n == |ps|
    ensures Dispatched(ps, lib, world, old(g.global), old(g.updates), old(cache.files), g, cache, ch)
    ensures g.global == old(g.global) && g.saved == old(g.saved)
  {
    ghost var global0, updates0, files0 := g.global, g.updates, cache.files;
    n := 0;
    while n < |ps|
      invariant 0 <= n <= |ps|
      invariant Dispatched(ps[..n], lib, world, global0, updates0, files0, g, cache, ch)
      invariant g.global == global0 && g.saved == old(g.saved)
    {
      assert ps[..n + 1] == ps[..n] + [ps[n]];
      Dispatch(ps[n], ps[..n], lib, world, global0, updates0, files0, g, cache, ch);
      n := n + 1;
    }
    assert ps[..n] == ps;
  }

  /** The non-nil values, in the order they were received. */
  function Failures(reports: seq<Option<PageError>>): seq<PageError>
  {
    if reports == [] then []
    else
      var r := reports[|reports| - 1];
      Failures(reports[..|reports| - 1]) + (if r.Some? then [r.value] else [])
  }

  /** Exactly the non-nil values are logged. */
  lemma {:induction false} FailuresAreTheErrors(reports: seq<Option<PageError>>)
    ensures |Failures(reports)| <= |reports|
    ensures forall e :: e in Failures(reports) <==> Some(e) in reports
  {
    if reports != [] {
      var init := reports[..|reports| - 1];
      FailuresAreTheErrors(init);
      assert reports == init + [reports[|reports| - 1]];
    }
  }

  /** The daemon's log. */
  class Log {
    var lines: seq<PageError>

    constructor ()
      ensures lines == []
    {
      lines := [];
    }
  }

  /** The collector goroutine: receives `nChecks` values, logging the non-nil
      ones. In the source it blocks until each value arrives; here every
      check has already sent. */
  method Collect(ch: Channel, nChecks: nat, log: Log)
    requires nChecks <= |ch.sent|
    modifies log
    ensures log.lines == old(log.lines) + Failures(ch.sent[..nChecks])
  {
    var i := 0;
    while i < nChecks
      invariant 0 <= i <= nChecks
      invariant log.lines == old(log.lines) + Failures(ch.sent[..i])
    {
      assert ch.sent[..i + 1][..i] == ch.sent[..i];
      var err := ch.sent[i];
      if err.Some? {
        log.lines := log.lines + [err.value];
      }
      i := i + 1;
    }
  }
}
