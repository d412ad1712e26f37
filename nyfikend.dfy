/** The daemon of cmd/nyfikend/nyfikend.go: the once-a-second tick that
    checks every page whose interval divides the seconds elapsed, the `-c`
    start-up path, and `clean`, which removes cache files no page owns.
    Sleeping, the configuration watcher and the client listener are not
    modelled; the directory listing, the removal of a file and the page
    method UrlAsFilename are oracles. */
module Daemon {
  import opened Wrappers
  import opened Settings
  import opened Page
  import opened Checks
  import FileName
  import Ini

  // ---------------------------------------------------------------------
  // The tick
  // ---------------------------------------------------------------------

  function Abs(n: int): nat
  {
    if n < 0 then -n else n
  }

  /** `s` is a whole number of `k`s. */
  predicate MultipleOf(s: nat, k: nat)
    requires k > 0
  {
    s == 0 || (s >= k && MultipleOf(s - k, k))
  }

  /** MultipleOf is divisibility: the remainder is 0. */
  lemma {:induction false} MultipleOfIsMod(s: nat, k: nat)
    requires k > 0
    ensures MultipleOf(s, k) <==> s % k == 0
    decreases s
  {
    if s >= k {
      MultipleOfIsMod(s - k, k);
      ModStep(s - k, k);
    }
  }

  lemma ModStep(s: int, k: int)
    requires k > 0
    ensures (s + k) % k == s % k
  {
    var q, r := s / k, s % k;
    assert s == k * q + r;
    MulStep(k, q);
    ModUnique(s + k, k, q + 1, r);
  }

  lemma ModUnique(a: int, k: int, q: int, r: int)
    requires k > 0 && 0 <= r < k && a == k * q + r
    ensures a % k == r
  {
    var q0, r0 := a / k, a % k;
    assert a == k * q0 + r0;
    if q0 > q {
      MulLe(k, q + 1, q0);
      MulStep(k, q);
    } else if q0 < q {
      MulLe(k, q0 + 1, q);
      MulStep(k, q0);
    }
  }

  lemma MulStep(k: int, q: int)
    ensures k * (q + 1) == k * q + k
  {
  }

  lemma MulLe(k: int, a: int, b: int)
    requires k > 0 && a <= b
    ensures k * a <= k * b
  {
  }

  /** Whether a page with `interval` seconds is checked at second `s`:
      math.Mod of the two is 0. A zero interval gives NaN, never 0; the sign
      of the interval does not matter for a non-negative `s`. */
  predicate Due(s: nat, interval: int)
  {
    interval != 0 && MultipleOf(s, Abs(interval))
  }

  /** The pages checked at second `s`, in order. */
  function DuePages(pages: seq<Page>, s: nat): (due: seq<Page>)
    ensures |due| <= |pages|
    ensures forall p :: p in due ==> p in pages && Due(s, p.settings.interval)
  {
    if pages == [] then []
    else
      var p := pages[|pages| - 1];
      DuePages(pages[..|pages| - 1], s) + (if Due(s, p.settings.interval) then [p] else [])
  }

  /** A page is among the due pages exactly when it is one of the pages and
      its interval divides `s`. */
  lemma {:induction false} DuePagesAreTheDueOnes(pages: seq<Page>, s: nat, p: Page)
    ensures p in DuePages(pages, s) <==> p in pages && Due(s, p.settings.interval)
  {
    if pages != [] {
      var init := pages[..|pages| - 1];
      DuePagesAreTheDueOnes(init, s, p);
      assert pages == init + [pages[|pages| - 1]];
    }
  }

  /** Every page with a non-zero interval is due at the first tick. */
  lemma {:induction false} AllDueAtStart(pages: seq<Page>)
    requires forall i :: 0 <= i < |pages| ==> pages[i].settings.interval != 0
    ensures DuePages(pages, 0) == pages
  {
    if pages != [] {
      var init, last := pages[..|pages| - 1], pages[|pages| - 1];
      AllDueAtStart(init);
      assert Due(0, last.settings.interval);
      assert pages == init + [last];
    }
  }

  /** A page with a zero interval is never due. */
  lemma ZeroIntervalNeverDue(pages: seq<Page>, s: nat, p: Page)
    requires p.settings.interval == 0
    ensures p !in DuePages(pages, s)
  {
  }

  /** A page is due again exactly one interval later. */
  lemma DueRepeats(s: nat, interval: int)
    requires interval != 0
    ensures Due(s + Abs(interval), interval) <==> Due(s, interval)
  {
    assert s + Abs(interval) - Abs(interval) == s;
  }

  /** One more page for the dispatch loop. */
  lemma DuePagesSnoc(pages: seq<Page>, i: nat, s: nat)
    requires i < |pages|
    ensures Due(s, pages[i].settings.interval) ==> DuePages(pages[..i + 1], s) == DuePages(pages[..i], s) + [pages[i]]
    ensures !Due(s, pages[i].settings.interval) ==> DuePages(pages[..i + 1], s) == DuePages(pages[..i], s)
  {
    assert pages[..i + 1][..i] == pages[..i];
    assert DuePages(pages[..i], s) + [] == DuePages(pages[..i], s);
  }

  /** The dispatch loop of one iteration: `go p.Check(errChan)` for each due
      page, counting them. */
  method DispatchDue(pages: seq<Page>, s: nat, lib: Lib, world: World, g: Globals, cache: Cache, ch: Channel)
    returns (numChecks: nat)
    requires ch.sent == []
    modifies g, cache, ch
    ensures numChecks == |DuePages(pages, s)|
    ensures Dispatched(DuePages(pages, s), lib, world, old(g.global), old(g.updates), old(cache.files), g, cache, ch)
    ensures g.global == old(g.global) && g.saved == old(g.saved)
  {
    ghost var global0, updates0, files0 := g.global, g.updates, cache.files;
    numChecks := 0;
    var i := 0;
    while i < |pages|
      invariant 0 <= i <= |pages|
      invariant numChecks == |DuePages(pages[..i], s)|
      invariant Dispatched(DuePages(pages[..i], s), lib, world, global0, updates0, files0, g, cache, ch)
      invariant g.global == global0 && g.saved == old(g.saved)
    {
      DuePagesSnoc(pages, i, s);
      var p := pages[i];
      if Due(s, p.settings.interval) {
        Dispatch(p, DuePages(pages[..i], s), lib, world, global0, updates0, files0, g, cache, ch);
        numChecks := numChecks + 1;
      }
      i := i + 1;
    }
    assert pages[..i] == pages;
  }

  /** The registry, the cache and the log after some iterations of the loop. */
  datatype RunState = RunState(updates: set<string>, files: map<string, string>, lines: seq<PageError>)

  /** The first `n` iterations of the loop, starting from `updates`, `files`
      and `lines`: iteration `s` runs the checks of the pages due at second
      `s` on the state the one before it left, and logs their failures. */
  ghost function Ticks(pages: seq<Page>, n: nat, lib: Lib, world: World, global: Prog,
                       updates: set<string>, files: map<string, string>, lines: seq<PageError>): RunState
  {
    if n == 0 then RunState(updates, files, lines)
    else
      var r := Ticks(pages, n - 1, lib, world, global, updates, files, lines);
      var b := RunChecks(DuePages(pages, n - 1), lib, world, global, r.updates, r.files);
      RunState(b.updates, b.files, r.lines + Failures(b.reports))
  }

  /** The objects hold what `Ticks` gives. */
  ghost predicate Ran(pages: seq<Page>, n: nat, lib: Lib, world: World, global: Prog,
                      updates: set<string>, files: map<string, string>, lines: seq<PageError>,
                      g: Globals, cache: Cache, log: Log)
    reads g, cache, log
  {
    var r := Ticks(pages, n, lib, world, global, updates, files, lines);
    g.updates == r.updates && cache.files == r.files && log.lines == r.lines
  }

  /** One more iteration: what `Tick` leaves after `n` iterations is what
      `Ticks` gives for `n + 1`. */
  lemma TicksStep(pages: seq<Page>, n: nat, lib: Lib, world: World, global: Prog,
                  updates: set<string>, files: map<string, string>, lines: seq<PageError>,
                  r: RunState, g: Globals, cache: Cache, log: Log)
    requires r == Ticks(pages, n, lib, world, global, updates, files, lines)
    requires Batched(DuePages(pages, n), lib, world, global, r.updates, r.files, r.lines, g, cache, log)
    ensures Ran(pages, n + 1, lib, world, global, updates, files, lines, g, cache, log)
  {
  }

  /** One iteration of the daemon's loop: a check for every due page on a
      fresh channel, then the collector over exactly that many values. */
  method Tick(pages: seq<Page>, s: nat, lib: Lib, world: World, g: Globals, cache: Cache, log: Log)
    returns (numChecks: nat)
    modifies g, cache, log
    ensures numChecks == |DuePages(pages, s)|
    ensures Batched(DuePages(pages, s), lib, world, old(g.global), old(g.updates), old(cache.files), old(log.lines),
                   g, cache, log)
    ensures g.global == old(g.global) && g.saved == old(g.saved)
  {
    var errChan := new Channel();
    numChecks := DispatchDue(pages, s, lib, world, g, cache, errChan);
    Collect(errChan, numChecks, log);
    assert errChan.sent[..numChecks] == errChan.sent;
  }

  /** The URLs of the due pages are URLs of the pages. */
  lemma {:induction false} DueUrls(pages: seq<Page>, s: nat)
    ensures Urls(DuePages(pages, s)) <= Urls(pages)
  {
    if pages != [] {
      var init, p := pages[..|pages| - 1], pages[|pages| - 1];
      DueUrls(init, s);
      var d := DuePages(init, s);
      assert Urls(pages) == Urls(init) + {p.reqUrl.text};
      if Due(s, p.settings.interval) {
        assert (d + [p])[..|d + [p]| - 1] == d;
        assert (d + [p])[|d + [p]| - 1] == p;
        assert Urls(d + [p]) == Urls(d) + {p.reqUrl.text};
      } else {
        assert DuePages(pages, s) == d + [] == d;
      }
    }
  }

  /** The checks of the pages due at second `s` add only URLs of configured
      pages to the registry. */
  lemma DueBatchAddsPageUrls(pages: seq<Page>, s: nat, lib: Lib, world: World, global: Prog,
                             updates: set<string>, files: map<string, string>)
    ensures var b := RunChecks(DuePages(pages, s), lib, world, global, updates, files);
      updates <= b.updates <= updates + Urls(pages)
  {
    var due := DuePages(pages, s);
    var b := RunChecks(due, lib, world, global, updates, files);
    BatchOnlyAddsItsUrls(due, lib, world, global, updates, files);
    DueUrls(pages, s);
    WithinLarger(updates, b.updates, Urls(due), Urls(pages));
  }

  /** What adds only members of `u` adds only members of a larger `v`. */
  lemma WithinLarger<T>(a: set<T>, b: set<T>, u: set<T>, v: set<T>)
    requires b <= a + u && u <= v
    ensures b <= a + v
  {
  }

  /** One iteration only appends to the log. */
  lemma TickAppendsToLog(pages: seq<Page>, n: nat, lib: Lib, world: World, global: Prog,
                         updates: set<string>, files: map<string, string>, lines: seq<PageError>)
    ensures var before := Ticks(pages, n, lib, world, global, updates, files, lines).lines;
      var after := Ticks(pages, n + 1, lib, world, global, updates, files, lines).lines;
      |before| <= |after| && after[..|before|] == before
  {
  }

  /** The log only grows: what was logged before the loop stays at its head. */
  lemma {:induction false} TicksOnlyAppendToLog(pages: seq<Page>, n: nat, lib: Lib, world: World, global: Prog,
                                                updates: set<string>, files: map<string, string>,
                                                lines: seq<PageError>)
    ensures var r := Ticks(pages, n, lib, world, global, updates, files, lines);
      |lines| <= |r.lines| && r.lines[..|lines|] == lines
  {
    if n > 0 {
      TicksOnlyAppendToLog(pages, n - 1, lib, world, global, updates, files, lines);
      TickAppendsToLog(pages, n - 1, lib, world, global, updates, files, lines);
      var mid := Ticks(pages, n - 1, lib, world, global, updates, files, lines).lines;
      var last := Ticks(pages, n, lib, world, global, updates, files, lines).lines;
      assert last[..|mid|][..|lines|] == last[..|lines|];
    }
  }

  /** The number of checks started by each of the first `n` iterations. */
  function DueCounts(pages: seq<Page>, n: nat): seq<nat>
  {
    if n == 0 then [] else DueCounts(pages, n - 1) + [|DuePages(pages, n - 1)|]
  }

  /** Iteration `s` starts one check per page due at second `s`. */
  lemma {:induction false} DueCountsAreDuePages(pages: seq<Page>, n: nat)
    ensures |DueCounts(pages, n)| == n
    ensures forall s :: 0 <= s < n ==> DueCounts(pages, n)[s] == |DuePages(pages, s)|
  {
    if n > 0 {
      DueCountsAreDuePages(pages, n - 1);
    }
  }

  /** The first `ticks` iterations of the loop: the counter starts at 0 and
      rises by one each time; the registry, the cache and the log become
      what `Ticks` gives. */
  method Run(ticks: nat, pages: seq<Page>, lib: Lib, world: World, g: Globals, cache: Cache, log: Log)
    returns (dispatched: seq<nat>)
    modifies g, cache, log
    ensures |dispatched| == ticks
    ensures forall s :: 0 <= s < ticks ==> dispatched[s] == |DuePages(pages, s)|
    ensures Ran(pages, ticks, lib, world, old(g.global), old(g.updates), old(cache.files), old(log.lines),
                g, cache, log)
    ensures g.global == old(g.global) && g.saved == old(g.saved)
  {
    ghost var global0, updates0, files0, lines0 := g.global, g.updates, cache.files, log.lines;
    dispatched := [];
    var secondsElapsed := 0;
    while secondsElapsed < ticks
      invariant 0 <= secondsElapsed <= ticks && |dispatched| == secondsElapsed
      invariant dispatched == DueCounts(pages, secondsElapsed)
      invariant Ran(pages, secondsElapsed, lib, world, global0, updates0, files0, lines0, g, cache, log)
      invariant g.global == global0 && g.saved == old(g.saved)
    {
      ghost var r := Ticks(pages, secondsElapsed, lib, world, global0, updates0, files0, lines0);
      var numChecks := Tick(pages, secondsElapsed, lib, world, g, cache, log);
      TicksStep(pages, secondsElapsed, lib, world, global0, updates0, files0, lines0, r, g, cache, log);
      dispatched := dispatched + [numChecks];
      secondsElapsed := secondsElapsed + 1;
    }
    DueCountsAreDuePages(pages, ticks);
  }

  // ---------------------------------------------------------------------
  // clean
  // ---------------------------------------------------------------------

  datatype CleanError =
    | ReadPagesFailed(cause: Ini.ConfigError)
    | ReadDirFailed(msg: string)
    | EncodeFailed(lengthError: FileName.LengthError)
    | RemoveFailed(msg: string)

  /** filename.Encode as a value. */
  function EncodeOf(unsafe: string): Result<string, FileName.LengthError>
  {
    var e := FileName.Encoded(unsafe);
    if FileName.IsSafeLen(e) then Ok(e)
    else Err(FileName.InvalidFileNameLength(Text.ByteLen(e), FileName.Ext4MaxLength))
  }

  /** The inner page loop of clean for one cache entry: true when a page's
      encoded name plus ".htm" is the entry's name; the first page whose name
      cannot be encoded, before a match, is an error. */
  function Owned(name: string, pages: seq<Page>, urlAsFilename: Page -> string): Result<bool, FileName.LengthError>
  {
    if pages == [] then Ok(false)
    else
      match EncodeOf(urlAsFilename(pages[0]))
      case Err(e) => Err(e)
      case Ok(pageName) => if name == pageName + ".htm" then Ok(true) else Owned(name, pages[1..], urlAsFilename)
  }

  /** The cache after clean, and its error. */
  datatype Cleaned = Cleaned(files: map<string, string>, err: Option<CleanError>)

  /** The entry loop of clean: an owned entry is kept, any other removed;
      the first error stops the loop. */
  function CleanEntries(entries: seq<string>, pages: seq<Page>, urlAsFilename: Page -> string,
                        removeError: string -> Option<string>, files: map<string, string>): Cleaned
  {
    if entries == [] then Cleaned(files, None)
    else
      var name := entries[0];
      match Owned(name, pages, urlAsFilename)
      case Err(e) => Cleaned(files, Some(EncodeFailed(e)))
      case Ok(true) => CleanEntries(entries[1..], pages, urlAsFilename, removeError, files)
      case Ok(false) =>
        if removeError(name).Some? then Cleaned(files, Some(RemoveFailed(removeError(name).value)))
        else CleanEntries(entries[1..], pages, urlAsFilename, removeError, files - {name})
  }

  /** clean: the pages, then the cache directory's entries, then the loop. */
  function CleanOf(global: Prog, pagesFile: Result<Ini.IniFile, string>, conv: Ini.Conv,
                   listing: Result<seq<string>, string>, urlAsFilename: Page -> string,
                   removeError: string -> Option<string>, files: map<string, string>): Cleaned
  {
    match Ini.ReadPagesOf(global, pagesFile, conv)
    case Err(e) => Cleaned(files, Some(ReadPagesFailed(e)))
    case Ok(pages) =>
      match listing
      case Err(msg) => Cleaned(files, Some(ReadDirFailed(msg)))
      case Ok(entries) => CleanEntries(entries, pages, urlAsFilename, removeError, files)
  }

  /** The inner page loop of clean. */
  method IsOwned(name: string, pages: seq<Page>, urlAsFilename: Page -> string)
    returns (r: Result<bool, FileName.LengthError>)
    ensures r == Owned(name, pages, urlAsFilename)
  {
    var i := 0;
    while i < |pages|
      invariant 0 <= i <= |pages|
      invariant Owned(name, pages, urlAsFilename) == Owned(name, pages[i..], urlAsFilename)
    {
      assert pages[i..][1..] == pages[i + 1..];
      var pageName, err := FileName.Encode(urlAsFilename(pages[i]));
      if err.Some? {
        return Err(err.value);
      }
      if name == pageName + ".htm" {
        return Ok(true);
      }
      i := i + 1;
    }
    return Ok(false);
  }

  method Clean(global: Prog, pagesFile: Result<Ini.IniFile, string>, conv: Ini.Conv,
               listing: Result<seq<string>, string>, urlAsFilename: Page -> string,
               removeError: string -> Option<string>, cache: Cache) returns (err: Option<CleanError>)
    modifies cache
    ensures var c := CleanOf(global, pagesFile, conv, listing, urlAsFilename, removeError, old(cache.files));
      cache.files == c.files && err == c.err
  {
    var pages := Ini.ReadPages(global, pagesFile, conv);
    if pages.Err? {
      return Some(ReadPagesFailed(pages.error));
    }
    if listing.Err? {
      return Some(ReadDirFailed(listing.error));
    }
    var caches := listing.value;
    var i := 0;
    while i < |caches|
      invariant 0 <= i <= |caches|
      invariant CleanEntries(caches, pages.value, urlAsFilename, removeError, old(cache.files))
             == CleanEntries(caches[i..], pages.value, urlAsFilename, removeError, cache.files)
    {
      assert caches[i..][1..] == caches[i + 1..];
      var name := caches[i];
      var owned := IsOwned(name, pages.value, urlAsFilename);
      if owned.Err? {
        return Some(EncodeFailed(owned.error));
      }
      if !owned.value {
        var removeErr := removeError(name);
        if removeErr.Some? {
          return Some(RemoveFailed(removeErr.value));
        }
        cache.files := cache.files - {name};
      }
      i := i + 1;
    }
    return None;
  }

  /** The names the pages' cache files are expected under. */
  predicate NameOfSomePage(name: string, pages: seq<Page>, urlAsFilename: Page -> string)
  {
    exists k :: 0 <= k < |pages| && name == FileName.Encoded(urlAsFilename(pages[k])) + ".htm"
  }

  /** When every page's name can be encoded, an entry is owned exactly when
      it carries some page's name. */
  lemma {:induction false} OwnedIffNamed(name: string, pages: seq<Page>, urlAsFilename: Page -> string)
    requires forall k :: 0 <= k < |pages| ==> FileName.IsSafeLen(FileName.Encoded(urlAsFilename(pages[k])))
    ensures Owned(name, pages, urlAsFilename) == Ok(NameOfSomePage(name, pages, urlAsFilename))
  {
    if pages != [] {
      OwnedIffNamed(name, pages[1..], urlAsFilename);
      if NameOfSomePage(name, pages[1..], urlAsFilename) {
        var k :| 0 <= k < |pages[1..]| && name == FileName.Encoded(urlAsFilename(pages[1..][k])) + ".htm";
        assert pages[k + 1] == pages[1..][k];
      }
      if NameOfSomePage(name, pages, urlAsFilename) && name != FileName.Encoded(urlAsFilename(pages[0])) + ".htm" {
        var k :| 0 <= k < |pages| && name == FileName.Encoded(urlAsFilename(pages[k])) + ".htm";
        assert k != 0;
        assert pages[1..][k - 1] == pages[k];
      }
    }
  }

  /** With every name encodable and every removal succeeding, clean removes
      exactly the listed entries that carry no page's name, and touches
      nothing that is not listed. */
  lemma {:induction false} CleanRemovesExactlyTheOrphans(entries: seq<string>, pages: seq<Page>,
                                                         urlAsFilename: Page -> string,
                                                         removeError: string -> Option<string>,
                                                         files: map<string, string>)
    requires forall k :: 0 <= k < |pages| ==> FileName.IsSafeLen(FileName.Encoded(urlAsFilename(pages[k])))
    requires forall i :: 0 <= i < |entries| ==> removeError(entries[i]).None?
    ensures var c := CleanEntries(entries, pages, urlAsFilename, removeError, files);
      && c.err.None?
      && (forall name :: name in c.files <==>
            name in files && (name in entries ==> NameOfSomePage(name, pages, urlAsFilename)))
      && (forall name :: name in c.files ==> c.files[name] == files[name])
  {
    if entries != [] {
      var name := entries[0];
      OwnedIffNamed(name, pages, urlAsFilename);
      var next := if NameOfSomePage(name, pages, urlAsFilename) then files else files - {name};
      CleanRemovesExactlyTheOrphans(entries[1..], pages, urlAsFilename, removeError, next);
      assert forall n :: n in entries <==> n == name || n in entries[1..];
    }
  }

  /** The loop stops at the first error: the entries after it are never
      looked at. */
  lemma {:induction false} CleanStopsAtFirstError(a: seq<string>, b: seq<string>, pages: seq<Page>,
                                                  urlAsFilename: Page -> string,
                                                  removeError: string -> Option<string>,
                                                  files: map<string, string>)
    ensures var first := CleanEntries(a, pages, urlAsFilename, removeError, files);
      CleanEntries(a + b, pages, urlAsFilename, removeError, files)
        == if first.err.Some? then first else CleanEntries(b, pages, urlAsFilename, removeError, first.files)
  {
    if a == [] {
      assert a + b == b;
    } else {
      assert (a + b)[0] == a[0] && (a + b)[1..] == a[1..] + b;
      var next := if removeError(a[0]).Some? then files else files - {a[0]};
      CleanStopsAtFirstError(a[1..], b, pages, urlAsFilename, removeError, files);
      CleanStopsAtFirstError(a[1..], b, pages, urlAsFilename, removeError, files - {a[0]});
    }
  }

  // ---------------------------------------------------------------------
  // Start-up
  // ---------------------------------------------------------------------

  datatype StartError = CleanFailed(cleanError: CleanError) | ConfigFailed(configError: Ini.ConfigError)

  /** nyfikend up to its loop: with `-c` only clean runs, under the settings
      as they are; otherwise the configuration is read and the pages to
      watch come back. */
  method Start(flagClean: bool, g: Globals, cache: Cache, config: Result<Ini.IniFile, string>,
               pagesFile: Result<Ini.IniFile, string>, conv: Ini.Conv, defaultNewline: string,
               listing: Result<seq<string>, string>, urlAsFilename: Page -> string,
               removeError: string -> Option<string>) returns (r: Result<seq<Page>, StartError>)
    modifies g, cache
    ensures flagClean ==>
      var c := CleanOf(old(g.global), pagesFile, conv, listing, urlAsFilename, removeError, old(cache.files));
      && g.global == old(g.global) && cache.files == c.files
      && r == if c.err.Some? then Err(CleanFailed(c.err.value)) else Ok([])
    ensures !flagClean ==>
      var a := Ini.ReadSettingsOf(old(g.global), config, conv, defaultNewline);
      && cache.files == old(cache.files) && g.global == a.global
      && r == if a.err.Some? then Err(ConfigFailed(a.err.value))
              else match Ini.ReadPagesOf(a.global, pagesFile, conv)
                   case Err(e) => Err(ConfigFailed(e))
                   case Ok(pages) => Ok(pages)
    ensures g.updates == old(g.updates) && g.saved == old(g.saved)
  {
    if flagClean {
      var err := Clean(g.global, pagesFile, conv, listing, urlAsFilename, removeError, cache);
      if err.Some? {
        return Err(CleanFailed(err.value));
      }
      return Ok([]);
    }
    var pages := Ini.ReadIni(g, config, pagesFile, conv, defaultNewline);
    if pages.Err? {
      return Err(ConfigFailed(pages.error));
    }
    return Ok(pages.value);
  }
}
