/** The daemon's side of the client protocol, cli/cli.go: the query switch of
    takeInput, which answers "updates?", empties the registry on
    "clear all!" and rechecks every page on "recheck!", and forceUpdate. The
    reader goroutine becomes a sequence of events; the connection and the
    channel to Listen are objects that only grow. */
module Cli {
  import opened Wrappers
  import opened Settings
  import opened Page
  import opened Checks
  import Ini

  /** What the select of takeInput receives: a line the reader goroutine
      read, or the error that ended it. */
  datatype Event = Line(query: string) | ReadFailure(msg: string)

  /** The errors takeInput hands to Listen. */
  datatype CliError =
    | EncodeFailed(msg: string)
    | RecheckFailed(cause: Ini.ConfigError)
    | ReadFailed(msg: string)

  /** The client connection: each registry the gob encoder sent. */
  class Conn {
    var written: seq<set<string>>

    constructor ()
      ensures written == []
    {
      written := [];
    }
  }

  /** The channel from takeInput to Listen. */
  class Outbox {
    var sent: seq<Option<CliError>>

    constructor ()
      ensures sent == []
    {
      sent := [];
    }

    method Send(v: Option<CliError>)
      modifies this
      ensures sent == old(sent) + [v]
    {
      sent := sent + [v];
    }
  }

  // ---------------------------------------------------------------------
  // forceUpdate
  // ---------------------------------------------------------------------

  /** The registry, the cache and the log after forceUpdate, and its error. */
  datatype Forced = Forced(updates: set<string>, files: map<string, string>, lines: seq<PageError>,
                           err: Option<Ini.ConfigError>)

  /** forceUpdate: the pages are read again; on success every one is checked
      and the collector logs what the checks report. */
  function ForceUpdateOf(global: Prog, pagesFile: Result<Ini.IniFile, string>, conv: Ini.Conv,
                         lib: Lib, world: World, updates: set<string>, files: map<string, string>,
                         lines: seq<PageError>): Forced
  {
    match Ini.ReadPagesOf(global, pagesFile, conv)
    case Err(e) => Forced(updates, files, lines, Some(e))
    case Ok(pages) =>
      var b := RunChecks(pages, lib, world, global, updates, files);
      Forced(b.updates, b.files, lines + Failures(b.reports), None)
  }

  method ForceUpdate(pagesFile: Result<Ini.IniFile, string>, conv: Ini.Conv, lib: Lib, world: World,
                     g: Globals, cache: Cache, log: Log) returns (err: Option<Ini.ConfigError>)
    modifies g, cache, log
    ensures var f := ForceUpdateOf(old(g.global), pagesFile, conv, lib, world, old(g.updates),
                                   old(cache.files), old(log.lines));
      g.updates == f.updates && cache.files == f.files && log.lines == f.lines && err == f.err
    ensures g.global == old(g.global) && g.saved == old(g.saved)
  {
    var pages := Ini.ReadPages(g.global, pagesFile, conv);
    if pages.Err? {
      return Some(pages.error);
    }
    var errChan := new Channel();
    var numChecks := DispatchAll(pages.value, lib, world, g, cache, errChan);
    Collect(errChan, numChecks, log);
    assert errChan.sent[..numChecks] == errChan.sent;
    return None;
  }

  /** A pages file that cannot be read is reported and nothing is checked. */
  lemma ForceFailureChangesNothing(global: Prog, pagesFile: Result<Ini.IniFile, string>, conv: Ini.Conv,
                                   lib: Lib, world: World, updates: set<string>,
                                   files: map<string, string>, lines: seq<PageError>)
    requires Ini.ReadPagesOf(global, pagesFile, conv).Err?
    ensures var f := ForceUpdateOf(global, pagesFile, conv, lib, world, updates, files, lines);
      f == Forced(updates, files, lines, Some(Ini.ReadPagesOf(global, pagesFile, conv).error))
  {
  }

  /** Otherwise every page is checked once, in order, the collector reads one
      value per page, and nothing is returned: a check's failure is only
      logged. */
  lemma ForceChecksEveryPage(global: Prog, pagesFile: Result<Ini.IniFile, string>, conv: Ini.Conv,
                             lib: Lib, world: World, updates: set<string>,
                             files: map<string, string>, lines: seq<PageError>, pages: seq<Page>)
    requires Ini.ReadPagesOf(global, pagesFile, conv) == Ok(pages)
    ensures var f := ForceUpdateOf(global, pagesFile, conv, lib, world, updates, files, lines);
      var b := RunChecks(pages, lib, world, global, updates, files);
      && f.err.None?
      && |b.reports| == |pages|
      && f.updates == b.updates && f.files == b.files && f.lines == lines + Failures(b.reports)
      && |f.lines| <= |lines| + |pages|
  {
    FailuresAreTheErrors(RunChecks(pages, lib, world, global, updates, files).reports);
  }

  /** The only error forceUpdate returns is that of reading the pages. */
  lemma ForceErrorIsReadPagesError(global: Prog, pagesFile: Result<Ini.IniFile, string>, conv: Ini.Conv,
                                   lib: Lib, world: World, updates: set<string>,
                                   files: map<string, string>, lines: seq<PageError>)
    ensures var f := ForceUpdateOf(global, pagesFile, conv, lib, world, updates, files, lines);
      f.err.Some? <==> Ini.ReadPagesOf(global, pagesFile, conv).Err?
    ensures var f := ForceUpdateOf(global, pagesFile, conv, lib, world, updates, files, lines);
      f.err.Some? ==> f.err.value == Ini.ReadPagesOf(global, pagesFile, conv).error
  {
  }

  /** A recheck only ever adds the URLs of the pages it read. */
  lemma ForceOnlyAddsPageUrls(global: Prog, pagesFile: Result<Ini.IniFile, string>, conv: Ini.Conv,
                              lib: Lib, world: World, updates: set<string>,
                              files: map<string, string>, lines: seq<PageError>, pages: seq<Page>)
    requires Ini.ReadPagesOf(global, pagesFile, conv) == Ok(pages)
    ensures var f := ForceUpdateOf(global, pagesFile, conv, lib, world, updates, files, lines);
      updates <= f.updates <= updates + Urls(pages)
  {
    BatchOnlyAddsItsUrls(pages, lib, world, global, updates, files);
  }

  // ---------------------------------------------------------------------
  // takeInput
  // ---------------------------------------------------------------------

  /** What the daemon holds that takeInput can change or add to. */
  datatype Server = Server(updates: set<string>, files: map<string, string>, lines: seq<PageError>,
                           written: seq<set<string>>, sent: seq<Option<CliError>>)

  /** The oracles and inputs one connection works with: the settings, the
      pages file forceUpdate reads, the conversions, the page libraries and
      world, and the gob encoder's failure on a registry. */
  datatype Env = Env(global: Prog, pagesFile: Result<Ini.IniFile, string>, conv: Ini.Conv,
                     lib: Lib, world: World, encodeError: set<string> -> Option<string>)

  /** What the select's case does to the state, and the error it passes on,
      if any. */
  datatype Turn = Turn(state: Server, err: Option<CliError>)

  /** The select's case: the reader's error unless it is end of file; the
      three queries; any other line does nothing. */
  function TurnOf(ev: Event, s: Server, env: Env): Turn
  {
    match ev
    case ReadFailure(msg) =>
      Turn(s, if msg != "EOF" then Some(ReadFailed(msg)) else None)
    case Line(query) =>
      if query == QueryUpdates then
        match env.encodeError(s.updates)
        case None => Turn(s.(written := s.written + [s.updates]), None)
        case Some(msg) => Turn(s, Some(EncodeFailed(msg)))
      else if query == QueryClearAll then
        Turn(s.(updates := {}), None)
      else if query == QueryForceRecheck then
        var f := ForceUpdateOf(env.global, env.pagesFile, env.conv, env.lib, env.world, s.updates, s.files, s.lines);
        Turn(s.(updates := f.updates, files := f.files, lines := f.lines),
             if f.err.Some? then Some(RecheckFailed(f.err.value)) else None)
      else
        Turn(s, None)
  }

  /** What one turn sends to Listen: its error, if any, then nil. */
  function Replies(err: Option<CliError>): seq<Option<CliError>>
  {
    if err.Some? then [err, None] else [None]
  }

  /** One turn of takeInput's loop: the select's case, then the nil that
      always follows. */
  function StepOf(ev: Event, s: Server, env: Env): Server
  {
    var turn := TurnOf(ev, s, env);
    turn.state.(sent := s.sent + Replies(turn.err))
  }

  /** The events of one connection, in order. */
  function Session(events: seq<Event>, s: Server, env: Env): Server
  {
    if events == [] then s
    else StepOf(events[|events| - 1], Session(events[..|events| - 1], s, env), env)
  }

  /** The objects hold the server state `s`. */
  ghost predicate Holds(s: Server, g: Globals, cache: Cache, log: Log, conn: Conn, out: Outbox)
    reads g, cache, log, conn, out
  {
    g.updates == s.updates && cache.files == s.files && log.lines == s.lines
    && conn.written == s.written && out.sent == s.sent
  }

  /** One select case and the nil after it. */
  method HandleEvent(ev: Event, ghost s: Server, env: Env,
                     g: Globals, cache: Cache, log: Log, conn: Conn, out: Outbox)
    requires g.global == env.global && Holds(s, g, cache, log, conn, out)
    modifies g, cache, log, conn, out
    ensures Holds(StepOf(ev, s, env), g, cache, log, conn, out)
    ensures g.global == old(g.global) && g.saved == old(g.saved)
  {
    match ev {
      case ReadFailure(msg) =>
        if msg != "EOF" {
          out.Send(Some(ReadFailed(msg)));
        }
      case Line(query) =>
        if query == QueryUpdates {
          var snapshot := g.updates;
          var err := env.encodeError(snapshot);
          if err.Some? {
            out.Send(Some(EncodeFailed(err.value)));
          } else {
            conn.written := conn.written + [snapshot];
          }
        } else if query == QueryClearAll {
          g.updates := {};
        } else if query == QueryForceRecheck {
          var err := ForceUpdate(env.pagesFile, env.conv, env.lib, env.world, g, cache, log);
          if err.Some? {
            out.Send(Some(RecheckFailed(err.value)));
          }
        }
    }
    out.Send(None);
  }

  /** takeInput over the events the reader goroutine delivers. */
  method TakeInput(events: seq<Event>, env: Env, g: Globals, cache: Cache, log: Log, conn: Conn, out: Outbox)
    requires g.global == env.global
    modifies g, cache, log, conn, out
    ensures Holds(Session(events, Server(old(g.updates), old(cache.files), old(log.lines),
                                         old(conn.written), old(out.sent)), env),
                  g, cache, log, conn, out)
    ensures g.global == old(g.global) && g.saved == old(g.saved)
  {
    ghost var s0 := Server(g.updates, cache.files, log.lines, conn.written, out.sent);
    var i := 0;
    while i < |events|
      invariant 0 <= i <= |events|
      invariant Holds(Session(events[..i], s0, env), g, cache, log, conn, out)
      invariant g.global == env.global && g.saved == old(g.saved)
    {
      assert events[..i + 1][..i] == events[..i];
      HandleEvent(events[i], Session(events[..i], s0, env), env, g, cache, log, conn, out);
      i := i + 1;
    }
    assert events[..i] == events;
  }

  /** "clear all!" empties the registry and touches nothing else; it is not
      saved, so the registry on disk keeps what it had. */
  lemma ClearAllEmptiesRegistry(s: Server, env: Env)
    ensures var t := StepOf(Line(QueryClearAll), s, env);
      t == s.(updates := {}, sent := s.sent + [None])
  {
  }

  /** "updates?" leaves the registry as it is and sends it whole, unless the
      encoder fails, in which case the failure goes to Listen. */
  lemma UpdatesQuerySendsRegistry(s: Server, env: Env)
    ensures var t := StepOf(Line(QueryUpdates), s, env);
      && t.updates == s.updates && t.files == s.files && t.lines == s.lines
      && (env.encodeError(s.updates).None? ==> t.written == s.written + [s.updates] && t.sent == s.sent + [None])
      && (env.encodeError(s.updates).Some? ==>
            t.written == s.written && t.sent == s.sent + [Some(EncodeFailed(env.encodeError(s.updates).value)), None])
  {
  }

  /** Any other line only produces the nil. */
  lemma UnknownQueryChangesNothing(query: string, s: Server, env: Env)
    requires query != QueryUpdates && query != QueryClearAll && query != QueryForceRecheck
    ensures StepOf(Line(query), s, env) == s.(sent := s.sent + [None])
  {
  }

  /** The reader's error is passed on exactly when it is not end of file. */
  lemma EofIsNotForwarded(msg: string, s: Server, env: Env)
    ensures var t := StepOf(ReadFailure(msg), s, env);
      && t.(sent := s.sent) == s
      && (msg == "EOF" <==> t.sent == s.sent + [None])
      && (msg != "EOF" <==> t.sent == s.sent + [Some(ReadFailed(msg)), None])
  {
    var t := StepOf(ReadFailure(msg), s, env);
    if msg != "EOF" {
      assert t.sent[|s.sent|] == Some(ReadFailed(msg));
    }
  }

  /** The number of nils in `sent`. */
  function Nils(sent: seq<Option<CliError>>): nat
  {
    if sent == [] then 0 else Nils(sent[..|sent| - 1]) + (if sent[|sent| - 1].None? then 1 else 0)
  }

  lemma {:induction false} NilsAppend(a: seq<Option<CliError>>, b: seq<Option<CliError>>)
    ensures Nils(a + b) == Nils(a) + Nils(b)
    decreases |b|
  {
    if b == [] {
      assert a + b == a;
    } else {
      assert (a + b)[..|a + b| - 1] == a + b[..|b| - 1];
      NilsAppend(a, b[..|b| - 1]);
    }
  }

  lemma RepliesEndWithOneNil(err: Option<CliError>)
    ensures Nils(Replies(err)) == 1 && Replies(err)[|Replies(err)| - 1] == None
  {
    if err.Some? {
      assert [err][..0] == [];
      assert Nils([err]) == 0;
      assert Replies(err) == [err, None] && [err, None][..1] == [err];
    } else {
      assert Replies(err)[..0] == [];
    }
  }

  /** Each turn sends exactly one nil, after what the case sent. */
  lemma StepSendsOneNil(ev: Event, s: Server, env: Env)
    ensures var t := StepOf(ev, s, env);
      && |s.sent| < |t.sent| && t.sent[..|s.sent|] == s.sent && t.sent[|t.sent| - 1] == None
      && Nils(t.sent) == Nils(s.sent) + 1
  {
    var replies := Replies(TurnOf(ev, s, env).err);
    assert StepOf(ev, s, env).sent == s.sent + replies;
    NilsAppend(s.sent, replies);
    RepliesEndWithOneNil(TurnOf(ev, s, env).err);
    assert (s.sent + replies)[..|s.sent|] == s.sent;
  }

  /** Listen receives one nil per event, whatever the events were. */
  lemma {:induction false} OneNilPerEvent(events: seq<Event>, s: Server, env: Env)
    ensures Nils(Session(events, s, env).sent) == Nils(s.sent) + |events|
  {
    if events != [] {
      OneNilPerEvent(events[..|events| - 1], s, env);
      StepSendsOneNil(events[|events| - 1], Session(events[..|events| - 1], s, env), env);
    }
  }

  /** A turn only adds URLs of the pages in the pages file. */
  lemma StepOnlyAddsPageUrls(ev: Event, s: Server, env: Env, pages: seq<Page>)
    requires Ini.ReadPagesOf(env.global, env.pagesFile, env.conv) == Ok(pages)
    ensures StepOf(ev, s, env).updates <= s.updates + Urls(pages)
  {
    if ev == Line(QueryForceRecheck) {
      ForceOnlyAddsPageUrls(env.global, env.pagesFile, env.conv, env.lib, env.world,
                            s.updates, s.files, s.lines, pages);
    }
  }

  /** Over a whole connection the registry only gains URLs of the pages in
      the pages file. */
  lemma {:induction false} SessionOnlyAddsPageUrls(events: seq<Event>, s: Server, env: Env, pages: seq<Page>)
    requires Ini.ReadPagesOf(env.global, env.pagesFile, env.conv) == Ok(pages)
    ensures Session(events, s, env).updates <= s.updates + Urls(pages)
  {
    if events != [] {
      var init := events[..|events| - 1];
      SessionOnlyAddsPageUrls(init, s, env, pages);
      StepOnlyAddsPageUrls(events[|events| - 1], Session(init, s, env), env, pages);
    }
  }

  /** Only "recheck!" adds to the registry. */
  lemma StepWithoutRecheckAddsNothing(ev: Event, s: Server, env: Env)
    requires ev != Line(QueryForceRecheck)
    ensures StepOf(ev, s, env).updates <= s.updates
  {
  }

  /** Without a "recheck!" the registry can only shrink over a connection. */
  lemma {:induction false} SessionWithoutRecheckAddsNothing(events: seq<Event>, s: Server, env: Env)
    requires Line(QueryForceRecheck) !in events
    ensures Session(events, s, env).updates <= s.updates
  {
    if events != [] {
      var init := events[..|events| - 1];
      assert forall ev :: ev in init ==> ev in events;
      SessionWithoutRecheckAddsNothing(init, s, env);
      StepWithoutRecheckAddsNothing(events[|events| - 1], Session(init, s, env), env);
    }
  }
}
