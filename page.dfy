/** One page check of page/page.go: the download (with its Content-Type
    charset handling), the selection pipeline of makeSelection, and the
    decision `Check` takes against the cached selection. The HTTP client,
    html.Parse, cascadia, the renderers, Go regexp, the mahonia decoder and
    the SMTP client are oracles; the cache directory is a map from file
    name to contents and settings.Updates a set of URLs. */
module Page {
  import opened Wrappers
  import opened Seqs
  import opened Text
  import opened Html
  import Strip
  import opened Settings
  import Mail
  import StrMetr
  import FileName

  datatype Page = Page(reqUrl: Url, settings: PageSettings)

  /** The libraries the pipeline calls. */
  datatype Lib = Lib(
    parse: string -> Result<Tree, string>,              // html.Parse
    cssSelect: (string, Tree) -> Result<seq<Tree>, string>, // cascadia.Compile, then MatchAll
    render: Tree -> string,                             // htmlutil.RenderToString
    renderClean: Tree -> string,                        // htmlutil.RenderClean
    regexpError: string -> Option<string>,              // the error of regexp.Compile
    findAll: (string, string) -> seq<string>,           // FindAllString(s, -1) of a pattern
    replaceAll: (string, string) -> string,             // ReplaceAllString(s, "") of a pattern
    decode: (string, string) -> string)                 // mahonia: charset, text

  datatype PageError =
    | Timeout(url: string)
    | RequestFailed(msg: string)
    | BadStatus(url: string, code: int, status: string)
    | ParseFailed(msg: string)
    | SelectorFailed(msg: string)
    | RegexpFailed(msg: string)
    | CacheFailed(msg: string)
    | MailFailed(cause: Mail.MailError)

  datatype Response = Response(statusCode: int, status: string, body: string, contentType: string)

  /** What the HTTP client hands back: an error of building or sending the
      request or of reading the body, or a response. */
  datatype Reply = RequestError(msg: string) | Responded(response: Response)

  /** The race of page/page.go:50-59: the ten-second timer fires first, or
      the download finishes with a reply. */
  datatype Fetch = TimedOut | Finished(reply: Reply)

  /** The outside world of one check: the network (by URL and request
      headers), the failures of reading and writing cache files (by name),
      and the SMTP client. */
  datatype World = World(
    fetch: (Url, map<string, string>) -> Fetch,
    readError: string -> Option<string>,
    writeError: string -> Option<string>,
    smtp: Mail.Envelope -> Option<string>)

  // ---------------------------------------------------------------------
  // The charset of a response (download, page/page.go:184-198)
  // ---------------------------------------------------------------------

  const Utf8: string := "utf-8"

  /** A Content-Type token that names a charset: it contains "charset" and
      splits on '=' into exactly two parts. */
  predicate NamesCharset(token: string)
  {
    Contains(token, "charset") && |Split(token, '=')| == 2
  }

  /** The charset chosen after scanning `tokens`: the value of the last
      token that names one, "utf-8" when none does. */
  function LastCharset(tokens: seq<string>): string
  {
    if tokens == [] then Utf8
    else
      var t := tokens[|tokens| - 1];
      if NamesCharset(t) then Split(t, '=')[1] else LastCharset(tokens[..|tokens| - 1])
  }

  function CharsetOf(contentType: string): string
  {
    LastCharset(Split(contentType, ' '))
  }

  /** The token loop of download. */
  method Charset(contentType: string) returns (charset: string)
    ensures charset == CharsetOf(contentType)
  {
    charset := Utf8;
    var types := Split(contentType, ' ');
    var i := 0;
    while i < |types|
      invariant 0 <= i <= |types|
      invariant charset == LastCharset(types[..i])
    {
      assert types[..i + 1][..i] == types[..i];
      var typ := types[i];
      if Contains(typ, "charset") {
        var keyval := Split(typ, '=');
        if |keyval| == 2 {
          charset := keyval[1];
        }
      }
      i := i + 1;
    }
    assert types[..i] == types;
  }

  /** The charset defaults to "utf-8": no token names one. */
  lemma {:induction false} CharsetDefaultsToUtf8(tokens: seq<string>)
    requires forall k :: 0 <= k < |tokens| ==> !NamesCharset(tokens[k])
    ensures LastCharset(tokens) == Utf8
  {
    if tokens != [] {
      CharsetDefaultsToUtf8(tokens[..|tokens| - 1]);
    }
  }

  /** Otherwise the last token that names a charset decides it. */
  lemma {:induction false} LastCharsetWins(tokens: seq<string>, j: nat)
    requires j < |tokens| && NamesCharset(tokens[j])
    requires forall k :: j < k < |tokens| ==> !NamesCharset(tokens[k])
    ensures LastCharset(tokens) == Split(tokens[j], '=')[1]
  {
    if j < |tokens| - 1 {
      LastCharsetWins(tokens[..|tokens| - 1], j);
    }
  }

  // ---------------------------------------------------------------------
  // The download (page/page.go:147-201)
  // ---------------------------------------------------------------------

  /** What download returns for a reply: a client or server error status
      fails, otherwise the body is transcoded unless its charset is exactly
      "utf-8", then parsed. */
  function DownloadOf(p: Page, lib: Lib, reply: Reply): Result<Tree, PageError>
  {
    match reply
    case RequestError(msg) => Err(RequestFailed(msg))
    case Responded(resp) =>
      if resp.statusCode >= 400 then Err(BadStatus(p.reqUrl.text, resp.statusCode, resp.status))
      else
        var charset := CharsetOf(resp.contentType);
        var s := if charset != Utf8 then lib.decode(charset, resp.body) else resp.body;
        match lib.parse(s)
        case Err(msg) => Err(ParseFailed(msg))
        case Ok(doc) => Ok(doc)
  }

  method Download(p: Page, lib: Lib, reply: Reply) returns (r: Result<Tree, PageError>)
    ensures r == DownloadOf(p, lib, reply)
  {
    match reply {
      case RequestError(msg) =>
        return Err(RequestFailed(msg));
      case Responded(resp) =>
        if resp.statusCode >= 400 {
          return Err(BadStatus(p.reqUrl.text, resp.statusCode, resp.status));
        }
        var charset := Charset(resp.contentType);
        var s := resp.body;
        if charset != Utf8 {
          s := lib.decode(charset, s);
        }
        var parsed := lib.parse(s);
        if parsed.Err? {
          return Err(ParseFailed(parsed.error));
        }
        return Ok(parsed.value);
    }
  }

  /** A body whose charset is "utf-8" is never handed to the decoder. */
  lemma Utf8IsNotTranscoded(p: Page, lib: Lib, resp: Response, decode: (string, string) -> string)
    requires CharsetOf(resp.contentType) == Utf8
    ensures DownloadOf(p, lib, Responded(resp)) == DownloadOf(p, lib.(decode := decode), Responded(resp))
  {
  }

  /** A status of 400 or more fails whatever the body. */
  lemma ErrorStatusFails(p: Page, lib: Lib, resp: Response)
    requires resp.statusCode >= 400
    ensures DownloadOf(p, lib, Responded(resp)) == Err(BadStatus(p.reqUrl.text, resp.statusCode, resp.status))
  {
  }

  // ---------------------------------------------------------------------
  // The selection pipeline (makeSelection, page/page.go:204-291)
  // ---------------------------------------------------------------------

  /** The nodes the selector picks: the whole document when it is empty. */
  function Hits(lib: Lib, selector: string, doc: Tree): Result<seq<Tree>, PageError>
  {
    if selector == "" then Ok([doc])
    else
      match lib.cssSelect(selector, doc)
      case Err(msg) => Err(SelectorFailed(msg))
      case Ok(hits) => Ok(hits)
  }

  /** The hits rendered and concatenated in order. */
  function RenderAll(lib: Lib, hits: seq<Tree>): string
  {
    if hits == [] then "" else RenderAll(lib, hits[..|hits| - 1]) + lib.render(hits[|hits| - 1])
  }

  /** One strip function, by its lower-cased name; an unknown name leaves the
      selection as it is. */
  function StripOnce(lib: Lib, stripFunc: string, selection: string, doc: Tree): string
  {
    var name := ToLower(stripFunc);
    if name == "numbers" then lib.renderClean(Strip.NumbersTree(doc))
    else if name == "attrs" then lib.renderClean(Strip.AttrsTree(doc))
    else if name == "html" then Flatten(MapSeq(Labels(doc), Strip.TextLine))
    else selection
  }

  /** The strip functions in list order, the selection reparsed after each. */
  function StripAll(lib: Lib, stripFuncs: seq<string>, selection: string, doc: Tree): Result<string, PageError>
  {
    if stripFuncs == [] then Ok(selection)
    else
      var s := StripOnce(lib, stripFuncs[0], selection, doc);
      match lib.parse(s)
      case Err(msg) => Err(ParseFailed(msg))
      case Ok(d) => StripAll(lib, stripFuncs[1..], s, d)
  }

  /** Each match followed by a newline. */
  function MatchLines(matches: seq<string>, newline: string): string
  {
    if matches == [] then "" else matches[0] + newline + MatchLines(matches[1..], newline)
  }

  lemma {:induction false} MatchLinesAppend(matches: seq<string>, m: string, newline: string)
    ensures MatchLines(matches + [m], newline) == MatchLines(matches, newline) + m + newline
  {
    if matches != [] {
      assert (matches + [m])[1..] == matches[1..] + [m];
      MatchLinesAppend(matches[1..], m, newline);
    }
  }

  /** The include step: with a pattern, the selection becomes its matches. */
  function Include(lib: Lib, pattern: string, newline: string, selection: string): Result<string, PageError>
  {
    if pattern == "" then Ok(selection)
    else if lib.regexpError(pattern).Some? then Err(RegexpFailed(lib.regexpError(pattern).value))
    else Ok(MatchLines(lib.findAll(pattern, selection), newline))
  }

  /** The exclude step: with a pattern, its matches are deleted. */
  function Exclude(lib: Lib, pattern: string, selection: string): Result<string, PageError>
  {
    if pattern == "" then Ok(selection)
    else if lib.regexpError(pattern).Some? then Err(RegexpFailed(lib.regexpError(pattern).value))
    else Ok(lib.replaceAll(pattern, selection))
  }

  /** makeSelection: selector, render and reparse, strip functions, include
      pattern, exclude pattern, in that order; the first failing step
      decides the error. */
  function Selection(lib: Lib, s: PageSettings, newline: string, doc: Tree): Result<string, PageError>
  {
    match Hits(lib, s.selection, doc)
    case Err(e) => Err(e)
    case Ok(hits) =>
      var rendered := RenderAll(lib, hits);
      match lib.parse(rendered)
      case Err(msg) => Err(ParseFailed(msg))
      case Ok(d) =>
        match StripAll(lib, s.stripFuncs, rendered, d)
        case Err(e) => Err(e)
        case Ok(stripped) =>
          match Include(lib, s.regexp, newline, stripped)
          case Err(e) => Err(e)
          case Ok(included) => Exclude(lib, s.negexp, included)
  }

  method MakeSelection(lib: Lib, s: PageSettings, newline: string, htmlNode: Tree) returns (r: Result<string, PageError>)
    ensures r == Selection(lib, s, newline, htmlNode)
  {
    // CSS selection.
    var result: seq<Tree>;
    if s.selection == "" {
      result := [htmlNode];
    } else {
      var matched := lib.cssSelect(s.selection, htmlNode);
      if matched.Err? {
        return Err(SelectorFailed(matched.error));
      }
      result := matched.value;
    }
    var selection := "";
    var i := 0;
    while i < |result|
      invariant 0 <= i <= |result|
      invariant selection == RenderAll(lib, result[..i])
    {
      assert result[..i + 1][..i] == result[..i];
      selection := selection + lib.render(result[i]);
      i := i + 1;
    }
    assert result[..i] == result;
    var parsed := lib.parse(selection);
    if parsed.Err? {
      return Err(ParseFailed(parsed.error));
    }
    var doc := parsed.value;

    // Strip functions.
    ghost var rendered, d0 := selection, doc;
    var j := 0;
    while j < |s.stripFuncs|
      invariant 0 <= j <= |s.stripFuncs|
      invariant StripAll(lib, s.stripFuncs[j..], selection, doc) == StripAll(lib, s.stripFuncs, rendered, d0)
    {
      assert s.stripFuncs[j..][1..] == s.stripFuncs[j + 1..];
      var stripFunc := ToLower(s.stripFuncs[j]);
      if stripFunc == "numbers" {
        var node := Build(doc);
        selection := Strip.Numbers(node, lib.renderClean);
      } else if stripFunc == "attrs" {
        var node := Build(doc);
        selection := Strip.Attrs(node, lib.renderClean);
      } else if stripFunc == "html" {
        var node := Build(doc);
        selection := Strip.HTML(node);
      }
      var reparsed := lib.parse(selection);
      if reparsed.Err? {
        return Err(ParseFailed(reparsed.error));
      }
      doc := reparsed.value;
      j := j + 1;
    }

    // Include pattern.
    if s.regexp != "" {
      var compileError := lib.regexpError(s.regexp);
      if compileError.Some? {
        return Err(RegexpFailed(compileError.value));
      }
      var matches := lib.findAll(s.regexp, selection);
      selection := "";
      var k := 0;
      while k < |matches|
        invariant 0 <= k <= |matches|
        invariant selection == MatchLines(matches[..k], newline)
      {
        assert matches[..k + 1] == matches[..k] + [matches[k]];
        MatchLinesAppend(matches[..k], matches[k], newline);
        selection := selection + matches[k] + newline;
        k := k + 1;
      }
      assert matches[..k] == matches;
    }

    // Exclude pattern.
    if s.negexp != "" {
      var compileError := lib.regexpError(s.negexp);
      if compileError.Some? {
        return Err(RegexpFailed(compileError.value));
      }
      selection := lib.replaceAll(s.negexp, selection);
    }
    return Ok(selection);
  }

  /** Strip function names are matched without regard to ASCII case. */
  lemma StripNamesIgnoreCase(lib: Lib, f: string, g: string, selection: string, doc: Tree)
    requires ToLower(f) == ToLower(g)
    ensures StripOnce(lib, f, selection, doc) == StripOnce(lib, g, selection, doc)
  {
  }

  /** A name that is none of numbers, attrs and html leaves the selection as
      it is (the document is still reparsed from it). */
  lemma UnknownStripKeepsSelection(lib: Lib, f: string, selection: string, doc: Tree)
    requires ToLower(f) != "numbers" && ToLower(f) != "attrs" && ToLower(f) != "html"
    ensures StripOnce(lib, f, selection, doc) == selection
  {
  }

  /** With no strip functions, the selection is what the selector rendered,
      passed through the two patterns. */
  lemma NoStripFuncs(lib: Lib, s: PageSettings, newline: string, doc: Tree)
    requires s.stripFuncs == [] && Hits(lib, s.selection, doc).Ok?
    requires lib.parse(RenderAll(lib, Hits(lib, s.selection, doc).value)).Ok?
    ensures var included := Include(lib, s.regexp, newline, RenderAll(lib, Hits(lib, s.selection, doc).value));
      Selection(lib, s, newline, doc) ==
        if included.Err? then Err(included.error) else Exclude(lib, s.negexp, included.value)
  {
  }

  /** With no patterns and no strip functions, an empty selector selects
      the rendered document. */
  lemma EmptySelectorSelectsDocument(lib: Lib, s: PageSettings, newline: string, doc: Tree)
    requires s.selection == "" && s.stripFuncs == [] && s.regexp == "" && s.negexp == ""
    requires lib.parse(lib.render(doc)).Ok?
    ensures Selection(lib, s, newline, doc) == Ok(lib.render(doc))
  {
    assert [doc][..0] == [];
    assert RenderAll(lib, [doc]) == lib.render(doc);
  }

  /** Read back on newlines, the include step yields its matches, each on its
      own line, and a final empty piece; no match gives "". */
  lemma {:induction false} MatchLinesSplit(matches: seq<string>)
    requires forall i :: 0 <= i < |matches| ==> '\n' !in matches[i]
    ensures MatchLines(matches, "\n") == "" <==> matches == []
    ensures Split(MatchLines(matches, "\n"), '\n') == matches + [""]
  {
    if matches != [] {
      var rest := MatchLines(matches[1..], "\n");
      assert MatchLines(matches, "\n") == matches[0] + ['\n'] + rest;
      SplitAfter(matches[0], rest, '\n');
      MatchLinesSplit(matches[1..]);
      ConsAppend(matches, [""]);
    }
  }

  // ---------------------------------------------------------------------
  // The check (Check, page/page.go:39-134)
  // ---------------------------------------------------------------------

  /** The cache directory: file name to contents. */
  class Cache {
    var files: map<string, string>

    constructor (files: map<string, string>)
      ensures this.files == files
    {
      this.files := files;
    }
  }

  /** The error channel a check reports on, as the values sent so far. */
  class Channel {
    var sent: seq<Option<PageError>>

    constructor ()
      ensures sent == []
    {
      sent := [];
    }

    method Send(v: Option<PageError>)
      modifies this
      ensures sent == old(sent) + [v]
    {
      sent := sent + [v];
    }
  }

  /** The name of a page's cache file. */
  function CacheName(u: Url): string
  {
    FileName.LinuxEscaped(u.text) + ".htm"
  }

  /** `filename.Linux` of the URL with ".htm" appended. */
  method CacheFile(u: Url) returns (name: string)
    ensures name == CacheName(u)
  {
    var escaped := FileName.Linux(u.text);
    name := escaped + ".htm";
  }

  /** Mail goes out only when the page has a recipient and the three
      compulsory sender settings are set. */
  predicate MailWanted(s: PageSettings, global: Prog)
  {
    s.recvMail != "" && global.senderMail.authServer != ""
      && global.senderMail.outServer != "" && global.senderMail.address != ""
  }

  /** The selection mailed to the user: the page's selection made again
      without its strip functions. */
  function MailSelection(lib: Lib, p: Page, global: Prog, doc: Tree): Result<string, PageError>
  {
    Selection(lib, p.settings.(stripFuncs := []), global.newline, doc)
  }

  /** The registry, the cache and the one value reported after a check. */
  datatype Outcome = Outcome(updates: set<string>, files: map<string, string>, report: Option<PageError>)

  /** After an update is recorded: the optional mail, then the cache rewrite. */
  function AfterUpdate(lib: Lib, world: World, p: Page, global: Prog, doc: Tree, selection: string,
                       updates: set<string>, files: map<string, string>): Outcome
  {
    var name := CacheName(p.reqUrl);
    var mailed :=
      if !MailWanted(p.settings, global) then None
      else
        match MailSelection(lib, p, global, doc)
        case Err(e) => Some(e)
        case Ok(body) =>
          match Mail.Send(global.senderMail, p.reqUrl, p.settings.recvMail, body, world.smtp)
          case Some(me) => Some(MailFailed(me))
          case None => None;
    if mailed.Some? then Outcome(updates, files, mailed)
    else if world.writeError(name).Some? then Outcome(updates, files, Some(CacheFailed(world.writeError(name).value)))
    else Outcome(updates, files[name := selection], None)
  }

  /** The comparison with the cached selection. */
  function Compare(lib: Lib, world: World, p: Page, global: Prog, doc: Tree, selection: string,
                   updates: set<string>, files: map<string, string>): Outcome
  {
    var name := CacheName(p.reqUrl);
    if world.readError(name).Some? then
      Outcome(updates, files, Some(CacheFailed(world.readError(name).value)))
    else if name !in files then
      if world.writeError(name).Some? then Outcome(updates, files, Some(CacheFailed(world.writeError(name).value)))
      else Outcome(updates, files[name := selection], None)
    else if StrMetr.Percentage(CodeSum(files[name]), CodeSum(selection)) > p.settings.threshold then
      AfterUpdate(lib, world, p, global, doc, selection, updates + {p.reqUrl.text}, files)
    else Outcome(updates, files, None)
  }

  /** What one check does to the registry and the cache, and what it reports. */
  function CheckOf(lib: Lib, world: World, p: Page, global: Prog,
                   updates: set<string>, files: map<string, string>): Outcome
  {
    match world.fetch(p.reqUrl, p.settings.header)
    case TimedOut => Outcome(updates, files, Some(Timeout(p.reqUrl.text)))
    case Finished(reply) =>
      match DownloadOf(p, lib, reply)
      case Err(e) => Outcome(updates, files, Some(e))
      case Ok(doc) =>
        match Selection(lib, p.settings, global.newline, doc)
        case Err(e) => Outcome(updates, files, Some(e))
        case Ok(selection) => Compare(lib, world, p, global, doc, selection, updates, files)
  }

  /** Page.Check: sends exactly one value on `ch`, updates the registry and
      the cache as CheckOf says, and leaves the global settings and the
      saved registry alone. */
  method Check(p: Page, lib: Lib, world: World, g: Globals, cache: Cache, ch: Channel)
    modifies g, cache, ch
    ensures var o := CheckOf(lib, world, p, old(g.global), old(g.updates), old(cache.files));
      && g.updates == o.updates && cache.files == o.files
      && ch.sent == old(ch.sent) + [o.report]
    ensures g.global == old(g.global) && g.saved == old(g.saved)
  {
    var fetched := world.fetch(p.reqUrl, p.settings.header);
    if fetched.TimedOut? {
      ch.Send(Some(Timeout(p.reqUrl.text)));
      return;
    }
    var downloaded := Download(p, lib, fetched.reply);
    if downloaded.Err? {
      ch.Send(Some(downloaded.error));
      return;
    }
    var doc := downloaded.value;
    var made := MakeSelection(lib, p.settings, g.global.newline, doc);
    if made.Err? {
      ch.Send(Some(made.error));
      return;
    }
    var selection := made.value;
    CompareAndStore(p, lib, world, g, cache, ch, doc, selection);
  }

  /** The part of Check after the selection is made: the cache file is read
      and compared, or written as the baseline. */
  method CompareAndStore(p: Page, lib: Lib, world: World, g: Globals, cache: Cache, ch: Channel,
                         doc: Tree, selection: string)
    modifies g, cache, ch
    ensures var o := Compare(lib, world, p, old(g.global), doc, selection, old(g.updates), old(cache.files));
      && g.updates == o.updates && cache.files == o.files
      && ch.sent == old(ch.sent) + [o.report]
    ensures g.global == old(g.global) && g.saved == old(g.saved)
  {
    var name := CacheFile(p.reqUrl);
    var readError := world.readError(name);
    if readError.Some? {
      ch.Send(Some(CacheFailed(readError.value)));
      return;
    }
    if name !in cache.files {
      var writeError := world.writeError(name);
      if writeError.Some? {
        ch.Send(Some(CacheFailed(writeError.value)));
        return;
      }
      cache.files := cache.files[name := selection];
      ch.Send(None);
      return;
    }
    var buf := cache.files[name];
    var dist := StrMetr.Approx(buf, selection);
    if dist > p.settings.threshold {
      g.updates := g.updates + {p.reqUrl.text};
      MailAndStore(p, lib, world, g, cache, ch, doc, selection);
    } else {
      ch.Send(None);
    }
  }

  /** The part of Check after an update is recorded: the mail, then the
      cache rewrite. */
  method MailAndStore(p: Page, lib: Lib, world: World, g: Globals, cache: Cache, ch: Channel,
                      doc: Tree, selection: string)
    modifies cache, ch
    ensures var o := AfterUpdate(lib, world, p, g.global, doc, selection, g.updates, old(cache.files));
      cache.files == o.files && ch.sent == old(ch.sent) + [o.report]
  {
    var name := CacheFile(p.reqUrl);
    if MailWanted(p.settings, g.global) {
      var mailPage := Page(p.reqUrl, p.settings.(stripFuncs := []));
      var sel := MakeSelection(lib, mailPage.settings, g.global.newline, doc);
      assert sel == MailSelection(lib, p, g.global, doc);
      if sel.Err? {
        ch.Send(Some(sel.error));
        return;
      }
      var mailError := Mail.Send(g.global.senderMail, p.reqUrl, p.settings.recvMail, sel.value, world.smtp);
      if mailError.Some? {
        ch.Send(Some(MailFailed(mailError.value)));
        return;
      }
    }
    var writeError := world.writeError(name);
    if writeError.Some? {
      ch.Send(Some(CacheFailed(writeError.value)));
      return;
    }
    cache.files := cache.files[name := selection];
    ch.Send(None);
  }

  // ---------------------------------------------------------------------
  // What a check promises
  // ---------------------------------------------------------------------

  /** A timeout or a failed download is reported and changes nothing. */
  lemma FailedDownloadChangesNothing(lib: Lib, world: World, p: Page, global: Prog,
                                     updates: set<string>, files: map<string, string>)
    requires var f := world.fetch(p.reqUrl, p.settings.header);
      f.TimedOut? || DownloadOf(p, lib, f.reply).Err?
    ensures var o := CheckOf(lib, world, p, global, updates, files);
      o.updates == updates && o.files == files && o.report.Some?
  {
  }

  /** A page seen for the first time never counts as updated: its selection
      becomes the baseline, unless writing it fails. */
  lemma FirstSightIsBaseline(lib: Lib, world: World, p: Page, global: Prog, doc: Tree, selection: string,
                             updates: set<string>, files: map<string, string>)
    requires world.readError(CacheName(p.reqUrl)).None? && CacheName(p.reqUrl) !in files
    ensures var o := Compare(lib, world, p, global, doc, selection, updates, files);
      && o.updates == updates
      && (world.writeError(CacheName(p.reqUrl)).None? ==>
            o.files == files[CacheName(p.reqUrl) := selection] && o.report.None?)
      && (world.writeError(CacheName(p.reqUrl)).Some? ==> o.files == files && o.report.Some?)
  {
  }

  /** A failed cache read is reported and nothing is written. */
  lemma ReadFailureWritesNothing(lib: Lib, world: World, p: Page, global: Prog, doc: Tree, selection: string,
                                 updates: set<string>, files: map<string, string>)
    requires world.readError(CacheName(p.reqUrl)).Some?
    ensures var o := Compare(lib, world, p, global, doc, selection, updates, files);
      o.updates == updates && o.files == files && o.report.Some?
  {
  }

  /** Against a cached selection, the URL is recorded exactly when the score
      exceeds the page's threshold. */
  lemma UpdateIffOverThreshold(lib: Lib, world: World, p: Page, global: Prog, doc: Tree, selection: string,
                               updates: set<string>, files: map<string, string>)
    requires world.readError(CacheName(p.reqUrl)).None? && CacheName(p.reqUrl) in files
    requires p.reqUrl.text !in updates
    ensures var o := Compare(lib, world, p, global, doc, selection, updates, files);
      var score := StrMetr.Percentage(CodeSum(files[CacheName(p.reqUrl)]), CodeSum(selection));
      && (p.reqUrl.text in o.updates <==> score > p.settings.threshold)
      && o.updates <= updates + {p.reqUrl.text}
      && (score <= p.settings.threshold ==> o.files == files && o.report.None?)
  {
  }

  /** A failure to make the mail selection or to send the mail is reported
      after the update was recorded, and the cache keeps the old selection. */
  lemma MailFailureKeepsOldCache(lib: Lib, world: World, p: Page, global: Prog, doc: Tree, selection: string,
                                 updates: set<string>, files: map<string, string>)
    requires MailWanted(p.settings, global)
    requires MailSelection(lib, p, global, doc).Err? ||
      Mail.Send(global.senderMail, p.reqUrl, p.settings.recvMail, MailSelection(lib, p, global, doc).value, world.smtp).Some?
    ensures var o := AfterUpdate(lib, world, p, global, doc, selection, updates, files);
      o.updates == updates && o.files == files && o.report.Some?
  {
  }

  /** Without a recipient and the three sender settings, the SMTP client is
      never used: any other client gives the same outcome. */
  lemma NoMailUnlessWanted(lib: Lib, world: World, p: Page, global: Prog,
                           updates: set<string>, files: map<string, string>,
                           smtp: Mail.Envelope -> Option<string>)
    requires !MailWanted(p.settings, global)
    ensures CheckOf(lib, world, p, global, updates, files)
         == CheckOf(lib, world.(smtp := smtp), p, global, updates, files)
  {
  }

  /** The mailed selection does not depend on the page's strip functions. */
  lemma MailIgnoresStripFuncs(lib: Lib, p: Page, global: Prog, doc: Tree, stripFuncs: seq<string>)
    ensures MailSelection(lib, p, global, doc)
         == MailSelection(lib, Page(p.reqUrl, p.settings.(stripFuncs := stripFuncs)), global, doc)
  {
  }

  /** A check only ever adds the page's own URL to the registry. */
  lemma CheckOnlyAddsItsUrl(lib: Lib, world: World, p: Page, global: Prog,
                            updates: set<string>, files: map<string, string>)
    ensures var o := CheckOf(lib, world, p, global, updates, files);
      updates <= o.updates <= updates + {p.reqUrl.text}
  {
    var f := world.fetch(p.reqUrl, p.settings.header);
    if f.Finished? && DownloadOf(p, lib, f.reply).Ok? {
      var doc := DownloadOf(p, lib, f.reply).value;
      var sel := Selection(lib, p.settings, global.newline, doc);
      if sel.Ok? {
        CompareOnlyAddsItsUrl(lib, world, p, global, doc, sel.value, updates, files);
      }
    }
  }

  lemma CompareOnlyAddsItsUrl(lib: Lib, world: World, p: Page, global: Prog, doc: Tree, selection: string,
                              updates: set<string>, files: map<string, string>)
    ensures var o := Compare(lib, world, p, global, doc, selection, updates, files);
      updates <= o.updates <= updates + {p.reqUrl.text}
  {
  }

  /** A check only ever writes the page's own cache file, and only with the
      selection it made. */
  lemma CheckOnlyWritesItsFile(lib: Lib, world: World, p: Page, global: Prog,
                               updates: set<string>, files: map<string, string>)
    ensures var o := CheckOf(lib, world, p, global, updates, files);
      forall name :: name != CacheName(p.reqUrl) ==>
        (name in o.files <==> name in files) && (name in files ==> o.files[name] == files[name])
  {
    var f := world.fetch(p.reqUrl, p.settings.header);
    if f.Finished? && DownloadOf(p, lib, f.reply).Ok? {
      var doc := DownloadOf(p, lib, f.reply).value;
      var sel := Selection(lib, p.settings, global.newline, doc);
      if sel.Ok? {
        CompareOnlyWritesItsFile(lib, world, p, global, doc, sel.value, updates, files);
      }
    }
  }

  lemma CompareOnlyWritesItsFile(lib: Lib, world: World, p: Page, global: Prog, doc: Tree, selection: string,
                                 updates: set<string>, files: map<string, string>)
    ensures var o := Compare(lib, world, p, global, doc, selection, updates, files);
      && (o.files == files || o.files == files[CacheName(p.reqUrl) := selection])
  {
  }
}
