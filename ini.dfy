/** The configuration reader of ini/ini.go: the [settings] and [mail]
    sections of config.ini, written into the global settings record, and one
    page per section of pages.ini.

    The INI loader (jteeuwen/ini) hands back its sections and fields in Go
    map iteration order; here that order is the order of the sequences. Its
    value conversions, time.ParseDuration, Duration.String and url.Parse are
    oracles. strings.Contains with a one-character needle is written as
    membership. */
module Ini {
  import opened Wrappers
  import opened Text
  import opened Settings
  import opened Page

  /** A field's value: `key = value`, or a list declared with `key < value`
      lines. */
  datatype Entry = Scalar(text: string) | ListValue(items: seq<string>)

  datatype Field = Field(name: string, value: Entry)

  type Section = seq<Field>

  datatype NamedSection = NamedSection(name: string, fields: Section)

  type IniFile = seq<NamedSection>

  /** The conversions the reader relies on; durations are whole seconds. */
  datatype Conv = Conv(
    parseDuration: string -> Result<int, string>,  // time.ParseDuration
    formatDuration: int -> string,                 // time.Duration.String
    toInt: string -> Option<int>,                  // the loader's integer reading
    toFloat: string -> Option<real>,               // the loader's float reading
    parseUrl: string -> Result<Url, string>)       // url.Parse

  datatype ConfigError =
    | LoadFailed(msg: string)
    | FieldNotExist(name: string)
    | BadDuration(msg: string)
    | MailAddressNotFound
    | InvalidMailAddress(address: string)
    | MailAuthServerNotFound
    | MailOutServerNotFound
    | BadUrl(msg: string)
    | InvalidHeader(header: string)
    | InvalidListDeclaration

  const SettingsFields: set<string> := {"interval", "browser", "portnum", "strip", "fileperms"}
  const MailFields: set<string> := {"recvmail", "sendmail", "sendpass", "sendauthserver", "sendoutserver"}
  const SiteFields: set<string> :=
    {"interval", "strip", "recvmail", "sel", "regexp", "negexp", "threshold", "header"}

  // ---------------------------------------------------------------------
  // Reading a section
  // ---------------------------------------------------------------------

  /** The entry of `key`, if the section has one. */
  function Find(section: Section, key: string): (e: Option<Entry>)
    ensures e.Some? <==> exists i :: 0 <= i < |section| && section[i].name == key
  {
    if section == [] then None
    else if section[0].name == key then Some(section[0].value)
    else Find(section[1..], key)
  }

  /** Section.S: the value of `key`, or `def` when there is no such value. */
  function S(section: Section, key: string, def: string): string
  {
    match Find(section, key)
    case Some(Scalar(text)) => text
    case _ => def
  }

  /** Section.I: the value of `key` read as an integer, or `def`. */
  function I(section: Section, key: string, def: int, conv: Conv): int
  {
    match Find(section, key)
    case Some(Scalar(text)) => if conv.toInt(text).Some? then conv.toInt(text).value else def
    case _ => def
  }

  /** Section.F64: the value of `key` read as a float, or `def`. */
  function F64(section: Section, key: string, def: real, conv: Conv): real
  {
    match Find(section, key)
    case Some(Scalar(text)) => if conv.toFloat(text).Some? then conv.toFloat(text).value else def
    case _ => def
  }

  /** Section.List: the items of a list field; None stands for Go's nil. */
  function List(section: Section, key: string): Option<seq<string>>
  {
    match Find(section, key)
    case Some(ListValue(items)) => Some(items)
    case _ => None
  }

  /** The first field, in iteration order, outside `allowed`. */
  function UnknownField(section: Section, allowed: set<string>): (u: Option<string>)
    ensures u.None? <==> forall i :: 0 <= i < |section| ==> section[i].name in allowed
    ensures u.Some? ==> u.value !in allowed
  {
    if section == [] then None
    else if section[0].name !in allowed then Some(section[0].name)
    else UnknownField(section[1..], allowed)
  }

  /** The field-name loop that opens parseSettings, parseMail and each page
      of ReadPages. */
  method CheckFields(section: Section, allowed: set<string>) returns (err: Option<ConfigError>)
    ensures err == (if UnknownField(section, allowed).Some? then Some(FieldNotExist(UnknownField(section, allowed).value)) else None)
  {
    var i := 0;
    while i < |section|
      invariant 0 <= i <= |section|
      invariant UnknownField(section, allowed) == UnknownField(section[i..], allowed)
    {
      assert section[i..][1..] == section[i + 1..];
      if section[i].name !in allowed {
        return Some(FieldNotExist(section[i].name));
      }
      i := i + 1;
    }
    return None;
  }

  /** os.FileMode of a Go int: the low 32 bits. */
  function FileMode(n: int): (m: int)
    ensures 0 <= m < 0x1_0000_0000
    ensures 0 <= n < 0x1_0000_0000 ==> m == n
  {
    n % 0x1_0000_0000
  }

  // ---------------------------------------------------------------------
  // config.ini
  // ---------------------------------------------------------------------

  /** The global settings after a section is applied, and the error. */
  datatype Applied = Applied(global: Prog, err: Option<ConfigError>)

  /** parseSettings. The interval is assigned before it is checked, so a
      failed parse leaves it 0. */
  function SettingsOf(global: Prog, config: Section, conv: Conv, defaultNewline: string): Applied
  {
    var unknown := UnknownField(config, SettingsFields);
    if unknown.Some? then Applied(global, Some(FieldNotExist(unknown.value)))
    else
      var intervalStr := S(config, "interval", conv.formatDuration(DefaultInterval));
      match conv.parseDuration(intervalStr)
      case Err(msg) => Applied(global.(interval := 0), Some(BadDuration(msg)))
      case Ok(interval) =>
        Applied(global.(interval := interval,
                        filePerms := FileMode(I(config, "fileperms", DefaultFilePerms, conv)),
                        newline := S(config, "newline", defaultNewline),
                        portNum := S(config, "portnum", DefaultPortNum),
                        browser := S(config, "browser", "")),
                None)
  }

  /** parseMail: each field is written into the global settings, then
      checked; the first failing check ends the parse. */
  function MailOf(global: Prog, mail: Section): Applied
  {
    var unknown := UnknownField(mail, MailFields);
    if unknown.Some? then Applied(global, Some(FieldNotExist(unknown.value)))
    else
      var recv := S(mail, "recvmail", "");
      var g1 := global.(recvMail := recv);
      if recv == "" then Applied(g1, Some(MailAddressNotFound))
      else if '@' !in recv then Applied(g1, Some(InvalidMailAddress(recv)))
      else
        var address := S(mail, "sendmail", "");
        var g2 := g1.(senderMail := g1.senderMail.(address := address));
        if address == "" then Applied(g2, Some(MailAddressNotFound))
        else if '@' !in address then Applied(g2, Some(InvalidMailAddress(address)))
        else
          var g3 := g2.(senderMail := g2.senderMail.(password := S(mail, "sendpass", "")));
          var authServer := S(mail, "sendauthserver", "");
          var g4 := g3.(senderMail := g3.senderMail.(authServer := authServer));
          if authServer == "" then Applied(g4, Some(MailAuthServerNotFound))
          else
            var outServer := S(mail, "sendoutserver", "");
            var g5 := g4.(senderMail := g4.senderMail.(outServer := outServer));
            if outServer == "" then Applied(g5, Some(MailOutServerNotFound))
            else Applied(g5, None)
  }

  /** The first section of the file called `name`. */
  function FindSection(file: IniFile, name: string): Option<Section>
  {
    if file == [] then None
    else if file[0].name == name then Some(file[0].fields)
    else FindSection(file[1..], name)
  }

  /** ReadSettings: [settings], then [mail], each only when present. */
  function ReadSettingsOf(global: Prog, load: Result<IniFile, string>, conv: Conv, defaultNewline: string): Applied
  {
    match load
    case Err(msg) => Applied(global, Some(LoadFailed(msg)))
    case Ok(file) =>
      var afterSettings :=
        match FindSection(file, "settings")
        case None => Applied(global, None)
        case Some(config) => SettingsOf(global, config, conv, defaultNewline);
      if afterSettings.err.Some? then afterSettings
      else
        match FindSection(file, "mail")
        case None => afterSettings
        case Some(mail) => MailOf(afterSettings.global, mail)
  }

  method ParseSettings(g: Globals, config: Section, conv: Conv, defaultNewline: string) returns (err: Option<ConfigError>)
    modifies g
    ensures var a := SettingsOf(old(g.global), config, conv, defaultNewline);
      g.global == a.global && err == a.err
    ensures g.updates == old(g.updates) && g.saved == old(g.saved)
  {
    err := CheckFields(config, SettingsFields);
    if err.Some? {
      return;
    }
    var intervalStr := S(config, "interval", conv.formatDuration(DefaultInterval));
    var interval := conv.parseDuration(intervalStr);
    if interval.Err? {
      g.global := g.global.(interval := 0);
      return Some(BadDuration(interval.error));
    }
    g.global := g.global.(interval := interval.value);
    g.global := g.global.(filePerms := FileMode(I(config, "fileperms", DefaultFilePerms, conv)));
    g.global := g.global.(newline := S(config, "newline", defaultNewline));
    g.global := g.global.(portNum := S(config, "portnum", DefaultPortNum));
    g.global := g.global.(browser := S(config, "browser", ""));
    return None;
  }

  method ParseMail(g: Globals, mail: Section) returns (err: Option<ConfigError>)
    modifies g
    ensures var a := MailOf(old(g.global), mail);
      g.global == a.global && err == a.err
    ensures g.updates == old(g.updates) && g.saved == old(g.saved)
  {
    err := CheckFields(mail, MailFields);
    if err.Some? {
      return;
    }
    g.global := g.global.(recvMail := S(mail, "recvmail", ""));
    if g.global.recvMail == "" {
      return Some(MailAddressNotFound);
    } else if '@' !in g.global.recvMail {
      return Some(InvalidMailAddress(g.global.recvMail));
    }
    g.global := g.global.(senderMail := g.global.senderMail.(address := S(mail, "sendmail", "")));
    if g.global.senderMail.address == "" {
      return Some(MailAddressNotFound);
    } else if '@' !in g.global.senderMail.address {
      return Some(InvalidMailAddress(g.global.senderMail.address));
    }
    g.global := g.global.(senderMail := g.global.senderMail.(password := S(mail, "sendpass", "")));
    g.global := g.global.(senderMail := g.global.senderMail.(authServer := S(mail, "sendauthserver", "")));
    if g.global.senderMail.authServer == "" {
      return Some(MailAuthServerNotFound);
    }
    g.global := g.global.(senderMail := g.global.senderMail.(outServer := S(mail, "sendoutserver", "")));
    if g.global.senderMail.outServer == "" {
      return Some(MailOutServerNotFound);
    }
    return None;
  }

  method ReadSettings(g: Globals, load: Result<IniFile, string>, conv: Conv, defaultNewline: string)
    returns (err: Option<ConfigError>)
    modifies g
    ensures var a := ReadSettingsOf(old(g.global), load, conv, defaultNewline);
      g.global == a.global && err == a.err
    ensures g.updates == old(g.updates) && g.saved == old(g.saved)
  {
    if load.Err? {
      return Some(LoadFailed(load.error));
    }
    var config := FindSection(load.value, "settings");
    var mail := FindSection(load.value, "mail");
    if config.Some? {
      err := ParseSettings(g, config.value, conv, defaultNewline);
      if err.Some? {
        return;
      }
    }
    if mail.Some? {
      err := ParseMail(g, mail.value);
      if err.Some? {
        return;
      }
    }
    return None;
  }

  // ---------------------------------------------------------------------
  // pages.ini
  // ---------------------------------------------------------------------

  /** The key of a header line: the trimmed text before its first ':'. */
  function HeaderKey(header: string): string
    requires ':' in header
  {
    TrimSpace(header[..IndexOf(header, ':')])
  }

  /** The value of a header line: the trimmed text after its first ':'. */
  function HeaderValue(header: string): string
    requires ':' in header
  {
    TrimSpace(header[IndexOf(header, ':') + 1..])
  }

  /** The header map of a page: every line in order, a later key replacing
      an earlier one; the first line without ':' is an error. */
  function HeadersOf(headers: seq<string>): Result<map<string, string>, ConfigError>
  {
    if headers == [] then Ok(map[])
    else
      var h := headers[|headers| - 1];
      match HeadersOf(headers[..|headers| - 1])
      case Err(e) => Err(e)
      case Ok(m) => if ':' in h then Ok(m[HeaderKey(h) := HeaderValue(h)]) else Err(InvalidHeader(h))
  }

  method ParseHeaders(headers: seq<string>) returns (r: Result<map<string, string>, ConfigError>)
    ensures r == HeadersOf(headers)
  {
    var m: map<string, string> := map[];
    var i := 0;
    while i < |headers|
      invariant 0 <= i <= |headers|
      invariant HeadersOf(headers[..i]) == Ok(m)
    {
      assert headers[..i + 1][..i] == headers[..i];
      var header := headers[i];
      if ':' in header {
        m := m[HeaderKey(header) := HeaderValue(header)];
      } else {
        assert HeadersOf(headers[..i + 1]) == Err(InvalidHeader(header));
        HeadersKeepError(headers, i + 1);
        return Err(InvalidHeader(header));
      }
      i := i + 1;
    }
    assert headers[..i] == headers;
    return Ok(m);
  }

  /** Once a prefix fails, the whole list fails the same way. */
  lemma {:induction false} HeadersKeepError(headers: seq<string>, n: nat)
    requires n <= |headers| && HeadersOf(headers[..n]).Err?
    ensures HeadersOf(headers) == HeadersOf(headers[..n])
    decreases |headers| - n
  {
    if n < |headers| {
      assert headers[..n + 1][..n] == headers[..n];
      HeadersKeepError(headers, n + 1);
    } else {
      assert headers[..n] == headers;
    }
  }

  /** The page of a named section of pages.ini. */
  function PageOf(name: string, section: Section, global: Prog, conv: Conv): Result<Page, ConfigError>
  {
    var unknown := UnknownField(section, SiteFields);
    if unknown.Some? then Err(FieldNotExist(unknown.value))
    else
      match conv.parseUrl(name)
      case Err(msg) => Err(BadUrl(msg))
      case Ok(reqUrl) =>
        var intervalStr := S(section, "interval", conv.formatDuration(global.interval));
        match conv.parseDuration(intervalStr)
        case Err(msg) => Err(BadDuration(msg))
        case Ok(interval) =>
          var recvMail := S(section, "recvmail", global.recvMail);
          if recvMail != "" && '@' !in recvMail then Err(InvalidMailAddress(recvMail))
          else
            var headerLines := List(section, "header");
            match HeadersOf(if headerLines.Some? then headerLines.value else [])
            case Err(e) => Err(e)
            case Ok(header) =>
              var strip := List(section, "strip");
              if strip.None? && Find(section, "strip").Some? then Err(InvalidListDeclaration)
              else
                Ok(Page(reqUrl, PageSettings(
                  interval, F64(section, "threshold", 0.0, conv), recvMail,
                  S(section, "regexp", ""), S(section, "negexp", ""),
                  if strip.Some? then strip.value else [], header,
                  S(section, "sel", ""))))
  }

  /** A page's result in front of the rest: the first error wins. */
  function Prepend(pages: seq<Page>, rest: Result<seq<Page>, ConfigError>): Result<seq<Page>, ConfigError>
  {
    match rest
    case Err(e) => Err(e)
    case Ok(ps) => Ok(pages + ps)
  }

  /** The pages of the sections, in order, skipping the unnamed one. */
  function PagesOf(sections: IniFile, global: Prog, conv: Conv): Result<seq<Page>, ConfigError>
  {
    if sections == [] then Ok([])
    else if sections[0].name == "" then PagesOf(sections[1..], global, conv)
    else
      match PageOf(sections[0].name, sections[0].fields, global, conv)
      case Err(e) => Err(e)
      case Ok(p) => Prepend([p], PagesOf(sections[1..], global, conv))
  }

  function ReadPagesOf(global: Prog, load: Result<IniFile, string>, conv: Conv): Result<seq<Page>, ConfigError>
  {
    match load
    case Err(msg) => Err(LoadFailed(msg))
    case Ok(file) => PagesOf(file, global, conv)
  }

  /** One iteration of the section loop of ReadPages. */
  method ReadPage(name: string, section: Section, global: Prog, conv: Conv) returns (r: Result<Page, ConfigError>)
    ensures r == PageOf(name, section, global, conv)
  {
    var err := CheckFields(section, SiteFields);
    if err.Some? {
      return Err(err.value);
    }
    var reqUrl := conv.parseUrl(name);
    if reqUrl.Err? {
      return Err(BadUrl(reqUrl.error));
    }
    var selection := S(section, "sel", "");
    var regexp := S(section, "regexp", "");
    var negexp := S(section, "negexp", "");
    var threshold := F64(section, "threshold", 0.0, conv);
    var intervalStr := S(section, "interval", conv.formatDuration(global.interval));
    var interval := conv.parseDuration(intervalStr);
    if interval.Err? {
      return Err(BadDuration(interval.error));
    }
    var recvMail := S(section, "recvmail", global.recvMail);
    if recvMail != "" && '@' !in recvMail {
      return Err(InvalidMailAddress(recvMail));
    }
    var headers := List(section, "header");
    var header := ParseHeaders(if headers.Some? then headers.value else []);
    if header.Err? {
      return Err(header.error);
    }
    var strip := List(section, "strip");
    if strip.None? && Find(section, "strip").Some? {
      return Err(InvalidListDeclaration);
    }
    var stripFuncs := if strip.Some? then strip.value else [];
    return Ok(Page(reqUrl.value, PageSettings(interval.value, threshold, recvMail, regexp, negexp,
                                              stripFuncs, header.value, selection)));
  }

  /** ReadPages, given the global settings it reads. */
  method ReadPages(global: Prog, load: Result<IniFile, string>, conv: Conv) returns (r: Result<seq<Page>, ConfigError>)
    ensures r == ReadPagesOf(global, load, conv)
  {
    if load.Err? {
      return Err(LoadFailed(load.error));
    }
    var sections := load.value;
    var pages: seq<Page> := [];
    var i := 0;
    assert sections[0..] == sections;
    PrependNothing(PagesOf(sections, global, conv));
    while i < |sections|
      invariant 0 <= i <= |sections|
      invariant PagesOf(sections, global, conv) == Prepend(pages, PagesOf(sections[i..], global, conv))
    {
      assert sections[i..][1..] == sections[i + 1..];
      if sections[i].name == "" {
        i := i + 1;
        continue;
      }
      var p := ReadPage(sections[i].name, sections[i].fields, global, conv);
      if p.Err? {
        return Err(p.error);
      }
      PrependTwice(pages, [p.value], PagesOf(sections[i + 1..], global, conv));
      pages := pages + [p.value];
      i := i + 1;
    }
    assert sections[i..] == [];
    assert pages + [] == pages;
    return Ok(pages);
  }

  lemma PrependNothing(rest: Result<seq<Page>, ConfigError>)
    ensures Prepend([], rest) == rest
  {
    if rest.Ok? {
      assert [] + rest.value == rest.value;
    }
  }

  lemma PrependTwice(a: seq<Page>, b: seq<Page>, rest: Result<seq<Page>, ConfigError>)
    ensures Prepend(a, Prepend(b, rest)) == Prepend(a + b, rest)
  {
    if rest.Ok? {
      assert a + (b + rest.value) == a + b + rest.value;
    }
  }

  /** ReadIni: the settings first, then the pages under the new settings. */
  method ReadIni(g: Globals, config: Result<IniFile, string>, pagesFile: Result<IniFile, string>,
                 conv: Conv, defaultNewline: string) returns (r: Result<seq<Page>, ConfigError>)
    modifies g
    ensures var a := ReadSettingsOf(old(g.global), config, conv, defaultNewline);
      && g.global == a.global
      && r == if a.err.Some? then Err(a.err.value) else ReadPagesOf(a.global, pagesFile, conv)
    ensures g.updates == old(g.updates) && g.saved == old(g.saved)
  {
    var err := ReadSettings(g, config, conv, defaultNewline);
    if err.Some? {
      return Err(err.value);
    }
    r := ReadPages(g.global, pagesFile, conv);
  }

  // ---------------------------------------------------------------------
  // What the reader promises
  // ---------------------------------------------------------------------

  /** A field outside the section's whitelist is reported before anything is
      written: the global settings stay as they were. */
  lemma UnknownFieldComesFirst(global: Prog, config: Section, mail: Section, conv: Conv, defaultNewline: string)
    ensures UnknownField(config, SettingsFields).Some? ==>
      SettingsOf(global, config, conv, defaultNewline)
        == Applied(global, Some(FieldNotExist(UnknownField(config, SettingsFields).value)))
    ensures UnknownField(mail, MailFields).Some? ==>
      MailOf(global, mail) == Applied(global, Some(FieldNotExist(UnknownField(mail, MailFields).value)))
  {
  }

  /** "newline" is not a settings field: a [settings] section naming it is
      refused, so the newline of a parsed section is always the default. */
  lemma NewlineIsNeverConfigured(global: Prog, config: Section, conv: Conv, defaultNewline: string)
    ensures (exists i :: 0 <= i < |config| && config[i].name == "newline") ==>
      SettingsOf(global, config, conv, defaultNewline).err.Some?
    ensures SettingsOf(global, config, conv, defaultNewline).err.None? ==>
      SettingsOf(global, config, conv, defaultNewline).global.newline == defaultNewline
  {
    if exists i :: 0 <= i < |config| && config[i].name == "newline" {
      var i :| 0 <= i < |config| && config[i].name == "newline";
      assert config[i].name !in SettingsFields;
    }
  }

  /** Absent fields take the defaults: one minute, 0600, ":5239" and no
      browser (given that the duration parser reads back what the formatter
      writes). */
  lemma SettingsDefaults(global: Prog, config: Section, conv: Conv, defaultNewline: string)
    requires forall i :: 0 <= i < |config| ==> config[i].name == "strip"
    requires conv.parseDuration(conv.formatDuration(DefaultInterval)) == Ok(DefaultInterval)
    ensures var a := SettingsOf(global, config, conv, defaultNewline);
      && a.err.None?
      && a.global == global.(interval := DefaultInterval, filePerms := DefaultFilePerms,
                             newline := defaultNewline, portNum := DefaultPortNum, browser := "")
  {
    assert Find(config, "interval").None? && Find(config, "fileperms").None?;
    assert Find(config, "newline").None? && Find(config, "portnum").None? && Find(config, "browser").None?;
  }

  /** A duration that does not parse is written as 0 and reported. */
  lemma BadIntervalLeavesZero(global: Prog, config: Section, conv: Conv, defaultNewline: string)
    requires UnknownField(config, SettingsFields).None?
    requires conv.parseDuration(S(config, "interval", conv.formatDuration(DefaultInterval))).Err?
    ensures var a := SettingsOf(global, config, conv, defaultNewline);
      a.global == global.(interval := 0) && a.err.Some? && a.err.value.BadDuration?
  {
  }

  /** [mail] is accepted exactly when every field is known, both addresses
      are set and hold an '@', and both servers are set; the five values are
      then the new mail settings. */
  lemma MailAcceptedIff(global: Prog, mail: Section)
    ensures var recv := S(mail, "recvmail", "");
      var address := S(mail, "sendmail", "");
      var authServer := S(mail, "sendauthserver", "");
      var outServer := S(mail, "sendoutserver", "");
      && (MailOf(global, mail).err.None? <==>
            UnknownField(mail, MailFields).None? && recv != "" && '@' in recv
            && address != "" && '@' in address && authServer != "" && outServer != "")
      && (MailOf(global, mail).err.None? ==>
            MailOf(global, mail).global == global.(recvMail := recv,
              senderMail := SenderMail(address, S(mail, "sendpass", ""), authServer, outServer)))
  {
  }

  /** A bad address is written before it is refused, and so is everything
      read before it. */
  lemma BadAddressIsKept(global: Prog, mail: Section)
    requires UnknownField(mail, MailFields).None?
    ensures var recv := S(mail, "recvmail", "");
      var address := S(mail, "sendmail", "");
      && ((recv == "" || '@' !in recv) ==>
            MailOf(global, mail).global == global.(recvMail := recv)
            && MailOf(global, mail).err.Some?)
      && (recv != "" && '@' in recv && (address == "" || '@' !in address) ==>
            MailOf(global, mail).global == global.(recvMail := recv, senderMail := global.senderMail.(address := address))
            && MailOf(global, mail).err.Some?)
  {
  }

  /** The receiving address is checked before the sending one: with both
      missing, the error names the receiving side's check. */
  lemma ReceiverCheckedFirst(global: Prog, mail: Section)
    requires UnknownField(mail, MailFields).None?
    requires S(mail, "recvmail", "") != "" && '@' !in S(mail, "recvmail", "")
    ensures MailOf(global, mail).err == Some(InvalidMailAddress(S(mail, "recvmail", "")))
  {
  }

  /** Without [settings] and [mail], reading the configuration succeeds and
      changes nothing. */
  lemma AbsentSectionsChangeNothing(global: Prog, file: IniFile, conv: Conv, defaultNewline: string)
    requires FindSection(file, "settings").None? && FindSection(file, "mail").None?
    ensures ReadSettingsOf(global, Ok(file), conv, defaultNewline) == Applied(global, None)
  {
  }

  /** A failing [settings] section stops the read before [mail]. */
  lemma SettingsErrorSkipsMail(global: Prog, file: IniFile, conv: Conv, defaultNewline: string)
    requires FindSection(file, "settings").Some?
    requires SettingsOf(global, FindSection(file, "settings").value, conv, defaultNewline).err.Some?
    ensures ReadSettingsOf(global, Ok(file), conv, defaultNewline)
         == SettingsOf(global, FindSection(file, "settings").value, conv, defaultNewline)
  {
  }

  /** The first header line without ':', if any: the line HeadersOf fails on. */
  function BadHeader(headers: seq<string>): Option<string>
  {
    if headers == [] then None
    else
      var before := BadHeader(headers[..|headers| - 1]);
      if before.Some? then before
      else if ':' in headers[|headers| - 1] then None
      else Some(headers[|headers| - 1])
  }

  /** HeadersOf fails exactly on the line BadHeader finds. */
  lemma {:induction false} HeadersFailOnBadHeader(headers: seq<string>)
    ensures HeadersOf(headers).Ok? <==> BadHeader(headers).None?
    ensures BadHeader(headers).Some? ==> HeadersOf(headers) == Err(InvalidHeader(BadHeader(headers).value))
  {
    if headers != [] {
      HeadersFailOnBadHeader(headers[..|headers| - 1]);
    }
  }

  /** BadHeader finds nothing exactly when every line holds a ':'. */
  lemma {:induction false} NoBadHeaderIff(headers: seq<string>)
    ensures BadHeader(headers).None? <==> forall i :: 0 <= i < |headers| ==> ':' in headers[i]
  {
    if headers != [] {
      var init := headers[..|headers| - 1];
      NoBadHeaderIff(init);
      assert forall i :: 0 <= i < |init| ==> init[i] == headers[i];
    }
  }

  /** The header lines are accepted exactly when every one holds a ':'. */
  lemma HeadersAcceptedIff(headers: seq<string>)
    ensures HeadersOf(headers).Ok? <==> forall i :: 0 <= i < |headers| ==> ':' in headers[i]
  {
    HeadersFailOnBadHeader(headers);
    NoBadHeaderIff(headers);
  }

  /** Lines that all hold a ':' are accepted. */
  lemma ColonsAccepted(headers: seq<string>)
    requires forall i :: 0 <= i < |headers| ==> ':' in headers[i]
    ensures HeadersOf(headers).Ok?
  {
    HeadersAcceptedIff(headers);
  }

  /** The error names the first line without ':'. */
  lemma HeadersNameFirstBadLine(headers: seq<string>, j: nat)
    requires j < |headers| && ':' !in headers[j]
    requires forall i :: 0 <= i < j ==> ':' in headers[i]
    ensures HeadersOf(headers) == Err(InvalidHeader(headers[j]))
  {
    var p := headers[..j + 1];
    assert p[..j] == headers[..j];
    HeadersAcceptedIff(headers[..j]);
    assert HeadersOf(p) == Err(InvalidHeader(headers[j]));
    HeadersKeepError(headers, j + 1);
  }

  /** One line more: an accepted list is an accepted list with the last
      line's key set to its value. */
  lemma HeadersStep(headers: seq<string>)
    requires headers != [] && HeadersOf(headers).Ok?
    ensures var init, h := headers[..|headers| - 1], headers[|headers| - 1];
      && HeadersOf(init).Ok? && ':' in h
      && HeadersOf(headers).value == HeadersOf(init).value[HeaderKey(h) := HeaderValue(h)]
  {
  }

  /** An accepted header map has the keys of the lines, each with the value
      of the last line that carries it. */
  lemma {:induction false} HeaderLastWins(headers: seq<string>, j: nat)
    requires forall i :: 0 <= i < |headers| ==> ':' in headers[i]
    requires j < |headers|
    requires forall i :: j < i < |headers| ==> HeaderKey(headers[i]) != HeaderKey(headers[j])
    ensures HeadersOf(headers).Ok?
    ensures HeaderKey(headers[j]) in HeadersOf(headers).value
    ensures HeadersOf(headers).value[HeaderKey(headers[j])] == HeaderValue(headers[j])
  {
    var init := headers[..|headers| - 1];
    ColonsAccepted(headers);
    if j == |headers| - 1 {
      HeadersStep(headers);
    } else {
      assert forall i :: 0 <= i < |init| ==> init[i] == headers[i];
      HeaderLastWins(init, j);
      assert HeaderKey(headers[|headers| - 1]) != HeaderKey(headers[j]);
      HeaderOtherKeyKept(headers, HeaderKey(headers[j]));
    }
  }

  /** A key the last line does not set keeps the value the lines before it
      gave it. */
  lemma HeaderOtherKeyKept(headers: seq<string>, k: string)
    requires headers != [] && HeadersOf(headers).Ok? && ':' in headers[|headers| - 1]
    requires k != HeaderKey(headers[|headers| - 1])
    ensures var before := HeadersOf(headers[..|headers| - 1]);
      && before.Ok?
      && (k in HeadersOf(headers).value <==> k in before.value)
      && (k in before.value ==> HeadersOf(headers).value[k] == before.value[k])
  {
    HeadersStep(headers);
  }

  /** No key appears in the map that no line carries. */
  lemma HeaderKeysComeFromLines(headers: seq<string>, k: string)
    requires HeadersOf(headers).Ok? && k in HeadersOf(headers).value
    ensures exists i :: 0 <= i < |headers| && ':' in headers[i] && HeaderKey(headers[i]) == k
  {
    var i := LineOfKey(headers, k);
    assert ':' in headers[i] && HeaderKey(headers[i]) == k;
  }

  /** The index of a line that sets key `k` of an accepted list. */
  lemma {:induction false} LineOfKey(headers: seq<string>, k: string) returns (i: nat)
    requires HeadersOf(headers).Ok? && k in HeadersOf(headers).value
    ensures i < |headers| && ':' in headers[i] && HeaderKey(headers[i]) == k
  {
    var last := |headers| - 1;
    HeadersStep(headers);
    if HeaderKey(headers[last]) == k {
      i := last;
    } else {
      var init := headers[..last];
      HeaderOtherKeyKept(headers, k);
      i := LineOfKey(init, k);
      assert headers[i] == init[i];
    }
  }

  /** A section that sets nothing takes the defaults: the global interval and
      receiving address, threshold 0, no patterns, headers or strip
      functions. */
  lemma PageDefaults(name: string, global: Prog, conv: Conv, reqUrl: Url)
    requires conv.parseUrl(name) == Ok(reqUrl)
    requires conv.parseDuration(conv.formatDuration(global.interval)) == Ok(global.interval)
    requires global.recvMail == "" || '@' in global.recvMail
    ensures PageOf(name, [], global, conv)
         == Ok(Page(reqUrl, PageSettings(global.interval, 0.0, global.recvMail, "", "", [], map[], "")))
  {
  }

  /** A field only allowed in [settings] or [mail] is refused in a page. */
  lemma PageRefusesBrowser(name: string, global: Prog, conv: Conv, v: Entry)
    ensures PageOf(name, [Field("browser", v)], global, conv) == Err(FieldNotExist("browser"))
  {
  }

  /** A page's own receiving address needs an '@'. */
  lemma PageAddressNeedsAt(name: string, global: Prog, conv: Conv, reqUrl: Url, address: string)
    requires conv.parseUrl(name) == Ok(reqUrl)
    requires conv.parseDuration(conv.formatDuration(global.interval)).Ok?
    requires address != "" && '@' !in address
    ensures PageOf(name, [Field("recvmail", Scalar(address))], global, conv) == Err(InvalidMailAddress(address))
  {
  }

  /** "strip = ..." instead of a list is refused. */
  lemma StripMustBeAList(name: string, global: Prog, conv: Conv, reqUrl: Url, text: string)
    requires conv.parseUrl(name) == Ok(reqUrl)
    requires conv.parseDuration(conv.formatDuration(global.interval)).Ok?
    requires global.recvMail == "" || '@' in global.recvMail
    ensures PageOf(name, [Field("strip", Scalar(text))], global, conv) == Err(InvalidListDeclaration)
  {
  }

  /** The named sections of a file, in order. */
  function NamedOnly(sections: IniFile): (named: IniFile)
    ensures forall i :: 0 <= i < |named| ==> named[i].name != ""
    ensures |named| <= |sections|
  {
    if sections == [] then []
    else if sections[0].name == "" then NamedOnly(sections[1..])
    else [sections[0]] + NamedOnly(sections[1..])
  }

  /** Every one of `named` makes a page. */
  predicate AllMakePages(named: IniFile, global: Prog, conv: Conv)
  {
    forall i :: 0 <= i < |named| ==> PageOf(named[i].name, named[i].fields, global, conv).Ok?
  }

  /** ReadPages succeeds exactly when every named section makes a page; the
      unnamed section is skipped. */
  lemma {:induction false} PagesAcceptedIff(sections: IniFile, global: Prog, conv: Conv)
    ensures PagesOf(sections, global, conv).Ok? <==> AllMakePages(NamedOnly(sections), global, conv)
  {
    if sections != [] {
      PagesAcceptedIff(sections[1..], global, conv);
      if sections[0].name != "" {
        PagesOkStep(sections, global, conv);
        AllMakePagesCons(sections[0], NamedOnly(sections[1..]), global, conv);
      }
    }
  }

  /** A named first section: the file is accepted when its page and the
      rest are. */
  lemma PagesOkStep(sections: IniFile, global: Prog, conv: Conv)
    requires sections != [] && sections[0].name != ""
    ensures PagesOf(sections, global, conv).Ok? <==>
      PageOf(sections[0].name, sections[0].fields, global, conv).Ok? && PagesOf(sections[1..], global, conv).Ok?
  {
  }

  lemma AllMakePagesCons(first: NamedSection, rest: IniFile, global: Prog, conv: Conv)
    ensures AllMakePages([first] + rest, global, conv) <==>
      PageOf(first.name, first.fields, global, conv).Ok? && AllMakePages(rest, global, conv)
  {
    var named := [first] + rest;
    assert named[0] == first;
    assert forall i :: 0 <= i < |rest| ==> rest[i] == named[i + 1];
    assert forall i :: 1 <= i < |named| ==> named[i] == rest[i - 1];
  }

  /** Skipping the unnamed section is the same as reading only the named
      ones. */
  lemma {:induction false} UnnamedIsSkipped(sections: IniFile, global: Prog, conv: Conv)
    ensures PagesOf(sections, global, conv) == PagesOf(NamedOnly(sections), global, conv)
  {
    if sections != [] {
      UnnamedIsSkipped(sections[1..], global, conv);
      if sections[0].name != "" {
        assert NamedOnly(sections)[1..] == NamedOnly(sections[1..]);
      }
    }
  }

  /** An accepted list of named sections yields one page per section, in
      order. */
  lemma {:induction false} OnePagePerSection(named: IniFile, global: Prog, conv: Conv)
    requires forall i :: 0 <= i < |named| ==> named[i].name != ""
    requires PagesOf(named, global, conv).Ok?
    ensures |PagesOf(named, global, conv).value| == |named|
    ensures forall i :: 0 <= i < |named| ==>
      PageOf(named[i].name, named[i].fields, global, conv).Ok? &&
      PagesOf(named, global, conv).value[i] == PageOf(named[i].name, named[i].fields, global, conv).value
  {
    if named != [] {
      var rest := named[1..];
      PagesStep(named, global, conv);
      OnePagePerSection(rest, global, conv);
      var ps := PagesOf(named, global, conv).value;
      var qs := PagesOf(rest, global, conv).value;
      forall i | 1 <= i < |named|
        ensures PageOf(named[i].name, named[i].fields, global, conv).Ok? &&
          ps[i] == PageOf(named[i].name, named[i].fields, global, conv).value
      {
        assert named[i] == rest[i - 1];
        assert ps[i] == qs[i - 1];
      }
    }
  }

  /** One named section more: its page comes first, then the rest's. */
  lemma PagesStep(sections: IniFile, global: Prog, conv: Conv)
    requires sections != [] && sections[0].name != "" && PagesOf(sections, global, conv).Ok?
    ensures var p := PageOf(sections[0].name, sections[0].fields, global, conv);
      && p.Ok? && PagesOf(sections[1..], global, conv).Ok?
      && PagesOf(sections, global, conv).value == [p.value] + PagesOf(sections[1..], global, conv).value
  {
  }

  /** An accepted file yields one page per named section, in order. */
  lemma PagesFollowNamedSections(sections: IniFile, global: Prog, conv: Conv)
    requires PagesOf(sections, global, conv).Ok?
    ensures var named := NamedOnly(sections);
      && |PagesOf(sections, global, conv).value| == |named|
      && forall i :: 0 <= i < |named| ==>
           PageOf(named[i].name, named[i].fields, global, conv).Ok? &&
           PagesOf(sections, global, conv).value[i] == PageOf(named[i].name, named[i].fields, global, conv).value
  {
    UnnamedIsSkipped(sections, global, conv);
    OnePagePerSection(NamedOnly(sections), global, conv);
  }
}
