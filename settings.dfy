/** The records and defaults of settings/settings.go that the core reads and
    writes: the program-global settings, the per-page settings, and the
    registry of updated pages. Durations are whole seconds. */
module Settings {

  // Queries sent from the client to the daemon.
  const QueryClearAll: string := "clear all!"
  const QueryForceRecheck: string := "recheck!"
  const QueryUpdates: string := "updates?"

  /** One minute, in seconds. */
  const DefaultInterval: int := 60
  /** How long a download may take, in seconds. */
  const TimeoutDuration: int := 10
  /** os.FileMode(0600): user read and write. */
  const DefaultFilePerms: int := 0x180
  const Newline: string := "\n"
  const DefaultPortNum: string := ":5239"

  /** A parsed URL as the core uses it: its String() form and its Host. */
  datatype Url = Url(text: string, host: string)

  /** The account notifications are sent from. */
  datatype SenderMail = SenderMail(address: string, password: string, authServer: string, outServer: string)

  /** settings.Prog. `newline` is the Global.Newline field the core reads;
      it starts as the empty string like any unset Go string field. */
  datatype Prog = Prog(
    interval: int,
    recvMail: string,
    stripFuncs: seq<string>,
    filePerms: int,
    portNum: string,
    browser: string,
    newline: string,
    senderMail: SenderMail)

  /** settings.Global before any configuration is read. */
  const InitialGlobal: Prog :=
    Prog(DefaultInterval, "", [], DefaultFilePerms, DefaultPortNum, "", "", SenderMail("", "", "", ""))

  /** settings.Page: what a page's own section may override. */
  datatype PageSettings = PageSettings(
    interval: int,
    threshold: real,
    recvMail: string,
    regexp: string,
    negexp: string,
    stripFuncs: seq<string>,
    header: map<string, string>,
    selection: string)

  /** The package-level state of the settings package: the global settings,
      the updated pages (the keys of settings.Updates, by URL) and the copy
      of them last saved to updates.gob. */
  class Globals {
    var global: Prog
    var updates: set<string>
    var saved: set<string>

    /** The state after start-up: defaults, and the saved updates reloaded. */
    constructor (saved: set<string>)
      ensures global == InitialGlobal && updates == saved && this.saved == saved
    {
      global := InitialGlobal;
      updates := saved;
      this.saved := saved;
    }
  }
}
