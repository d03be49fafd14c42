/**
 * The browser side of the web feed (PingerTool/Resources/js/template.js): the PingerTool
 * client object, which authenticates its websocket with the first reply and then keeps one
 * panel per target address and, per address, a buffer of the last 15 ping lines
 * (PingContainerLines). The page's DOM is modelled as the sequence of panels in document
 * order and the alert banner; a parsed websocket message is a record.
 */
module Dashboard {
  import opened Wrappers
  import opened Strings

  /** A parsed update: Message is None when the field is undefined. */
  datatype Update = Update(
    message: Option<string>,
    address: string,
    displayName: string,
    colour: string,
    lastContact: string,
    isPaused: bool)

  /** A parsed websocket message: its `error` flag (truthy or not), its `result` text, and the
      fields an update reads. */
  datatype Received = Received(error: bool, result: string, update: Update)

  /** A panel of the page: its data-address and data-name, the background colour, host name
      and last-contact texts, and the ping text and pause button text (None: still as in
      the template it was cloned from). */
  datatype Panel = Panel(
    address: string,
    name: string,
    colour: string,
    hostname: string,
    lastContact: string,
    pingData: Option<string>,
    pauseButton: Option<string>)

  /** The alert banner: its colour class, whether it is displayed, and its HTML. */
  datatype BannerStyle = Info | Warning | Danger
  datatype Banner = Banner(style: BannerStyle, shown: bool, html: string)

  /** PingContainerLines and the panels. */
  datatype Feed = Feed(lines: map<string, seq<string>>, panels: seq<Panel>)

  /** Everything the client's message handlers read and write. */
  datatype ClientState = ClientState(authenticated: bool, feed: Feed, banner: Banner)

  /** The most ping lines a panel shows. */
  const MaxLines := 15

  const PausedText := "Ping Control Paused"
  const ResumeLabel := "Resume Check"
  const PauseLabel := "Pause Check"
  const LineBreak := "<br />"
  const AuthErrorPrefix := "<strong>Authentication Error:</string>Unable to authenticate socket, "

  /** The colour a panel shows: the ARGB "#FF" prefix cut to "#" (first occurrence). */
  function ShownColour(colour: string): string
  {
    ReplaceFirst(colour, "#FF", "#")
  }

  /** The host name text: the display name followed by the address in brackets. */
  function Hostname(u: Update): string
  {
    u.displayName + " (" + u.address + ")"
  }

  /** Adding a line to a buffer: the oldest line goes when 15 are held already. */
  function Pushed(buffer: seq<string>, line: string): seq<string>
  {
    (if |buffer| >= MaxLines then buffer[1..] else buffer) + [line]
  }

  /** The first panel with data-address `address`, which the selector finds. */
  function FindPanel(panels: seq<Panel>, address: string): (r: Option<nat>)
    ensures r.None? <==> forall i :: 0 <= i < |panels| ==> panels[i].address != address
    ensures r.Some? ==> r.value < |panels| && panels[r.value].address == address
    ensures r.Some? ==> forall j :: 0 <= j < r.value ==> panels[j].address != address
  {
    if |panels| == 0 then None
    else if panels[0].address == address then Some(0)
    else match FindPanel(panels[1..], address)
      case None => None
      case Some(i) => Some(i + 1)
  }

  /** What the handlers rely on and keep: one panel per address, a buffer for every panel's
      address, and no buffer over 15 lines. */
  predicate Wellformed(f: Feed)
  {
    && (forall i, j :: 0 <= i < j < |f.panels| ==> f.panels[i].address != f.panels[j].address)
    && (forall i :: 0 <= i < |f.panels| ==> f.panels[i].address in f.lines)
    && (forall a :: a in f.lines ==> |f.lines[a]| <= MaxLines)
  }

  /** The panel after its attributes have been refreshed from an update. */
  function Refreshed(p: Panel, u: Update): Panel
  {
    p.(colour := ShownColour(u.colour), hostname := Hostname(u), lastContact := u.lastContact, name := u.displayName)
  }

  /** A new panel cloned from the template for an update. */
  function NewPanel(u: Update): Panel
  {
    Panel(u.address, u.displayName, ShownColour(u.colour), Hostname(u), u.lastContact, None, None)
  }

  /**
   * HandleMessage: an update without Message is ignored. For a known address the panel's
   * attributes are refreshed; then a paused update empties its buffer and shows the paused
   * text, a "DELETED" update removes the panel (the buffer stays), and any other non-empty
   * line is pushed and the buffer shown. For an unknown address a new panel is appended with
   * an empty buffer, into which a non-paused non-empty line is pushed (even "DELETED").
   */
  function HandleUpdate(f: Feed, u: Update): (g: Feed)
    requires Wellformed(f)
    ensures f.lines.Keys <= g.lines.Keys
    ensures u.message.Some? ==> u.address in g.lines && |g.lines[u.address]| <= MaxLines
    ensures |f.panels| - 1 <= |g.panels| <= |f.panels| + 1
  {
    if u.message.None? then f
    else match FindPanel(f.panels, u.address)
      case Some(i) => UpdatePanel(f, u, i)
      case None => AddPanel(f, u)
  }

  /** HandleMessage for the address of panel `i`. */
  function UpdatePanel(f: Feed, u: Update, i: nat): (g: Feed)
    requires Wellformed(f) && u.message.Some?
    requires i < |f.panels| && f.panels[i].address == u.address
    ensures g.lines.Keys == f.lines.Keys && |g.lines[u.address]| <= MaxLines
    ensures forall a :: a in f.lines && a != u.address ==> g.lines[a] == f.lines[a]
    ensures |g.panels| == |f.panels| - (if !u.isPaused && u.message.value == "DELETED" then 1 else 0)
  {
    var m := u.message.value;
    var p := Refreshed(f.panels[i], u);
    if u.isPaused then
      Feed(f.lines[u.address := []],
           f.panels[i := p.(pingData := Some(PausedText), pauseButton := Some(ResumeLabel))])
    else if |m| == 0 then Feed(f.lines, f.panels[i := p])
    else if m == "DELETED" then Feed(f.lines, f.panels[..i] + f.panels[i + 1..])
    else
      var buffer := Pushed(f.lines[u.address], m);
      Feed(f.lines[u.address := buffer],
           f.panels[i := p.(pingData := Some(Join(buffer, LineBreak)), pauseButton := Some(PauseLabel))])
  }

  /** HandleMessage for an address without a panel. */
  function AddPanel(f: Feed, u: Update): (g: Feed)
    requires u.message.Some?
    ensures g.lines.Keys == f.lines.Keys + {u.address} && |g.lines[u.address]| <= 1
    ensures forall a :: a in f.lines && a != u.address ==> g.lines[a] == f.lines[a]
    ensures |g.panels| == |f.panels| + 1 && f.panels <= g.panels && g.panels[|f.panels|].address == u.address
  {
    var m := u.message.value;
    var p := NewPanel(u);
    if u.isPaused then
      Feed(f.lines[u.address := []], f.panels + [p.(pingData := Some(PausedText), pauseButton := Some(ResumeLabel))])
    else if |m| > 0 then
      Feed(f.lines[u.address := [m]], f.panels + [p.(pingData := Some(m + LineBreak))])
    else
      Feed(f.lines[u.address := []], f.panels + [p])
  }

  /**
   * SocketMessage: until the socket is authenticated, a reply flagged `error` shows the
   * authentication error in the banner and any other reply hides the banner and
   * authenticates; after that every message goes to HandleMessage.
   */
  function Receive(s: ClientState, r: Received): (t: ClientState)
    requires Wellformed(s.feed)
    ensures t.authenticated <==> s.authenticated || !r.error
    ensures !s.authenticated ==> t.feed == s.feed
  {
    if !s.authenticated then
      if r.error then s.(banner := Banner(Danger, true, AuthErrorPrefix + r.result))
      else s.(authenticated := true, banner := s.banner.(shown := false))
    else s.(feed := HandleUpdate(s.feed, r.update))
  }

  /** The authentication gate: before authentication no message touches the panels or the
      buffers and only a reply without `error` authenticates; after it, every message is
      handled as an update and the client stays authenticated. */
  lemma AuthenticationGate(s: ClientState, r: Received)
    requires Wellformed(s.feed)
    ensures !s.authenticated ==> Receive(s, r).feed == s.feed && (Receive(s, r).authenticated <==> !r.error)
    ensures !s.authenticated && r.error ==> Receive(s, r).banner.shown && Receive(s, r).banner.style == Danger
    ensures s.authenticated ==> Receive(s, r).authenticated && Receive(s, r).feed == HandleUpdate(s.feed, r.update)
  {
  }

  /** An update whose Message is undefined changes nothing. */
  lemma UndefinedMessageIgnored(f: Feed, u: Update)
    requires Wellformed(f) && u.message.None?
    ensures HandleUpdate(f, u) == f
  {
  }

  /** Every update keeps the feed well formed: in particular no buffer ever holds more than
      15 lines and no address gets two panels. */
  lemma HandleKeepsWellformed(f: Feed, u: Update)
    requires Wellformed(f)
    ensures Wellformed(HandleUpdate(f, u))
  {
    if u.message.Some? {
      match FindPanel(f.panels, u.address)
      case Some(i) => KnownKeepsWellformed(f, u, i);
      case None => NewKeepsWellformed(f, u);
    }
  }

  /** An update for an address that has a panel keeps the feed well formed. */
  lemma {:induction false} KnownKeepsWellformed(f: Feed, u: Update, i: nat)
    requires Wellformed(f) && u.message.Some?
    requires FindPanel(f.panels, u.address) == Some(i)
    ensures Wellformed(HandleUpdate(f, u))
  {
    if !u.isPaused && u.message.value == "DELETED" {
      DeletedKeepsWellformed(f, u, i);
    } else {
      RefreshedKeepsWellformed(f, u, i);
    }
  }

  /** Removing panel `i` keeps the feed well formed. */
  lemma {:induction false} DeletedKeepsWellformed(f: Feed, u: Update, i: nat)
    requires Wellformed(f) && u.message == Some("DELETED") && !u.isPaused
    requires i < |f.panels| && f.panels[i].address == u.address
    ensures Wellformed(UpdatePanel(f, u, i))
  {
    var g := UpdatePanel(f, u, i);
    assert g.panels == f.panels[..i] + f.panels[i + 1..];
    forall j | 0 <= j < |g.panels| ensures g.panels[j] == f.panels[if j < i then j else j + 1] {
    }
  }

  /** Refreshing panel `i` in place keeps the feed well formed. */
  lemma {:induction false} RefreshedKeepsWellformed(f: Feed, u: Update, i: nat)
    requires Wellformed(f) && u.message.Some? && (u.isPaused || u.message.value != "DELETED")
    requires i < |f.panels| && f.panels[i].address == u.address
    ensures Wellformed(UpdatePanel(f, u, i))
  {
    var g := UpdatePanel(f, u, i);
    assert |g.panels| == |f.panels|;
    assert forall j :: 0 <= j < |g.panels| ==> g.panels[j].address == f.panels[j].address;
  }

  /** An update for an address without a panel keeps the feed well formed. */
  lemma {:induction false} NewKeepsWellformed(f: Feed, u: Update)
    requires Wellformed(f) && u.message.Some?
    requires forall j :: 0 <= j < |f.panels| ==> f.panels[j].address != u.address
    ensures Wellformed(AddPanel(f, u))
  {
    var g := AddPanel(f, u);
    assert g.panels[..|f.panels|] == f.panels;
    assert g.panels[|f.panels|].address == u.address;
  }

  /** A paused update for a known address is handled before the "DELETED" test: the panel
      stays, shows the paused text and "Resume Check", and its buffer is emptied. */
  lemma PausedBeforeDeleted(f: Feed, u: Update, i: nat)
    requires Wellformed(f) && u.message.Some? && u.isPaused
    requires FindPanel(f.panels, u.address) == Some(i)
    ensures var g := HandleUpdate(f, u);
      && |g.panels| == |f.panels|
      && g.panels[i].address == u.address
      && g.panels[i].pingData == Some(PausedText) && g.panels[i].pauseButton == Some(ResumeLabel)
      && g.lines == f.lines[u.address := []]
  {
  }

  /** A non-paused "DELETED" for a known address removes its one panel and keeps every other
      panel in order; its buffer entry is left in place. */
  lemma DeletedRemovesPanel(f: Feed, u: Update, i: nat)
    requires Wellformed(f) && u.message == Some("DELETED") && !u.isPaused
    requires FindPanel(f.panels, u.address) == Some(i)
    ensures var g := HandleUpdate(f, u);
      && g.lines == f.lines
      && u.address in g.lines
      && g.panels == f.panels[..i] + f.panels[i + 1..]
      && forall j :: 0 <= j < |g.panels| ==> g.panels[j].address != u.address
  {
    var g := HandleUpdate(f, u);
    forall j | 0 <= j < |g.panels| ensures g.panels[j].address != u.address {
      var k := if j < i then j else j + 1;
      assert g.panels[j] == f.panels[k];
    }
  }

  /** A line for a known address that is not paused, not empty and not "DELETED" is pushed
      onto its buffer, which the panel then shows joined by "<br />". */
  lemma LinePushed(f: Feed, u: Update, i: nat)
    requires Wellformed(f) && u.message.Some? && !u.isPaused
    requires |u.message.value| > 0 && u.message.value != "DELETED"
    requires FindPanel(f.panels, u.address) == Some(i)
    ensures var g := HandleUpdate(f, u);
      var buffer := g.lines[u.address];
      && u.address in g.lines
      && buffer == Pushed(f.lines[u.address], u.message.value)
      && |buffer| <= MaxLines && buffer[|buffer| - 1] == u.message.value
      && g.panels[i].pingData == Some(Join(buffer, LineBreak))
      && g.panels[i].pauseButton == Some(PauseLabel)
  {
  }

  /** A message for an address without a panel appends exactly one panel, for that address,
      with a fresh buffer holding the line if it is neither paused nor empty (even when it is
      "DELETED"). */
  lemma UnknownAddressCreatesPanel(f: Feed, u: Update)
    requires Wellformed(f) && u.message.Some?
    requires forall i :: 0 <= i < |f.panels| ==> f.panels[i].address != u.address
    ensures var g := HandleUpdate(f, u);
      var m := u.message.value;
      && g.panels[..|f.panels|] == f.panels
      && |g.panels| == |f.panels| + 1
      && g.panels[|f.panels|].address == u.address
      && g.panels[|f.panels|].colour == ShownColour(u.colour)
      && g.lines == f.lines[u.address := if !u.isPaused && |m| > 0 then [m] else []]
  {
  }

  /** Pushing a run of lines, one by one, onto a buffer. */
  function PushAll(buffer: seq<string>, lines: seq<string>): seq<string>
    decreases |lines|
  {
    if |lines| == 0 then buffer else PushAll(Pushed(buffer, lines[0]), lines[1..])
  }

  /** The last `n` entries of `s` (all of them when there are fewer). */
  function Last(s: seq<string>, n: nat): seq<string>
  {
    if |s| <= n then s else s[|s| - n..]
  }

  /** A buffer is the recent history: pushing lines one by one onto a buffer of at most 15
      leaves exactly the last 15 of the old buffer followed by the new lines. */
  lemma {:induction false} BufferKeepsLastLines(buffer: seq<string>, lines: seq<string>)
    requires |buffer| <= MaxLines
    ensures PushAll(buffer, lines) == Last(buffer + lines, MaxLines)
    decreases |lines|
  {
    if |lines| > 0 {
      var b := Pushed(buffer, lines[0]);
      assert b == Last(buffer + [lines[0]], MaxLines);
      BufferKeepsLastLines(b, lines[1..]);
      var s := buffer + lines;
      assert buffer + [lines[0]] + lines[1..] == s;
      if |buffer + [lines[0]]| > MaxLines {
        var t := buffer + [lines[0]];
        assert b + lines[1..] == s[1..];
        assert Last(s[1..], MaxLines) == Last(s, MaxLines);
      } else {
        assert b + lines[1..] == s;
      }
    }
  }

  /** The colour shown: an ARGB colour starting "#FF" loses that "FF", and a colour without
      "#FF" anywhere is shown as sent. */
  lemma ShownColourMeaning(colour: string)
    ensures StartsWith(colour, "#FF") ==> ShownColour(colour) == "#" + colour[3..]
    ensures !Contains(colour, "#FF") ==> ShownColour(colour) == colour
  {
    if !Contains(colour, "#FF") {
      ReplaceFirstAbsent(colour, "#FF", "#");
    }
  }

  /** Replacing a pattern that does not occur changes nothing. */
  lemma {:induction false} ReplaceFirstAbsent(s: string, pat: string, rep: string)
    requires !Contains(s, pat)
    ensures ReplaceFirst(s, pat, rep) == s
  {
    if |s| > 0 {
      ReplaceFirstAbsent(s[1..], pat, rep);
      assert [s[0]] + s[1..] == s;
    }
  }

  /** The client object: its fields are the state of the page's client script. */
  class PingerClient {
    var authenticated: bool
    /** PingContainerLines, keyed by address. */
    var pingContainerLines: map<string, seq<string>>
    /** The panels in the .Target container, in document order. */
    var panels: seq<Panel>
    var banner: Banner

    function State(): ClientState
      reads this
    {
      ClientState(authenticated, Feed(pingContainerLines, panels), banner)
    }

    ghost predicate Valid()
      reads this
    {
      Wellformed(Feed(pingContainerLines, panels))
    }

    /** A fresh client: not authenticated, no buffers, no panels; the banner as on the page. */
    constructor(initialBanner: Banner)
      ensures Valid()
      ensures State() == ClientState(false, Feed(map[], []), initialBanner)
    {
      authenticated := false;
      pingContainerLines := map[];
      panels := [];
      banner := initialBanner;
    }

    /** SocketMessage, on an already parsed message. */
    method SocketMessage(r: Received)
      requires Valid()
      modifies this
      ensures Valid()
      ensures State() == Receive(old(State()), r)
    {
      if !authenticated {
        if r.error {
          banner := Banner(Danger, true, AuthErrorPrefix + r.result);
        } else {
          banner := banner.(shown := false);
          authenticated := true;
        }
      } else {
        HandleMessage(r.update);
      }
    }

    /** SocketClose: the banner reports the closed connection. */
    method SocketClose()
      modifies this`banner
      ensures banner == Banner(Warning, true, "<strong>Disconnected:</strong> The connection to the server has been closed")
    {
      banner := Banner(Warning, true, "<strong>Disconnected:</strong> The connection to the server has been closed");
    }

    /** SocketError: the banner reports the connection error. */
    method SocketError()
      modifies this`banner
      ensures banner == Banner(Danger, true, "<strong>Disconnected:</strong> An error occoured with the server connection")
    {
      banner := Banner(Danger, true, "<strong>Disconnected:</strong> An error occoured with the server connection");
    }

    /** HandleMessage on the page: finds the panel, then updates or removes it, or adds one. */
    method HandleMessage(u: Update)
      requires Valid()
      modifies this`pingContainerLines, this`panels
      ensures Valid()
      ensures Feed(pingContainerLines, panels) == HandleUpdate(old(Feed(pingContainerLines, panels)), u)
    {
      HandleKeepsWellformed(Feed(pingContainerLines, panels), u);
      if u.message.None? {
        return;
      }
      var found := PanelIndex(panels, u.address);
      if found.Some? {
        RefreshPanel(u, found.value);
      } else {
        AppendPanel(u);
      }
    }

    /** The branch of HandleMessage for the address of panel `i`. */
    method RefreshPanel(u: Update, i: nat)
      requires Valid() && u.message.Some?
      requires i < |panels| && panels[i].address == u.address
      modifies this`pingContainerLines, this`panels
      ensures Feed(pingContainerLines, panels) == UpdatePanel(old(Feed(pingContainerLines, panels)), u, i)
    {
      var m := u.message.value;
      var p := panels[i].(colour := ReplaceFirst(u.colour, "#FF", "#"), hostname := u.displayName + " (" + u.address + ")",
                          lastContact := u.lastContact, name := u.displayName);
      if u.isPaused {
        p := p.(pingData := Some(PausedText), pauseButton := Some(ResumeLabel));
        pingContainerLines := pingContainerLines[u.address := []];
        panels := panels[i := p];
      } else if |m| > 0 {
        if m == "DELETED" {
          panels := panels[..i] + panels[i + 1..];
        } else {
          var buffer := pingContainerLines[u.address];
          if |buffer| >= MaxLines {
            buffer := buffer[1..];
          }
          buffer := buffer + [m];
          pingContainerLines := pingContainerLines[u.address := buffer];
          p := p.(pingData := Some(Join(buffer, LineBreak)), pauseButton := Some(PauseLabel));
          panels := panels[i := p];
        }
      } else {
        panels := panels[i := p];
      }
    }

    /** The branch of HandleMessage for an address without a panel: a panel cloned from the
        template is appended and the address gets a fresh buffer. */
    method AppendPanel(u: Update)
      requires u.message.Some?
      modifies this`pingContainerLines, this`panels
      ensures Feed(pingContainerLines, panels) == AddPanel(old(Feed(pingContainerLines, panels)), u)
    {
      var m := u.message.value;
      var p := Panel(u.address, u.displayName, ReplaceFirst(u.colour, "#FF", "#"),
                     u.displayName + " (" + u.address + ")", u.lastContact, None, None);
      pingContainerLines := pingContainerLines[u.address := []];
      if u.isPaused {
        p := p.(pingData := Some(PausedText), pauseButton := Some(ResumeLabel));
      } else if |m| > 0 {
        p := p.(pingData := Some(m + LineBreak));
        pingContainerLines := pingContainerLines[u.address := [m]];
      }
      panels := panels + [p];
    }
  }

  /** The selector $(".panel[data-address=...]"): scans the panels in document order. */
  method PanelIndex(panels: seq<Panel>, address: string) returns (r: Option<nat>)
    ensures r == FindPanel(panels, address)
  {
    var i := 0;
    while i < |panels|
      invariant 0 <= i <= |panels|
      invariant forall j :: 0 <= j < i ==> panels[j].address != address
    {
      if panels[i].address == address {
        return Some(i);
      }
      i := i + 1;
    }
    return None;
  }
}
