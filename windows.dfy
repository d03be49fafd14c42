/**
 * The main window's target registry and alert tick (PingerTool/Windows/MainWindow.xaml.cs)
 * and the project bookkeeping that drives it (PingerTool/Classes/ProjectControl.cs).
 * The two classes call each other, so they share this module.
 */
module Windows {
  import opened Wrappers
  import opened Strings
  import opened Targets
  import opened Alerts
  import opened ProjectFiles
  import Web

  /** The application settings the project file restores. */
  class App {
    var warningTimeframe: int
    var timeoutValue: int

    constructor ()
      ensures warningTimeframe == 2000 && timeoutValue == 2000
    {
      warningTimeframe := 2000;
      timeoutValue := 2000;
    }
  }

  /** A message handed to the web server's websocket feed: a copy of a target and a text. */
  datatype WebsocketMessage = WebsocketMessage(model: PingControlModel, message: string)

  /** The files a project can be opened from or saved to; writes to `unwritable` paths fail. */
  class ProjectStore {
    var files: map<string, StoredFile>
    const unwritable: set<string>

    constructor (files: map<string, StoredFile>, unwritable: set<string>)
      ensures this.files == files && this.unwritable == unwritable
    {
      this.files := files;
      this.unwritable := unwritable;
    }
  }

  /** The title a window shows for a project file. */
  function ProjectTitle(path: string): string
  {
    "PingerTool - " + FileName(path)
  }

  /** The title of a new, unsaved project. */
  const UntitledTitle := "PingerTool - Untitled Project*"

  class MainWindow {
    /** The target records (Model.PingWindows), in display order. */
    var pingWindows: seq<PingControlModel>
    /** Model.Columns. */
    var columns: int
    var title: string
    var timeframes: Timeframes
    var notification: bool
    var spark: Option<SparkConfig>
    var server: Web.WebServer?
    var proj: ProjectControl?

    var isPlayingAlert: bool
    /** The timer callback's re-entrancy guard (_IsTimerRunning). */
    var isTimerRunning: bool
    /** Calls made on the alert SoundPlayer, oldest first. */
    var playerCalls: seq<PlayerCall>
    /** Spark.SendMessage calls, oldest first. */
    var sparkSent: seq<SparkMessage>
    /** Server.SendWebsocketMessage calls, oldest first. */
    var websocketSent: seq<WebsocketMessage>

    /** Addresses are unique, the column count follows the number of targets, and the
        project control points back at this window. */
    ghost predicate Valid()
      reads this`pingWindows, this`columns, this`proj
    {
      && UniqueAddresses(pingWindows)
      && columns == ColumnsFor(|pingWindows|)
      && (proj != null ==> proj.window == this)
    }

    /** What the alert tick reads besides the records. */
    function Config(): AlertConfig
      reads this`timeframes, this`notification, this`spark
    {
      AlertConfig(timeframes, notification, spark)
    }

    /** What the alert tick reads and writes. */
    function AlertView(): AlertState
      reads this`pingWindows, this`isPlayingAlert, this`isTimerRunning, this`playerCalls, this`sparkSent
    {
      AlertState(pingWindows, isPlayingAlert, isTimerRunning, playerCalls, sparkSent)
    }

    /**
     * A window with default thresholds whose project control is built while the window's own
     * reference to it is still null: the last project is opened (or a new one started)
     * without marking anything dirty, and only then is the control attached.
     */
    constructor (title: string, app: App, lastFile: string, store: ProjectStore, parse: string -> Option<IPAddress>)
      modifies app
      ensures Valid() && proj != null && fresh(proj)
      ensures proj.app == app && proj.window == this
      ensures Opens(store.files, lastFile) && |lastFile| > 0 ==>
        && pingWindows == Imported([], ElementsOf(store.files, lastFile), parse)
        && this.title == ProjectTitle(lastFile) && proj.currentFile == Some(lastFile) && !proj.saveNeeded
      ensures !(Opens(store.files, lastFile) && |lastFile| > 0) ==>
        && pingWindows == [] && this.title == UntitledTitle
        && proj.currentFile.None? && proj.saveNeeded
      ensures |lastFile| > 0 && Readable(store.files, lastFile) ==>
        && app.timeoutValue == store.files[lastFile].data.pingTimeout
        && app.warningTimeframe == store.files[lastFile].data.warningThreshold
      ensures !(|lastFile| > 0 && Readable(store.files, lastFile)) ==>
        app.timeoutValue == old(app.timeoutValue) && app.warningTimeframe == old(app.warningTimeframe)
      ensures timeframes == DefaultTimeframes && !notification && spark.None? && server == null
      ensures !isPlayingAlert && !isTimerRunning
      ensures playerCalls == [] && sparkSent == [] && websocketSent == []
    {
      pingWindows := [];
      columns := 1;
      this.title := title;
      timeframes := DefaultTimeframes;
      notification := false;
      spark := None;
      server := null;
      proj := null;
      isPlayingAlert := false;
      isTimerRunning := false;
      playerCalls := [];
      sparkSent := [];
      websocketSent := [];
      new;
      var p := new ProjectControl(this, app, lastFile, store, parse);
      proj := p;
    }

    /** Proj?.TriggerSaveStatus(). */
    method NotifyProject()
      requires Valid()
      modifies this`title, proj
      ensures Valid() && proj == old(proj)
      ensures proj != null ==> proj.saveNeeded && proj.currentFile == old(proj.currentFile)
      ensures title == if proj != null && !old(proj.saveNeeded) then old(title) + "*" else old(title)
    {
      if proj != null {
        proj.TriggerSaveStatus();
      }
    }

    /** CreatePingElement: refuses an address already present; otherwise appends one record
        at the end, recomputes the columns and marks the project dirty. */
    method CreatePingElement(headerName: string, address: IPAddress, graphHidden: bool) returns (ok: bool)
      requires Valid()
      modifies this`pingWindows, this`columns, this`title, proj
      ensures Valid() && proj == old(proj)
      ensures ok == !HasAddress(old(pingWindows), address)
      ensures pingWindows == Apply(old(pingWindows), Create(headerName, address, graphHidden))
      ensures proj != null ==> proj.saveNeeded == (old(proj.saveNeeded) || ok)
      ensures proj != null ==> proj.currentFile == old(proj.currentFile)
      ensures title == if ok && proj != null && !old(proj.saveNeeded) then old(title) + "*" else old(title)
    {
      var elements := CountAddress(pingWindows, address);
      CountAddressMeansPresence(pingWindows, address);
      if elements != 0 {
        return false;
      }
      ApplyKeepsUnique(pingWindows, Create(headerName, address, graphHidden));
      pingWindows := pingWindows + [NewElement(headerName, address, graphHidden)];
      var totalCount := |pingWindows|;
      if totalCount > 8 {
        columns := 3;
      } else if totalCount > 1 {
        columns := 2;
      } else {
        columns := 1;
      }
      NotifyProject();
      return true;
    }

    /** RemovePingElement: refuses an absent address; otherwise removes the first record with
        it, recomputes the columns and marks the project dirty. */
    method RemovePingElement(address: IPAddress) returns (ok: bool)
      requires Valid()
      modifies this`pingWindows, this`columns, this`title, proj
      ensures Valid() && proj == old(proj)
      ensures ok == HasAddress(old(pingWindows), address)
      ensures pingWindows == Apply(old(pingWindows), Remove(address))
      ensures proj != null ==> proj.saveNeeded == (old(proj.saveNeeded) || ok)
      ensures proj != null ==> proj.currentFile == old(proj.currentFile)
      ensures title == if ok && proj != null && !old(proj.saveNeeded) then old(title) + "*" else old(title)
    {
      var elements := CountAddress(pingWindows, address);
      CountAddressMeansPresence(pingWindows, address);
      if elements == 0 {
        return false;
      }
      var i := IndexOfFirst(pingWindows, address);
      ApplyKeepsUnique(pingWindows, Remove(address));
      pingWindows := pingWindows[..i] + pingWindows[i + 1..];
      var totalCount := |pingWindows|;
      if totalCount > 8 {
        columns := 3;
      } else if totalCount > 1 {
        columns := 2;
      } else {
        columns := 1;
      }
      NotifyProject();
      return true;
    }

    /** UpdatePingElementName: refuses an absent address; otherwise renames the first record
        with it (names need not be unique) and marks the project dirty. */
    method UpdatePingElementName(address: IPAddress, newName: string) returns (ok: bool)
      requires Valid()
      modifies this`pingWindows, this`title, proj
      ensures Valid() && proj == old(proj)
      ensures ok == HasAddress(old(pingWindows), address)
      ensures pingWindows == Apply(old(pingWindows), Rename(address, newName))
      ensures proj != null ==> proj.saveNeeded == (old(proj.saveNeeded) || ok)
      ensures proj != null ==> proj.currentFile == old(proj.currentFile)
      ensures title == if ok && proj != null && !old(proj.saveNeeded) then old(title) + "*" else old(title)
    {
      var elements := CountAddress(pingWindows, address);
      CountAddressMeansPresence(pingWindows, address);
      if elements == 0 {
        return false;
      }
      var i := IndexOfFirst(pingWindows, address);
      ApplyKeepsUnique(pingWindows, Rename(address, newName));
      pingWindows := pingWindows[i := pingWindows[i].(displayName := newName)];
      NotifyProject();
      return true;
    }

    /** UpdatePingElementAddress: refuses an absent old address or a present new one (so also
        equal addresses); otherwise moves the record, sends the web feed a "DELETED" message
        carrying the record as it was, and marks the project dirty. */
    method UpdatePingElementAddress(address: IPAddress, newAddress: IPAddress) returns (ok: bool)
      requires Valid()
      modifies this`pingWindows, this`title, this`websocketSent, proj
      ensures Valid() && proj == old(proj)
      ensures ok == (HasAddress(old(pingWindows), address) && !HasAddress(old(pingWindows), newAddress))
      ensures pingWindows == Apply(old(pingWindows), Readdress(address, newAddress))
      ensures websocketSent == if ok && server != null
        then old(websocketSent) + [WebsocketMessage(old(pingWindows)[FirstIndexOf(old(pingWindows), address)], "DELETED")]
        else old(websocketSent)
      ensures proj != null ==> proj.saveNeeded == (old(proj.saveNeeded) || ok)
      ensures proj != null ==> proj.currentFile == old(proj.currentFile)
      ensures title == if ok && proj != null && !old(proj.saveNeeded) then old(title) + "*" else old(title)
    {
      var elements := CountAddress(pingWindows, address);
      CountAddressMeansPresence(pingWindows, address);
      if elements == 0 {
        return false;
      }
      elements := CountAddress(pingWindows, newAddress);
      CountAddressMeansPresence(pingWindows, newAddress);
      if elements != 0 {
        return false;
      }
      var i := IndexOfFirst(pingWindows, address);
      var cloned := pingWindows[i];
      ApplyKeepsUnique(pingWindows, Readdress(address, newAddress));
      pingWindows := pingWindows[i := pingWindows[i].(address := newAddress)];
      if server != null {
        websocketSent := websocketSent + [WebsocketMessage(cloned, "DELETED")];
      }
      NotifyProject();
      return true;
    }

    /** ClearAllElements: no targets and one column; the project is not marked dirty. */
    method ClearAllElements()
      requires Valid()
      modifies this`pingWindows, this`columns
      ensures Valid()
      ensures pingWindows == Apply(old(pingWindows), ClearAll) && columns == 1
    {
      pingWindows := [];
      columns := 1;
    }

    /** GetAllElements: a snapshot of the records in order. */
    method GetAllElements() returns (elements: seq<PingControlModel>)
      ensures elements == pingWindows
    {
      elements := pingWindows;
    }

    /**
     * _Timer_Elapsed, as one atomic step: does nothing while the guard is set; otherwise
     * runs the handlers over the records (RunTimer) and keeps what they did. A record whose
     * message cannot be built ends the run there with the guard left set (see Alerts.Tick).
     */
    method TimerElapsed()
      requires Valid()
      modifies this`pingWindows, this`isPlayingAlert, this`isTimerRunning, this`playerCalls, this`sparkSent
      ensures Valid()
      ensures AlertView() == Tick(Config(), old(AlertView()))
    {
      if isTimerRunning {
        return;
      }
      isTimerRunning := true;
      var records, playing, guardSet, calls, sent := RunTimer(Config(), pingWindows, isPlayingAlert, playerCalls, sparkSent);
      pingWindows := records;
      isPlayingAlert := playing;
      playerCalls := playerCalls + calls;
      sparkSent := sparkSent + sent;
      isTimerRunning := guardSet;
    }
  }

  /**
   * The body of the timer callback once the guard is taken: each record's alert flag
   * follows the sound condition and its Spark latch the Spark condition; the looping sound
   * starts on the first alerting record if it was off, and stops at the end if it was on
   * and none alerts; a latch that flips sends "ALERT" or "OK". Building a message for a
   * record with fewer than four display lines, or an "OK" without a Spark bot, throws:
   * the run ends there and the guard stays set. Returns the records, whether the sound
   * plays, whether the guard is left set, and the player calls and messages made.
   */
  method RunTimer(cfg: AlertConfig, recs: seq<PingControlModel>, wasPlaying: bool,
                  ghost calls0: seq<PlayerCall>, ghost sent0: seq<SparkMessage>)
    returns (records: seq<PingControlModel>, playing: bool, guardSet: bool, calls: seq<PlayerCall>, sent: seq<SparkMessage>)
    ensures Tick(cfg, AlertState(recs, wasPlaying, false, calls0, sent0))
      == AlertState(records, playing, guardSet, calls0 + calls, sent0 + sent)
    ensures |records| == |recs| && (UniqueAddresses(recs) ==> UniqueAddresses(records))
  {
    TickKeepsAddresses(cfg, AlertState(recs, wasPlaying, false, calls0, sent0));
    var needsToAlert, faulted;
    records, needsToAlert, playing, calls, sent, faulted := HandleAll(cfg, recs, wasPlaying);
    if faulted {
      guardSet := true;
      return;
    }
    assert recs[|recs|..] == [];
    // Stop Audio Alert
    if !needsToAlert && playing {
      playing := false;
      assert calls0 + calls + [Stop] == calls0 + (calls + [Stop]);
      calls := calls + [Stop];
    }
    guardSet := false;
  }

  /** The loop of the timer callback over the records, up to the first record that throws
      (reported as `faulted`); records after that one are returned untouched. */
  method HandleAll(cfg: AlertConfig, recs: seq<PingControlModel>, wasPlaying: bool)
    returns (records: seq<PingControlModel>, needsToAlert: bool, playing: bool, calls: seq<PlayerCall>,
             sent: seq<SparkMessage>, faulted: bool)
    ensures var p := Handle(cfg, wasPlaying, recs);
      && records == p.handled + recs[|p.handled|..]
      && needsToAlert == p.needsToAlert && playing == p.playing
      && calls == p.calls && sent == p.sent && faulted == p.faulted
  {
    records := recs;
    playing := wasPlaying;
    calls := [];
    sent := [];
    needsToAlert := false;
    faulted := false;
    var i := 0;
    while i < |records|
      invariant 0 <= i <= |recs| == |records|
      invariant var p := Handle(cfg, wasPlaying, recs[..i]);
        && !p.faulted && !faulted
        && records == p.handled + recs[i..]
        && needsToAlert == p.needsToAlert && playing == p.playing && calls == p.calls && sent == p.sent
    {
      HandleStep(cfg, wasPlaying, recs, i);
      var control, breach, messages;
      control, breach, faulted, messages := HandleControl(cfg, records[i]);
      if breach {
        needsToAlert := true;
        if !playing {
          playing := true;
          calls := calls + [PlayLooping];
        }
      }
      sent := sent + messages;
      HandleStepRecords(cfg, wasPlaying, recs, i);
      records := records[i := control];
      if faulted {
        HandleStops(cfg, wasPlaying, recs, i + 1);
        return;
      }
      i := i + 1;
    }
    assert recs[..i] == recs;
  }

  /**
   * The loop body of the timer callback for one record: its alert flag follows the sound
   * condition (reported as `breach`) and its Spark latch the Spark condition; a latch that
   * flips yields "ALERT" or "OK". Building a message for a record with fewer than four
   * display lines, or an "OK" without a Spark bot, throws after the latch has flipped.
   */
  method HandleControl(cfg: AlertConfig, r: PingControlModel)
    returns (control: PingControlModel, breach: bool, faulted: bool, messages: seq<SparkMessage>)
    ensures control == AfterTick(cfg, r)
    ensures breach == SoundBreach(cfg, r)
    ensures faulted == RecordFaults(cfg, r)
    ensures messages == if faulted then [] else RecordMessages(cfg, r)
  {
    control := r;
    messages := [];
    // audio alerting status
    breach := SoundBreach(cfg, control);
    control := control.(alerting := breach);
    // Spark latch
    faulted := false;
    if SparkBreach(cfg, control) {
      if !control.hasNotifiedBySpark {
        control := control.(hasNotifiedBySpark := true);
        if |control.displayLines| < 4 {
          // Lines[Lines.Count - 4] throws
          faulted := true;
        } else {
          messages := [AlertMessage(control)];
        }
      }
    } else if control.hasNotifiedBySpark {
      control := control.(hasNotifiedBySpark := false);
      if |control.displayLines| < 4 || cfg.spark.None? {
        // the quoted lines or the null Spark reference throw
        faulted := true;
      } else {
        messages := [ClearedMessage(control)];
      }
    }
  }

  /** The file at `path` deserializes to a record. */
  predicate Readable(files: map<string, StoredFile>, path: string)
  {
    path in files && files[path].Parsed?
  }

  /** The element list of a readable file holding one (null entries included). */
  function ElementsOf(files: map<string, StoredFile>, path: string): seq<Option<PingElement>>
    requires Readable(files, path) && files[path].data.pingElements.Some?
  {
    files[path].data.pingElements.value
  }

  /** OpenProject succeeds on `path`: the file is readable, has an element list, and no
      entry of it is null. */
  predicate Opens(files: map<string, StoredFile>, path: string)
  {
    && Readable(files, path)
    && files[path].data.pingElements.Some?
    && ImportLength(ElementsOf(files, path)) == |ElementsOf(files, path)|
  }

  /** The part of the element list OpenProject gets through. */
  function HandledElements(files: map<string, StoredFile>, path: string): seq<Option<PingElement>>
    requires Readable(files, path)
  {
    match files[path].data.pingElements
    case None => []
    case Some(elems) => elems[..ImportLength(elems)]
  }

  class ProjectControl {
    const window: MainWindow
    const app: App
    /** sCurrentFile: the file the project was last opened from or saved to. */
    var currentFile: Option<string>
    var saveNeeded: bool

    /** The window is consistent and this is its project control, or it has none yet. */
    ghost predicate Valid()
      reads window`pingWindows, window`columns, window`proj
    {
      window.Valid() && (window.proj == null || window.proj == this)
    }

    /**
     * Opens `lastFile` when it is non-empty, and starts a new project when that was not
     * done or did not succeed.
     */
    constructor (window: MainWindow, app: App, lastFile: string, store: ProjectStore, parse: string -> Option<IPAddress>)
      requires window.Valid() && window.proj == null
      modifies window`pingWindows, window`columns, window`title, app
      ensures this.window == window && this.app == app && window.proj == null && window.Valid()
      ensures Opens(store.files, lastFile) && |lastFile| > 0 ==>
        && window.pingWindows == Imported(old(window.pingWindows), ElementsOf(store.files, lastFile), parse)
        && window.title == ProjectTitle(lastFile) && currentFile == Some(lastFile) && !saveNeeded
      ensures !(Opens(store.files, lastFile) && |lastFile| > 0) ==>
        && window.pingWindows == [] && window.columns == 1 && window.title == UntitledTitle
        && currentFile.None? && saveNeeded
      ensures |lastFile| > 0 && Readable(store.files, lastFile) ==>
        && app.timeoutValue == store.files[lastFile].data.pingTimeout
        && app.warningTimeframe == store.files[lastFile].data.warningThreshold
      ensures !(|lastFile| > 0 && Readable(store.files, lastFile)) ==>
        app.timeoutValue == old(app.timeoutValue) && app.warningTimeframe == old(app.warningTimeframe)
    {
      this.window := window;
      this.app := app;
      currentFile := None;
      saveNeeded := false;
      new;
      var fileOpen := false;
      if |lastFile| > 0 {
        fileOpen := OpenProject(lastFile, store, parse);
      }
      if !fileOpen {
        var _ := NewProject();
      } else {
        ghost var elems := ElementsOf(store.files, lastFile);
        assert elems[..ImportLength(elems)] == elems;
      }
    }

    /** TriggerSaveStatus: the first change after a save marks the title with "*". */
    method TriggerSaveStatus()
      modifies this`saveNeeded, window`title
      ensures saveNeeded
      ensures window.title == if old(saveNeeded) then old(window.title) else old(window.title) + "*"
    {
      if !saveNeeded {
        window.title := window.title + "*";
        saveNeeded := true;
      }
    }

    /** NewProject: an empty, unsaved, untitled project that counts as changed. */
    method NewProject() returns (ok: bool)
      requires Valid()
      modifies this`currentFile, this`saveNeeded, window`pingWindows, window`columns, window`title
      ensures Valid() && ok
      ensures window.pingWindows == [] && window.columns == 1 && window.title == UntitledTitle
      ensures currentFile.None? && saveNeeded
    {
      window.title := UntitledTitle;
      window.ClearAllElements();
      currentFile := None;
      saveNeeded := true;
      return true;
    }

    /**
     * OpenProject: a missing or unreadable file changes nothing. Otherwise the timeout and
     * warning threshold are restored first, then the elements are created in file order on
     * top of the targets already present. A null element list, or a null entry, throws there
     * and leaves what was done so far; each created target marks the project dirty as usual.
     * Only a complete import retitles the window and records the file as the current one.
     */
    method OpenProject(path: string, store: ProjectStore, parse: string -> Option<IPAddress>) returns (ok: bool)
      requires Valid()
      modifies this, window`pingWindows, window`columns, window`title, app
      ensures Valid()
      ensures ok == Opens(store.files, path)
      ensures !Readable(store.files, path) ==>
        && unchanged(this, app) && window.pingWindows == old(window.pingWindows)
        && window.title == old(window.title)
      ensures Readable(store.files, path) ==>
        && app.timeoutValue == store.files[path].data.pingTimeout
        && app.warningTimeframe == store.files[path].data.warningThreshold
        && window.pingWindows == Imported(old(window.pingWindows), HandledElements(store.files, path), parse)
      ensures ok ==> window.title == ProjectTitle(path) && currentFile == Some(path) && !saveNeeded
      ensures !ok ==> currentFile == old(currentFile)
      ensures !ok ==>
        var marked := window.proj == this && |window.pingWindows| > |old(window.pingWindows)|;
        && saveNeeded == (old(saveNeeded) || marked)
        && window.title == if marked && !old(saveNeeded) then old(window.title) + "*" else old(window.title)
    {
      if !Readable(store.files, path) {
        return false;
      }
      var fileObject := store.files[path].data;
      app.timeoutValue := fileObject.pingTimeout;
      app.warningTimeframe := fileObject.warningThreshold;
      if fileObject.pingElements.None? {
        return false;
      }
      var elems := fileObject.pingElements.value;
      var complete := ImportElements(elems, parse);
      if !complete {
        return false;
      }
      window.title := ProjectTitle(path);
      currentFile := Some(path);
      saveNeeded := false;
      return true;
    }

    /**
     * The foreach over the file's elements: each entry with a name and an address that
     * parses is added as a target (CreatePingElement, which skips addresses already
     * present and marks the project dirty); others are skipped. A null entry throws, so the
     * import stops there and reports `complete` false.
     */
    method ImportElements(elems: seq<Option<PingElement>>, parse: string -> Option<IPAddress>) returns (complete: bool)
      requires Valid()
      modifies this, window`pingWindows, window`columns, window`title
      ensures Valid()
      ensures complete == (ImportLength(elems) == |elems|)
      ensures window.pingWindows == Imported(old(window.pingWindows), elems[..ImportLength(elems)], parse)
      ensures currentFile == old(currentFile)
      ensures var marked := window.proj == this && |window.pingWindows| > |old(window.pingWindows)|;
        && saveNeeded == (old(saveNeeded) || marked)
        && window.title == if marked && !old(saveNeeded) then old(window.title) + "*" else old(window.title)
    {
      ghost var w0 := window.pingWindows;
      ghost var t0 := window.title;
      ghost var s0 := saveNeeded;
      var i := 0;
      while i < |elems|
        invariant 0 <= i <= ImportLength(elems)
        invariant Valid() && window.proj == old(window.proj)
        invariant currentFile == old(currentFile)
        invariant window.pingWindows == Imported(w0, elems[..i], parse)
        invariant |window.pingWindows| >= |w0|
        invariant var marked := window.proj == this && |window.pingWindows| > |w0|;
          && saveNeeded == (s0 || marked)
          && window.title == if marked && !s0 then t0 + "*" else t0
      {
        assert elems[..i + 1][..i] == elems[..i];
        if elems[i].None? {
          // reading the Address of a null entry throws
          return false;
        }
        var pingElement := elems[i].value;
        if pingElement.address.Some? && pingElement.name.Some? {
          var parsed := parse(pingElement.address.value);
          if parsed.Some? {
            var _ := window.CreatePingElement(pingElement.name.value, parsed.value, false);
          }
        }
        i := i + 1;
      }
      assert elems[..i] == elems;
      return true;
    }

    /**
     * SaveProject: writes the targets (address text and name, in order) with the app's
     * warning threshold and timeout to `path`, then retitles the window and records the file
     * as current and saved. A write that fails changes nothing.
     */
    method SaveProject(path: string, store: ProjectStore, format: IPAddress -> string) returns (ok: bool)
      requires Valid()
      modifies this`currentFile, this`saveNeeded, window`title, store`files
      ensures Valid()
      ensures ok == (path !in store.unwritable)
      ensures !ok ==> unchanged(this, store) && window.title == old(window.title)
      ensures ok ==>
        && store.files == old(store.files)[path := Parsed(SaveData(window.pingWindows, format, app.warningTimeframe, app.timeoutValue))]
        && window.title == ProjectTitle(path) && currentFile == Some(path) && !saveNeeded
    {
      var elements := window.GetAllElements();
      assert Valid();
      var pingWindow := BuildSaveElements(elements, format);
      assert Valid();
      var fileData := SaveFileData(Some(pingWindow), app.warningTimeframe, app.timeoutValue);
      if path in store.unwritable {
        return false;
      }
      store.files := store.files[path := Parsed(fileData)];
      window.title := ProjectTitle(path);
      currentFile := Some(path);
      saveNeeded := false;
      return true;
    }
  }

  /** The element list SaveProject builds from the targets, one entry per target in order. */
  method BuildSaveElements(elements: seq<PingControlModel>, format: IPAddress -> string) returns (r: seq<Option<PingElement>>)
    ensures r == SaveElements(elements, format)
  {
    r := [];
    for i := 0 to |elements|
      invariant r == SaveElements(elements[..i], format)
    {
      assert elements[..i + 1][..i] == elements[..i];
      r := r + [Some(PingElement(Some(format(elements[i].address)), Some(elements[i].displayName)))];
    }
    assert elements[..|elements|] == elements;
  }

  /** The index First(q => q.Address.Equals(a)) finds, by a scan from the front. */
  method IndexOfFirst(s: seq<PingControlModel>, a: IPAddress) returns (i: nat)
    requires HasAddress(s, a)
    ensures i < |s| && s[i].address == a
    ensures forall j :: 0 <= j < i ==> s[j].address != a
  {
    i := 0;
    while s[i].address != a
      invariant i < |s|
      invariant forall j :: 0 <= j < i ==> s[j].address != a
      decreases |s| - i
    {
      i := i + 1;
      assert i < |s| by {
        var k :| 0 <= k < |s| && s[k].address == a;
        assert k >= i;
      }
    }
  }
}
