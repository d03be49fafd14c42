/**
 * What one run of the main window's 500 ms timer callback (_Timer_Elapsed in
 * PingerTool/Windows/MainWindow.xaml.cs) does to the target records, the looping alert
 * sound and the Spark chat-bot, stated as a function of the state before the run.
 * The failure counters are inputs: the probe loop that sets them is not part of this model.
 */
module Alerts {
  import opened Wrappers
  import opened Targets
  import opened Strings

  /** Timeframes[0..3]: UI warning and timeout latencies, sound warning and timeout counts. */
  datatype Timeframes = Timeframes(uiWarn: int, uiTimeout: int, soundWarn: int, soundTimeout: int)

  /** The thresholds a main window starts with: { 2000, 2000, 0, 5 }. */
  const DefaultTimeframes := Timeframes(2000, 2000, 0, 5)

  /** The two count thresholds of a configured Spark bot. */
  datatype SparkConfig = SparkConfig(warningThreshold: int, timeoutThreshold: int)

  /** What the tick reads besides the records: the thresholds, whether audio notification
      is switched on, and the Spark bot if one is configured. */
  datatype AlertConfig = AlertConfig(timeframes: Timeframes, notification: bool, spark: Option<SparkConfig>)

  /** A threshold pair breached by a record's counters; a threshold of 0 is switched off. */
  predicate Breaches(warnThreshold: int, timeoutThreshold: int, r: PingControlModel)
  {
    || (warnThreshold > 0 && r.warningFailures >= warnThreshold)
    || (timeoutThreshold > 0 && r.timeoutFailures >= timeoutThreshold)
  }

  /** The audio alert condition for one record. */
  predicate SoundBreach(cfg: AlertConfig, r: PingControlModel)
  {
    cfg.notification && Breaches(cfg.timeframes.soundWarn, cfg.timeframes.soundTimeout, r)
  }

  /** The Spark alert condition for one record. */
  predicate SparkBreach(cfg: AlertConfig, r: PingControlModel)
  {
    cfg.spark.Some? && Breaches(cfg.spark.value.warningThreshold, cfg.spark.value.timeoutThreshold, r)
  }

  /** Calls made on the SoundPlayer. */
  datatype PlayerCall = PlayLooping | Stop

  /** The fourth-, third- and second-last display lines, quoted in a message. */
  datatype Quote = Quote(fourthLast: string, thirdLast: string, secondLast: string)

  /** One Spark.SendMessage call, by what it reports; Text and Markdown give the two strings
      passed to it. */
  datatype SparkMessage =
    | Entered(displayName: string, status: string, lastContact: string, quote: Quote)
    | Cleared(displayName: string, lastContact: string, quote: Quote)

  /** The state named in an alert message. */
  function StatusLabel(r: PingControlModel): (status: string)
    ensures status == "HIGH RESPONSE TIME" <==> r.warningFailures != 0
    ensures status == "TIMEOUT" <==> r.warningFailures == 0
  {
    if r.warningFailures != 0 then "HIGH RESPONSE TIME" else "TIMEOUT"
  }

  /** The lines a message quotes. */
  function QuoteOf(lines: seq<string>): (q: Quote)
    requires |lines| >= 4
    ensures q.fourthLast == lines[|lines| - 4] && q.thirdLast == lines[|lines| - 3]
    ensures q.secondLast == lines[|lines| - 2]
  {
    Quote(lines[|lines| - 4], lines[|lines| - 3], lines[|lines| - 2])
  }

  /** The status names the warning counter, not the threshold that was breached: a record
      whose breach is on timeouts alone, with some warning failures below the warning
      threshold, is announced as "HIGH RESPONSE TIME". */
  lemma TimeoutBreachReportedAsHighResponseTime(cfg: AlertConfig, r: PingControlModel)
    requires cfg.spark.Some? && !r.hasNotifiedBySpark && |r.displayLines| >= 4
    requires var sp := cfg.spark.value;
      && 0 < r.warningFailures && (sp.warningThreshold <= 0 || r.warningFailures < sp.warningThreshold)
      && 0 < sp.timeoutThreshold <= r.timeoutFailures
    ensures !Breaches(cfg.spark.value.warningThreshold, 0, r)
    ensures !RecordFaults(cfg, r)
    ensures RecordMessages(cfg, r) == [Entered(r.displayName, "HIGH RESPONSE TIME", r.lastContact, QuoteOf(r.displayLines))]
  {
  }

  /** "TIMEOUT" is only ever announced for a breach of the timeout threshold. */
  lemma TimeoutStatusMeansTimeoutBreach(cfg: AlertConfig, r: PingControlModel)
    requires SparkBreach(cfg, r) && StatusLabel(r) == "TIMEOUT"
    ensures 0 < cfg.spark.value.timeoutThreshold <= r.timeoutFailures
  {
  }

  /** The quote leaves out the newest display line: replacing that line keeps the quote, and
      adding a line moves every quoted line one place up. */
  lemma QuoteSkipsNewestLine(lines: seq<string>, line: string)
    requires |lines| >= 4
    ensures QuoteOf(lines[..|lines| - 1] + [line]) == QuoteOf(lines)
    ensures var q := QuoteOf(lines + [line]);
      q.fourthLast == QuoteOf(lines).thirdLast && q.thirdLast == QuoteOf(lines).secondLast
      && q.secondLast == lines[|lines| - 1]
  {
  }

  /** The message sent when a record enters the Spark alert state. */
  function AlertMessage(r: PingControlModel): SparkMessage
    requires |r.displayLines| >= 4
  {
    Entered(r.displayName, StatusLabel(r), r.lastContact, QuoteOf(r.displayLines))
  }

  /** The message sent when a record leaves the Spark alert state. */
  function ClearedMessage(r: PingControlModel): SparkMessage
    requires |r.displayLines| >= 4
  {
    Cleared(r.displayName, r.lastContact, QuoteOf(r.displayLines))
  }

  /** BaseMessage: the sentence naming the host, its new state and its last contact. */
  function BaseMessage(m: SparkMessage): string
  {
    match m
    case Entered(name, status, contact, _) =>
      "Host '" + name + "' has entered state '" + status + "'.\n\nLast contact: '" + contact + "'"
    case Cleared(name, contact, _) =>
      "Host '" + name + "' has cleared alert state.\n\nLast contact: '" + contact + "'"
  }

  /** The plain-text argument of SendMessage. */
  function Text(m: SparkMessage): string
  {
    (if m.Entered? then "ALERT: " else "OK: ") + BaseMessage(m)
  }

  /** The Markdown argument of SendMessage: the tag in bold, the base message, then the
      quoted lines in a code block. */
  function Markdown(m: SparkMessage): (s: string)
  {
    (if m.Entered? then "**ALERT**: " else "**OK**: ") + BaseMessage(m)
      + "\n```\n" + m.quote.fourthLast + "\n" + m.quote.thirdLast + "\n" + m.quote.secondLast + "\n```"
  }

  /** The plain text tells the two kinds of message apart: it starts with "ALERT: " exactly
      for a message entering the alert state, and with "OK: " exactly for one leaving it. */
  lemma KindFromText(m: SparkMessage)
    ensures StartsWith(Text(m), "ALERT: ") <==> m.Entered?
    ensures StartsWith(Text(m), "OK: ") <==> m.Cleared?
  {
    var t := Text(m);
    if m.Entered? {
      assert t[..7] == "ALERT: ";
      assert t[0] == 'A';
    } else {
      assert t[..4] == "OK: ";
      assert t[0] == 'O';
    }
  }

  /** The tick throws while handling this record: a message is due but there are fewer than
      four display lines to quote, or an "OK" is due while no Spark bot is configured. */
  predicate RecordFaults(cfg: AlertConfig, r: PingControlModel)
  {
    if SparkBreach(cfg, r) then !r.hasNotifiedBySpark && |r.displayLines| < 4
    else r.hasNotifiedBySpark && (cfg.spark.None? || |r.displayLines| < 4)
  }

  /** The Spark messages the tick sends for one record. */
  function RecordMessages(cfg: AlertConfig, r: PingControlModel): seq<SparkMessage>
    requires !RecordFaults(cfg, r)
  {
    if SparkBreach(cfg, r) && !r.hasNotifiedBySpark then [AlertMessage(r)]
    else if !SparkBreach(cfg, r) && r.hasNotifiedBySpark then [ClearedMessage(r)]
    else []
  }

  /** The tick throws on a record only while its latch flips, and only for want of display
      lines or of a Spark bot: with a bot and four lines nothing throws. */
  lemma RecordFaultsMeaning(cfg: AlertConfig, r: PingControlModel)
    ensures RecordFaults(cfg, r) ==> SparkBreach(cfg, r) != r.hasNotifiedBySpark
    ensures RecordFaults(cfg, r) ==> |r.displayLines| < 4 || cfg.spark.None?
    ensures cfg.spark.Some? && |r.displayLines| >= 4 ==> !RecordFaults(cfg, r)
  {
  }

  /** The latch is edge-triggered: a record yields at most one message, one exactly when its
      latch flips, "ALERT" when it enters the breach and "OK" when it leaves it, naming the
      record and quoting its display lines. */
  lemma RecordMessagesMeaning(cfg: AlertConfig, r: PingControlModel)
    requires !RecordFaults(cfg, r)
    ensures var ms := RecordMessages(cfg, r);
      && |ms| <= 1
      && (|ms| == 1 <==> SparkBreach(cfg, r) != r.hasNotifiedBySpark)
      && (|ms| == 1 ==> (ms[0].Entered? <==> SparkBreach(cfg, r)))
      && (|ms| == 1 ==> ms[0].displayName == r.displayName && ms[0].lastContact == r.lastContact
                        && ms[0].quote == QuoteOf(r.displayLines))
  {
  }

  /** A record after the tick has handled it. */
  function AfterTick(cfg: AlertConfig, r: PingControlModel): PingControlModel
  {
    r.(alerting := SoundBreach(cfg, r), hasNotifiedBySpark := SparkBreach(cfg, r))
  }

  /** Every record after the tick has handled it. */
  function AfterTickAll(cfg: AlertConfig, recs: seq<PingControlModel>): (r: seq<PingControlModel>)
    ensures |r| == |recs|
  {
    if |recs| == 0 then []
    else AfterTickAll(cfg, recs[..|recs| - 1]) + [AfterTick(cfg, recs[|recs| - 1])]
  }

  /** Record `i` after the tick is record `i` handled. */
  lemma {:induction false} AfterTickAllAt(cfg: AlertConfig, recs: seq<PingControlModel>)
    ensures forall i :: 0 <= i < |recs| ==> AfterTickAll(cfg, recs)[i] == AfterTick(cfg, recs[i])
  {
    if |recs| > 0 {
      var init := recs[..|recs| - 1];
      AfterTickAllAt(cfg, init);
      forall i | 0 <= i < |init| ensures init[i] == recs[i] { }
    }
  }

  /** Some record meets the audio alert condition. */
  predicate AnySoundBreach(cfg: AlertConfig, recs: seq<PingControlModel>)
  {
    exists i :: 0 <= i < |recs| && SoundBreach(cfg, recs[i])
  }

  /** Handling some record throws. */
  predicate AnyFault(cfg: AlertConfig, recs: seq<PingControlModel>)
  {
    exists i :: 0 <= i < |recs| && RecordFaults(cfg, recs[i])
  }

  /** The Spark messages sent for `recs`, record by record. */
  function MessagesOf(cfg: AlertConfig, recs: seq<PingControlModel>): seq<SparkMessage>
    requires !AnyFault(cfg, recs)
  {
    if |recs| == 0 then []
    else
      var init := recs[..|recs| - 1];
      assert !AnyFault(cfg, init) by {
        forall i | 0 <= i < |init| ensures !RecordFaults(cfg, init[i]) {
          assert init[i] == recs[i];
        }
      }
      MessagesOf(cfg, init) + RecordMessages(cfg, recs[|recs| - 1])
  }

  /** Dropping the last record drops its breach and its fault from the summaries. */
  lemma LastStep(cfg: AlertConfig, recs: seq<PingControlModel>)
    requires |recs| > 0
    ensures AnySoundBreach(cfg, recs) == (AnySoundBreach(cfg, recs[..|recs| - 1]) || SoundBreach(cfg, recs[|recs| - 1]))
    ensures AnyFault(cfg, recs) == (AnyFault(cfg, recs[..|recs| - 1]) || RecordFaults(cfg, recs[|recs| - 1]))
  {
    var init := recs[..|recs| - 1];
    assert forall i :: 0 <= i < |init| ==> init[i] == recs[i];
  }

  /** The state one timer run reads and writes. */
  datatype AlertState = AlertState(
    records: seq<PingControlModel>,
    isPlayingAlert: bool,
    isTimerRunning: bool,
    playerCalls: seq<PlayerCall>,
    sparkSent: seq<SparkMessage>)

  /** Where the loop over the records stands: the records handled so far, NeedsToAlert,
      _IsPlayingAlert, the player calls and messages made, and whether the last handled
      record threw. */
  datatype Pass = Pass(
    handled: seq<PingControlModel>,
    needsToAlert: bool,
    playing: bool,
    calls: seq<PlayerCall>,
    sent: seq<SparkMessage>,
    faulted: bool)

  /** One pass of the loop body: the alert flag and the sound, then the Spark latch and its
      message, which is not sent when building or sending it throws. */
  function HandleOne(cfg: AlertConfig, p: Pass, r: PingControlModel): Pass
  {
    var breach := SoundBreach(cfg, r);
    var fault := RecordFaults(cfg, r);
    Pass(
      p.handled + [AfterTick(cfg, r)],
      p.needsToAlert || breach,
      p.playing || breach,
      p.calls + (if breach && !p.playing then [PlayLooping] else []),
      p.sent + (if fault then [] else RecordMessages(cfg, r)),
      fault)
  }

  /** One pass, summarised: the pass throws exactly when the record faults; the record is
      handled even then, with its latch set to the Spark condition; the sound is on once
      any record breaches and PlayLooping is called only when it was off; and one message
      is sent exactly when the latch flips without throwing. */
  lemma HandleOneMeaning(cfg: AlertConfig, p: Pass, r: PingControlModel)
    ensures var q := HandleOne(cfg, p, r);
      && q.faulted == RecordFaults(cfg, r)
      && |q.handled| == |p.handled| + 1 && p.handled <= q.handled
      && q.handled[|p.handled|].hasNotifiedBySpark == SparkBreach(cfg, r)
      && q.playing == (p.playing || SoundBreach(cfg, r))
      && (q.calls == p.calls || (!p.playing && q.calls == p.calls + [PlayLooping]))
      && |q.sent| == |p.sent| + (if !q.faulted && SparkBreach(cfg, r) != r.hasNotifiedBySpark then 1 else 0)
      && p.sent <= q.sent
  {
  }

  /** The loop over `recs`, leaving it at the first record that throws. */
  function Handle(cfg: AlertConfig, playing: bool, recs: seq<PingControlModel>): (p: Pass)
    ensures |p.handled| <= |recs|
    ensures !p.faulted ==> |p.handled| == |recs|
  {
    if |recs| == 0 then Pass([], false, playing, [], [], false)
    else
      var q := Handle(cfg, playing, recs[..|recs| - 1]);
      if q.faulted then q else HandleOne(cfg, q, recs[|recs| - 1])
  }

  /**
   * One timer run. A run that finds the re-entrancy guard set does nothing. Otherwise the
   * loop handles the records; if one throws, the rest are untouched, the sound is not
   * stopped and the guard is left set; if none does, the sound stops when nothing needs it.
   */
  function Tick(cfg: AlertConfig, st: AlertState): (t: AlertState)
    ensures |t.records| == |st.records|
    ensures st.isTimerRunning ==> t == st
    ensures st.playerCalls <= t.playerCalls && st.sparkSent <= t.sparkSent
  {
    if st.isTimerRunning then st
    else
      var p := Handle(cfg, st.isPlayingAlert, st.records);
      if p.faulted then
        AlertState(p.handled + st.records[|p.handled|..], p.playing, true,
          st.playerCalls + p.calls, st.sparkSent + p.sent)
      else
        var stop := !p.needsToAlert && p.playing;
        AlertState(p.handled, p.playing && !stop, false,
          st.playerCalls + p.calls + (if stop then [Stop] else []), st.sparkSent + p.sent)
  }

  /**
   * When the loop throws, stated without the loop: exactly when some record faults, and
   * then at the first such record, the last one it handled.
   */
  lemma {:induction false} HandleFaults(cfg: AlertConfig, playing: bool, recs: seq<PingControlModel>)
    ensures var p := Handle(cfg, playing, recs);
      && (p.faulted <==> AnyFault(cfg, recs))
      && (p.faulted ==> 0 < |p.handled| && RecordFaults(cfg, recs[|p.handled| - 1])
                        && !AnyFault(cfg, recs[..|p.handled| - 1]))
  {
    if |recs| > 0 {
      var init := recs[..|recs| - 1];
      HandleFaults(cfg, playing, init);
      LastStep(cfg, recs);
      var q := Handle(cfg, playing, init);
      var m := |q.handled|;
      if q.faulted {
        assert recs[..m - 1] == init[..m - 1];
        assert recs[m - 1] == init[m - 1];
      } else {
        assert recs[..m] == init;
      }
    }
  }

  /**
   * What the loop does to the records and the sound, stated without the loop: the handled
   * records are the records handled one by one; NeedsToAlert says some handled record
   * breaches the sound thresholds; and the sound is started at most once, only when it was
   * off and something breaches.
   */
  lemma HandleRecords(cfg: AlertConfig, playing: bool, recs: seq<PingControlModel>)
    ensures var p := Handle(cfg, playing, recs);
      && p.handled == AfterTickAll(cfg, recs[..|p.handled|])
      && p.needsToAlert == AnySoundBreach(cfg, recs[..|p.handled|])
      && p.playing == (playing || p.needsToAlert)
      && p.calls == (if !playing && p.needsToAlert then [PlayLooping] else [])
  {
    HandledRecords(cfg, playing, recs);
    HandleSound(cfg, playing, recs);
  }

  /** The records the loop has handled are the records handled one by one. */
  lemma {:induction false} HandledRecords(cfg: AlertConfig, playing: bool, recs: seq<PingControlModel>)
    ensures var p := Handle(cfg, playing, recs);
      p.handled == AfterTickAll(cfg, recs[..|p.handled|])
  {
    if |recs| == 0 {
      assert recs[..0] == [];
    } else {
      var init := recs[..|recs| - 1];
      HandledRecords(cfg, playing, init);
      var q := Handle(cfg, playing, init);
      var m := |q.handled|;
      if q.faulted {
        assert recs[..m] == init[..m];
      } else {
        var last := recs[|recs| - 1];
        assert init[..m] == init;
        assert recs[..m + 1] == recs;
        assert Handle(cfg, playing, recs) == HandleOne(cfg, q, last);
        assert AfterTickAll(cfg, recs) == AfterTickAll(cfg, init) + [AfterTick(cfg, last)];
      }
    }
  }

  /** NeedsToAlert and the sound after the loop, in terms of the handled records. */
  lemma {:induction false} HandleSound(cfg: AlertConfig, playing: bool, recs: seq<PingControlModel>)
    ensures var p := Handle(cfg, playing, recs);
      && p.needsToAlert == AnySoundBreach(cfg, recs[..|p.handled|])
      && p.playing == (playing || p.needsToAlert)
      && p.calls == (if !playing && p.needsToAlert then [PlayLooping] else [])
  {
    if |recs| == 0 {
      assert recs[..0] == [];
    } else {
      var init := recs[..|recs| - 1];
      HandleSound(cfg, playing, init);
      var q := Handle(cfg, playing, init);
      var m := |q.handled|;
      if q.faulted {
        assert recs[..m] == init[..m];
      } else {
        assert recs[..m] == init;
        assert recs[..m + 1] == recs;
        LastStep(cfg, recs);
      }
    }
  }

  /** The messages the loop sends, stated without the loop: those of the handled records
      that did not throw, in order. */
  lemma {:induction false} HandleSent(cfg: AlertConfig, playing: bool, recs: seq<PingControlModel>)
    ensures var p := Handle(cfg, playing, recs);
      var k := if p.faulted then |p.handled| - 1 else |p.handled|;
      0 <= k && !AnyFault(cfg, recs[..k]) && p.sent == MessagesOf(cfg, recs[..k])
  {
    HandleFaults(cfg, playing, recs);
    var p := Handle(cfg, playing, recs);
    if |recs| == 0 {
      assert recs[..0] == [];
    } else {
      var init := recs[..|recs| - 1];
      var last := recs[|recs| - 1];
      HandleSent(cfg, playing, init);
      var q := Handle(cfg, playing, init);
      var m := |q.handled|;
      if q.faulted {
        assert recs[..m - 1] == init[..m - 1];
      } else {
        assert init[..m] == init;
        assert recs[..m] == init;
        assert recs[..m + 1] == recs;
        if !RecordFaults(cfg, last) {
          LastStep(cfg, recs);
          assert p.sent == q.sent + RecordMessages(cfg, last);
          assert MessagesOf(cfg, recs) == MessagesOf(cfg, init) + RecordMessages(cfg, last);
        }
      }
    }
  }

  /** Handling record `i` after the first `i`: the loop takes one more step unless it has
      already stopped. */
  lemma HandleStep(cfg: AlertConfig, playing: bool, recs: seq<PingControlModel>, i: nat)
    requires i < |recs|
    ensures var q := Handle(cfg, playing, recs[..i]);
      Handle(cfg, playing, recs[..i + 1]) == if q.faulted then q else HandleOne(cfg, q, recs[i])
  {
    assert recs[..i + 1][..i] == recs[..i];
  }

  /** Handling record `i` in place, in a sequence whose first `i` records are handled and
      the rest untouched, extends the handled part by one record. */
  lemma HandleStepRecords(cfg: AlertConfig, playing: bool, recs: seq<PingControlModel>, i: nat)
    requires i < |recs| && !Handle(cfg, playing, recs[..i]).faulted
    ensures var q := Handle(cfg, playing, recs[..i]);
      (q.handled + recs[i..])[i := AfterTick(cfg, recs[i])]
        == Handle(cfg, playing, recs[..i + 1]).handled + recs[i + 1..]
  {
    HandleStep(cfg, playing, recs, i);
    var q := Handle(cfg, playing, recs[..i]);
    var s := (q.handled + recs[i..])[i := AfterTick(cfg, recs[i])];
    var t := q.handled + [AfterTick(cfg, recs[i])] + recs[i + 1..];
    assert |s| == |t|;
    forall j | 0 <= j < |s| ensures s[j] == t[j] {
      if j > i {
        assert s[j] == recs[i..][j - i];
      }
    }
  }

  /** A run that starts with no calls and no messages, in terms of the loop alone. */
  lemma TickFresh(cfg: AlertConfig, playing: bool, recs: seq<PingControlModel>)
    ensures var p := Handle(cfg, playing, recs);
      var stop := !p.needsToAlert && p.playing;
      Tick(cfg, AlertState(recs, playing, false, [], []))
        == if p.faulted then AlertState(p.handled + recs[|p.handled|..], p.playing, true, p.calls, p.sent)
           else AlertState(p.handled, p.playing && !stop, false, p.calls + (if stop then [Stop] else []), p.sent)
  {
    var p := Handle(cfg, playing, recs);
    assert [] + p.calls == p.calls && [] + p.sent == p.sent;
  }

  /** Once a record has thrown, the records after it change nothing. */
  lemma {:induction false} HandleStops(cfg: AlertConfig, playing: bool, recs: seq<PingControlModel>, i: nat)
    requires i <= |recs| && Handle(cfg, playing, recs[..i]).faulted
    ensures Handle(cfg, playing, recs) == Handle(cfg, playing, recs[..i])
  {
    if i == |recs| {
      assert recs[..i] == recs;
    } else {
      var init := recs[..|recs| - 1];
      assert init[..i] == recs[..i];
      HandleStops(cfg, playing, init, i);
    }
  }

  /** Record `i` handled twice is record `i` handled once; handling keeps each record's
      breach and leaves every latch matching its condition, so nothing faults and no
      message is due. */
  lemma {:induction false} AfterTickAllSettled(cfg: AlertConfig, recs: seq<PingControlModel>)
    ensures AfterTickAll(cfg, AfterTickAll(cfg, recs)) == AfterTickAll(cfg, recs)
    ensures AnySoundBreach(cfg, AfterTickAll(cfg, recs)) == AnySoundBreach(cfg, recs)
    ensures !AnyFault(cfg, AfterTickAll(cfg, recs)) && MessagesOf(cfg, AfterTickAll(cfg, recs)) == []
  {
    var t := AfterTickAll(cfg, recs);
    AfterTickAllAt(cfg, recs);
    if |recs| > 0 {
      var init := recs[..|recs| - 1];
      AfterTickAllSettled(cfg, init);
      assert t[..|t| - 1] == AfterTickAll(cfg, init);
      LastStep(cfg, recs);
      LastStep(cfg, t);
    }
    SettledSendsNothing(cfg, t);
  }

  /** The number of records whose Spark latch disagrees with their breach condition. */
  function LatchFlips(cfg: AlertConfig, recs: seq<PingControlModel>): nat
  {
    if |recs| == 0 then 0
    else
      var last := recs[|recs| - 1];
      LatchFlips(cfg, recs[..|recs| - 1]) + (if SparkBreach(cfg, last) != last.hasNotifiedBySpark then 1 else 0)
  }

  /** One message per latch flip: a completed tick sends exactly as many Spark messages as
      there are records whose latch disagreed with their breach condition. */
  lemma {:induction false} MessagesCountFlips(cfg: AlertConfig, recs: seq<PingControlModel>)
    requires !AnyFault(cfg, recs)
    ensures |MessagesOf(cfg, recs)| == LatchFlips(cfg, recs)
  {
    if |recs| > 0 {
      var init := recs[..|recs| - 1];
      assert !AnyFault(cfg, init) by {
        forall i | 0 <= i < |init| ensures !RecordFaults(cfg, init[i]) {
          assert init[i] == recs[i];
        }
      }
      MessagesCountFlips(cfg, init);
    }
  }

  /** Once every latch agrees with its breach condition no message is due. */
  lemma {:induction false} SettledSendsNothing(cfg: AlertConfig, recs: seq<PingControlModel>)
    requires forall i :: 0 <= i < |recs| ==> recs[i].hasNotifiedBySpark == SparkBreach(cfg, recs[i])
    ensures !AnyFault(cfg, recs) && MessagesOf(cfg, recs) == []
  {
    if |recs| > 0 {
      var init := recs[..|recs| - 1];
      assert forall i :: 0 <= i < |init| ==> init[i] == recs[i];
      SettledSendsNothing(cfg, init);
    }
  }

  /** A run in which no record throws, in closed form: every record is handled, the sound
      ends up playing exactly when some record breaches, it is started or stopped only on a
      change, and every record's messages are sent. */
  lemma TickDone(cfg: AlertConfig, st: AlertState)
    requires !st.isTimerRunning && !AnyFault(cfg, st.records)
    ensures var any := AnySoundBreach(cfg, st.records);
      Tick(cfg, st) == AlertState(
        AfterTickAll(cfg, st.records),
        any,
        false,
        st.playerCalls + (if !st.isPlayingAlert && any then [PlayLooping]
                          else if st.isPlayingAlert && !any then [Stop] else []),
        st.sparkSent + MessagesOf(cfg, st.records))
  {
    HandleFaults(cfg, st.isPlayingAlert, st.records);
    HandleRecords(cfg, st.isPlayingAlert, st.records);
    HandleSent(cfg, st.isPlayingAlert, st.records);
    assert st.records[..|st.records|] == st.records;
    var p := Handle(cfg, st.isPlayingAlert, st.records);
    if st.isPlayingAlert && !p.needsToAlert {
      assert p.calls == [];
      assert st.playerCalls + p.calls + [Stop] == st.playerCalls + [Stop];
    } else {
      assert st.playerCalls + p.calls + [] == st.playerCalls + p.calls;
    }
  }

  /** A run in which record `k` is the first to throw, in closed form: the records up to and
      including `k` are handled and the rest untouched, the sound may have been started but
      is not stopped, the messages of the records before `k` are sent, and the guard stays
      set. */
  lemma TickFault(cfg: AlertConfig, st: AlertState, k: nat)
    requires !st.isTimerRunning
    requires k < |st.records| && RecordFaults(cfg, st.records[k]) && !AnyFault(cfg, st.records[..k])
    ensures var handled := st.records[..k + 1];
      var any := AnySoundBreach(cfg, handled);
      Tick(cfg, st) == AlertState(
        AfterTickAll(cfg, handled) + st.records[k + 1..],
        st.isPlayingAlert || any,
        true,
        st.playerCalls + (if !st.isPlayingAlert && any then [PlayLooping] else []),
        st.sparkSent + MessagesOf(cfg, st.records[..k]))
  {
    HandleFaultAt(cfg, st.isPlayingAlert, st.records, k);
    HandleRecords(cfg, st.isPlayingAlert, st.records);
    HandleSent(cfg, st.isPlayingAlert, st.records);
  }

  /** The loop stops right after the first record that throws. */
  lemma HandleFaultAt(cfg: AlertConfig, playing: bool, recs: seq<PingControlModel>, k: nat)
    requires k < |recs| && RecordFaults(cfg, recs[k]) && !AnyFault(cfg, recs[..k])
    ensures Handle(cfg, playing, recs).faulted && |Handle(cfg, playing, recs).handled| == k + 1
  {
    HandleFaults(cfg, playing, recs);
    var n := |Handle(cfg, playing, recs).handled|;
    assert forall j :: 0 <= j < k ==> recs[..k][j] == recs[j];
    assert forall j :: 0 <= j < n - 1 ==> recs[..n - 1][j] == recs[j];
  }

  /** A run only appends to the player calls and the messages sent: its effect does not
      depend on the calls and messages before it. */
  lemma TickAppends(cfg: AlertConfig, st: AlertState)
    requires !st.isTimerRunning
    ensures var t := Tick(cfg, st.(playerCalls := [], sparkSent := []));
      Tick(cfg, st) == t.(playerCalls := st.playerCalls + t.playerCalls, sparkSent := st.sparkSent + t.sparkSent)
  {
    var p := Handle(cfg, st.isPlayingAlert, st.records);
    assert [] + p.calls == p.calls && [] + p.sent == p.sent;
    var stop := !p.needsToAlert && p.playing;
    var extra := if stop then [Stop] else [];
    assert st.playerCalls + p.calls + extra == st.playerCalls + (p.calls + extra);
    assert [] + p.calls + extra == p.calls + extra;
  }

  /** A completed tick: every record's alert flag is its audio condition and its latch its
      Spark condition; nothing else about a record changes; the sound is playing exactly when
      some record alerts; and the player is called at most once, on a change only. */
  lemma TickCompleted(cfg: AlertConfig, st: AlertState)
    requires !st.isTimerRunning && !AnyFault(cfg, st.records)
    ensures var t := Tick(cfg, st);
      && !t.isTimerRunning
      && |t.records| == |st.records|
      && (forall i :: 0 <= i < |t.records| ==>
            && t.records[i].alerting == SoundBreach(cfg, st.records[i])
            && t.records[i].hasNotifiedBySpark == SparkBreach(cfg, st.records[i])
            && t.records[i].(alerting := false, hasNotifiedBySpark := false)
               == st.records[i].(alerting := false, hasNotifiedBySpark := false))
      && (t.isPlayingAlert <==> exists i :: 0 <= i < |t.records| && t.records[i].alerting)
      && (t.playerCalls == st.playerCalls + [PlayLooping] <==> !st.isPlayingAlert && t.isPlayingAlert)
      && (t.playerCalls == st.playerCalls + [Stop] <==> st.isPlayingAlert && !t.isPlayingAlert)
      && (t.playerCalls == st.playerCalls <==> st.isPlayingAlert == t.isPlayingAlert)
      && |t.sparkSent| == |st.sparkSent| + LatchFlips(cfg, st.records)
  {
    var t := Tick(cfg, st);
    TickDone(cfg, st);
    AfterTickAllAt(cfg, st.records);
    MessagesCountFlips(cfg, st.records);
    var p := st.playerCalls;
    if !st.isPlayingAlert && t.isPlayingAlert {
      assert (p + [PlayLooping])[|p|] == PlayLooping;
    } else if st.isPlayingAlert && !t.isPlayingAlert {
      assert (p + [Stop])[|p|] == Stop;
    }
    if t.isPlayingAlert {
      var i :| 0 <= i < |st.records| && SoundBreach(cfg, st.records[i]);
      assert t.records[i].alerting;
    }
  }

  /** Thresholds of 0 disable a path: with both sound thresholds at 0 no record ever alerts,
      and without notification nothing alerts at all, whatever the counters. */
  lemma ZeroThresholdsNeverAlert(cfg: AlertConfig, st: AlertState)
    requires !st.isTimerRunning && !AnyFault(cfg, st.records)
    requires !cfg.notification || (cfg.timeframes.soundWarn == 0 && cfg.timeframes.soundTimeout == 0)
    ensures var t := Tick(cfg, st);
      !t.isPlayingAlert && forall i :: 0 <= i < |t.records| ==> !t.records[i].alerting
  {
    TickDone(cfg, st);
    AfterTickAllAt(cfg, st.records);
  }

  /** A sustained state is not re-announced: running the tick again on unchanged counters
      changes no record, makes no player call and sends no message. */
  lemma TickSettles(cfg: AlertConfig, st: AlertState)
    requires !st.isTimerRunning && !AnyFault(cfg, st.records)
    ensures var t := Tick(cfg, st);
      var t2 := Tick(cfg, t);
      && t2.records == t.records
      && t2.isPlayingAlert == t.isPlayingAlert
      && t2.playerCalls == t.playerCalls
      && t2.sparkSent == t.sparkSent
  {
    TickDone(cfg, st);
    var t := Tick(cfg, st);
    AfterTickAllSettled(cfg, st.records);
    TickDone(cfg, t);
  }

  /** The tick throws exactly when some record's message cannot be built or sent; after that
      the guard stays set and every later tick does nothing. */
  lemma TickFaultSticks(cfg: AlertConfig, later: AlertConfig, st: AlertState)
    requires !st.isTimerRunning
    ensures Tick(cfg, st).isTimerRunning <==> AnyFault(cfg, st.records)
    ensures AnyFault(cfg, st.records) ==> Tick(later, Tick(cfg, st)) == Tick(cfg, st)
  {
    HandleFaults(cfg, st.isPlayingAlert, st.records);
  }

  /** With at least four display lines on every record and a Spark bot configured, no tick
      can throw. */
  lemma EnoughLinesNoFault(cfg: AlertConfig, recs: seq<PingControlModel>)
    requires cfg.spark.Some?
    requires forall i :: 0 <= i < |recs| ==> |recs[i].displayLines| >= 4
    ensures !AnyFault(cfg, recs)
  {
  }

  /** The edge-trigger scenario: a target that breaches, clears and breaches again over
      three ticks gets exactly ALERT, OK, ALERT, and no more for the sustained states. */
  lemma BreachClearBreach(cfg: AlertConfig, r: PingControlModel, warn: int, ok: int)
    requires cfg.spark.Some? && |r.displayLines| >= 4 && !r.hasNotifiedBySpark
    requires SparkBreach(cfg, r.(warningFailures := warn))
    requires !SparkBreach(cfg, r.(warningFailures := ok))
    ensures
      var s0 := AlertState([r.(warningFailures := warn)], false, false, [], []);
      var s1 := Tick(cfg, s0);
      var s1b := Tick(cfg, s1);
      var s2 := Tick(cfg, s1b.(records := [s1b.records[0].(warningFailures := ok)]));
      var s2b := Tick(cfg, s2);
      var s3 := Tick(cfg, s2b.(records := [s2b.records[0].(warningFailures := warn)]));
      && s1.sparkSent == [AlertMessage(r.(warningFailures := warn))]
      && s1b.sparkSent == s1.sparkSent
      && s2.sparkSent == s1.sparkSent + [ClearedMessage(r.(warningFailures := ok))]
      && s2b.sparkSent == s2.sparkSent
      && s3.sparkSent == s2.sparkSent + [AlertMessage(r.(warningFailures := warn))]
  {
    var rw := r.(warningFailures := warn);
    var s0 := AlertState([rw], false, false, [], []);
    TickOne(cfg, s0);
    var s1 := Tick(cfg, s0);
    TickOne(cfg, s1);
    var s1b := Tick(cfg, s1);
    var r2 := s1b.records[0].(warningFailures := ok);
    assert ClearedMessage(r2) == ClearedMessage(r.(warningFailures := ok));
    TickOne(cfg, s1b.(records := [r2]));
    var s2 := Tick(cfg, s1b.(records := [r2]));
    TickOne(cfg, s2);
    var s2b := Tick(cfg, s2);
    var r3 := s2b.records[0].(warningFailures := warn);
    assert AlertMessage(r3) == AlertMessage(rw);
    TickOne(cfg, s2b.(records := [r3]));
  }

  /** A run over a single record that does not throw: the record is handled and its
      messages, if any, are sent. */
  lemma TickOne(cfg: AlertConfig, st: AlertState)
    requires !st.isTimerRunning && |st.records| == 1 && !RecordFaults(cfg, st.records[0])
    ensures Tick(cfg, st).records == [AfterTick(cfg, st.records[0])]
    ensures !Tick(cfg, st).isTimerRunning
    ensures Tick(cfg, st).sparkSent == st.sparkSent + RecordMessages(cfg, st.records[0])
  {
    var r := st.records[0];
    assert st.records[..0] == [];
    assert !AnyFault(cfg, st.records);
    assert AfterTickAll(cfg, st.records) == [AfterTick(cfg, r)];
    assert MessagesOf(cfg, st.records) == RecordMessages(cfg, r);
    TickDone(cfg, st);
  }

  /** A run changes only the alert flag and the Spark latch of records: the records keep
      their order and addresses, so unique addresses stay unique. */
  lemma TickKeepsAddresses(cfg: AlertConfig, st: AlertState)
    ensures |Tick(cfg, st).records| == |st.records|
    ensures forall j :: 0 <= j < |st.records| ==> Tick(cfg, st).records[j].address == st.records[j].address
    ensures UniqueAddresses(st.records) ==> UniqueAddresses(Tick(cfg, st).records)
  {
    if !st.isTimerRunning {
      var p := Handle(cfg, st.isPlayingAlert, st.records);
      var n := |p.handled|;
      HandleRecords(cfg, st.isPlayingAlert, st.records);
      AfterTickAllAt(cfg, st.records[..n]);
      var r := Tick(cfg, st).records;
      assert r == p.handled + st.records[n..] by {
        assert st.records[n..] == [] || p.faulted;
      }
      forall j | 0 <= j < |st.records| ensures r[j].address == st.records[j].address {
        if j < n {
          assert r[j] == AfterTick(cfg, st.records[..n][j]);
        }
      }
    }
  }
}
