/** Bringing the module up: `init`, with its configuration sequence and its
    over-the-air join loop, and `get_hweui`. */
module Join {
  import opened Wire
  import opened Link
  import opened Settings

  /** `range(3)` in the join loop of `init`. */
  const MaxJoinAttempts: nat := 3
  /** The retransmission count `init` configures. */
  const Retransmissions: int := 5
  const JoinCommand: string := "mac join otaa"

  /** `get_hweui()` without a port: ask the module for its EUI. Before the
      link exists the write fails. */
  function HweuiQuery(st: St): (St, Result<PyVal>) {
    if !st.serialOpen then (st, Err(AttributeError))
    else
      var st1 := Exchange(st, "sys get hweui").0;
      var eui := Exchange(st, "sys get hweui").1;
      (st1, Ok(eui))
  }

  /** The configuration part of `init`, from `_appeui = appeui` to
      `mac set appkey`: store the credentials, read the EUI into `_deveui`,
      reset the MAC layer to the 868 MHz band and write the credentials.
      Concatenating `None` into a command is a `TypeError`. */
  function Configure(st: St, appeui: PyVal, appkey: PyVal): (St, Result<()>)
    requires st.serialOpen
  {
    var st1 := HweuiQuery(st.(appeui := appeui, appkey := appkey)).0;
    var q := HweuiQuery(st.(appeui := appeui, appkey := appkey)).1;
    var eui := q.value;
    var st2 := Send(st1.(deveui := eui), "mac reset 868", true);
    if !appeui.Str? then (st2, Err(TypeError))
    else
      var st3 := Send(st2, "mac set appeui " + appeui.s, true);
      if !appkey.Str? then (st3, Err(TypeError))
      else
        var st4 := Send(st3, "mac set appkey " + appkey.s, true);
        ConfigureMac(st4, eui)
  }

  /** The middle of the configuration, from `mac set deveui` to
      `set_retransmissions(5)`: a timed-out EUI query makes the first
      command a `TypeError`, and the setter raises as it does on its own. */
  function ConfigureMac(st: St, deveui: PyVal): (St, Result<()>)
    requires st.serialOpen
  {
    if !deveui.Str? then (st, Err(TypeError))
    else
      var st1 := Send(st, "mac set deveui " + deveui.s, true);
      var st2 := Send(st1, "mac set pwridx 1", true);
      var st3 := Send(st2, "mac set adr off", true);
      var st4 := Send(st3, "mac set rx2 3 869525000", true);
      var st5 := SetRetransmissions(st4, Retransmissions).0;
      var retx := SetRetransmissions(st4, Retransmissions).1;
      if retx.Err? then (st5, Err(retx.error)) else ConfigureAr(st5)
  }

  /** The end of the configuration: `get_ar()`, `set_ar('off')` and
      `mac save`. */
  function ConfigureAr(st: St): (St, Result<()>)
    requires st.serialOpen
  {
    var st1 := GetAr(st).0;
    var st2 := SetAr(st1, "off").0;
    var arSet := SetAr(st1, "off").1;
    if arSet.Err? then (st2, Err(arSet.error))
    else (Send(st2, "mac save", true), Ok(()))
  }

  predicate Accepted(v: PyVal) {
    v.Str? && StartsWith(v.s, "accepted")
  }

  predicate Denied(v: PyVal) {
    v.Str? && StartsWith(v.s, "denied")
  }

  /** A reply that ends the join loop. */
  predicate Decisive(v: PyVal) {
    Accepted(v) || Denied(v)
  }

  /** The join loop of `init` with `attempts` iterations left: each attempt
      writes `mac join otaa`, drops the immediate reply, and waits up to
      30 s for the verdict; `accepted` joins, `denied` gives up, anything
      else (a timeout included) backs off and tries again. */
  function JoinLoop(st: St, attempts: nat): (St, bool)
    requires st.serialOpen
    decreases attempts
  {
    if attempts == 0 then (st, false)
    else
      var st1 := Read(Send(st, JoinCommand, true), LongTimeout).0;
      var res := Read(Send(st, JoinCommand, true), LongTimeout).1;
      if res != RespTimeout && StartsWith(res.s, "accepted") then (st1, true)
      else if res != RespTimeout && StartsWith(res.s, "denied") then (st1, false)
      else JoinLoop(Sleep(st1, Backoff), attempts - 1)
  }

  /** Configuration followed by the join loop; the result is `joined`. */
  function ConfigureAndJoin(st: St, appeui: PyVal, appkey: PyVal): (St, Result<Option<bool>>)
    requires st.serialOpen
  {
    var st1 := Configure(st, appeui, appkey).0;
    var r := Configure(st, appeui, appkey).1;
    if r.Err? then (st1, Err(r.error))
    else
      var st2 := JoinLoop(st1, MaxJoinAttempts).0;
      var joined := JoinLoop(st1, MaxJoinAttempts).1;
      (st2, Ok(Some(joined)))
  }

  /** `init(ser, appeui, appkey, rst, short_startup)` as written: the reset
      pulse and the port are set up only while `_ser` is `None`, and
      `short_startup` is consulted only then. The result is `None` after a
      short startup and `joined` otherwise. */
  function InitAsWritten(st: St, port: int, appeui: PyVal, appkey: PyVal, rst: int, shortStartup: bool)
    : (St, Result<Option<bool>>)
  {
    if !st.serialOpen then
      var st0 := Open(st, port, rst);
      if shortStartup then (st0, Ok(None)) else ConfigureAndJoin(st0, appeui, appkey)
    else ConfigureAndJoin(st, appeui, appkey)
  }

  /** `init` with the evident intent: a short startup never configures or
      joins, whether or not the link was already open. */
  function Init(st: St, port: int, appeui: PyVal, appkey: PyVal, rst: int, shortStartup: bool)
    : (St, Result<Option<bool>>)
  {
    var st0 := if st.serialOpen then st else Open(st, port, rst);
    if shortStartup then (st0, Ok(None)) else ConfigureAndJoin(st0, appeui, appkey)
  }

  /** `get_hweui(ser, rst)` as written: with a port it first runs
      `init(ser, None, None, rst, short_startup = True)`. */
  function GetHweuiAsWritten(st: St, ser: Option<int>, rst: int): (St, Result<PyVal>) {
    if ser.Some? then
      var st1 := InitAsWritten(st, ser.value, PyNone, PyNone, rst, true).0;
      var r := InitAsWritten(st, ser.value, PyNone, PyNone, rst, true).1;
      if r.Err? then (st1, Err(r.error)) else HweuiQuery(st1)
    else HweuiQuery(st)
  }

  /** `get_hweui(ser, rst)` on top of the corrected `init`. */
  function GetHweui(st: St, ser: Option<int>, rst: int): (St, Result<PyVal>) {
    if ser.Some? then
      var st1 := Init(st, ser.value, PyNone, PyNone, rst, true).0;
      var r := Init(st, ser.value, PyNone, PyNone, rst, true).1;
      if r.Err? then (st1, Err(r.error)) else HweuiQuery(st1)
    else HweuiQuery(st)
  }

  // ---------------------------------------------------------------------
  // The configuration sequence in closed form

  /** The text a value contributes to a command, when it is a string. */
  function Text(v: PyVal): string {
    if v.Str? then v.s else ""
  }

  /** The log of `get_hweui()`, `mac reset 868` and the two credentials. */
  function CredentialsTrace(appeui: string, appkey: string): (t: seq<Event>)
    ensures |t| == 8
  {
    [ Sent("sys get hweui"), Awaited(ShortTimeout),
      Sent("mac reset 868"), Awaited(ShortTimeout),
      Sent("mac set appeui " + appeui), Awaited(ShortTimeout),
      Sent("mac set appkey " + appkey), Awaited(ShortTimeout) ]
  }

  /** The log of the settings from `mac set deveui` to `mac set retx 5`. */
  function SettingsTrace(deveui: string): (t: seq<Event>)
    ensures |t| == 10
  {
    [ Sent("mac set deveui " + deveui), Awaited(ShortTimeout),
      Sent("mac set pwridx 1"), Awaited(ShortTimeout),
      Sent("mac set adr off"), Awaited(ShortTimeout),
      Sent("mac set rx2 3 869525000"), Awaited(ShortTimeout),
      Sent("mac set retx 5"), Awaited(ShortTimeout) ]
  }

  /** The log of `get_ar()` and `set_ar('off')`, and of `mac save` when the
      latter succeeded. */
  function ArTrace(saved: bool): (t: seq<Event>)
    ensures |t| == if saved then 8 else 6
  {
    [ Sent("mac get ar"), Awaited(ShortTimeout),
      Sent("mac set ar off"), Awaited(ShortTimeout),
      Sent("mac get ar"), Awaited(ShortTimeout) ]
    + (if saved then [Sent("mac save"), Awaited(ShortTimeout)] else [])
  }

  lemma RetransmissionsText()
    ensures DecimalString(Retransmissions) == "5"
  {
    assert NatString(5) == [DigitChar(5)];
  }

  /** The state after the first k commands of a logged sequence. */
  function Advance(s: St, t: seq<Event>, k: nat): St
    requires 2 * k <= |t|
  {
    s.(cursor := s.cursor + k, trace := s.trace + t[..2 * k])
  }

  lemma ConfigStep(s: St, t: seq<Event>, k: nat, cmd: string)
    requires s.serialOpen && 2 * k + 2 <= |t|
    requires t[2 * k] == Sent(cmd) && t[2 * k + 1] == Awaited(ShortTimeout)
    ensures Send(Advance(s, t, k), cmd, true) == Advance(s, t, k + 1)
    ensures Exchange(Advance(s, t, k), cmd) == (Advance(s, t, k + 1), Upcoming(s, k))
  {
    assert t[..2 * k + 2] == t[..2 * k] + [t[2 * k], t[2 * k + 1]];
  }

  /** The credentials part: the credentials and the EUI are stored; without
      an `appeui` string it stops after `mac reset 868`, without an `appkey`
      string after `mac set appeui`, and otherwise the settings follow. */
  lemma ConfigureCredentials(st: St, appeui: PyVal, appkey: PyVal)
    requires st.serialOpen
    ensures var s0 := st.(appeui := appeui, appkey := appkey, deveui := Upcoming(st, 0));
      var t := CredentialsTrace(Text(appeui), Text(appkey));
      && (!appeui.Str? ==> Configure(st, appeui, appkey) == (Advance(s0, t, 2), Err(TypeError)))
      && (appeui.Str? && !appkey.Str? ==> Configure(st, appeui, appkey) == (Advance(s0, t, 3), Err(TypeError)))
      && (appeui.Str? && appkey.Str? ==> Configure(st, appeui, appkey) == ConfigureMac(Advance(s0, t, 4), Upcoming(st, 0)))
  {
    if !appeui.Str? {
      CredentialsWithoutAppeui(st, appeui, appkey);
    } else if !appkey.Str? {
      CredentialsWithoutAppkey(st, appeui.s, appkey);
    } else {
      CredentialsWritten(st, appeui.s, appkey.s);
    }
  }

  lemma CredentialsWithoutAppeui(st: St, appeui: PyVal, appkey: PyVal)
    requires st.serialOpen && !appeui.Str?
    ensures Configure(st, appeui, appkey) ==
      (Advance(st.(appeui := appeui, appkey := appkey, deveui := Upcoming(st, 0)),
               CredentialsTrace(Text(appeui), Text(appkey)), 2), Err(TypeError))
  {
    var s2 := CredentialsPrefix(st, appeui, appkey);
  }

  lemma CredentialsWithoutAppkey(st: St, appeui: string, appkey: PyVal)
    requires st.serialOpen && !appkey.Str?
    ensures Configure(st, Str(appeui), appkey) ==
      (Advance(st.(appeui := Str(appeui), appkey := appkey, deveui := Upcoming(st, 0)),
               CredentialsTrace(appeui, Text(appkey)), 3), Err(TypeError))
  {
    var s0 := st.(appeui := Str(appeui), appkey := appkey, deveui := Upcoming(st, 0));
    var s2 := CredentialsPrefix(st, Str(appeui), appkey);
    ConfigStep(s0, CredentialsTrace(appeui, Text(appkey)), 2, "mac set appeui " + appeui);
  }

  lemma CredentialsWritten(st: St, appeui: string, appkey: string)
    requires st.serialOpen
    ensures Configure(st, Str(appeui), Str(appkey)) ==
      ConfigureMac(Advance(st.(appeui := Str(appeui), appkey := Str(appkey), deveui := Upcoming(st, 0)),
                           CredentialsTrace(appeui, appkey), 4), Upcoming(st, 0))
  {
    var s0 := st.(appeui := Str(appeui), appkey := Str(appkey), deveui := Upcoming(st, 0));
    var t := CredentialsTrace(appeui, appkey);
    var s2 := CredentialsPrefix(st, Str(appeui), Str(appkey));
    ConfigStep(s0, t, 2, "mac set appeui " + appeui);
    ConfigStep(s0, t, 3, "mac set appkey " + appkey);
  }

  /** `sys get hweui` and `mac reset 868`, which run whatever the
      credentials are. */
  lemma CredentialsPrefix(st: St, appeui: PyVal, appkey: PyVal) returns (s2: St)
    requires st.serialOpen
    ensures var s0 := st.(appeui := appeui, appkey := appkey, deveui := Upcoming(st, 0));
      && s2 == Advance(s0, CredentialsTrace(Text(appeui), Text(appkey)), 2)
      && s2 == Send(HweuiQuery(st.(appeui := appeui, appkey := appkey)).0.(deveui := Upcoming(st, 0)),
                    "mac reset 868", true)
      && HweuiQuery(st.(appeui := appeui, appkey := appkey)).1 == Ok(Upcoming(st, 0))
  {
    var s0 := st.(appeui := appeui, appkey := appkey, deveui := Upcoming(st, 0));
    var t := CredentialsTrace(Text(appeui), Text(appkey));
    assert s0 == Advance(s0, t, 0);
    ConfigStep(s0, t, 0, "sys get hweui");
    assert HweuiQuery(st.(appeui := appeui, appkey := appkey)).0.(deveui := Upcoming(st, 0)) == Advance(s0, t, 1);
    ConfigStep(s0, t, 1, "mac reset 868");
    s2 := Advance(s0, t, 2);
  }

  /** With both credentials strings, the four commands of the credentials
      part run and the settings part follows. */
  lemma ConfigureReachesSettings(st: St, appeui: string, appkey: string)
    requires st.serialOpen
    ensures Configure(st, Str(appeui), Str(appkey)) ==
      ConfigureMac(st.(appeui := Str(appeui), appkey := Str(appkey), deveui := Upcoming(st, 0),
                       cursor := st.cursor + 4, trace := st.trace + CredentialsTrace(appeui, appkey)),
                   Upcoming(st, 0))
  {
    ConfigureCredentials(st, Str(appeui), Str(appkey));
    var t := CredentialsTrace(appeui, appkey);
    assert t[..8] == t;
  }

  /** The settings part: a timed-out EUI query fails the first command
      with `TypeError` before anything is written; otherwise five commands
      run, and the automatic-reply part follows exactly when the
      retransmission setting was acknowledged. */
  lemma ConfigureMacOutcome(st: St, deveui: PyVal)
    requires st.serialOpen
    ensures !deveui.Str? ==> ConfigureMac(st, deveui) == (st, Err(TypeError))
    ensures deveui.Str? ==>
      var s5 := st.(cursor := st.cursor + 5, trace := st.trace + SettingsTrace(deveui.s));
      if Upcoming(st, 4) == Str("ok") then ConfigureMac(st, deveui) == ConfigureAr(s5)
      else ConfigureMac(st, deveui) == (s5, Err(Rn2483Exception))
  {
    if deveui.Str? {
      var t := SettingsTrace(deveui.s);
      SettingsSends(st, deveui.s);
      var s4 := st.(cursor := st.cursor + 4, trace := st.trace + t[..8]);
      RetransmissionsText();
      SetRetransmissionsOutcome(s4, Retransmissions);
      assert "mac set retx " + DecimalString(Retransmissions) == "mac set retx 5";
      assert t[..8] + [t[8], t[9]] == t;
      assert s4.trace + [t[8], t[9]] == st.trace + t;
    }
  }

  lemma SettingsSends(st: St, deveui: string)
    requires st.serialOpen
    ensures
      Send(Send(Send(Send(st, "mac set deveui " + deveui, true), "mac set pwridx 1", true),
                "mac set adr off", true), "mac set rx2 3 869525000", true)
      == st.(cursor := st.cursor + 4, trace := st.trace + SettingsTrace(deveui)[..8])
  {
    var t := SettingsTrace(deveui);
    assert st == Advance(st, t, 0);
    ConfigStep(st, t, 0, "mac set deveui " + deveui);
    ConfigStep(st, t, 1, "mac set pwridx 1");
    ConfigStep(st, t, 2, "mac set adr off");
    ConfigStep(st, t, 3, "mac set rx2 3 869525000");
  }

  /** The automatic-reply part: `ar` ends up holding the second read-back;
      `mac save` follows exactly when it reads `off`, and otherwise the
      part raises. */
  lemma ConfigureArOutcome(st: St)
    requires st.serialOpen
    ensures var (st', r) := ConfigureAr(st);
      var saved := Upcoming(st, 2) == Str("off");
      && st' == st.(ar := Upcoming(st, 2), cursor := st.cursor + (if saved then 4 else 3),
                    trace := st.trace + ArTrace(saved))
      && (r.Ok? <==> saved)
      && (!saved ==> r == Err(Rn2483Exception))
  {
    GetArOutcome(st);
    var s1 := GetAr(st).0;
    SetArOutcome(s1, "off");
    var s2 := SetAr(s1, "off").0;
    var six := [Sent("mac get ar"), Awaited(ShortTimeout),
                Sent("mac set ar off"), Awaited(ShortTimeout),
                Sent("mac get ar"), Awaited(ShortTimeout)];
    assert [Sent("mac get ar"), Awaited(ShortTimeout)]
      + [Sent("mac set ar off"), Awaited(ShortTimeout), Sent("mac get ar"), Awaited(ShortTimeout)] == six;
    assert "mac set ar " + "off" == "mac set ar off";
    assert s2.trace == (st.trace + [Sent("mac get ar"), Awaited(ShortTimeout)])
      + [Sent("mac set ar off"), Awaited(ShortTimeout), Sent("mac get ar"), Awaited(ShortTimeout)];
    assert s2.trace == st.trace + six;
    if Upcoming(st, 2) == Str("off") {
      assert Send(s2, "mac save", true).trace == st.trace + (six + [Sent("mac save"), Awaited(ShortTimeout)]);
    } else {
      assert six + [] == six;
    }
  }

  /** A timed-out EUI query fails `mac set deveui` with `TypeError` once the
      credentials are written. */
  lemma ConfigureWithoutEui(st: St, appeui: string, appkey: string)
    requires st.serialOpen && !Upcoming(st, 0).Str?
    ensures Configure(st, Str(appeui), Str(appkey)) ==
      (st.(appeui := Str(appeui), appkey := Str(appkey), deveui := Upcoming(st, 0),
           cursor := st.cursor + 4, trace := st.trace + CredentialsTrace(appeui, appkey)),
       Err(TypeError))
  {
    ConfigureReachesSettings(st, appeui, appkey);
  }

  /** A retransmission setting that is not acknowledged (the 9th reply)
      raises after nine commands, before the automatic reply state is
      touched. */
  lemma ConfigureRetxRefused(st: St, appeui: string, appkey: string)
    requires st.serialOpen && Upcoming(st, 0).Str? && Upcoming(st, 8) != Str("ok")
    ensures Configure(st, Str(appeui), Str(appkey)) ==
      (st.(appeui := Str(appeui), appkey := Str(appkey), deveui := Upcoming(st, 0),
           cursor := st.cursor + 9,
           trace := st.trace + CredentialsTrace(appeui, appkey) + SettingsTrace(Upcoming(st, 0).s)),
       Err(Rn2483Exception))
  {
    ConfigureReachesSettings(st, appeui, appkey);
    var s4 := st.(appeui := Str(appeui), appkey := Str(appkey), deveui := Upcoming(st, 0),
                  cursor := st.cursor + 4, trace := st.trace + CredentialsTrace(appeui, appkey));
    ConfigureMacOutcome(s4, Upcoming(st, 0));
  }

  /** An automatic reply state that does not read back as `off` (the 12th
      reply) is left in `ar` and raises before `mac save`. */
  lemma ConfigureArRefused(st: St, appeui: string, appkey: string)
    requires st.serialOpen && Upcoming(st, 0).Str? && Upcoming(st, 8) == Str("ok")
    requires Upcoming(st, 11) != Str("off")
    ensures Configure(st, Str(appeui), Str(appkey)) ==
      (st.(appeui := Str(appeui), appkey := Str(appkey), deveui := Upcoming(st, 0), ar := Upcoming(st, 11),
           cursor := st.cursor + 12,
           trace := st.trace + CredentialsTrace(appeui, appkey) + SettingsTrace(Upcoming(st, 0).s) + ArTrace(false)),
       Err(Rn2483Exception))
  {
    ConfigureReachesSettings(st, appeui, appkey);
    var s4 := st.(appeui := Str(appeui), appkey := Str(appkey), deveui := Upcoming(st, 0),
                  cursor := st.cursor + 4, trace := st.trace + CredentialsTrace(appeui, appkey));
    ConfigureMacOutcome(s4, Upcoming(st, 0));
    ConfigureArOutcome(s4.(cursor := s4.cursor + 5, trace := s4.trace + SettingsTrace(Upcoming(st, 0).s)));
  }

  /** On success exactly the thirteen commands of the sequence were
      written in order, one reply read after each, and `ar` reads `off`. */
  lemma ConfigureSucceeds(st: St, appeui: string, appkey: string)
    requires st.serialOpen && Upcoming(st, 0).Str? && Upcoming(st, 8) == Str("ok")
    requires Upcoming(st, 11) == Str("off")
    ensures Configure(st, Str(appeui), Str(appkey)) ==
      (st.(appeui := Str(appeui), appkey := Str(appkey), deveui := Upcoming(st, 0), ar := Str("off"),
           cursor := st.cursor + 13,
           trace := st.trace + CredentialsTrace(appeui, appkey) + SettingsTrace(Upcoming(st, 0).s) + ArTrace(true)),
       Ok(()))
  {
    ConfigureReachesSettings(st, appeui, appkey);
    var s4 := st.(appeui := Str(appeui), appkey := Str(appkey), deveui := Upcoming(st, 0),
                  cursor := st.cursor + 4, trace := st.trace + CredentialsTrace(appeui, appkey));
    ConfigureMacOutcome(s4, Upcoming(st, 0));
    ConfigureArOutcome(s4.(cursor := s4.cursor + 5, trace := s4.trace + SettingsTrace(Upcoming(st, 0).s)));
  }

  // ---------------------------------------------------------------------
  // The join loop in closed form

  /** The verdict read of join attempt i, counted from 0, when every
      earlier attempt was undecided. */
  function JoinReply(st: St, i: nat): PyVal {
    Upcoming(st, 2 * i + 1)
  }

  /** The state after one undecided attempt and its back-off. */
  function AfterUndecided(st: St): St {
    st.(cursor := st.cursor + 2,
        trace := st.trace + [Sent(JoinCommand), Awaited(ShortTimeout), Awaited(LongTimeout), Slept(Backoff)])
  }

  /** How many of the next `n` attempts, in a row, get no verdict. */
  function LeadingUndecided(st: St, n: nat): nat
    decreases n
  {
    if n == 0 || Decisive(JoinReply(st, 0)) then 0
    else 1 + LeadingUndecided(AfterUndecided(st), n - 1)
  }

  lemma {:induction false} LeadingUndecidedSpec(st: St, n: nat)
    ensures LeadingUndecided(st, n) <= n
    ensures forall k :: 0 <= k < LeadingUndecided(st, n) ==> !Decisive(JoinReply(st, k))
    ensures LeadingUndecided(st, n) < n ==> Decisive(JoinReply(st, LeadingUndecided(st, n)))
    decreases n
  {
    if n > 0 && !Decisive(JoinReply(st, 0)) {
      var next := AfterUndecided(st);
      LeadingUndecidedSpec(next, n - 1);
      forall k | 1 <= k < LeadingUndecided(st, n) ensures !Decisive(JoinReply(st, k)) {
        assert JoinReply(st, k) == JoinReply(next, k - 1);
      }
      assert JoinReply(st, LeadingUndecided(st, n)) == JoinReply(next, LeadingUndecided(next, n - 1));
    }
  }

  /** The log of j undecided attempts. */
  function UndecidedRounds(j: nat): (t: seq<Event>)
    ensures |t| == 4 * j
  {
    if j == 0 then []
    else [Sent(JoinCommand), Awaited(ShortTimeout), Awaited(LongTimeout), Slept(Backoff)] + UndecidedRounds(j - 1)
  }

  /** The join loop in closed form: with j the number of leading attempts
      without a verdict, the loop gives up after all `n` are spent, and
      otherwise stops right after the first verdict, joined exactly when
      that verdict is `accepted`. Nothing but the link changes. */
  function JoinClosed(st: St, n: nat): (St, bool) {
    var j := LeadingUndecided(st, n);
    var rounds := st.trace + UndecidedRounds(j);
    if j == n then (st.(cursor := st.cursor + 2 * n, trace := rounds), false)
    else
      (st.(cursor := st.cursor + 2 * j + 2,
           trace := rounds + [Sent(JoinCommand), Awaited(ShortTimeout), Awaited(LongTimeout)]),
       Accepted(JoinReply(st, j)))
  }

  lemma JoinLoopUnfold(st: St, n: nat)
    requires st.serialOpen && n > 0
    ensures !Decisive(JoinReply(st, 0)) ==> JoinLoop(st, n) == JoinLoop(AfterUndecided(st), n - 1)
    ensures Decisive(JoinReply(st, 0)) ==> JoinLoop(st, n) == JoinClosed(st, n)
  {
    var st1 := Read(Send(st, JoinCommand, true), LongTimeout).0;
    assert st1.trace == st.trace + [Sent(JoinCommand), Awaited(ShortTimeout), Awaited(LongTimeout)];
    assert Sleep(st1, Backoff) == AfterUndecided(st);
    if Decisive(JoinReply(st, 0)) {
      assert LeadingUndecided(st, n) == 0;
      assert st.trace + UndecidedRounds(0) == st.trace;
    }
  }

  lemma JoinClosedUndecided(st: St, n: nat)
    requires n > 0 && !Decisive(JoinReply(st, 0))
    ensures JoinClosed(st, n) == JoinClosed(AfterUndecided(st), n - 1)
  {
    var next := AfterUndecided(st);
    var j := LeadingUndecided(next, n - 1);
    assert LeadingUndecided(st, n) == j + 1;
    assert JoinReply(next, j) == JoinReply(st, j + 1);
    assert st.trace + UndecidedRounds(j + 1) == next.trace + UndecidedRounds(j);
  }

  /** The join loop agrees with its closed form for every script. */
  lemma {:induction false} JoinLoopClosedForm(st: St, n: nat)
    requires st.serialOpen
    ensures JoinLoop(st, n) == JoinClosed(st, n)
    decreases n
  {
    if n == 0 {
      assert st.trace + UndecidedRounds(0) == st.trace;
    } else {
      JoinLoopUnfold(st, n);
      if !Decisive(JoinReply(st, 0)) {
        JoinLoopClosedForm(AfterUndecided(st), n - 1);
        JoinClosedUndecided(st, n);
      }
    }
  }

  /** `init` reports a join exactly when some attempt within the three is
      answered `accepted` and no earlier attempt got a verdict: a `denied`
      ends the loop without joining. */
  lemma JoinedIffAccepted(st: St)
    requires st.serialOpen
    ensures JoinLoop(st, MaxJoinAttempts).1 <==>
      exists i :: 0 <= i < MaxJoinAttempts && Accepted(JoinReply(st, i))
        && forall k :: 0 <= k < i ==> !Decisive(JoinReply(st, k))
  {
    JoinLoopClosedForm(st, MaxJoinAttempts);
    JoinClosedIffAccepted(st, MaxJoinAttempts);
  }

  /** The closed form joins exactly at the first verdict, when it is
      `accepted`. */
  lemma JoinClosedIffAccepted(st: St, n: nat)
    ensures JoinClosed(st, n).1 <==>
      exists i :: 0 <= i < n && Accepted(JoinReply(st, i))
        && forall k :: 0 <= k < i ==> !Decisive(JoinReply(st, k))
  {
    LeadingUndecidedSpec(st, n);
    var j := LeadingUndecided(st, n);
    if JoinClosed(st, n).1 {
      assert Accepted(JoinReply(st, j));
    } else {
      forall i | 0 <= i < n && Accepted(JoinReply(st, i))
        ensures exists k :: 0 <= k < i && Decisive(JoinReply(st, k))
      {
        if i < j {
          assert false;
        } else if i > j {
          assert 0 <= j < i && Decisive(JoinReply(st, j));
        } else {
          assert false;
        }
      }
    }
  }

  lemma JoinRoundCommands()
    ensures Commands([Sent(JoinCommand), Awaited(ShortTimeout), Awaited(LongTimeout), Slept(Backoff)]) == [JoinCommand]
    ensures Commands([Sent(JoinCommand), Awaited(ShortTimeout), Awaited(LongTimeout)]) == [JoinCommand]
  {
    var r := [Sent(JoinCommand), Awaited(ShortTimeout), Awaited(LongTimeout), Slept(Backoff)];
    assert Commands(r[3..]) == [] by { assert r[3..][1..] == []; }
    assert r[2..][1..] == r[3..];
    assert Commands(r[2..]) == [];
    assert r[1..][1..] == r[2..];
    assert Commands(r[1..]) == [];
    var w := [Sent(JoinCommand), Awaited(ShortTimeout), Awaited(LongTimeout)];
    assert Commands(w[2..]) == [] by { assert w[2..][1..] == []; }
    assert w[1..][1..] == w[2..];
  }

  lemma {:induction false} UndecidedRoundsCommands(j: nat)
    ensures Commands(UndecidedRounds(j)) == Repeat(JoinCommand, j)
  {
    if j > 0 {
      CommandsAppend([Sent(JoinCommand), Awaited(ShortTimeout), Awaited(LongTimeout), Slept(Backoff)],
                     UndecidedRounds(j - 1));
      UndecidedRoundsCommands(j - 1);
      JoinRoundCommands();
    }
  }

  /** The join loop writes `mac join otaa` at least once and at most three
      times, and nothing else. */
  lemma JoinSendsAtMostThree(st: St)
    requires st.serialOpen
    ensures exists k ::
      && 1 <= k <= MaxJoinAttempts
      && Commands(JoinLoop(st, MaxJoinAttempts).0.trace) == Commands(st.trace) + Repeat(JoinCommand, k)
  {
    JoinLoopClosedForm(st, MaxJoinAttempts);
    var st' := JoinLoop(st, MaxJoinAttempts).0;
    var j := LeadingUndecided(st, MaxJoinAttempts);
    LeadingUndecidedSpec(st, MaxJoinAttempts);
    CommandsAppend(st.trace, UndecidedRounds(j));
    UndecidedRoundsCommands(j);
    if j == MaxJoinAttempts {
      assert Commands(st'.trace) == Commands(st.trace) + Repeat(JoinCommand, j);
    } else {
      var tail := [Sent(JoinCommand), Awaited(ShortTimeout), Awaited(LongTimeout)];
      assert st'.trace == (st.trace + UndecidedRounds(j)) + tail;
      CommandsAppend(st.trace + UndecidedRounds(j), tail);
      JoinRoundCommands();
      assert Repeat(JoinCommand, j) + [JoinCommand] == Repeat(JoinCommand, j + 1);
      assert Commands(st'.trace) == Commands(st.trace) + Repeat(JoinCommand, j + 1);
    }
  }

  // ---------------------------------------------------------------------
  // init and get_hweui

  /** `t` extends `base`, and none of the events it adds is a startup. */
  predicate QuietExtension(base: seq<Event>, t: seq<Event>) {
    base <= t && forall i :: |base| <= i < |t| ==> !t[i].Startup?
  }

  lemma QuietLog(base: seq<Event>, added: seq<Event>)
    requires forall e :: e in added ==> !e.Startup?
    ensures QuietExtension(base, base + added)
  {
    forall i | |base| <= i < |base + added| ensures !(base + added)[i].Startup? {
      assert (base + added)[i] in added;
    }
  }

  lemma QuietTransitive(a: seq<Event>, b: seq<Event>, c: seq<Event>)
    requires QuietExtension(a, b) && QuietExtension(b, c)
    ensures QuietExtension(a, c)
  {
    forall i | |a| <= i < |c| ensures !c[i].Startup? {
      if i < |b| {
        assert c[i] == b[i];
      }
    }
  }

  lemma ConfigTracesQuiet(appeui: string, appkey: string, deveui: string, saved: bool)
    ensures forall e :: e in CredentialsTrace(appeui, appkey) ==> !e.Startup?
    ensures forall e :: e in SettingsTrace(deveui) ==> !e.Startup?
    ensures forall e :: e in ArTrace(saved) ==> !e.Startup?
  {
  }

  /** The configuration never touches the reset pin or the port. */
  lemma ConfigureQuiet(st: St, appeui: PyVal, appkey: PyVal)
    requires st.serialOpen
    ensures Configure(st, appeui, appkey).0.serialOpen
    ensures QuietExtension(st.trace, Configure(st, appeui, appkey).0.trace)
  {
    if !appeui.Str? || !appkey.Str? {
      ConfigureCredentials(st, appeui, appkey);
      var t := CredentialsTrace(Text(appeui), Text(appkey));
      ConfigTracesQuiet(Text(appeui), Text(appkey), "", false);
      QuietLog(st.trace, t[..4]);
      QuietLog(st.trace, t[..6]);
    } else {
      ConfigureQuietWithCredentials(st, appeui.s, appkey.s);
    }
  }

  lemma ConfigureQuietWithCredentials(st: St, appeui: string, appkey: string)
    requires st.serialOpen
    ensures Configure(st, Str(appeui), Str(appkey)).0.serialOpen
    ensures QuietExtension(st.trace, Configure(st, Str(appeui), Str(appkey)).0.trace)
  {
    if !Upcoming(st, 0).Str? {
      ConfigureWithoutEui(st, appeui, appkey);
      ConfigTracesQuiet(appeui, appkey, "", false);
      QuietLog(st.trace, CredentialsTrace(appeui, appkey));
    } else if Upcoming(st, 8) != Str("ok") {
      ConfigureRetxRefusedQuiet(st, appeui, appkey);
    } else {
      ConfigureArQuiet(st, appeui, appkey);
    }
  }

  lemma ConfigureRetxRefusedQuiet(st: St, appeui: string, appkey: string)
    requires st.serialOpen && Upcoming(st, 0).Str? && Upcoming(st, 8) != Str("ok")
    ensures Configure(st, Str(appeui), Str(appkey)).0.serialOpen
    ensures QuietExtension(st.trace, Configure(st, Str(appeui), Str(appkey)).0.trace)
  {
    var c := CredentialsTrace(appeui, appkey);
    var m := SettingsTrace(Upcoming(st, 0).s);
    ConfigureRetxRefused(st, appeui, appkey);
    ConfigTracesQuiet(appeui, appkey, Upcoming(st, 0).s, false);
    QuietLog(st.trace, c + m);
    assert st.trace + c + m == st.trace + (c + m);
  }

  lemma ConfigureArQuiet(st: St, appeui: string, appkey: string)
    requires st.serialOpen && Upcoming(st, 0).Str? && Upcoming(st, 8) == Str("ok")
    ensures Configure(st, Str(appeui), Str(appkey)).0.serialOpen
    ensures QuietExtension(st.trace, Configure(st, Str(appeui), Str(appkey)).0.trace)
  {
    var saved := Upcoming(st, 11) == Str("off");
    var log := CredentialsTrace(appeui, appkey) + SettingsTrace(Upcoming(st, 0).s) + ArTrace(saved);
    ConfigTracesQuiet(appeui, appkey, Upcoming(st, 0).s, saved);
    QuietLog(st.trace, log);
    if saved {
      ConfigureSucceedsQuiet(st, appeui, appkey, log);
    } else {
      ConfigureArRefusedQuiet(st, appeui, appkey, log);
    }
  }

  lemma ConfigureArRefusedQuiet(st: St, appeui: string, appkey: string, log: seq<Event>)
    requires st.serialOpen && Upcoming(st, 0).Str? && Upcoming(st, 8) == Str("ok")
    requires Upcoming(st, 11) != Str("off")
    requires log == CredentialsTrace(appeui, appkey) + SettingsTrace(Upcoming(st, 0).s) + ArTrace(false)
    ensures Configure(st, Str(appeui), Str(appkey)).0.trace == st.trace + log
  {
    ConfigureArRefused(st, appeui, appkey);
  }

  lemma ConfigureSucceedsQuiet(st: St, appeui: string, appkey: string, log: seq<Event>)
    requires st.serialOpen && Upcoming(st, 0).Str? && Upcoming(st, 8) == Str("ok")
    requires Upcoming(st, 11) == Str("off")
    requires log == CredentialsTrace(appeui, appkey) + SettingsTrace(Upcoming(st, 0).s) + ArTrace(true)
    ensures Configure(st, Str(appeui), Str(appkey)).0.trace == st.trace + log
  {
    ConfigureSucceeds(st, appeui, appkey);
  }

  lemma {:induction false} UndecidedRoundsQuiet(j: nat)
    ensures forall e :: e in UndecidedRounds(j) ==> !e.Startup?
  {
    if j > 0 {
      UndecidedRoundsQuiet(j - 1);
    }
  }

  /** The join loop never touches the reset pin or the port. */
  lemma JoinLoopQuiet(st: St)
    requires st.serialOpen
    ensures JoinLoop(st, MaxJoinAttempts).0.serialOpen
    ensures QuietExtension(st.trace, JoinLoop(st, MaxJoinAttempts).0.trace)
  {
    JoinLoopClosedForm(st, MaxJoinAttempts);
    var j := LeadingUndecided(st, MaxJoinAttempts);
    UndecidedRoundsQuiet(j);
    var tail := [Sent(JoinCommand), Awaited(ShortTimeout), Awaited(LongTimeout)];
    QuietLog(st.trace, UndecidedRounds(j));
    QuietLog(st.trace, UndecidedRounds(j) + tail);
    assert st.trace + UndecidedRounds(j) + tail == st.trace + (UndecidedRounds(j) + tail);
  }

  /** The reset pulse and the port set-up happen only while `_ser` is
      `None`: on a closed link `init` starts with them and never repeats
      them; on an open link nothing `init` does is a startup, and a short
      startup then does nothing at all. */
  lemma InitStartsOnce(st: St, port: int, appeui: PyVal, appkey: PyVal, rst: int, shortStartup: bool)
    ensures var st' := Init(st, port, appeui, appkey, rst, shortStartup).0;
      && st'.serialOpen
      && (st.serialOpen ==> QuietExtension(st.trace, st'.trace))
      && (!st.serialOpen ==> QuietExtension(st.trace + [Startup(port, rst)], st'.trace))
      && (st.serialOpen && shortStartup ==> st' == st)
  {
    var st0 := if st.serialOpen then st else Open(st, port, rst);
    assert QuietExtension(st0.trace, st0.trace);
    if !shortStartup {
      ConfigureQuiet(st0, appeui, appkey);
      var st1 := Configure(st0, appeui, appkey).0;
      if Configure(st0, appeui, appkey).1.Ok? {
        JoinLoopQuiet(st1);
        QuietTransitive(st0.trace, st1.trace, JoinLoop(st1, MaxJoinAttempts).0.trace);
      }
    }
  }

  /** The same law for `init` as written: the startup happens only while
      `_ser` is `None` and is never repeated. On an open link a short
      startup is not honoured, so the whole configuration and join run, and
      none of it is a startup either. */
  lemma InitAsWrittenStartsOnce(st: St, port: int, appeui: PyVal, appkey: PyVal, rst: int, shortStartup: bool)
    ensures var st' := InitAsWritten(st, port, appeui, appkey, rst, shortStartup).0;
      && st'.serialOpen
      && (st.serialOpen ==> QuietExtension(st.trace, st'.trace))
      && (!st.serialOpen ==> QuietExtension(st.trace + [Startup(port, rst)], st'.trace))
  {
    if st.serialOpen && shortStartup {
      ConfigureQuiet(st, appeui, appkey);
      var st1 := Configure(st, appeui, appkey).0;
      if Configure(st, appeui, appkey).1.Ok? {
        JoinLoopQuiet(st1);
        QuietTransitive(st.trace, st1.trace, JoinLoop(st1, MaxJoinAttempts).0.trace);
      }
    } else {
      InitCorrectionAgrees(st, port, appeui, appkey, rst, shortStartup);
      InitStartsOnce(st, port, appeui, appkey, rst, shortStartup);
    }
  }

  /** A complete `init` as written, on a fresh link or an open one, with
      string credentials: after the startup, when the link was closed, it
      runs the thirteen configuration commands, the last of them
      `mac save`, and then the join loop, and returns whether it joined.
      This needs the EUI reply to be a string, the 9th reply `ok` and the
      12th `off`; the other replies end it earlier. */
  lemma InitConfiguresThenJoins(st: St, port: int, appeui: string, appkey: string, rst: int)
    requires Upcoming(st, 0).Str? && Upcoming(st, 8) == Str("ok") && Upcoming(st, 11) == Str("off")
    ensures var (st', r) := InitAsWritten(st, port, Str(appeui), Str(appkey), rst, false);
      var before := if st.serialOpen then st.trace else st.trace + [Startup(port, rst)];
      var cfg := st.(serialOpen := true, appeui := Str(appeui), appkey := Str(appkey),
                     deveui := Upcoming(st, 0), ar := Str("off"), cursor := st.cursor + 13,
                     trace := before + CredentialsTrace(appeui, appkey)
                              + SettingsTrace(Upcoming(st, 0).s) + ArTrace(true));
      && (st', r) == (JoinLoop(cfg, MaxJoinAttempts).0, Ok(Some(JoinLoop(cfg, MaxJoinAttempts).1)))
  {
    ConfigureSucceeds(if st.serialOpen then st else Open(st, port, rst), appeui, appkey);
  }

  /** The correction changes nothing for a full `init`, nor for a short
      startup on a link not yet open. */
  lemma InitCorrectionAgrees(st: St, port: int, appeui: PyVal, appkey: PyVal, rst: int, shortStartup: bool)
    requires !shortStartup || !st.serialOpen
    ensures Init(st, port, appeui, appkey, rst, shortStartup)
         == InitAsWritten(st, port, appeui, appkey, rst, shortStartup)
  {
  }

  /** `get_hweui(ser, rst)` as written, once `_ser` is set, runs the full
      configuration with `None` credentials: it overwrites `_appeui`,
      `_appkey` and `_deveui`, writes `sys get hweui` and `mac reset 868`,
      and then fails with `TypeError` on `'mac set appeui ' + None` instead of
      returning the EUI. */
  lemma GetHweuiAsWrittenFailsWhenOpen(st: St, port: int, rst: int)
    requires st.serialOpen
    ensures var (st', r) := GetHweuiAsWritten(st, Some(port), rst);
      && r == Err(TypeError)
      && st' == st.(appeui := PyNone, appkey := PyNone, deveui := Upcoming(st, 0),
                    cursor := st.cursor + 2,
                    trace := st.trace + [Sent("sys get hweui"), Awaited(ShortTimeout),
                                         Sent("mac reset 868"), Awaited(ShortTimeout)])
  {
    ConfigureCredentials(st, PyNone, PyNone);
    assert CredentialsTrace("", "")[..4] == [Sent("sys get hweui"), Awaited(ShortTimeout),
                                            Sent("mac reset 868"), Awaited(ShortTimeout)];
  }

  /** The corrected `get_hweui(ser, rst)` returns the module's reply to
      `sys get hweui`, opening the link first if needed, and leaves the
      credentials and `ar` alone. */
  lemma GetHweuiReturnsEui(st: St, port: int, rst: int)
    ensures var (st', r) := GetHweui(st, Some(port), rst);
      var before := if st.serialOpen then st.trace else st.trace + [Startup(port, rst)];
      && r == Ok(Upcoming(st, 0))
      && st' == st.(serialOpen := true, cursor := st.cursor + 1,
                    trace := before + [Sent("sys get hweui"), Awaited(ShortTimeout)])
  {
  }

  /** Without a port `get_hweui()` needs `init` to have run. */
  lemma GetHweuiNeedsLink(st: St, rst: int)
    requires !st.serialOpen
    ensures GetHweui(st, None, rst) == (st, Err(AttributeError))
    ensures GetHweuiAsWritten(st, None, rst) == (st, Err(AttributeError))
  {
  }
}
