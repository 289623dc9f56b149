/** The transmit engine of rn2483.py: `_tx`, with `tx_uncnf` and `tx_cnf`
    on top of it. */
module Transmit {
  import opened Wire
  import opened Base16
  import opened Link

  /** What `_tx` returns: `True`, `(True, bytearray)` after a downlink, or
      `None` when every attempt was answered `busy`. */
  datatype TxReply = Done | Downlink(payload: seq<Byte>) | FellThrough

  /** `range(10)` in `_tx`. */
  const MaxTxAttempts: nat := 10

  /** The completion read of `_tx`, after the module accepted the command:
      `mac_tx_ok` or `radio_tx_ok` is success, a `mac_rx` line carries the
      downlink in its last token; `RESP_TIMEOUT.startswith` is an
      `AttributeError`; any other line raises. */
  function Completion(res: PyVal): Result<TxReply> {
    if res == Str("mac_tx_ok") || res == Str("radio_tx_ok") then Ok(Done)
    else if !res.Str? then Err(AttributeError)
    else if StartsWith(res.s, "mac_rx") then
      match Decode(LastToken(res.s))
      case Ok(b) => Ok(Downlink(b))
      case Err(e) => Err(e)
    else Err(Rn2483Exception)
  }

  /** The loop of `_tx` with `attempts` iterations left. */
  function TxLoop(st: St, cmd: string, attempts: nat): (St, Result<TxReply>)
    requires st.serialOpen
    decreases attempts
  {
    if attempts == 0 then (st, Ok(FellThrough))
    else
      var (st1, res) := Exchange(st, cmd);
      if res == Str("ok") then
        var (st2, done) := Read(st1, LongTimeout);
        (st2, Completion(done))
      else if res != Str("busy") then (st1, Err(Rn2483Exception))
      else TxLoop(Sleep(st1, Backoff), cmd, attempts - 1)
  }

  /** `_tx(cmd)` */
  function Tx(st: St, cmd: string): (St, Result<TxReply>)
    requires st.serialOpen
  {
    TxLoop(st, cmd, MaxTxAttempts)
  }

  /** The command line `tx_uncnf` (`confirmed` false) or `tx_cnf` sends. */
  function TxCommand(data: Payload, confirmed: bool): string {
    (if confirmed then "mac tx cnf 1 " else "mac tx uncnf 1 ") + Encode(data)
  }

  /** `tx_uncnf(data)` and `tx_cnf(data)`; before `init` there is no link and
      the first write fails. */
  function Transmit(st: St, data: Payload, confirmed: bool): (St, Result<TxReply>) {
    if !st.serialOpen then (st, Err(AttributeError))
    else Tx(st, TxCommand(data, confirmed))
  }

  // ---------------------------------------------------------------------
  // The loop in closed form

  /** How many of the next replies, at most `n`, are `busy` in a row. */
  function LeadingBusy(script: seq<Incoming>, from: nat, n: nat): (j: nat)
    ensures j <= n
    ensures forall k :: from <= k < from + j ==> Answer(script, k) == Str("busy")
    ensures j < n ==> Answer(script, from + j) != Str("busy")
    decreases n
  {
    if n == 0 || Answer(script, from) != Str("busy") then 0
    else 1 + LeadingBusy(script, from + 1, n - 1)
  }

  /** The log of `j` attempts answered `busy`. */
  function BusyRounds(cmd: string, j: nat): (t: seq<Event>)
    ensures |t| == 3 * j
  {
    if j == 0 then [] else [Sent(cmd), Awaited(ShortTimeout), Slept(Backoff)] + BusyRounds(cmd, j - 1)
  }

  /** `_tx` in closed form. With j the number of leading `busy` replies:
      j attempts are spent on `busy`, each followed by a back-off; when all
      are spent the call returns `None`; otherwise the next first reply
      decides: anything but `ok` (a timeout included) raises at once, and
      `ok` is followed by exactly one long read whose classification is the
      result. Nothing but the link changes. */
  function TxClosed(st: St, cmd: string, n: nat): (St, Result<TxReply>) {
    var j := LeadingBusy(st.script, st.cursor, n);
    var rounds := st.trace + BusyRounds(cmd, j);
    if j == n then
      (st.(cursor := st.cursor + n, trace := rounds), Ok(FellThrough))
    else if Upcoming(st, j) != Str("ok") then
      (st.(cursor := st.cursor + j + 1, trace := rounds + [Sent(cmd), Awaited(ShortTimeout)]),
       Err(Rn2483Exception))
    else
      (st.(cursor := st.cursor + j + 2,
           trace := rounds + [Sent(cmd), Awaited(ShortTimeout), Awaited(LongTimeout)]),
       Completion(Upcoming(st, j + 1)))
  }

  /** The state after one attempt answered `busy` and its back-off. */
  function AfterBusy(st: St, cmd: string): St {
    st.(cursor := st.cursor + 1, trace := st.trace + [Sent(cmd), Awaited(ShortTimeout), Slept(Backoff)])
  }

  lemma TxLoopUnfold(st: St, cmd: string, n: nat)
    requires st.serialOpen && n > 0
    ensures Upcoming(st, 0) == Str("busy") ==> TxLoop(st, cmd, n) == TxLoop(AfterBusy(st, cmd), cmd, n - 1)
    ensures Upcoming(st, 0) != Str("busy") ==> TxLoop(st, cmd, n) == TxClosed(st, cmd, n)
  {
    assert Sleep(Exchange(st, cmd).0, Backoff) == AfterBusy(st, cmd);
    if Upcoming(st, 0) != Str("busy") {
      assert LeadingBusy(st.script, st.cursor, n) == 0;
      assert st.trace + BusyRounds(cmd, 0) == st.trace;
      assert Send(st, cmd, false).trace + [Awaited(ShortTimeout)] == st.trace + [Sent(cmd), Awaited(ShortTimeout)];
      var st1 := Exchange(st, cmd).0;
      assert Read(st1, LongTimeout).0.trace == st.trace + [Sent(cmd), Awaited(ShortTimeout), Awaited(LongTimeout)];
    }
  }

  lemma TxClosedBusy(st: St, cmd: string, n: nat)
    requires n > 0 && Upcoming(st, 0) == Str("busy")
    ensures TxClosed(st, cmd, n) == TxClosed(AfterBusy(st, cmd), cmd, n - 1)
  {
    var next := AfterBusy(st, cmd);
    var j := LeadingBusy(next.script, next.cursor, n - 1);
    assert LeadingBusy(st.script, st.cursor, n) == j + 1;
    assert Upcoming(next, j) == Upcoming(st, j + 1);
    assert Upcoming(next, j + 1) == Upcoming(st, j + 2);
    assert st.trace + BusyRounds(cmd, j + 1) == next.trace + BusyRounds(cmd, j);
  }

  /** The loop of `_tx` agrees with its closed form for every script. */
  lemma {:induction false} TxLoopClosedForm(st: St, cmd: string, n: nat)
    requires st.serialOpen
    ensures TxLoop(st, cmd, n) == TxClosed(st, cmd, n)
    decreases n
  {
    if n == 0 {
      assert st.trace + BusyRounds(cmd, 0) == st.trace;
    } else {
      TxLoopUnfold(st, cmd, n);
      if Upcoming(st, 0) == Str("busy") {
        TxLoopClosedForm(AfterBusy(st, cmd), cmd, n - 1);
        TxClosedBusy(st, cmd, n);
      }
    }
  }

  lemma OneRoundCommands(cmd: string)
    ensures Commands([Sent(cmd), Awaited(ShortTimeout), Slept(Backoff)]) == [cmd]
    ensures Commands([Sent(cmd), Awaited(ShortTimeout)]) == [cmd]
    ensures Commands([Sent(cmd), Awaited(ShortTimeout), Awaited(LongTimeout)]) == [cmd]
  {
    var r := [Sent(cmd), Awaited(ShortTimeout), Slept(Backoff)];
    assert Commands(r[2..]) == [] by { assert r[2..][1..] == []; }
    assert r[1..][1..] == r[2..];
    assert Commands(r[1..]) == [];
    var q := [Sent(cmd), Awaited(ShortTimeout)];
    assert Commands(q[1..]) == [] by { assert q[1..][1..] == []; }
    var w := [Sent(cmd), Awaited(ShortTimeout), Awaited(LongTimeout)];
    assert Commands(w[2..]) == [] by { assert w[2..][1..] == []; }
    assert w[1..][1..] == w[2..];
    assert Commands(w[1..]) == [];
  }

  lemma {:induction false} BusyRoundsCommands(cmd: string, j: nat)
    ensures Commands(BusyRounds(cmd, j)) == Repeat(cmd, j)
  {
    if j > 0 {
      var t := BusyRounds(cmd, j);
      CommandsAppend([Sent(cmd), Awaited(ShortTimeout), Slept(Backoff)], BusyRounds(cmd, j - 1));
      BusyRoundsCommands(cmd, j - 1);
      OneRoundCommands(cmd);
    }
  }

  /** `_tx` writes its command at least once and at most ten times, and
      writes nothing else. */
  lemma TxSendsAtMostTen(st: St, cmd: string)
    requires st.serialOpen
    ensures exists k ::
      && 1 <= k <= MaxTxAttempts
      && Commands(Tx(st, cmd).0.trace) == Commands(st.trace) + Repeat(cmd, k)
  {
    TxLoopClosedForm(st, cmd, MaxTxAttempts);
    var st' := Tx(st, cmd).0;
    var j := LeadingBusy(st.script, st.cursor, MaxTxAttempts);
    CommandsAppend(st.trace, BusyRounds(cmd, j));
    BusyRoundsCommands(cmd, j);
    if j == MaxTxAttempts {
      assert Commands(st'.trace) == Commands(st.trace) + Repeat(cmd, j);
    } else {
      var tail := if Upcoming(st, j) == Str("ok")
        then [Sent(cmd), Awaited(ShortTimeout), Awaited(LongTimeout)]
        else [Sent(cmd), Awaited(ShortTimeout)];
      assert st'.trace == (st.trace + BusyRounds(cmd, j)) + tail;
      CommandsAppend(st.trace + BusyRounds(cmd, j), tail);
      OneRoundCommands(cmd);
      assert Repeat(cmd, j) + [cmd] == Repeat(cmd, j + 1);
      assert Commands(st'.trace) == Commands(st.trace) + Repeat(cmd, j + 1);
    }
  }

  /** `_tx` falls out of its loop and returns `None` exactly when the first
      ten replies are all `busy`. */
  lemma TxFallsThroughIffAllBusy(st: St, cmd: string)
    requires st.serialOpen
    ensures Tx(st, cmd).1 == Ok(FellThrough) <==>
      forall i :: 0 <= i < MaxTxAttempts ==> Upcoming(st, i) == Str("busy")
  {
    TxLoopClosedForm(st, cmd, MaxTxAttempts);
    var j := LeadingBusy(st.script, st.cursor, MaxTxAttempts);
    if j < MaxTxAttempts && Upcoming(st, j) == Str("ok") {
      var done := Upcoming(st, j + 1);
      if done.Str? && StartsWith(done.s, "mac_rx") && done != Str("mac_tx_ok") && done != Str("radio_tx_ok") {
        assert Completion(done) != Ok(FellThrough);
      }
    }
  }

  /** A downlink `mac_rx <port> <hex>` returns the bytes the hex stands for. */
  lemma DownlinkPayload(port: string, hex: string)
    requires ' ' !in hex
    ensures Completion(Str("mac_rx " + port + " " + hex)) ==
      match Decode(hex) case Ok(b) => Ok(Downlink(b)) case Err(e) => Err(e)
  {
    var line := "mac_rx " + port + " " + hex;
    LastTokenAfterSpace("mac_rx " + port, hex);
    assert line[..6] == "mac_rx";
  }

  /** The hex on the wire after `mac tx uncnf 1 ` or `mac tx cnf 1 ` is the
      last token of the command and decodes back to the payload. */
  lemma TxCommandCarriesPayload(data: Payload, confirmed: bool)
    requires data.Text? ==> IsByteString(data.chars)
    ensures var hex := LastToken(TxCommand(data, confirmed));
      hex == Encode(data) && Decode(hex).Ok? && Decode(hex).value == Units(data)
  {
    var head := if confirmed then "mac tx cnf 1" else "mac tx uncnf 1";
    assert TxCommand(data, confirmed) == head + " " + Encode(data);
    EncodeHasNoSpace(data);
    LastTokenAfterSpace(head, Encode(data));
    DecodeEncodeUnits(Units(data));
  }

  /** The hex of a payload holds no space, so it stays one token. */
  lemma EncodeHasNoSpace(data: Payload)
    requires data.Text? ==> IsByteString(data.chars)
    ensures ' ' !in Encode(data)
  {
    EncodeLayout(data);
    forall j | 0 <= j < |Encode(data)| ensures Encode(data)[j] != ' ' {
      assert IsLowerHexDigit(Encode(data)[j]);
    }
  }
}
