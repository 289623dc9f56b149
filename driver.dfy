/** The driver as the program runs it: the globals of rn2483.py (`_ser`,
    `_appeui`, `_appkey`, `_deveui`, `ar`) and the link are the fields of one
    object, and every function of the module is a method that updates them
    in place. Each method is proved to do exactly what the function of the
    same name in Settings, Join or Transmit says, so every property proved
    of those functions holds of the running driver. `Init` and `GetHweui`
    follow the corrected `Join.Init` and `Join.GetHweui`; the lemmas about
    the code as written do not describe them. */
module Driver {
  import opened Wire
  import B = Base16
  import L = Link
  import S = Settings
  import J = Join
  import T = Transmit

  /** The completion read of `_tx`, classified; the downlink's hex is decoded
      by the loop of `_base16tobytearray`. */
  method ClassifyCompletion(res: PyVal) returns (r: Result<T.TxReply>)
    ensures r == T.Completion(res)
  {
    if res == Str("mac_tx_ok") || res == Str("radio_tx_ok") {
      return Ok(T.Done);
    }
    if !res.Str? {
      return Err(AttributeError);
    }
    if StartsWith(res.s, "mac_rx") {
      var bytes := B.Base16ToBytes(LastToken(res.s));
      match bytes
      case Ok(b) => return Ok(T.Downlink(b));
      case Err(e) => return Err(e);
    }
    return Err(Rn2483Exception);
  }

  class Rn2483 {
    var serialOpen: bool
    var appeui: PyVal
    var appkey: PyVal
    var deveui: PyVal
    var ar: PyVal
    var script: seq<L.Incoming>
    var cursor: nat
    var trace: seq<L.Event>

    /** The fields as one value. */
    function State(): L.St
      reads this
    {
      L.St(serialOpen, appeui, appkey, deveui, ar, script, cursor, trace)
    }

    /** The module as imported, with the replies the RN2483 will give. */
    constructor (replies: seq<L.Incoming>)
      ensures State() == L.Initial(replies)
    {
      serialOpen := false;
      appeui := PyNone;
      appkey := PyNone;
      deveui := PyNone;
      ar := PyNone;
      script := replies;
      cursor := 0;
      trace := [];
    }

    // -------------------------------------------------------------------
    // The link

    /** `_send(cmd, discard_resp)` */
    method Send(cmd: string, discardResp: bool)
      requires serialOpen
      modifies this
      ensures State() == L.Send(old(State()), cmd, discardResp)
    {
      trace := trace + [L.Sent(cmd)];
      if discardResp {
        var _ := Read(L.ShortTimeout);
      }
    }

    /** `_read(timeout)`: the next scripted reply, `RESP_TIMEOUT` on silence. */
    method Read(timeout: nat) returns (v: PyVal)
      requires serialOpen
      modifies this
      ensures (State(), v) == L.Read(old(State()), timeout)
    {
      v := L.Answer(script, cursor);
      cursor := cursor + 1;
      trace := trace + [L.Awaited(timeout)];
    }

    /** `sleep(ms)` */
    method Sleep(ms: nat)
      modifies this
      ensures State() == L.Sleep(old(State()), ms)
    {
      trace := trace + [L.Slept(ms)];
    }

    // -------------------------------------------------------------------
    // Single commands

    /** `set_retransmissions(n)` */
    method SetRetransmissions(n: int) returns (r: Result<()>)
      modifies this
      ensures (State(), r) == S.SetRetransmissions(old(State()), n)
    {
      if !serialOpen {
        return Err(AttributeError);
      }
      Send("mac set retx " + DecimalString(n), false);
      var res := Read(L.ShortTimeout);
      r := if res != Str("ok") then Err(Rn2483Exception) else Ok(());
    }

    /** `get_ar()` */
    method GetAr() returns (r: Result<()>)
      modifies this
      ensures (State(), r) == S.GetAr(old(State()))
    {
      if !serialOpen {
        return Err(AttributeError);
      }
      Send("mac get ar", false);
      ar := Read(L.ShortTimeout);
      r := Ok(());
    }

    /** `set_ar(state)` */
    method SetAr(state: string) returns (r: Result<()>)
      modifies this
      ensures (State(), r) == S.SetAr(old(State()), state)
    {
      if !serialOpen {
        return Err(AttributeError);
      }
      Send("mac set ar " + state, true);
      Send("mac get ar", false);
      ar := Read(L.ShortTimeout);
      r := if ar != Str(state) then Err(Rn2483Exception) else Ok(());
    }

    /** `get_duty_cycle(channel, raw = True)` */
    method GetDutyCycleRaw(channel: int) returns (r: Result<int>)
      modifies this
      ensures (State(), r) == S.GetDutyCycleRaw(old(State()), channel)
    {
      if !serialOpen {
        return Err(AttributeError);
      }
      Send("mac get ch dcycle " + DecimalString(channel), false);
      var res := Read(L.ShortTimeout);
      r := ParseDecimal(res);
    }

    /** `_pause()` */
    method Pause() returns (t: PyVal)
      requires serialOpen
      modifies this
      ensures (State(), t) == S.Pause(old(State()))
    {
      Send("mac pause", false);
      t := Read(L.ShortTimeout);
    }

    /** `_resume()` */
    method Resume() returns (res: PyVal)
      requires serialOpen
      modifies this
      ensures (State(), res) == S.Resume(old(State()))
    {
      Send("mac resume", false);
      res := Read(L.ShortTimeout);
    }

    /** The body of `get_snr` and `get_pwr`. */
    method RadioGet(param: string) returns (r: Result<int>)
      modifies this
      ensures (State(), r) == S.RadioGet(old(State()), param)
    {
      if !serialOpen {
        return Err(AttributeError);
      }
      var t := Pause();
      if t == Str("0") {
        return Err(Rn2483Exception);
      }
      Send("radio get " + param, false);
      var v := Read(L.ShortTimeout);
      var res := Resume();
      if res != Str("ok") {
        return Err(Rn2483Exception);
      }
      r := ParseDecimal(v);
    }

    /** `get_snr()` */
    method GetSnr() returns (r: Result<int>)
      modifies this
      ensures (State(), r) == S.GetSnr(old(State()))
    {
      r := RadioGet("snr");
    }

    /** `get_pwr()` */
    method GetPwr() returns (r: Result<int>)
      modifies this
      ensures (State(), r) == S.GetPwr(old(State()))
    {
      r := RadioGet("pwr");
    }

    // -------------------------------------------------------------------
    // init and get_hweui

    /** `get_hweui()` without a port. */
    method HweuiQuery() returns (r: Result<PyVal>)
      modifies this
      ensures (State(), r) == J.HweuiQuery(old(State()))
    {
      if !serialOpen {
        return Err(AttributeError);
      }
      Send("sys get hweui", false);
      var eui := Read(L.ShortTimeout);
      r := Ok(eui);
    }

    /** `init` from storing the credentials to `mac set appkey`. */
    method Configure(newAppeui: PyVal, newAppkey: PyVal) returns (r: Result<()>)
      requires serialOpen
      modifies this
      ensures (State(), r) == J.Configure(old(State()), newAppeui, newAppkey)
    {
      appeui := newAppeui;
      appkey := newAppkey;
      var q := HweuiQuery();
      deveui := q.value;
      Send("mac reset 868", true);
      if !appeui.Str? {
        return Err(TypeError);
      }
      Send("mac set appeui " + appeui.s, true);
      if !appkey.Str? {
        return Err(TypeError);
      }
      Send("mac set appkey " + appkey.s, true);
      r := ConfigureMac(deveui);
    }

    /** `init` from `mac set deveui` to `set_retransmissions(5)`. */
    method ConfigureMac(eui: PyVal) returns (r: Result<()>)
      requires serialOpen
      modifies this
      ensures (State(), r) == J.ConfigureMac(old(State()), eui)
    {
      if !eui.Str? {
        return Err(TypeError);
      }
      Send("mac set deveui " + eui.s, true);
      Send("mac set pwridx 1", true);
      Send("mac set adr off", true);
      Send("mac set rx2 3 869525000", true);
      var retx := SetRetransmissions(J.Retransmissions);
      if retx.Err? {
        return Err(retx.error);
      }
      r := ConfigureAr();
    }

    /** `init` from `get_ar()` to `mac save`. */
    method ConfigureAr() returns (r: Result<()>)
      requires serialOpen
      modifies this
      ensures (State(), r) == J.ConfigureAr(old(State()))
    {
      var _ := GetAr();
      var arSet := SetAr("off");
      if arSet.Err? {
        return Err(arSet.error);
      }
      Send("mac save", true);
      r := Ok(());
    }

    /** The join loop of `init`: at most three attempts. */
    method JoinLoop() returns (joined: bool)
      requires serialOpen
      modifies this
      ensures (State(), joined) == J.JoinLoop(old(State()), J.MaxJoinAttempts)
    {
      joined := false;
      var i := 0;
      while i < J.MaxJoinAttempts
        invariant 0 <= i <= J.MaxJoinAttempts && serialOpen
        invariant J.JoinLoop(old(State()), J.MaxJoinAttempts) == J.JoinLoop(State(), J.MaxJoinAttempts - i)
      {
        Send(J.JoinCommand, true);
        var res := Read(L.LongTimeout);
        if res != RespTimeout {
          if StartsWith(res.s, "accepted") {
            joined := true;
            break;
          } else if StartsWith(res.s, "denied") {
            break;
          }
        }
        Sleep(L.Backoff);
        i := i + 1;
      }
    }

    /** `init(ser, appeui, appkey, rst, short_startup)`, with a short startup
        returning at once whether or not the link was open already. */
    method Init(port: int, newAppeui: PyVal, newAppkey: PyVal, rst: int, shortStartup: bool)
      returns (r: Result<Option<bool>>)
      modifies this
      ensures (State(), r) == J.Init(old(State()), port, newAppeui, newAppkey, rst, shortStartup)
    {
      if !serialOpen {
        serialOpen := true;
        trace := trace + [L.Startup(port, rst)];
      }
      if shortStartup {
        return Ok(None);
      }
      r := ConfigureAndJoin(newAppeui, newAppkey);
    }

    /** The rest of a full `init`: configure, then try to join. */
    method ConfigureAndJoin(newAppeui: PyVal, newAppkey: PyVal) returns (r: Result<Option<bool>>)
      requires serialOpen
      modifies this
      ensures (State(), r) == J.ConfigureAndJoin(old(State()), newAppeui, newAppkey)
    {
      var configured := Configure(newAppeui, newAppkey);
      if configured.Err? {
        return Err(configured.error);
      }
      var joined := JoinLoop();
      r := Ok(Some(joined));
    }

    /** `get_hweui(ser, rst)` */
    method GetHweui(ser: Option<int>, rst: int) returns (r: Result<PyVal>)
      modifies this
      ensures (State(), r) == J.GetHweui(old(State()), ser, rst)
    {
      if ser.Some? {
        var started := Init(ser.value, PyNone, PyNone, rst, true);
        if started.Err? {
          return Err(started.error);
        }
      }
      r := HweuiQuery();
    }

    // -------------------------------------------------------------------
    // Transmission

    /** `_tx(cmd)`: at most ten attempts, backing off after each `busy`. */
    method Tx(cmd: string) returns (r: Result<T.TxReply>)
      requires serialOpen
      modifies this
      ensures (State(), r) == T.Tx(old(State()), cmd)
    {
      var i := 0;
      while i < T.MaxTxAttempts
        invariant 0 <= i <= T.MaxTxAttempts && serialOpen
        invariant T.Tx(old(State()), cmd) == T.TxLoop(State(), cmd, T.MaxTxAttempts - i)
      {
        Send(cmd, false);
        var res := Read(L.ShortTimeout);
        if res == Str("ok") {
          var done := Read(L.LongTimeout);
          r := ClassifyCompletion(done);
          return;
        }
        if res != Str("busy") {
          return Err(Rn2483Exception);
        }
        Sleep(L.Backoff);
        i := i + 1;
      }
      r := Ok(T.FellThrough);
    }

    /** `tx_uncnf(data)` (`confirmed` false) and `tx_cnf(data)`. */
    method Transmit(data: B.Payload, confirmed: bool) returns (r: Result<T.TxReply>)
      modifies this
      ensures (State(), r) == T.Transmit(old(State()), data, confirmed)
    {
      var hex := B.Base16Encode(data);
      if !serialOpen {
        return Err(AttributeError);
      }
      var head := if confirmed then "mac tx cnf 1 " else "mac tx uncnf 1 ";
      r := Tx(head + hex);
    }
  }
}
