/** The single-command operations of rn2483.py: the verified setters
    `set_retransmissions` and `set_ar`, `get_ar`, `get_duty_cycle` in its raw
    mode, and the `mac pause` / `mac resume` bracket of `get_snr` and
    `get_pwr`. Each raises `AttributeError` before `init` opened the link. */
module Settings {
  import opened Wire
  import opened Link

  /** `set_retransmissions(n)`: the reply must be `ok`. */
  function SetRetransmissions(st: St, n: int): (St, Result<()>) {
    if !st.serialOpen then (st, Err(AttributeError))
    else
      var st1 := Exchange(st, "mac set retx " + DecimalString(n)).0;
      var res := Exchange(st, "mac set retx " + DecimalString(n)).1;
      (st1, if res != Str("ok") then Err(Rn2483Exception) else Ok(()))
  }

  /** `get_ar()`: the reply, whatever it is, becomes the global `ar`. */
  function GetAr(st: St): (St, Result<()>) {
    if !st.serialOpen then (st, Err(AttributeError))
    else
      var st1 := Exchange(st, "mac get ar").0;
      var res := Exchange(st, "mac get ar").1;
      (st1.(ar := res), Ok(()))
  }

  /** `set_ar(state)`: write, read back into `ar`, raise on a mismatch. */
  function SetAr(st: St, state: string): (St, Result<()>) {
    if !st.serialOpen then (st, Err(AttributeError))
    else
      var st1 := Send(st, "mac set ar " + state, true);
      var st2 := Exchange(st1, "mac get ar").0;
      var res := Exchange(st1, "mac get ar").1;
      (st2.(ar := res), if res != Str(state) then Err(Rn2483Exception) else Ok(()))
  }

  /** `get_duty_cycle(channel, raw = True)`: `int` of the reply. */
  function GetDutyCycleRaw(st: St, channel: int): (St, Result<int>) {
    if !st.serialOpen then (st, Err(AttributeError))
    else
      var st1 := Exchange(st, "mac get ch dcycle " + DecimalString(channel)).0;
      var res := Exchange(st, "mac get ch dcycle " + DecimalString(channel)).1;
      (st1, ParseDecimal(res))
  }

  /** `_pause()`: the reply is the time the MAC layer stays paused. */
  function Pause(st: St): (St, PyVal)
    requires st.serialOpen
  {
    Exchange(st, "mac pause")
  }

  /** `_resume()` */
  function Resume(st: St): (St, PyVal)
    requires st.serialOpen
  {
    Exchange(st, "mac resume")
  }

  /** The body shared by `get_snr` (`param` "snr") and `get_pwr` ("pwr"):
      pause, give up if no pause was granted, one radio query, resume, and
      raise unless the resume was acknowledged; the query's reply is then
      read as an integer. */
  function RadioGet(st: St, param: string): (St, Result<int>) {
    if !st.serialOpen then (st, Err(AttributeError))
    else
      var st1 := Pause(st).0;
      var t := Pause(st).1;
      if t == Str("0") then (st1, Err(Rn2483Exception))
      else
        var st2 := Exchange(st1, "radio get " + param).0;
        var v := Exchange(st1, "radio get " + param).1;
        var st3 := Resume(st2).0;
        var res := Resume(st2).1;
        (st3, if res != Str("ok") then Err(Rn2483Exception) else ParseDecimal(v))
  }

  /** `get_snr()` */
  function GetSnr(st: St): (St, Result<int>) {
    RadioGet(st, "snr")
  }

  /** `get_pwr()` */
  function GetPwr(st: St): (St, Result<int>) {
    RadioGet(st, "pwr")
  }

  // ---------------------------------------------------------------------

  /** `set_retransmissions` sends one command carrying `n` in decimal and
      raises exactly when the reply is not `ok`; nothing but the link changes. */
  lemma SetRetransmissionsOutcome(st: St, n: int)
    requires st.serialOpen
    ensures var (st', r) := SetRetransmissions(st, n);
      && st' == st.(cursor := st.cursor + 1,
                    trace := st.trace + [Sent("mac set retx " + DecimalString(n)), Awaited(ShortTimeout)])
      && (r.Err? <==> Upcoming(st, 0) != Str("ok"))
      && (r.Err? ==> r.error == Rn2483Exception)
  {
  }

  /** The count written by `set_retransmissions(n)` is the last token of its
      command and reads back as `n`. */
  lemma RetransmissionsOnTheWire(n: int)
    ensures ParseDecimal(Str(LastToken("mac set retx " + DecimalString(n)))) == Ok(n)
  {
    var d := DecimalString(n);
    assert ' ' !in d by {
      if n < 0 {
        assert d == "-" + NatString(-n);
        forall i | 0 <= i < |d| ensures d[i] != ' ' {
          if i > 0 { assert d[i] == NatString(-n)[i - 1]; }
        }
      } else {
        forall i | 0 <= i < |d| ensures d[i] != ' ' {
          assert IsDecimalDigit(d[i]);
        }
      }
    }
    assert "mac set retx " + d == "mac set retx" + " " + d;
    LastTokenAfterSpace("mac set retx", d);
    ParseDecimalString(n);
  }

  /** After `set_ar(state)` the global `ar` holds what `mac get ar` answered,
      and the call raises exactly when that differs from `state`. */
  lemma SetArOutcome(st: St, state: string)
    requires st.serialOpen
    ensures var (st', r) := SetAr(st, state);
      && st' == st.(ar := Upcoming(st, 1), cursor := st.cursor + 2,
                    trace := st.trace + [Sent("mac set ar " + state), Awaited(ShortTimeout),
                                         Sent("mac get ar"), Awaited(ShortTimeout)])
      && (r.Err? <==> Upcoming(st, 1) != Str(state))
      && (r.Err? ==> r.error == Rn2483Exception)
  {
  }

  /** `get_ar` stores the reply in `ar`, a timeout as `RESP_TIMEOUT`. */
  lemma GetArOutcome(st: St)
    requires st.serialOpen
    ensures var (st', r) := GetAr(st);
      && r == Ok(())
      && st' == st.(ar := Upcoming(st, 0), cursor := st.cursor + 1,
                    trace := st.trace + [Sent("mac get ar"), Awaited(ShortTimeout)])
  {
  }

  /** The raw duty cycle is the reply read as an integer: a reply
      `str(k)` gives k, a timeout gives -1 rather than an error. */
  lemma DutyCycleRawOutcome(st: St, channel: int)
    requires st.serialOpen
    ensures var (st', r) := GetDutyCycleRaw(st, channel);
      && st' == st.(cursor := st.cursor + 1,
                    trace := st.trace + [Sent("mac get ch dcycle " + DecimalString(channel)),
                                         Awaited(ShortTimeout)])
      && (forall k: int :: Upcoming(st, 0) == Str(DecimalString(k)) ==> r == Ok(k))
      && (Upcoming(st, 0) == RespTimeout ==> r == Ok(-1))
  {
    forall k: int | Upcoming(st, 0) == Str(DecimalString(k))
      ensures GetDutyCycleRaw(st, channel).1 == Ok(k)
    {
      ParseDecimalString(k);
    }
  }

  /** The pause bracket of `get_snr`/`get_pwr`. A pause answered '0' raises
      at once, without a query and without `mac resume`. Otherwise exactly
      `mac pause`, `radio get <param>`, `mac resume` are written, one reply
      read after each; the call raises when the resume is not acknowledged,
      and otherwise returns the query's reply as an integer. */
  lemma RadioGetBracket(st: St, param: string)
    requires st.serialOpen
    ensures var (st', r) := RadioGet(st, param);
      && st' == st.(cursor := st'.cursor, trace := st'.trace)
      && (Upcoming(st, 0) == Str("0") ==>
            && r == Err(Rn2483Exception)
            && st'.cursor == st.cursor + 1
            && st'.trace == st.trace + [Sent("mac pause"), Awaited(ShortTimeout)])
      && (Upcoming(st, 0) != Str("0") ==>
            && st'.cursor == st.cursor + 3
            && st'.trace == st.trace + [Sent("mac pause"), Awaited(ShortTimeout),
                                        Sent("radio get " + param), Awaited(ShortTimeout),
                                        Sent("mac resume"), Awaited(ShortTimeout)]
            && (Upcoming(st, 2) != Str("ok") ==> r == Err(Rn2483Exception))
            && (Upcoming(st, 2) == Str("ok") ==> r == ParseDecimal(Upcoming(st, 1))))
  {
  }

  /** A radio query that times out is returned as the reading -1, which lies
      inside the documented ranges of both SNR and power. */
  lemma RadioGetTimeoutReadsMinusOne(st: St, param: string)
    requires st.serialOpen
    requires Upcoming(st, 0) != Str("0") && Upcoming(st, 1) == RespTimeout
    requires Upcoming(st, 2) == Str("ok")
    ensures RadioGet(st, param).1 == Ok(-1)
  {
  }

  /** Before `init` opened the link every operation here raises
      `AttributeError` and changes nothing. */
  lemma ClosedLinkRaises(st: St, n: int, state: string, param: string)
    requires !st.serialOpen
    ensures SetRetransmissions(st, n) == (st, Err(AttributeError))
    ensures GetAr(st) == (st, Err(AttributeError))
    ensures SetAr(st, state) == (st, Err(AttributeError))
    ensures GetDutyCycleRaw(st, n) == (st, Err(AttributeError))
    ensures RadioGet(st, param) == (st, Err(AttributeError))
  {
  }
}
