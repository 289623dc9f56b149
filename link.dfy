/** The driver's state and its serial link, as values. The module globals of
    rn2483.py (`_ser`, `_appeui`, `_appkey`, `_deveui`, `ar`) become fields;
    the link becomes the module's scripted replies, a cursor into them, and a
    log of what the driver did on the wire. */
module Link {
  import opened Wire

  /** One scripted reply of the module: a line (without its CR LF) or silence
      for as long as the driver waits. */
  datatype Incoming = Line(text: string) | Silence

  /** What the driver does on the link, in order. */
  datatype Event =
    | Startup(port: int, rst: int)  // reset pulse on `rst`, `port` opened at 57600 baud
    | Sent(cmd: string)             // `_ser.write(cmd + '\r\n')`
    | Awaited(timeout: nat)         // one `_read(timeout)`
    | Slept(ms: nat)                // `sleep(ms)`

  /** The driver's globals and its link. `serialOpen` is `_ser is not None`;
      `cursor` counts the reads done so far. */
  datatype St = St(
    serialOpen: bool,
    appeui: PyVal,
    appkey: PyVal,
    deveui: PyVal,
    ar: PyVal,
    script: seq<Incoming>,
    cursor: nat,
    trace: seq<Event>)

  /** The default timeout of `_read`, in ms. */
  const ShortTimeout: nat := 2000
  /** The timeout of the reads that wait for a join or a transmission. */
  const LongTimeout: nat := 30000
  /** The pause between two attempts of a retry loop, in ms. */
  const Backoff: nat := 1000

  /** The state before the first call: nothing opened, every global `None`. */
  function Initial(script: seq<Incoming>): St {
    St(false, PyNone, PyNone, PyNone, PyNone, script, 0, [])
  }

  /** What the read at position k of the script returns: the line, or
      `RESP_TIMEOUT` on silence or once the script is used up. */
  function Answer(script: seq<Incoming>, k: nat): (v: PyVal)
    ensures v == RespTimeout || v.Str?
  {
    if k < |script| && script[k].Line? then Str(script[k].text) else RespTimeout
  }

  /** What the k-th read from now returns. */
  function Upcoming(st: St, k: nat): PyVal {
    Answer(st.script, st.cursor + k)
  }

  /** `_read(timeout)` */
  function Read(st: St, timeout: nat): (St, PyVal)
    requires st.serialOpen
  {
    (st.(cursor := st.cursor + 1, trace := st.trace + [Awaited(timeout)]), Upcoming(st, 0))
  }

  /** `_send(cmd, discard_resp)`: write the line, and read one reply and drop
      it when asked to. */
  function Send(st: St, cmd: string, discardResp: bool): St
    requires st.serialOpen
  {
    var written := st.(trace := st.trace + [Sent(cmd)]);
    if discardResp then Read(written, ShortTimeout).0 else written
  }

  /** `_send(cmd)` followed by `_read()`: one command and its reply. */
  function Exchange(st: St, cmd: string): (St, PyVal)
    requires st.serialOpen
  {
    Read(Send(st, cmd, false), ShortTimeout)
  }

  /** `sleep(ms)` */
  function Sleep(st: St, ms: nat): St {
    st.(trace := st.trace + [Slept(ms)])
  }

  /** The pin toggle and `streams.serial(...)` that run while `_ser` is `None`. */
  function Open(st: St, port: int, rst: int): St {
    st.(serialOpen := true, trace := st.trace + [Startup(port, rst)])
  }

  /** The command lines a log holds, in order. */
  function Commands(t: seq<Event>): seq<string> {
    if t == [] then [] else (if t[0].Sent? then [t[0].cmd] else []) + Commands(t[1..])
  }

  /** `n` copies of one command. */
  function Repeat(cmd: string, n: nat): (r: seq<string>)
    ensures |r| == n && forall i :: 0 <= i < n ==> r[i] == cmd
  {
    seq(n, _ => cmd)
  }

  lemma {:induction false} CommandsAppend(a: seq<Event>, b: seq<Event>)
    ensures Commands(a + b) == Commands(a) + Commands(b)
  {
    if a != [] {
      assert (a + b)[0] == a[0];
      assert (a + b)[1..] == a[1..] + b;
      CommandsAppend(a[1..], b);
      var h := if a[0].Sent? then [a[0].cmd] else [];
      calc {
        Commands(a + b);
        h + Commands(a[1..] + b);
        h + (Commands(a[1..]) + Commands(b));
        (h + Commands(a[1..])) + Commands(b);
      }
    } else {
      assert a + b == b;
    }
  }

  /** An exchange writes its command and takes the next reply, and touches
      nothing but the link. */
  lemma ExchangeEffect(st: St, cmd: string)
    requires st.serialOpen
    ensures Exchange(st, cmd).1 == Upcoming(st, 0)
    ensures Exchange(st, cmd).0 ==
      st.(cursor := st.cursor + 1, trace := st.trace + [Sent(cmd), Awaited(ShortTimeout)])
  {
  }
}
