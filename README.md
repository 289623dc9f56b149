# RN2483 LoRaWAN driver: a verified model

This project models the protocol engine of `rn2483.py`. That is the Zerynth driver for the Microchip RN2483 LoRa module. It drives the module over a serial line with text commands: `mac set …`, `mac join otaa`, `mac tx …`, `mac pause`, `radio get …`. It reads back one line per command, and a second line, with a 30 s timeout, after `mac join otaa` and after a `mac tx` answered `ok`.

The model covers the following:

- **The link.** `_send` and `_read` are modelled as a script of the module's replies, a cursor into the script, and a log of what the driver did. Each scripted reply is a line or silence. The log records lines written, reads with their timeouts, `sleep`s, and the one-time startup. A read past the script, or on silence, returns `RESP_TIMEOUT` (-1), just as `_read` does when no line arrives in time.
- **Python values.** The globals `_ser`, `_appeui`, `_appkey`, `_deveui` and `ar` hold `None`, a string or an integer. The model keeps this, so that:
  - `'mac set appeui ' + None` is a `TypeError`;
  - `RESP_TIMEOUT.startswith(...)` is an `AttributeError`;
  - `int(RESP_TIMEOUT)` is -1;
  - a call before `init` fails on `_ser.write` with an `AttributeError`.
- **The payload codec.** `_2str`, `_base16encode` and `_base16tobytearray` implement Base16 as in section 8 of RFC 4648. Output uses lower-case digits; input accepts either case.
- **`_tx`, `tx_uncnf` and `tx_cnf`.** Ten attempts at most, with a one-second back-off after each `busy`. An `ok` is followed by a 30 s read for `mac_tx_ok`, `radio_tx_ok` or `mac_rx <port> <hex>`.
- **`init`.**
  - The reset pulse and port opening happen only while `_ser` is `None`.
  - Then come the thirteen configuration commands, with the `set_retransmissions` and `set_ar` checks, the last of them `mac save`.
  - Then a join loop of at most three attempts.
- **Single commands.** `get_hweui`, `get_ar`, `set_ar`, `set_retransmissions`, `get_duty_cycle` in raw mode, and the `mac pause` / `mac resume` bracket of `get_snr` and `get_pwr`.

The model has two layers:

- **The specification layer** describes every operation as a function from the driver's state to a new state and a result: modules `Link`, `Settings`, `Join` and `Transmit`. The lemmas there give:
  - the closed forms of both retry loops;
  - the exact command sequences;
  - the error cases;
  - the codec's round trip.
- **The running driver** is module `Driver`. Class `Rn2483` holds the module's globals and the link as fields, and its methods update them in place. The loops of `_tx`, the join loop and the codec are `while`/`for` loops with invariants. Every method is proved to leave the object in exactly the state, and return exactly the result, that the specification function gives. So every lemma about a function a method implements holds of the driver. `Init` and `GetHweui` implement the corrected `Join.Init` and `Join.GetHweui`, so `Join.InitAsWrittenStartsOnce` and `Join.GetHweuiAsWrittenFailsWhenOpen` describe `rn2483.py`, not the class. `Join.InitConfiguresThenJoins` covers both, since a full `init` is the same either way (`Join.InitCorrectionAgrees`).

Files:

| file | module | contents |
|---|---|---|
| wire.dfy | Wire | Python values, exceptions, `startswith`, `split(' ')[-1]`, `str`/`int` of integers |
| base16.dfy | Base16 | `_2str`, `_base16encode`, `_base16tobytearray` |
| link.dfy | Link | driver state, `_send`, `_read`, `sleep`, the startup |
| settings.dfy | Settings | `set_retransmissions`, `get_ar`, `set_ar`, `get_duty_cycle`, `_pause`, `_resume`, `get_snr`, `get_pwr` |
| transmit.dfy | Transmit | `_tx`, `tx_uncnf`, `tx_cnf` |
| join.dfy | Join | `init`, its configuration sequence and join loop, `get_hweui` |
| driver.dfy | Driver | the class `Rn2483` and its methods |

Three behaviours of the code are worth knowing, and the model keeps each as written:

- `_base16tobytearray` ignores a trailing odd character. A strict Base16 decoder as in section 8 of RFC 4648 would reject that input.
- `_tx` returns `None` after ten `busy` replies. It does not raise.
- `init` overwrites `_appeui`, `_appkey` and `_deveui` on every call.

## Model

| member | source | states |
|---|---|---|
| Wire.LastToken | rn2483.py:300 | `res.split(' ')[-1]` is the suffix after the last space: a suffix of the line, containing no space, and preceded by a space unless it is the whole line |
| Wire.ParseDecimalString | rn2483.py:117 | `int(str(n)) == n` for every integer, negative ones included |
| Base16.EncodeUnitByte | rn2483.py:235-239 | for a value below 256, `_2str(hex(n))` is exactly two lower-case hex digits that read back as n |
| Base16.EncodeUnitWide | rn2483.py:235-239 | a value of 256 or more takes at least four characters and starts with `'0'`, so the two-characters-per-element layout only holds for bytes |
| Base16.EncodeLayout | rn2483.py:241-248 | `_base16encode` of a byte string or bytearray of length n has length 2n, only lower-case hex digits, and element i at positions 2i and 2i+1 |
| Base16.Base16Encode | rn2483.py:241-248 | the accumulating loop returns the encoding of the whole input |
| Base16.DecodeSpec | rn2483.py:250-255 | decoding succeeds iff every full pair is two hex digits; it then yields `len(s)//2` bytes, byte k being the value of characters 2k and 2k+1; its only error is `ValueError` |
| Base16.DecodeIgnoresOddTail | rn2483.py:250-255 | a trailing odd character never changes the decoded bytes |
| Base16.DecodeEncode | rn2483.py:241-255 | `_base16tobytearray(_base16encode(b)) == b` for every bytearray, and gives the character codes of every byte string |
| Base16.Base16ToBytes | rn2483.py:250-255 | filling a `bytearray(len(s)//2)` in place pair by pair returns the decoding, or the `ValueError` of the first bad pair |
| Base16.DecodeHello | rn2483.py:300 | the downlink hex `48656c6c6f` decodes to the bytes of `Hello` |
| Link.Answer | rn2483.py:74-80 | a read yields either a received line or `RESP_TIMEOUT` |
| Link.ExchangeEffect | rn2483.py:69-80 | `_send(cmd)` then `_read()` logs the command and one read, and returns the next reply; nothing else changes |
| Settings.SetRetransmissionsOutcome | rn2483.py:150-160 | `set_retransmissions(n)` writes one command and reads one reply; it raises `rn2483Exception` iff that reply is not `ok` |
| Settings.RetransmissionsOnTheWire | rn2483.py:158 | the count written by `set_retransmissions(n)` is the command's last token, and it reads back as n |
| Settings.GetArOutcome | rn2483.py:123-133 | `get_ar()` stores the reply, or `RESP_TIMEOUT`, in `ar`; it never raises on an open link |
| Settings.SetArOutcome | rn2483.py:135-148 | after `set_ar(state)`, `ar` holds the read-back value; the call raises iff that value differs from `state`; exactly two commands are written |
| Settings.DutyCycleRawOutcome | rn2483.py:108-119 | the raw duty cycle is the reply read as an integer: `str(k)` gives k, and a timeout gives -1 |
| Settings.RadioGetBracket | rn2483.py:310-362 | `get_snr`/`get_pwr`: a pause reply `'0'` raises after `mac pause` alone, with no `mac resume`; otherwise exactly `mac pause`, `radio get <param>` and `mac resume` are written; the call raises `rn2483Exception` iff the resume is not `ok`; otherwise it returns `int` of the query's reply, which is a `ValueError` when that reply is not a number |
| Settings.RadioGetTimeoutReadsMinusOne | rn2483.py:321-329 | a radio query that times out is returned as the reading -1 |
| Settings.ClosedLinkRaises | rn2483.py:69-70 | before `init` opens the link, every setter and getter raises `AttributeError` and changes nothing |
| Transmit.TxLoopClosedForm | rn2483.py:283-307 | `_tx` spends one attempt and one back-off on each leading `busy` and returns `None` when all ten are spent; otherwise the next first reply decides: anything but `ok` (a timeout included) raises at once, and `ok` is followed by exactly one 30 s read whose classification is the result |
| Transmit.TxSendsAtMostTen | rn2483.py:285-287 | `_tx` writes its command at least once and at most ten times, and nothing else |
| Transmit.TxFallsThroughIffAllBusy | rn2483.py:283-307 | `_tx` returns `None` iff the first ten replies are all `busy` |
| Transmit.DownlinkPayload | rn2483.py:293-300 | a completion line `mac_rx <port> <hex>` returns the decoded bytes of `<hex>` |
| Transmit.TxCommandCarriesPayload | rn2483.py:257-281 | the hex that `tx_uncnf`/`tx_cnf` send is the command's last token and decodes back to the payload |
| Join.ConfigureCredentials | rn2483.py:196-204 | `init` stores both credentials and the EUI reply; with a non-string `appeui` it raises `TypeError` after `sys get hweui` and `mac reset 868`; with a non-string `appkey` it raises after `mac set appeui`; otherwise the settings follow |
| Join.ConfigureReachesSettings | rn2483.py:196-204 | with string credentials the first four commands run, each followed by one read |
| Join.ConfigureMacOutcome | rn2483.py:206-214 | a timed-out EUI query makes `mac set deveui` a `TypeError` before anything is written; otherwise five commands run, and the `ar` part follows iff `mac set retx 5` got `ok` |
| Join.ConfigureArOutcome | rn2483.py:215-218 | `ar` ends with the second read-back; `mac save` is written iff it reads `off`, and otherwise `init` raises |
| Join.ConfigureWithoutEui | rn2483.py:198-206 | a timed-out `sys get hweui` fails `init` with `TypeError` after the four credential commands |
| Join.ConfigureRetxRefused | rn2483.py:196-214 | an unacknowledged retransmission setting raises after nine commands, before `ar` is touched |
| Join.ConfigureArRefused | rn2483.py:196-218 | an `ar` read-back other than `off` is left in `ar` and raises after twelve commands, before `mac save` |
| Join.ConfigureSucceeds | rn2483.py:196-218 | on success the thirteen configuration commands are written in their fixed order, one read after each, and `ar` reads `off` |
| Join.ConfigureQuiet | rn2483.py:196-218 | the configuration never toggles the reset pin or reopens the port |
| Join.JoinLoopClosedForm | rn2483.py:220-233 | each leading attempt without a verdict costs one join command, two reads and a back-off; the loop stops at the first verdict, joined iff it is `accepted`, and gives up after three |
| Join.JoinedIffAccepted | rn2483.py:220-233 | `init` reports a join iff some attempt within the three is answered `accepted` and no earlier attempt got a verdict; `denied` ends the loop unjoined |
| Join.JoinSendsAtMostThree | rn2483.py:222-223 | the join loop writes `mac join otaa` at least once and at most three times, and nothing else |
| Join.JoinLoopQuiet | rn2483.py:220-233 | the join loop never toggles the reset pin or reopens the port |
| Join.InitAsWrittenStartsOnce | rn2483.py:181-194 | `init` as written starts up only while `_ser` is `None`: on a closed link it begins with the startup and never repeats it; on an open link nothing it does is a startup, a short startup included, which there runs the whole configuration |
| Join.InitStartsOnce | rn2483.py:181-196 | the same law for the corrected `init`, which also checks `short_startup` on an open link and then changes nothing |
| Join.InitConfiguresThenJoins | rn2483.py:181-233 | a full `init` as written, on a fresh import (startup first) or an open link, with string credentials, whose EUI reply is a string, whose 9th reply (to `mac set retx 5`) is `ok` and whose 12th (the `ar` read-back) is `off`, runs the thirteen configuration commands, the last of them `mac save`, then the join loop, and returns whether it joined; the other replies end it earlier, as `Join.ConfigureWithoutEui`, `Join.ConfigureRetxRefused` and `Join.ConfigureArRefused` state |
| Join.InitCorrectionAgrees | rn2483.py:181-194 | the corrected `init` agrees with the code for every full `init` and for a short startup on a closed link |
| Join.GetHweuiAsWrittenFailsWhenOpen | rn2483.py:93-94 | as written, `get_hweui(ser, rst)` with the port already open overwrites the credentials with `None`, writes `sys get hweui` and `mac reset 868`, and raises `TypeError` |
| Join.GetHweuiReturnsEui | rn2483.py:82-96 | the corrected `get_hweui(ser, rst)` returns the reply to `sys get hweui`, opening the port first if needed, and changes nothing else |
| Join.GetHweuiNeedsLink | rn2483.py:93-96 | `get_hweui()` without a port raises `AttributeError` before `init` |
| Driver.ClassifyCompletion | rn2483.py:288-302 | the completion read is classified as `Transmit.Completion` says, decoding a downlink with the `_base16tobytearray` loop |
| Driver.Rn2483.constructor | rn2483.py:56-61 | on import every global is `None` and nothing has been written |
| Driver.Rn2483.Send | rn2483.py:69-72 | `_send` appends the command to the log and, when discarding, performs one read |
| Driver.Rn2483.Read | rn2483.py:74-80 | `_read` consumes the next reply and logs its timeout |
| Driver.Rn2483.Sleep | rn2483.py:307 | `sleep(1000)` is logged and changes nothing else |
| Driver.Rn2483.SetRetransmissions | rn2483.py:150-160 | updates the object as `Settings.SetRetransmissions` does, so `Settings.SetRetransmissionsOutcome` holds of it |
| Driver.Rn2483.GetAr | rn2483.py:123-133 | updates `ar` and the link as `Settings.GetAr` does |
| Driver.Rn2483.SetAr | rn2483.py:135-148 | updates `ar` and the link as `Settings.SetAr` does |
| Driver.Rn2483.GetDutyCycleRaw | rn2483.py:108-119 | returns what `Settings.GetDutyCycleRaw` returns |
| Driver.Rn2483.Pause | rn2483.py:353-356 | `_pause` writes `mac pause` and returns its reply |
| Driver.Rn2483.Resume | rn2483.py:359-362 | `_resume` writes `mac resume` and returns its reply |
| Driver.Rn2483.RadioGet | rn2483.py:317-329 | the pause bracket runs as `Settings.RadioGet` says, so `Settings.RadioGetBracket` holds of it |
| Driver.Rn2483.GetSnr | rn2483.py:310-329 | `get_snr` is the bracket with `radio get snr` |
| Driver.Rn2483.GetPwr | rn2483.py:331-350 | `get_pwr` is the bracket with `radio get pwr` |
| Driver.Rn2483.HweuiQuery | rn2483.py:95-96 | `get_hweui()` without a port writes `sys get hweui` and returns its reply |
| Driver.Rn2483.Configure | rn2483.py:196-204 | the credentials part of `init` updates the globals and the link as `Join.Configure` does |
| Driver.Rn2483.ConfigureMac | rn2483.py:206-214 | the settings part of `init`, as `Join.ConfigureMac` |
| Driver.Rn2483.ConfigureAr | rn2483.py:215-218 | the `ar` part and `mac save`, as `Join.ConfigureAr` |
| Driver.Rn2483.JoinLoop | rn2483.py:220-233 | the `for` loop with `break` ends as `Join.JoinLoop` does, so `Join.JoinedIffAccepted` holds of its result |
| Driver.Rn2483.ConfigureAndJoin | rn2483.py:196-233 | configuration, then the join loop only if it succeeded |
| Driver.Rn2483.Init | rn2483.py:168-233 | `init` updates the object as the corrected `Join.Init`, so `Join.InitStartsOnce` holds of it |
| Driver.Rn2483.GetHweui | rn2483.py:82-96 | `get_hweui(ser, rst)` as the corrected `Join.GetHweui`, so it returns the EUI |
| Driver.Rn2483.Tx | rn2483.py:283-307 | the ten-attempt loop ends as `Transmit.Tx` does, so the bounds and the fall-through law hold of it |
| Driver.Rn2483.Transmit | rn2483.py:257-281 | `tx_uncnf`/`tx_cnf` encode with the `_base16encode` loop and run `_tx`, as `Transmit.Transmit` |

## Left out

- The wall-clock timing of `_read` (`timers`, busy-waiting on `available()`) is replaced by the next scripted reply, or `RESP_TIMEOUT` on silence. `strip('\r\n')` is taken as done: scripted lines carry no line ending.
- The pin toggling, `streams.serial(...)` and `_get_startup_msg` in `init` become one logged startup event. The boot banner is assumed drained there and takes no place in the reply script, because draining it is an unbounded wait on the port.
- `sleep` becomes a logged event. No time passes in the model.
- `print` diagnostics in `_tx`, `get_snr` and `get_pwr` are not modelled; they have no effect on the protocol.
- The percentage path of `get_duty_cycle`, `100.0/(res + 1)`, is floating point. Only the raw integer path is modelled.
- `get_ch_status` is outside this model.
- `int()` is modelled for optionally signed decimal digits. Its acceptance of surrounding whitespace and of `_` separators is not modelled. Replies with such forms would give `ValueError` in the model where Python returns a number.
- `int(pair, 16)` in `_base16tobytearray` is modelled as two hex digits of either case. Python also accepts a pair with a sign or a blank, such as `'+f'`, `'-0'`, `' f'` or `'f '`. `Base16.Decode` rejects these with `ValueError`.
- `_base16encode` returns `''` for a value that is neither a string nor a bytearray. `Base16.Payload` has only those two cases, so that input is not modelled.
- Join.InitStartsOnce: states the startup law for the corrected `init`. The law for the code as written is `Join.InitAsWrittenStartsOnce`, and there a short startup on an open link runs the full configuration.
- `hex(…, prefix='')` is modelled as the lower-case digits without leading zeros. Characters of a byte string are assumed to be below 256, as the platform's strings are bytes.
- Driver.Rn2483.Init: models the corrected `init` of the finding below. The code as written is `Join.InitAsWritten`; `Join.InitCorrectionAgrees` proves the two equal everywhere except on a short startup with the port already open.
- Driver.Rn2483.GetHweui: models the corrected `get_hweui` for the same reason. The code as written is `Join.GetHweuiAsWritten`.

## Findings

| source | as written | input that shows it | evidently intended | confidence | as-written member | corrected member |
|---|---|---|---|---|---|---|
| rn2483.py:93-94 | `get_hweui(ser, rst)` calls `init(ser, None, None, rst, short_startup = True)`, but `init` checks `short_startup` only inside `if _ser is None` (rn2483.py:181-194). Once the port is open, the call runs the full configuration with `None` credentials: it overwrites `_appeui`, `_appkey` and `_deveui`, writes `sys get hweui` and `mac reset 868`, and raises `TypeError` at `'mac set appeui ' + None` | `get_hweui(SERIAL1, D16)` called after `init(...)`, or called twice | `get_hweui(ser, rst)` opens the port if needed and only queries the EUI | not executed | Join.GetHweuiAsWrittenFailsWhenOpen | Join.GetHweuiReturnsEui |
