/** The desired LED state (src/lib/ledState.ts): one word, `on` or `off`,
    kept in ledState.json. The file's `lastUpdated` field is a clock reading
    and is not modelled; `led` holds the file's `state` field. */
module LedState {
  import opened Base
  import opened Store

  datatype Led = On | Off

  function LedText(s: Led): string {
    match s
    case On => "on"
    case Off => "off"
  }

  /** The state a stored `state` field denotes, if it is one of the two words. */
  function ParseLed(text: string): (r: Option<Led>)
    ensures r.Some? ==> LedText(r.value) == text
    ensures forall s :: text == LedText(s) ==> r == Some(s)
  {
    if text == "on" then Some(On) else if text == "off" then Some(Off) else None
  }

  /** What `getLedState` reports for the file: the stored word when it is
      `on` or `off`, otherwise `off` (missing, blank, unparsable or another
      value alike). */
  function StoredLed(f: Stored<string>): (s: Led)
    ensures f.Holds? && ParseLed(f.value).Some? ==> s == ParseLed(f.value).value
    ensures s == On ==> f == Holds("on")
  {
    if f.Holds? && ParseLed(f.value).Some? then ParseLed(f.value).value else Off
  }

  /** `initializeStateFile`: a missing file is created holding `off`; a
      failed creation throws. An existing file is left alone. */
  method Initialize(d: DataDir, writeOk: bool) returns (ok: bool)
    modifies d`led
    ensures ok <==> !old(d.led).Missing? || writeOk
    ensures d.led == if old(d.led).Missing? && writeOk then Holds("off") else old(d.led)
  {
    if d.led.Missing? {
      if !writeOk {
        return false;
      }
      d.led := Holds("off");
    }
    ok := true;
  }

  /** `getLedState`: never throws. It creates a missing file on the way when
      it can, and the answer is the stored state either way. */
  method GetLedState(d: DataDir, writeOk: bool) returns (s: Led)
    modifies d`led
    ensures s == StoredLed(old(d.led))
    ensures d.led == if old(d.led).Missing? && writeOk then Holds("off") else old(d.led)
  {
    var ok := Initialize(d, writeOk);
    if !ok {
      // The read fails; the second initialisation fails the same way and its
      // error is swallowed.
      ok := Initialize(d, writeOk);
      return Off;
    }
    s := StoredLed(d.led);
  }

  /** `setLedState`: first `initializeStateFile` (creating a missing file
      succeeds when `initOk`), then the write of the new state (succeeds when
      `writeOk`). Either failure throws; a file created by the first step
      stays, holding `off`. */
  method SetLedState(d: DataDir, s: Led, initOk: bool, writeOk: bool) returns (ok: bool)
    modifies d`led
    ensures ok <==> (!old(d.led).Missing? || initOk) && writeOk
    ensures d.led ==
      if ok then Holds(LedText(s))
      else if old(d.led).Missing? && initOk then Holds("off")
      else old(d.led)
  {
    ok := Initialize(d, initOk);
    if !ok {
      return;
    }
    if !writeOk {
      return false;
    }
    d.led := Holds(LedText(s));
  }

  /** A stored state reads back as itself. */
  lemma SetThenGet(s: Led)
    ensures StoredLed(Holds(LedText(s))) == s
  {
  }
}

/** The LED route the dispenser polls and the web page posts to
    (src/app/api/esp32/led/route.ts). */
module LedRoute {
  import opened Base
  import opened Store
  import opened LedState

  datatype Response =
    | State(state: Led)   // 200, GET
    | Accepted(state: Led) // 200, POST
    | BadRequest          // 400
    | ServerError         // 500

  function Status(r: Response): int {
    match r
    case State(_) => 200
    case Accepted(_) => 200
    case BadRequest => 400
    case ServerError => 500
  }

  /** What `request.json()` produced; `state` is None when absent or not a string. */
  datatype LedBody = Unparsable | NullBody | Object(state: Option<string>)

  /** GET: the stored state, always with status 200 (the state the device
      reports in `currentState` is only logged). */
  method Get(d: DataDir, writeOk: bool) returns (r: Response)
    modifies d`led
    ensures r == State(StoredLed(old(d.led))) && Status(r) == 200
    ensures d.led == if old(d.led).Missing? && writeOk then Holds("off") else old(d.led)
  {
    var s := GetLedState(d, writeOk);
    r := State(s);
  }

  /** POST: only the words `on` and `off` are accepted; `initOk` and
      `writeOk` are the outcomes of `setLedState`'s two writes. */
  method Post(d: DataDir, body: LedBody, initOk: bool, writeOk: bool) returns (r: Response)
    modifies d`led
    ensures body.Unparsable? || body.NullBody? ==> r == ServerError && d.led == old(d.led)
    ensures body.Object? && (body.state.None? || ParseLed(body.state.value).None?) ==>
      r == BadRequest && d.led == old(d.led)
    ensures body.Object? && body.state.Some? && ParseLed(body.state.value).Some? ==>
      if (!old(d.led).Missing? || initOk) && writeOk then
        r == Accepted(ParseLed(body.state.value).value) && d.led == Holds(body.state.value)
      else
        r == ServerError && d.led == if old(d.led).Missing? && initOk then Holds("off") else old(d.led)
  {
    if !body.Object? {
      return ServerError;
    }
    if body.state.None? || ParseLed(body.state.value).None? {
      return BadRequest;
    }
    var s := ParseLed(body.state.value).value;
    var ok := SetLedState(d, s, initOk, writeOk);
    r := if ok then Accepted(s) else ServerError;
  }
}
