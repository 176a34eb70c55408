/** The texts the server exchanges: the state token of `POST /led/{state}`,
  * the JSON reply of that route and the `"LED is on"` / `"LED is off"` frame
  * that both the connect-time snapshot and every broadcast carry. */
module Messages {

  datatype Option<T> = None | Some(value: T)

  /** The JSON object `switch_led` returns: `{"status": ...}` or `{"error": ...}`. */
  datatype Response = Status(status: string) | Error(error: string)

  /** `"on" if led_state["on"] else "off"`. */
  function StateWord(on: bool): (w: string)
    ensures on <==> w == "on"
    ensures !on <==> w == "off"
  {
    if on then "on" else "off"
  }

  /** The frame pushed to subscribers, `f"LED is {state}"`, shared by the
    * snapshot sent on connect and by `notify_clients`. */
  function StateMessage(on: bool): (m: string)
    ensures on <==> m == "LED is on"
    ensures !on <==> m == "LED is off"
  {
    "LED is " + StateWord(on)
  }

  /** The branches of `switch_led`: exactly `"on"` or exactly `"off"` name a
    * state (case-sensitive, no trimming); every other token is invalid. */
  function ParseToken(token: string): (r: Option<bool>)
    ensures r == Some(true) <==> token == "on"
    ensures r == Some(false) <==> token == "off"
    ensures r == None <==> token != "on" && token != "off"
  {
    if token == "on" then Some(true)
    else if token == "off" then Some(false)
    else None
  }

  /** Parsing inverts the state word, in both directions. */
  lemma TokenRoundTrip(on: bool, token: string)
    ensures ParseToken(StateWord(on)) == Some(on)
    ensures ParseToken(token) == Some(on) ==> StateWord(on) == token
  {
  }

  /** The frame text determines the state: a subscriber can recover the flag. */
  lemma MessageDeterminesState(a: bool, b: bool)
    ensures StateMessage(a) == StateMessage(b) <==> a == b
  {
  }

  /** The reply of `switch_led`: `{"status": "LED turned <state>"}` for a valid
    * token, `{"error": "Invalid state"}` for any other. */
  function SwitchResponse(token: string): (r: Response)
    ensures r.Error? <==> ParseToken(token) == None
    ensures r.Error? ==> r.error == "Invalid state"
    ensures r.Status? ==> r.status == "LED turned " + StateWord(ParseToken(token).value)
  {
    match ParseToken(token)
    case None => Error("Invalid state")
    case Some(_) => Status("LED turned " + token)
  }
}
