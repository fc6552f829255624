/** The frames exchanged with the TV over the websocket, the request
    identifiers the client allocates, and the observable actions (network
    writes, dials, waits) that the connection code performs. */
module Wire {
  import opened Results
  import opened Hex

  /** The JSON values the client puts into or reads out of a frame. */
  datatype Json =
    | JString(str: string)
    | JInt(num: int)
    | JBool(flag: bool)
    | JArray(items: seq<Json>)
    | JObject(fields: map<string, Json>)

  /** An outbound frame (`Message`). An absent payload and an empty one are
      both omitted on the wire, so both are the empty map here. */
  datatype Message = Message(kind: string, id: string, uri: string, payload: map<string, Json>)

  /** An inbound frame (`Response`). */
  datatype Response = Response(kind: string, id: string, payload: map<string, Json>, error: string)

  /** What the connection code does to the outside world, in order. */
  datatype Event =
    | Probe(port: nat)                  // TCP reachability check with a 2 s timeout
    | BroadcastSocket(port: nat)        // opening the UDP broadcast socket
    | BroadcastWrite(packet: seq<Byte>) // the wake packet written to it
    | Sleep(seconds: nat)
    | DialAttempt(attempt: nat)         // websocket dial, numbered from 1
    | ListenerStarted
    | WriteFrame(frame: Message)

  const ControlPort := 3000

  // ---------------------------------------------------------------------
  // Request identifiers: `fmt.Sprintf("req_%d", n)`

  function DigitChar(d: nat): (c: char)
    requires d < 10
    ensures '0' <= c <= '9' && c as int - '0' as int == d
  {
    ('0' as int + d) as char
  }

  /** The decimal numeral of `n` (`%d`), without leading zeros. */
  function Decimal(n: nat): (r: string)
    ensures 1 <= |r| && forall i :: 0 <= i < |r| ==> '0' <= r[i] <= '9'
    ensures r[0] == '0' ==> n == 0
  {
    if n < 10 then [DigitChar(n)] else Decimal(n / 10) + [DigitChar(n % 10)]
  }

  /** Reads a string of decimal digits back into a number. */
  function ParseDecimal(s: string): nat
    requires forall i :: 0 <= i < |s| ==> '0' <= s[i] <= '9'
  {
    if s == [] then 0
    else ParseDecimal(s[..|s| - 1]) * 10 + (s[|s| - 1] as int - '0' as int)
  }

  lemma {:induction false} DecimalRoundTrip(n: nat)
    ensures ParseDecimal(Decimal(n)) == n
  {
    if n >= 10 {
      DecimalRoundTrip(n / 10);
      var s := Decimal(n);
      assert s[..|s| - 1] == Decimal(n / 10);
    }
  }

  const RequestPrefix := "req_"

  function RequestId(n: nat): (r: string)
    ensures |r| > |RequestPrefix| && r[..|RequestPrefix|] == RequestPrefix
    ensures forall i :: |RequestPrefix| <= i < |r| ==> '0' <= r[i] <= '9'
  {
    RequestPrefix + Decimal(n)
  }

  /** Distinct counters give distinct request identifiers, and only they do. */
  lemma RequestIdInjective(m: nat, n: nat)
    ensures RequestId(m) == RequestId(n) <==> m == n
  {
    if RequestId(m) == RequestId(n) {
      assert Decimal(m) == RequestId(m)[|RequestPrefix|..];
      assert Decimal(n) == RequestId(n)[|RequestPrefix|..];
      DecimalRoundTrip(m);
      DecimalRoundTrip(n);
    }
  }

  /** The frame `send` writes for counter value `n`. */
  function RequestFrame(n: nat, uri: string, payload: map<string, Json>): (m: Message)
    ensures m.kind == "request" && m.id == RequestId(n) && m.uri == uri && m.payload == payload
  {
    Message("request", RequestId(n), uri, payload)
  }

  // ---------------------------------------------------------------------
  // Registration (pairing) frame

  /** The capabilities the client asks for when it registers. */
  const Permissions: seq<string> := [
    "LAUNCH",
    "LAUNCH_WEBAPP",
    "APP_TO_APP",
    "CONTROL_AUDIO",
    "CONTROL_DISPLAY",
    "CONTROL_INPUT_JOYSTICK",
    "CONTROL_INPUT_MEDIA_RECORDING",
    "CONTROL_INPUT_MEDIA_PLAYBACK",
    "CONTROL_INPUT_TV",
    "CONTROL_POWER",
    "READ_APP_STATUS",
    "READ_CURRENT_CHANNEL",
    "READ_INPUT_DEVICE_LIST",
    "READ_NETWORK_STATE",
    "READ_RUNNING_APPS",
    "READ_TV_CHANNEL_LIST",
    "WRITE_NOTIFICATION_TOAST",
    "READ_POWER_STATE",
    "READ_COUNTRY_INFO"
  ]

  function JStrings(xs: seq<string>): (r: seq<Json>)
    ensures |r| == |xs|
  {
    seq(|xs|, i requires 0 <= i < |xs| => JString(xs[i]))
  }

  /** The manifest of the `register` frame: application version, manifest
      version, and the permissions in their listed order. */
  function Manifest(): (m: Json)
    ensures m.JObject? && m.fields.Keys == {"appVersion", "manifestVersion", "permissions"}
    ensures m.fields["permissions"].JArray? && |m.fields["permissions"].items| == |Permissions|
  {
    JObject(map[
      "appVersion" := JString("1.0"),
      "manifestVersion" := JInt(1),
      "permissions" := JArray(JStrings(Permissions))
    ])
  }

  const RegisterId := "reg_0"

  /** The `register` frame sent once the transport is up; it carries the
      stored pairing key exactly when one is stored. */
  function RegisterFrame(clientKey: string): (m: Message)
    ensures m.kind == "register" && m.id == RegisterId && m.uri == ""
    ensures "pairingType" in m.payload && m.payload["pairingType"] == JString("PROMPT")
    ensures "manifest" in m.payload && m.payload["manifest"] == Manifest()
    ensures "client-key" in m.payload <==> clientKey != ""
    ensures clientKey != "" ==> m.payload["client-key"] == JString(clientKey)
    ensures m.payload.Keys <= {"pairingType", "manifest", "client-key"}
  {
    Message("register", RegisterId, "", RegisterPayload(Manifest(), clientKey))
  }

  /** The payload of the `register` frame around a given manifest. */
  function RegisterPayload(manifest: Json, clientKey: string): (p: map<string, Json>)
    ensures "pairingType" in p && p["pairingType"] == JString("PROMPT")
    ensures "manifest" in p && p["manifest"] == manifest
    ensures "client-key" in p <==> clientKey != ""
    ensures clientKey != "" ==> p["client-key"] == JString(clientKey)
    ensures p.Keys <= {"pairingType", "manifest", "client-key"}
  {
    var base := map["pairingType" := JString("PROMPT"), "manifest" := manifest];
    assert "client-key" != "pairingType" && "client-key" != "manifest" by {
      assert |"client-key"| != |"pairingType"| && |"client-key"| != |"manifest"|;
    }
    if clientKey != "" then base["client-key" := JString(clientKey)] else base
  }

  /** The manifest declares version "1.0", manifest version 1, and the
      permissions as strings in their listed order. */
  lemma ManifestContents()
    ensures Manifest().JObject?
    ensures Manifest().fields.Keys == {"appVersion", "manifestVersion", "permissions"}
    ensures Manifest().fields["appVersion"] == JString("1.0")
    ensures Manifest().fields["manifestVersion"] == JInt(1)
    ensures var ps := Manifest().fields["permissions"];
      && ps.JArray? && |ps.items| == |Permissions|
      && forall i :: 0 <= i < |Permissions| ==> ps.items[i] == JString(Permissions[i])
  {
  }

  /** The manifest lists nineteen distinct permissions. */
  lemma PermissionsDistinct()
    ensures |Permissions| == 19
    ensures forall i, j :: 0 <= i < j < |Permissions| ==> Permissions[i] != Permissions[j]
  {
  }

  /** `r.Payload["client-key"].(string)`: the key of an inbound frame, when
      the payload has one and it is a string. */
  function ClientKeyOf(r: Response): (k: Option<string>)
    ensures k.Some? <==> "client-key" in r.payload && r.payload["client-key"].JString?
    ensures k.Some? ==> r.payload["client-key"] == JString(k.value)
  {
    if "client-key" in r.payload && r.payload["client-key"].JString?
    then Some(r.payload["client-key"].str)
    else None
  }
}
