/** The live session with one TV (`LGTV`) and the persisted configuration
    (`Config`): connecting, sending requests with fresh identifiers, one
    step of the inbound listener, and the command facade on top of `send`. */
module Session {
  import opened Results
  import opened Hex
  import opened Wire
  import opened WakeOnLan
  import opened Commands
  import opened Connection

  const QueueCapacity := 10

  /** Go's `m[k]` on a `map[string]string`: the empty string for a missing key. */
  function Lookup(m: map<string, string>, k: string): (v: string)
    ensures k in m ==> v == m[k]
    ensures k !in m ==> v == ""
  {
    if k in m then m[k] else ""
  }

  /** The configuration file's content: pairing keys and MAC addresses by TV address. */
  class Config {
    var clientKeys: map<string, string>
    var macAddresses: map<string, string>

    /** `loadConfig` when the file holds these two maps (both empty when there is no file). */
    constructor Load(keys: map<string, string>, macs: map<string, string>)
      ensures clientKeys == keys && macAddresses == macs
    {
      clientKeys := keys;
      macAddresses := macs;
    }

    /** `cfg.MacAddresses[ip] = mac; cfg.save()` */
    method RememberMac(ip: string, mac: string)
      modifies this
      ensures macAddresses == old(macAddresses)[ip := mac]
      ensures clientKeys == old(clientKeys)
    {
      macAddresses := macAddresses[ip := mac];
    }

    /** `cfg.ClientKeys[ip] = key; cfg.save()` */
    method RememberClientKey(ip: string, key: string)
      modifies this
      ensures clientKeys == old(clientKeys)[ip := key]
      ensures macAddresses == old(macAddresses)
    {
      clientKeys := clientKeys[ip := key];
    }
  }

  // ---------------------------------------------------------------------
  // One step of the listener, as a function of the state it touches

  /** The pairing state a frame can change: the session's key and the stored keys. */
  datatype Pairing = Pairing(clientKey: string, storedKeys: map<string, string>)

  /** A `registered` frame whose `client-key` is a string installs that key
      in the session and under the TV's address; every other frame leaves the
      pairing state alone. */
  function ApplyFrame(p: Pairing, ip: string, r: Response): (q: Pairing)
    ensures q.storedKeys.Keys <= p.storedKeys.Keys + {ip}
    ensures q != p ==> r.kind == "registered"
  {
    if r.kind == "registered" && ClientKeyOf(r).Some?
    then Pairing(ClientKeyOf(r).value, p.storedKeys[ip := ClientKeyOf(r).value])
    else p
  }

  /** The non-blocking offer to the response channel: appended when there is
      room, dropped when the channel holds `QueueCapacity` frames. */
  function Offer(queue: seq<Response>, r: Response): (q: seq<Response>)
    ensures |queue| <= |q| <= |queue| + 1 && q[..|queue|] == queue
  {
    if |queue| < QueueCapacity then queue + [r] else queue
  }

  lemma ApplyFrameEffect(p: Pairing, ip: string, r: Response)
    ensures var q := ApplyFrame(p, ip, r);
      && (r.kind == "registered" && ClientKeyOf(r).Some? ==>
            q.clientKey == ClientKeyOf(r).value && ip in q.storedKeys
            && q.storedKeys[ip] == ClientKeyOf(r).value
            && q.storedKeys.Keys == p.storedKeys.Keys + {ip})
      && (!(r.kind == "registered" && ClientKeyOf(r).Some?) ==> q == p)
      && (forall other :: other != ip ==> (other in q.storedKeys <==> other in p.storedKeys))
      && (forall other :: other != ip && other in p.storedKeys ==> q.storedKeys[other] == p.storedKeys[other])
  {
  }

  /** Replaying a frame changes nothing more: the same key is installed again. */
  lemma ReplayIsNoOp(p: Pairing, ip: string, r: Response)
    ensures ApplyFrame(ApplyFrame(p, ip, r), ip, r) == ApplyFrame(p, ip, r)
  {
    var q := ApplyFrame(p, ip, r);
    if r.kind == "registered" && ClientKeyOf(r).Some? {
      assert q.storedKeys[ip := ClientKeyOf(r).value] == q.storedKeys;
    }
  }

  /** The key is not protected once set: a later `registered` frame with an
      empty `client-key` string clears it in the session and in the store. */
  lemma EmptyKeyClears(p: Pairing, ip: string, r: Response)
    requires r.kind == "registered" && "client-key" in r.payload
    requires r.payload["client-key"] == JString("")
    ensures ApplyFrame(p, ip, r).clientKey == ""
    ensures ApplyFrame(p, ip, r).storedKeys == p.storedKeys[ip := ""]
  {
  }

  /** The channel never holds more than `QueueCapacity` frames; a frame is
      appended exactly when there is room and is otherwise dropped. */
  lemma OfferBounded(queue: seq<Response>, r: Response)
    requires |queue| <= QueueCapacity
    ensures |Offer(queue, r)| <= QueueCapacity
    ensures Offer(queue, r) == queue + [r] <==> |queue| < QueueCapacity
    ensures Offer(queue, r) == queue <==> |queue| == QueueCapacity
  {
    if |queue| < QueueCapacity {
      assert |queue + [r]| != |queue|;
    }
  }

  /** What one read of the listener hands over. */
  datatype Inbound = Frame(frame: Response) | ReadFailure

  /** What the listener reports for a frame (its diagnostic output). */
  datatype Report = Paired | DeviceError(message: string) | Silent | ConnectionClosed

  function ReportFor(r: Response): (rep: Report)
    ensures rep == Paired <==> r.kind == "registered" && ClientKeyOf(r).Some?
    ensures rep.DeviceError? <==> r.kind == "response" && r.error != ""
  {
    if r.kind == "registered" then (if ClientKeyOf(r).Some? then Paired else Silent)
    else if r.kind == "response" && r.error != "" then DeviceError(r.error)
    else Silent
  }

  /** Request identifiers issued so far are strictly increasing and all
      positive; hence no two of them are the same string. */
  predicate Increasing(ids: seq<nat>) {
    forall i, j :: 0 <= i < j < |ids| ==> ids[i] < ids[j]
  }

  lemma IssuedIdsDistinct(ids: seq<nat>, i: nat, j: nat)
    requires Increasing(ids) && i < j < |ids|
    ensures RequestId(ids[i]) != RequestId(ids[j])
  {
    RequestIdInjective(ids[i], ids[j]);
  }

  /** What `send` reports: the frame went out, there was no transport, or
      the write of the frame failed. */
  datatype SendOutcome = Written(frame: Message) | NotConnected | WriteFailed(frame: Message)

  /** What a facade command reports: rejected by its own check, or handed to `send`. */
  datatype CommandOutcome = Rejected(reason: CommandError) | Dispatched(send: SendOutcome)

  /** The wake step of `Connect`: only when the probe failed and a MAC is
      known; a successful broadcast is followed by the settle wait. */
  method WakeIfOff(net: Network, mac: string) returns (wake: WakeRun)
    ensures wake == WakePhase(net, mac)
  {
    wake := WakeRun(None, []);
    if !net.online && mac != "" {
      var wakeError, wakeEvents := SendWOL(mac, net.wakeLink);
      wake := WakeRun(wakeError, wakeEvents);
      if wakeError.None? {
        wake := WakeRun(None, wakeEvents + [Sleep(WakeSettle)]);
      }
    }
  }

  /** The dial loop of `Connect`: attempt `i + 1` for `i` in `0..MaxDials`,
      stopping at the first success, with the back-off after every failed
      attempt but the last. */
  method DialWithRetries(dials: seq<bool>) returns (dialed: bool, tries: seq<Event>)
    ensures dialed <==> FirstSuccess(dials, 0) < MaxDials
    ensures tries == RetryEvents(dials, 0)
  {
    tries := [];
    var i := 0;
    while i < MaxDials
      invariant 0 <= i <= MaxDials
      invariant forall j :: 0 <= j < i ==> !DialOk(dials, j)
      invariant tries + RetryEvents(dials, i) == RetryEvents(dials, 0)
    {
      RetryStep(dials, i);
      if DialOk(dials, i) {
        return true, tries + [DialAttempt(i + 1)];
      }
      var step := FailedAttempt(i);
      assert (tries + step) + RetryEvents(dials, i + 1) == tries + (step + RetryEvents(dials, i + 1));
      tries := tries + step;
      i := i + 1;
    }
    assert RetryEvents(dials, MaxDials) == [];
    return false, tries;
  }

  /** The steps of `Connect` after the channel is reset: probe, wake if
      needed, dial with retries, start the listener and register. */
  method ConnectSteps(net: Network, mac: string, clientKey: string, wasConnected: bool) returns (run: ConnectRun)
    ensures run == ConnectSpec(net, mac, clientKey, wasConnected)
  {
    var wake := WakeIfOff(net, mac);
    var events := [Probe(ControlPort)] + wake.events;
    if wake.error.Some? {
      return ConnectRun(Some(WakeFailed(wake.error.value)), events, wasConnected);
    }
    var dialed, tries := DialWithRetries(net.dials);
    events := events + tries;
    if !dialed {
      return ConnectRun(Some(DialsExhausted), events, false);
    }
    events := events + [ListenerStarted, WriteFrame(RegisterFrame(clientKey))];
    if !net.registerWrite {
      return ConnectRun(Some(RegisterFailed), events, true);
    }
    events := events + [Sleep(RegisterGrace)];
    run := ConnectRun(None, events, true);
  }

  // ---------------------------------------------------------------------
  // The session

  class LGTV {
    const ip: string
    const mac: string
    var clientKey: string
    var connected: bool                // `conn != nil`
    var msgID: nat
    var responses: seq<Response>       // the buffered channel's contents
    ghost var issued: seq<nat>         // counter values of every request frame built so far

    ghost predicate Valid()
      reads this
    {
      && |responses| <= QueueCapacity
      && Increasing(issued)
      && (forall i :: 0 <= i < |issued| ==> 0 < issued[i] <= msgID)
    }

    function PairingState(store: Config): Pairing
      reads this, store
    {
      Pairing(clientKey, store.clientKeys)
    }

    /** `&LGTV{IP: ip, MAC: mac, ClientKey: key}` */
    constructor (ip: string, mac: string, clientKey: string)
      ensures Valid()
      ensures this.ip == ip && this.mac == mac && this.clientKey == clientKey
      ensures !connected && msgID == 0 && responses == [] && issued == []
    {
      this.ip := ip;
      this.mac := mac;
      this.clientKey := clientKey;
      connected := false;
      msgID := 0;
      responses := [];
      issued := [];
    }

    /** `Connect`: a fresh response channel, then the steps of `ConnectSteps`;
        the transport is open afterwards exactly when a dial succeeded. */
    method Connect(net: Network) returns (error: Option<ConnectError>, events: seq<Event>)
      requires Valid()
      modifies this`connected, this`responses
      ensures Valid()
      ensures ConnectRun(error, events, connected) == ConnectSpec(net, mac, clientKey, old(connected))
      ensures responses == []
    {
      responses := [];
      var run := ConnectSteps(net, mac, clientKey, connected);
      connected := run.connected;
      error, events := run.error, run.events;
    }

    /** `send`: without a transport, "not connected" and the counter is
        untouched; otherwise the counter grows by one and the request frame
        carries the new value, whether or not the write then succeeds. */
    method Send(uri: string, payload: map<string, Json>, writeOk: bool) returns (r: SendOutcome)
      requires Valid()
      modifies this`msgID, this`issued
      ensures Valid()
      ensures !connected ==> r == NotConnected && msgID == old(msgID) && issued == old(issued)
      ensures connected ==>
        && msgID == old(msgID) + 1
        && issued == old(issued) + [msgID]
        && r == (if writeOk then Written(RequestFrame(msgID, uri, payload))
                 else WriteFailed(RequestFrame(msgID, uri, payload)))
    {
      if !connected {
        return NotConnected;
      }
      msgID := msgID + 1;
      issued := issued + [msgID];
      var frame := RequestFrame(msgID, uri, payload);
      r := if writeOk then Written(frame) else WriteFailed(frame);
    }

    /** One iteration of `listen`: a read failure ends the session (the
        process exits) with nothing changed; otherwise the frame updates the
        pairing state as `ApplyFrame` says and is offered to the channel. */
    method ListenStep(input: Inbound, store: Config) returns (report: Report)
      requires Valid() && connected
      modifies this`clientKey, this`responses, store
      ensures Valid()
      ensures input.ReadFailure? ==>
        && report == ConnectionClosed
        && clientKey == old(clientKey) && responses == old(responses)
        && store.clientKeys == old(store.clientKeys)
      ensures input.Frame? ==>
        && PairingState(store) == ApplyFrame(old(PairingState(store)), ip, input.frame)
        && responses == Offer(old(responses), input.frame)
        && report == ReportFor(input.frame)
      ensures store.macAddresses == old(store.macAddresses)
    {
      if input.ReadFailure? {
        return ConnectionClosed;
      }
      var r := input.frame;
      if r.kind == "registered" {
        var key := ClientKeyOf(r);
        if key.Some? {
          clientKey := key.value;
          store.RememberClientKey(ip, key.value);
        }
      }
      report := ReportFor(r);
      if |responses| < QueueCapacity {
        responses := responses + [r];
      }
    }

    /** A facade command: its own check first (nothing is sent and the
        counter is untouched when it fails), then `send`. */
    method Execute(c: Command, writeOk: bool) returns (r: CommandOutcome)
      requires Valid()
      modifies this`msgID, this`issued
      ensures Valid()
      ensures Build(c).Err? ==>
        r == Rejected(Build(c).error) && msgID == old(msgID) && issued == old(issued)
      ensures Build(c).Ok? && !connected ==>
        r == Dispatched(NotConnected) && msgID == old(msgID) && issued == old(issued)
      ensures Build(c).Ok? && connected ==>
        && msgID == old(msgID) + 1
        && issued == old(issued) + [msgID]
        && r.Dispatched?
        && r.send == (var frame := RequestFrame(msgID, Build(c).value.uri, Build(c).value.payload);
                      if writeOk then Written(frame) else WriteFailed(frame))
    {
      var request := Build(c);
      if request.Err? {
        return Rejected(request.error);
      }
      var sent := Send(request.value.uri, request.value.payload, writeOk);
      r := Dispatched(sent);
    }
  }

  /** The start of `main`: a MAC given on the command line is remembered
      for this address; otherwise the remembered one (or none) is used. The
      stored pairing key, if any, is handed to the session. */
  method OpenSession(cfg: Config, ip: string, macArg: Option<string>) returns (tv: LGTV)
    modifies cfg
    ensures fresh(tv) && tv.Valid()
    ensures tv.ip == ip && !tv.connected && tv.msgID == 0 && tv.responses == []
    ensures cfg.clientKeys == old(cfg.clientKeys)
    ensures macArg.Some? ==> cfg.macAddresses == old(cfg.macAddresses)[ip := macArg.value]
    ensures macArg.None? ==> cfg.macAddresses == old(cfg.macAddresses)
    ensures tv.mac == Lookup(cfg.macAddresses, ip)
    ensures tv.clientKey == Lookup(cfg.clientKeys, ip)
  {
    var mac := "";
    if macArg.Some? {
      mac := macArg.value;
      cfg.RememberMac(ip, mac);
    } else {
      mac := Lookup(cfg.macAddresses, ip);
    }
    tv := new LGTV(ip, mac, Lookup(cfg.clientKeys, ip));
  }

  /** The first session with a TV that is off at address `ip`: the wake
      packet goes out, the first dial succeeds, the register frame carries no
      key, the TV answers `registered` with `key` (say "abc123"), and a later
      session for the same address starts with that key and the remembered MAC. */
  method FirstPairing(hw: seq<Byte>, ip: string, key: string)
    returns (events: seq<Event>, restoredKey: string, restoredMac: string)
    requires |hw| == 6
    ensures events == [Probe(ControlPort)]
                      + [BroadcastSocket(WakePort), BroadcastWrite(Sync + Repeat(hw, Repetitions)), Sleep(WakeSettle)]
                      + [DialAttempt(1), ListenerStarted, WriteFrame(RegisterFrame("")), Sleep(RegisterGrace)]
    ensures "client-key" !in RegisterFrame("").payload
    ensures restoredKey == key
    ensures restoredMac == FormatMac(hw)
  {
    var mac := FormatMac(hw);
    var cfg := new Config.Load(map[], map[]);
    var tv := OpenSession(cfg, ip, Some(mac));
    var net := Network(false, Link(true, true), [true], true);
    WakeFormattedMac(hw);
    assert mac != "" by { assert |HexEncode(hw[..1])| == 2; }
    WakeThenFirstDial(net, mac, "", false, Sync + Repeat(hw, Repetitions));
    assert tv.mac == mac && tv.clientKey == "" && !tv.connected;
    var error;
    error, events := tv.Connect(net);
    assert error == None && tv.connected;
    var answer := Response("registered", RegisterId, map["client-key" := JString(key)], "");
    assert ClientKeyOf(answer) == Some(key);
    var report := tv.ListenStep(Frame(answer), cfg);
    var next := OpenSession(cfg, ip, None);
    restoredKey, restoredMac := next.clientKey, next.mac;
  }
}
