/** What `LGTV.Connect` does, as a function of the network's answers: the
    reachability probe, the optional wake, at most five dial attempts with a
    fixed back-off, and the registration frame. */
module Connection {
  import opened Results
  import opened Hex
  import opened Wire
  import opened WakeOnLan

  const MaxDials := 5
  const RetryDelay := 3       // seconds between failed dial attempts
  const WakeSettle := 30      // seconds waited after a wake packet
  const RegisterGrace := 2    // seconds waited after the register frame

  /** The answers the network gives during one `Connect`. `dials[i]` is the
      outcome of dial attempt `i + 1`; an attempt beyond the sequence fails. */
  datatype Network = Network(online: bool, wakeLink: Link, dials: seq<bool>, registerWrite: bool)

  datatype ConnectError = WakeFailed(cause: WakeError) | DialsExhausted | RegisterFailed

  /** The error `Connect` returns (if any), what it did, and whether a
      transport is open afterwards. */
  datatype ConnectRun = ConnectRun(error: Option<ConnectError>, events: seq<Event>, connected: bool)

  predicate DialOk(dials: seq<bool>, i: nat) {
    i < |dials| && dials[i]
  }

  /** The index of the first successful attempt at or after `i`, or
      `MaxDials` when none of the remaining attempts succeeds. */
  function FirstSuccess(dials: seq<bool>, i: nat): (r: nat)
    requires i <= MaxDials
    ensures i <= r <= MaxDials
    ensures forall j :: i <= j < r ==> !DialOk(dials, j)
    ensures r < MaxDials ==> DialOk(dials, r)
    decreases MaxDials - i
  {
    if i == MaxDials then MaxDials
    else if DialOk(dials, i) then i
    else FirstSuccess(dials, i + 1)
  }

  /** The retry loop from attempt `i + 1` on: dial; stop on success; after
      a failure wait `RetryDelay` seconds unless it was the last attempt. */
  function RetryEvents(dials: seq<bool>, i: nat): (r: seq<Event>)
    requires i <= MaxDials
    decreases MaxDials - i
  {
    if i == MaxDials then []
    else if DialOk(dials, i) then [DialAttempt(i + 1)]
    else [DialAttempt(i + 1)] + (if i < MaxDials - 1 then [Sleep(RetryDelay)] else [])
         + RetryEvents(dials, i + 1)
  }

  /** The events of one failed attempt `i + 1`: the dial, then the back-off
      unless it was the last attempt. */
  function FailedAttempt(i: nat): (r: seq<Event>)
    ensures r != [] && r[0] == DialAttempt(i + 1)
  {
    [DialAttempt(i + 1)] + (if i < MaxDials - 1 then [Sleep(RetryDelay)] else [])
  }

  /** One step of the retry loop: a successful attempt ends it, a failed one
      contributes `FailedAttempt` and hands over to the next attempt. */
  lemma RetryStep(dials: seq<bool>, i: nat)
    requires i < MaxDials
    ensures DialOk(dials, i) ==> RetryEvents(dials, i) == [DialAttempt(i + 1)] && FirstSuccess(dials, i) == i
    ensures !DialOk(dials, i) ==>
      && RetryEvents(dials, i) == FailedAttempt(i) + RetryEvents(dials, i + 1)
      && FirstSuccess(dials, i) == FirstSuccess(dials, i + 1)
  {
  }

  function CountDials(events: seq<Event>): nat
  {
    if events == [] then 0
    else (if events[0].DialAttempt? then 1 else 0) + CountDials(events[1..])
  }

  function CountSleeps(events: seq<Event>, seconds: nat): nat
  {
    if events == [] then 0
    else (if events[0].Sleep? && events[0].seconds == seconds then 1 else 0) + CountSleeps(events[1..], seconds)
  }

  lemma {:induction false} CountConcat(a: seq<Event>, b: seq<Event>, seconds: nat)
    ensures CountDials(a + b) == CountDials(a) + CountDials(b)
    ensures CountSleeps(a + b, seconds) == CountSleeps(a, seconds) + CountSleeps(b, seconds)
  {
    if a == [] {
      assert a + b == b;
    } else {
      assert (a + b)[1..] == a[1..] + b;
      CountConcat(a[1..], b, seconds);
    }
  }

  /** Events that are neither dials nor back-offs of `seconds` count for nothing. */
  lemma {:induction false} NoDials(events: seq<Event>, seconds: nat)
    requires forall e :: e in events ==> !e.DialAttempt? && e != Sleep(seconds)
    ensures CountDials(events) == 0 && CountSleeps(events, seconds) == 0
  {
    if events != [] {
      assert events[0] in events;
      NoDials(events[1..], seconds);
    }
  }

  /** Event `k` of the retry loop from attempt `i + 1` on, when dials and
      back-offs alternate: even positions dial, odd positions back off. */
  function RetrySlot(i: nat, k: nat): Event
  {
    if k % 2 == 0 then DialAttempt(i + 1 + k / 2) else Sleep(RetryDelay)
  }

  lemma RetrySlotShift(i: nat, k: nat)
    requires k >= 2
    ensures RetrySlot(i, k) == RetrySlot(i + 1, k - 2)
  {
    assert (k - 2) % 2 == k % 2 && (k - 2) / 2 + 1 == k / 2;
  }

  /** A dial and a back-off in front of the slots from attempt `i + 2` on
      give the slots from attempt `i + 1` on. */
  lemma PrependSlots(i: nat, rest: seq<Event>)
    requires forall k :: 0 <= k < |rest| ==> rest[k] == RetrySlot(i + 1, k)
    ensures var evs := [DialAttempt(i + 1), Sleep(RetryDelay)] + rest;
      forall k :: 0 <= k < |evs| ==> evs[k] == RetrySlot(i, k)
  {
    var evs := [DialAttempt(i + 1), Sleep(RetryDelay)] + rest;
    forall k | 0 <= k < |evs|
      ensures evs[k] == RetrySlot(i, k)
    {
      if k >= 2 {
        assert evs[k] == rest[k - 2];
        RetrySlotShift(i, k);
      }
    }
  }

  /** An odd number of alternating slots, at most `2 * (MaxDials - i) - 1`,
      ends with a dial and only dials attempts `i + 1 .. MaxDials`. */
  lemma SlotsInRange(i: nat, evs: seq<Event>)
    requires i < MaxDials
    requires forall k :: 0 <= k < |evs| ==> evs[k] == RetrySlot(i, k)
    requires |evs| % 2 == 1 && |evs| <= 2 * (MaxDials - i) - 1
    ensures evs != [] && evs[|evs| - 1].DialAttempt?
    ensures forall e :: e in evs ==> (e.DialAttempt? && i < e.attempt <= MaxDials) || e == Sleep(RetryDelay)
  {
    assert evs[|evs| - 1] == RetrySlot(i, |evs| - 1);
    forall e | e in evs
      ensures (e.DialAttempt? && i < e.attempt <= MaxDials) || e == Sleep(RetryDelay)
    {
      var k :| 0 <= k < |evs| && evs[k] == e;
      assert e == RetrySlot(i, k);
    }
  }

  /** The layout of the retry loop: dials and back-offs alternate, dial
      attempts are numbered consecutively from `i + 1`, and a back-off
      follows every dial except the last one. */
  lemma {:induction false} RetryAlternates(dials: seq<bool>, i: nat)
    requires i <= MaxDials
    ensures var evs := RetryEvents(dials, i);
      forall k :: 0 <= k < |evs| ==> evs[k] == RetrySlot(i, k)
    ensures var evs := RetryEvents(dials, i);
      i < MaxDials ==> |evs| % 2 == 1 && |evs| <= 2 * (MaxDials - i) - 1
    decreases MaxDials - i
  {
    var evs := RetryEvents(dials, i);
    if i < MaxDials && !DialOk(dials, i) && i + 1 < MaxDials {
      RetryAlternates(dials, i + 1);
      var rest := RetryEvents(dials, i + 1);
      assert evs == [DialAttempt(i + 1), Sleep(RetryDelay)] + rest;
      PrependSlots(i, rest);
    } else if i < MaxDials && !DialOk(dials, i) {
      assert RetryEvents(dials, i + 1) == [];
      assert evs == [DialAttempt(i + 1)];
    } else if i < MaxDials {
      assert evs == [DialAttempt(i + 1)];
    }
  }

  /** One dial per attempt up to and including the first success (all five
      when none succeeds), and a back-off after each failed attempt except
      the fifth. */
  lemma {:induction false} RetryCounts(dials: seq<bool>, i: nat)
    requires i < MaxDials
    ensures var f := FirstSuccess(dials, i);
      && CountDials(RetryEvents(dials, i)) == (if f < MaxDials then f + 1 - i else MaxDials - i)
      && CountSleeps(RetryEvents(dials, i), RetryDelay) == (if f < MaxDials then f - i else MaxDials - 1 - i)
    decreases MaxDials - i
  {
    var evs := RetryEvents(dials, i);
    if !DialOk(dials, i) && i + 1 < MaxDials {
      RetryCounts(dials, i + 1);
      var rest := RetryEvents(dials, i + 1);
      assert evs == [DialAttempt(i + 1), Sleep(RetryDelay)] + rest;
      CountConcat([DialAttempt(i + 1), Sleep(RetryDelay)], rest, RetryDelay);
    } else {
      assert RetryEvents(dials, i + 1) == [] || DialOk(dials, i);
      assert evs == [DialAttempt(i + 1)];
    }
  }

  /** The counts of the retry loop (`RetryCounts`), attempts numbered within
      1..5, and the loop always ends with a dial. */
  lemma RetryShape(dials: seq<bool>, i: nat)
    requires i < MaxDials
    ensures var f := FirstSuccess(dials, i);
      && CountDials(RetryEvents(dials, i)) == (if f < MaxDials then f + 1 - i else MaxDials - i)
      && CountSleeps(RetryEvents(dials, i), RetryDelay) == (if f < MaxDials then f - i else MaxDials - 1 - i)
    ensures var evs := RetryEvents(dials, i);
      && evs != [] && evs[|evs| - 1].DialAttempt?
      && (forall e :: e in evs ==> (e.DialAttempt? && i < e.attempt <= MaxDials) || e == Sleep(RetryDelay))
  {
    RetryCounts(dials, i);
    RetryAlternates(dials, i);
    SlotsInRange(i, RetryEvents(dials, i));
  }

  /** The retry loop succeeds exactly when one of the first five attempts does. */
  lemma RetrySucceedsIff(dials: seq<bool>)
    ensures FirstSuccess(dials, 0) < MaxDials <==> exists i :: 0 <= i < MaxDials && DialOk(dials, i)
  {
  }

  /** The wake phase: nothing when the TV answered the probe or no MAC is
      known; otherwise `sendWOL` and, if it succeeded, the settle wait. */
  function WakePhase(net: Network, mac: string): (w: WakeRun)
    ensures net.online || mac == "" ==> w == WakeRun(None, [])
    ensures w.error.Some? ==> !net.online && mac != "" && w == Wake(mac, net.wakeLink)
    ensures w.error.None? && !net.online && mac != "" ==>
      w.events != [] && w.events[|w.events| - 1] == Sleep(WakeSettle)
  {
    if net.online || mac == "" then WakeRun(None, [])
    else
      var sent := Wake(mac, net.wakeLink);
      if sent.error.Some? then sent else WakeRun(None, sent.events + [Sleep(WakeSettle)])
  }

  /** Events that neither dial nor back off between dials. */
  predicate Quiet(events: seq<Event>) {
    forall e :: e in events ==> !e.DialAttempt? && e != Sleep(RetryDelay)
  }

  lemma WakePhaseQuiet(net: Network, mac: string)
    ensures Quiet(WakePhase(net, mac).events)
  {
    if !net.online && mac != "" {
      var sent := Wake(mac, net.wakeLink);
      WakeOnlyBroadcasts(mac, net.wakeLink);
      assert Quiet(sent.events);
      if sent.error.None? {
        assert WakePhase(net, mac).events == sent.events + [Sleep(WakeSettle)];
      } else {
        assert WakePhase(net, mac) == sent;
      }
    }
  }

  /** `Connect()` from the probe on, given what the wake phase did. */
  function AfterWake(wake: WakeRun, net: Network, clientKey: string, wasConnected: bool): (r: ConnectRun)
    ensures r.events != [] && r.events[0] == Probe(ControlPort)
    ensures (r.error.Some? && r.error.value.WakeFailed?) <==> wake.error.Some?
    ensures wake.error.Some? ==> r.connected == wasConnected
    ensures r.error.None? ==> r.connected && r.events[|r.events| - 1] == Sleep(RegisterGrace)
  {
    var probed := [Probe(ControlPort)] + wake.events;
    if wake.error.Some? then ConnectRun(Some(WakeFailed(wake.error.value)), probed, wasConnected)
    else
      var dialed := probed + RetryEvents(net.dials, 0);
      if FirstSuccess(net.dials, 0) == MaxDials then ConnectRun(Some(DialsExhausted), dialed, false)
      else
        var registered := dialed + [ListenerStarted, WriteFrame(RegisterFrame(clientKey))];
        if !net.registerWrite then ConnectRun(Some(RegisterFailed), registered, true)
        else ConnectRun(None, registered + [Sleep(RegisterGrace)], true)
  }

  /** `Connect()` with stored MAC `mac` and pairing key `clientKey`, when a
      transport was (`wasConnected`) or was not open before. */
  function ConnectSpec(net: Network, mac: string, clientKey: string, wasConnected: bool): (r: ConnectRun)
    ensures r.events != [] && r.events[0] == Probe(ControlPort)
    ensures net.online ==> |r.events| >= 2 && r.events[1] == DialAttempt(1)
    ensures r.error.None? ==> r.connected
  {
    AfterWake(WakePhase(net, mac), net, clientKey, wasConnected)
  }

  /** A failed wake aborts `Connect` before any dial, and it is the only way
      `Connect` fails with a wake error. */
  lemma WakeFailureSkipsDialing(net: Network, mac: string, clientKey: string, wasConnected: bool)
    ensures var run := ConnectSpec(net, mac, clientKey, wasConnected);
      (run.error.Some? && run.error.value.WakeFailed?)
        <==> (!net.online && mac != "" && Wake(mac, net.wakeLink).error.Some?)
    ensures var run := ConnectSpec(net, mac, clientKey, wasConnected);
      run.error.Some? && run.error.value.WakeFailed? ==> CountDials(run.events) == 0
  {
    var wake := WakePhase(net, mac);
    if wake.error.Some? {
      WakePhaseQuiet(net, mac);
      NoDials([Probe(ControlPort)] + wake.events, RetryDelay);
    }
  }

  /** With the TV unreachable and no MAC known there is no wake, yet the
      first dial follows the probe directly. */
  lemma NoMacStillDials(net: Network, clientKey: string, wasConnected: bool)
    requires !net.online
    ensures var run := ConnectSpec(net, "", clientKey, wasConnected);
      && |run.events| >= 2
      && run.events[..2] == [Probe(ControlPort), DialAttempt(1)]
      && (run.error.Some? ==> !run.error.value.WakeFailed?)
  {
    var evs := RetryEvents(net.dials, 0);
    assert evs[0] == DialAttempt(1);
    assert WakePhase(net, "") == WakeRun(None, []);
    var run := ConnectSpec(net, "", clientKey, wasConnected);
    assert run.events[..2] == [Probe(ControlPort)] + evs[..1];
  }

  /** `Connect` fails exactly when the wake fails, all five dials fail, or
      the register frame cannot be written. */
  lemma ConnectFailsIff(net: Network, mac: string, clientKey: string, wasConnected: bool)
    ensures var run := ConnectSpec(net, mac, clientKey, wasConnected);
      run.error.Some? <==>
        || WakePhase(net, mac).error.Some?
        || (forall i :: 0 <= i < MaxDials ==> !DialOk(net.dials, i))
        || !net.registerWrite
  {
    if forall i :: 0 <= i < MaxDials ==> !DialOk(net.dials, i) {
      assert FirstSuccess(net.dials, 0) == MaxDials;
    }
  }

  lemma {:induction false} AfterWakeDialBound(wake: WakeRun, net: Network, clientKey: string, wasConnected: bool)
    requires Quiet(wake.events)
    ensures var run := AfterWake(wake, net, clientKey, wasConnected);
      && CountDials(run.events) <= MaxDials
      && (run.error.None? ==> run.connected && WriteFrame(RegisterFrame(clientKey)) in run.events)
      && (run.error == Some(DialsExhausted) ==> !run.connected && CountDials(run.events) == MaxDials)
    ensures var run := AfterWake(wake, net, clientKey, wasConnected);
      var f := FirstSuccess(net.dials, 0);
      wake.error.None? ==>
        && CountDials(run.events) == (if f < MaxDials then f + 1 else MaxDials)
        && CountSleeps(run.events, RetryDelay) == (if f < MaxDials then f else MaxDials - 1)
  {
    var probed := [Probe(ControlPort)] + wake.events;
    NoDials(probed, RetryDelay);
    if wake.error.None? {
      var retry := RetryEvents(net.dials, 0);
      var dialed := probed + retry;
      RetryShape(net.dials, 0);
      CountConcat(probed, retry, RetryDelay);
      if FirstSuccess(net.dials, 0) < MaxDials {
        RegisterTail(dialed, clientKey);
        var registered := dialed + [ListenerStarted, WriteFrame(RegisterFrame(clientKey))];
        assert AfterWake(wake, net, clientKey, wasConnected).events
          == if net.registerWrite then registered + [Sleep(RegisterGrace)] else registered;
      } else {
        assert AfterWake(wake, net, clientKey, wasConnected) == ConnectRun(Some(DialsExhausted), dialed, false);
      }
    }
  }

  /** What follows a successful dial (listener, register frame, grace wait)
      neither dials nor backs off. */
  lemma RegisterTail(dialed: seq<Event>, clientKey: string)
    ensures var registered := dialed + [ListenerStarted, WriteFrame(RegisterFrame(clientKey))];
      && CountDials(registered) == CountDials(dialed)
      && CountSleeps(registered, RetryDelay) == CountSleeps(dialed, RetryDelay)
      && WriteFrame(RegisterFrame(clientKey)) in registered
    ensures var done := dialed + [ListenerStarted, WriteFrame(RegisterFrame(clientKey))] + [Sleep(RegisterGrace)];
      && CountDials(done) == CountDials(dialed)
      && CountSleeps(done, RetryDelay) == CountSleeps(dialed, RetryDelay)
      && WriteFrame(RegisterFrame(clientKey)) in done
  {
    var tail := [ListenerStarted, WriteFrame(RegisterFrame(clientKey))];
    var grace := tail + [Sleep(RegisterGrace)];
    NoDials(tail, RetryDelay);
    NoDials(grace, RetryDelay);
    CountConcat(dialed, tail, RetryDelay);
    CountConcat(dialed, grace, RetryDelay);
    assert dialed + tail + [Sleep(RegisterGrace)] == dialed + grace;
    assert (dialed + tail)[|dialed| + 1] == WriteFrame(RegisterFrame(clientKey));
    assert (dialed + grace)[|dialed| + 1] == WriteFrame(RegisterFrame(clientKey));
  }

  /** `Connect` dials at most five times; when it succeeds a transport is
      open and the register frame went out; when the dials run out all five
      were made and no transport is open. Past the wake phase it dials up to
      and including the first success, and backs off after every failed
      dial but the fifth. */
  lemma ConnectDialBound(net: Network, mac: string, clientKey: string, wasConnected: bool)
    ensures var run := ConnectSpec(net, mac, clientKey, wasConnected);
      && CountDials(run.events) <= MaxDials
      && (run.error.None? ==> run.connected && WriteFrame(RegisterFrame(clientKey)) in run.events)
      && (run.error == Some(DialsExhausted) ==> !run.connected && CountDials(run.events) == MaxDials)
    ensures var run := ConnectSpec(net, mac, clientKey, wasConnected);
      var f := FirstSuccess(net.dials, 0);
      WakePhase(net, mac).error.None? ==>
        && CountDials(run.events) == (if f < MaxDials then f + 1 else MaxDials)
        && CountSleeps(run.events, RetryDelay) == (if f < MaxDials then f else MaxDials - 1)
  {
    WakePhaseQuiet(net, mac);
    AfterWakeDialBound(WakePhase(net, mac), net, clientKey, wasConnected);
  }

  /** After a clean wake phase, five failed dials end `Connect` with
      `DialsExhausted` and no transport. */
  lemma AllDialsFail(net: Network, mac: string, clientKey: string, wasConnected: bool)
    requires WakePhase(net, mac).error.None?
    requires forall i :: 0 <= i < MaxDials ==> !DialOk(net.dials, i)
    ensures ConnectSpec(net, mac, clientKey, wasConnected).error == Some(DialsExhausted)
    ensures !ConnectSpec(net, mac, clientKey, wasConnected).connected
  {
    assert FirstSuccess(net.dials, 0) == MaxDials;
  }

  /** `RegisterFailed` comes exactly from a failed register write after a
      clean wake and a successful dial, and the transport then stays open:
      `Connect` reports an error while the session is connected and the
      listener is already running. */
  lemma RegisterFailure(net: Network, mac: string, clientKey: string, wasConnected: bool)
    ensures var run := ConnectSpec(net, mac, clientKey, wasConnected);
      run.error == Some(RegisterFailed) <==>
        WakePhase(net, mac).error.None? && FirstSuccess(net.dials, 0) < MaxDials && !net.registerWrite
    ensures var run := ConnectSpec(net, mac, clientKey, wasConnected);
      run.error == Some(RegisterFailed) ==> run.connected && ListenerStarted in run.events
  {
  }

  /** A wake broadcast that goes out is followed by the settle wait. */
  lemma WakePhaseSent(net: Network, mac: string, packet: seq<Byte>)
    requires !net.online && mac != ""
    requires Wake(mac, net.wakeLink) == WakeRun(None, [BroadcastSocket(WakePort), BroadcastWrite(packet)])
    ensures WakePhase(net, mac) ==
      WakeRun(None, [BroadcastSocket(WakePort), BroadcastWrite(packet), Sleep(WakeSettle)])
  {
  }

  /** After a successful wake phase, a first dial that succeeds is followed
      by the listener, the register frame and the grace wait. */
  lemma FirstDialRegisters(wake: WakeRun, net: Network, clientKey: string, wasConnected: bool)
    requires wake.error.None? && DialOk(net.dials, 0) && net.registerWrite
    ensures AfterWake(wake, net, clientKey, wasConnected) ==
      ConnectRun(None, [Probe(ControlPort)] + wake.events +
                       [DialAttempt(1), ListenerStarted, WriteFrame(RegisterFrame(clientKey)), Sleep(RegisterGrace)],
                 true)
  {
    assert RetryEvents(net.dials, 0) == [DialAttempt(1)];
    assert FirstSuccess(net.dials, 0) == 0;
    var probed := [Probe(ControlPort)] + wake.events;
    var frame := WriteFrame(RegisterFrame(clientKey));
    assert probed + [DialAttempt(1)] + [ListenerStarted, frame] + [Sleep(RegisterGrace)] ==
      probed + [DialAttempt(1), ListenerStarted, frame, Sleep(RegisterGrace)];
  }

  /** An unreachable TV whose wake broadcast goes out and whose first dial
      succeeds: probe, socket, packet, settle wait, one dial, listener,
      register frame, grace wait, and success. */
  lemma WakeThenFirstDial(net: Network, mac: string, clientKey: string, wasConnected: bool, packet: seq<Byte>)
    requires !net.online && mac != "" && DialOk(net.dials, 0) && net.registerWrite
    requires Wake(mac, net.wakeLink) == WakeRun(None, [BroadcastSocket(WakePort), BroadcastWrite(packet)])
    ensures ConnectSpec(net, mac, clientKey, wasConnected) ==
      ConnectRun(None, [Probe(ControlPort)]
                       + [BroadcastSocket(WakePort), BroadcastWrite(packet), Sleep(WakeSettle)]
                       + [DialAttempt(1), ListenerStarted, WriteFrame(RegisterFrame(clientKey)), Sleep(RegisterGrace)],
                 true)
  {
    WakePhaseSent(net, mac, packet);
    FirstDialRegisters(WakePhase(net, mac), net, clientKey, wasConnected);
  }

  /** A reachable TV whose first four dials fail and whose fifth succeeds:
      five dials, four back-offs, success. */
  lemma FifthAttemptSucceeds(net: Network, clientKey: string)
    requires net.online && net.registerWrite
    requires forall j :: 0 <= j < 4 ==> !DialOk(net.dials, j)
    requires DialOk(net.dials, 4)
    ensures var run := ConnectSpec(net, "", clientKey, false);
      && run.error.None?
      && CountDials(run.events) == 5
      && CountSleeps(run.events, RetryDelay) == 4
  {
    assert FirstSuccess(net.dials, 0) == 4;
    ConnectDialBound(net, "", clientKey, false);
  }
}
