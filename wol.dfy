/** The Wake-on-LAN sender (`sendWOL`): the magic packet, built in place
    in a zeroed 102-byte buffer, and the broadcast that carries it. */
module WakeOnLan {
  import opened Results
  import opened Hex
  import opened Wire

  const SyncLength := 6
  const BlockLength := 6
  const Repetitions := 16
  const PacketLength := 102
  const WakePort := 9

  // ---------------------------------------------------------------------
  // The packet, stated twice: as a concatenation and byte by byte

  function Zeros(n: nat): (r: seq<Byte>)
    ensures |r| == n && forall i :: 0 <= i < n ==> r[i] == 0
  {
    seq(n, _ => 0)
  }

  /** What `copy` leaves in a zeroed six-byte window: the first
      `min(6, |hw|)` bytes of the address, then zeros. */
  function Block(hw: seq<Byte>): (r: seq<Byte>)
    ensures |r| == BlockLength
  {
    if |hw| >= BlockLength then hw[..BlockLength] else hw + Zeros(BlockLength - |hw|)
  }

  function Repeat(s: seq<Byte>, n: nat): seq<Byte>
  {
    if n == 0 then [] else s + Repeat(s, n - 1)
  }

  const Sync: seq<Byte> := [0xFF, 0xFF, 0xFF, 0xFF, 0xFF, 0xFF]

  /** Six `0xFF` bytes followed by sixteen copies of the address block. */
  function MagicPacket(hw: seq<Byte>): (r: seq<Byte>)
    ensures |r| == PacketLength && r[..SyncLength] == Sync
  {
    RepeatLength(Block(hw), Repetitions);
    Sync + Repeat(Block(hw), Repetitions)
  }

  /** Byte `k` of the buffer, as the two loops of `sendWOL` leave it. */
  function PacketByteAt(hw: seq<Byte>, k: nat): (r: Byte)
    ensures k < SyncLength ==> r == 0xFF
    ensures SyncLength <= k && |hw| >= BlockLength ==> r == hw[(k - SyncLength) % BlockLength]
    ensures SyncLength <= k && hw == [] ==> r == 0
  {
    if k < SyncLength then 0xFF
    else if (k - SyncLength) % BlockLength < |hw| then hw[(k - SyncLength) % BlockLength]
    else 0
  }

  lemma {:induction false} RepeatLength(s: seq<Byte>, n: nat)
    requires |s| == BlockLength
    ensures |Repeat(s, n)| == BlockLength * n
  {
    if n > 0 {
      RepeatLength(s, n - 1);
    }
  }

  lemma {:induction false} RepeatAt(s: seq<Byte>, n: nat, k: nat)
    requires |s| == BlockLength && k < BlockLength * n
    ensures |Repeat(s, n)| == BlockLength * n
    ensures Repeat(s, n)[k] == s[k % BlockLength]
  {
    RepeatLength(s, n);
    if k >= BlockLength {
      RepeatLength(s, n - 1);
      RepeatAt(s, n - 1, k - BlockLength);
    }
  }

  /** The two descriptions of the packet agree on every byte, and the packet
      is exactly 102 bytes long. */
  lemma MagicPacketAt(hw: seq<Byte>, k: nat)
    requires k < PacketLength
    ensures |MagicPacket(hw)| == PacketLength
    ensures MagicPacket(hw)[k] == PacketByteAt(hw, k)
  {
    RepeatLength(Block(hw), Repetitions);
    if k >= SyncLength {
      RepeatAt(Block(hw), Repetitions, k - SyncLength);
    }
  }

  /** Block `b` of the packet holds the address where it has a byte and zero
      elsewhere; the packet always starts with six `0xFF` bytes. */
  lemma MagicPacketBlocks(hw: seq<Byte>, b: nat, j: nat)
    requires b < Repetitions && j < BlockLength
    ensures |MagicPacket(hw)| == PacketLength
    ensures MagicPacket(hw)[j] == 0xFF
    ensures MagicPacket(hw)[SyncLength + BlockLength * b + j] == if j < |hw| then hw[j] else 0
  {
    MagicPacketAt(hw, j);
    MagicPacketAt(hw, SyncLength + BlockLength * b + j);
    assert (BlockLength * b + j) % BlockLength == j;
  }

  /** A six-byte address yields the textbook magic packet: sixteen exact copies. */
  lemma SixByteAddress(hw: seq<Byte>)
    requires |hw| == 6
    ensures MagicPacket(hw) == Sync + Repeat(hw, Repetitions)
  {
    assert Block(hw) == hw;
  }

  /** The length of the address is not checked: a five-byte address is
      broadcast like a six-byte one (its blocks then end in a zero byte, by
      `MagicPacketBlocks`). */
  lemma ShortAddressAccepted(hw: seq<Byte>)
    requires |hw| == 5
    ensures Wake(FormatMac(hw), Link(true, true)) ==
      WakeRun(None, [BroadcastSocket(WakePort), BroadcastWrite(MagicPacket(hw))])
  {
    MacRoundTrip(hw);
  }

  // ---------------------------------------------------------------------
  // Building the buffer in place

  /** Go's built-in `copy(dst[lo:hi], src)`: copies `min(hi - lo, |src|)`
      bytes to the front of the window and leaves everything else alone. */
  method CopyInto(dst: array<Byte>, lo: nat, hi: nat, src: seq<Byte>) returns (n: nat)
    requires lo <= hi <= dst.Length
    modifies dst
    ensures n == if |src| < hi - lo then |src| else hi - lo
    ensures forall k :: 0 <= k < dst.Length ==>
      dst[k] == if lo <= k < lo + n then src[k - lo] else old(dst[k])
  {
    n := if |src| < hi - lo then |src| else hi - lo;
    var j := 0;
    while j < n
      invariant 0 <= j <= n
      invariant forall k :: 0 <= k < dst.Length ==>
        dst[k] == if lo <= k < lo + j then src[k - lo] else old(dst[k])
    {
      dst[lo + j] := src[j];
      j := j + 1;
    }
  }

  /** `packet := make([]byte, 102)`, six `0xFF` bytes, then one `copy` of the
      address into each six-byte block. */
  method BuildMagicPacket(hw: seq<Byte>) returns (packet: array<Byte>)
    ensures fresh(packet)
    ensures packet[..] == MagicPacket(hw)
  {
    packet := new Byte[PacketLength](_ => 0);
    for i := 0 to SyncLength
      invariant forall k :: 0 <= k < i ==> packet[k] == 0xFF
      invariant forall k :: i <= k < PacketLength ==> packet[k] == 0
    {
      packet[i] := 0xFF;
    }
    var i := SyncLength;
    while i < PacketLength
      invariant SyncLength <= i <= PacketLength && i % BlockLength == 0
      invariant forall k :: 0 <= k < i ==> packet[k] == PacketByteAt(hw, k)
      invariant forall k :: i <= k < PacketLength ==> packet[k] == 0
    {
      var _ := CopyInto(packet, i, i + BlockLength, hw);
      forall k | i <= k < i + BlockLength
        ensures packet[k] == PacketByteAt(hw, k)
      {
        assert (k - SyncLength) % BlockLength == k - i;
      }
      i := i + BlockLength;
    }
    MagicPacketAt(hw, 0);
    forall k | 0 <= k < PacketLength
      ensures packet[k] == MagicPacket(hw)[k]
    {
      MagicPacketAt(hw, k);
    }
  }

  // ---------------------------------------------------------------------
  // Sending

  /** What the UDP socket does: whether it opens, and whether the write succeeds. */
  datatype Link = Link(socketOpens: bool, writeSucceeds: bool)

  datatype WakeError = InvalidMac(cause: HexError) | SocketError | WriteError

  /** The error `sendWOL` returns (if any) and what it did on the network. */
  datatype WakeRun = WakeRun(error: Option<WakeError>, events: seq<Event>)

  /** The behaviour of `sendWOL(mac)` over a given link. */
  function Wake(mac: string, link: Link): (r: WakeRun)
    ensures r.events != [] ==> r.events[0] == BroadcastSocket(WakePort)
    ensures r.error.None? ==>
      |r.events| == 2 && r.events[1].BroadcastWrite? && |r.events[1].packet| == PacketLength
  {
    match HexDecode(StripSeparators(mac))
    case Err(e) => WakeRun(Some(InvalidMac(e)), [])
    case Ok(hw) =>
      if !link.socketOpens then WakeRun(Some(SocketError), [BroadcastSocket(WakePort)])
      else WakeRun(if link.writeSucceeds then None else Some(WriteError),
                   [BroadcastSocket(WakePort), BroadcastWrite(MagicPacket(hw))])
  }

  /** `sendWOL` touches nothing but the broadcast socket. */
  lemma WakeOnlyBroadcasts(mac: string, link: Link)
    ensures forall e :: e in Wake(mac, link).events ==> e.BroadcastSocket? || e.BroadcastWrite?
  {
  }

  /** A malformed address is rejected before any socket is opened, and only
      a malformed address is rejected that way. */
  lemma WakeRejectsBadMac(mac: string, link: Link)
    ensures Wake(mac, link).error.Some? && Wake(mac, link).error.value.InvalidMac?
        <==> !(|StripSeparators(mac)| % 2 == 0 && AllHex(StripSeparators(mac)))
    ensures Wake(mac, link).error.Some? && Wake(mac, link).error.value.InvalidMac? ==>
        Wake(mac, link).events == []
  {
  }

  /** Once the address decodes, only the link decides the outcome: a socket
      that does not open is `SocketError`, a failed write is `WriteError`, and
      a decoded address over a working link is sent without error. */
  lemma WakeOutcome(mac: string, link: Link)
    ensures Wake(mac, link).error.None? <==>
      HexDecode(StripSeparators(mac)).Ok? && link.socketOpens && link.writeSucceeds
    ensures Wake(mac, link).error == Some(SocketError) <==>
      HexDecode(StripSeparators(mac)).Ok? && !link.socketOpens
    ensures Wake(mac, link).error == Some(WriteError) <==>
      HexDecode(StripSeparators(mac)).Ok? && link.socketOpens && !link.writeSucceeds
  {
  }

  /** Whatever is broadcast is a 102-byte packet that starts with six `0xFF`
      bytes and repeats the decoded address block sixteen times. */
  lemma WakeBroadcastsPacket(mac: string, link: Link, b: nat, j: nat)
    requires HexDecode(StripSeparators(mac)).Ok? && link.socketOpens
    requires b < Repetitions && j < BlockLength
    ensures var hw := HexDecode(StripSeparators(mac)).value;
      && |Wake(mac, link).events| == 2
      && Wake(mac, link).events[1].BroadcastWrite?
      && |Wake(mac, link).events[1].packet| == PacketLength
      && Wake(mac, link).events[1].packet[j] == 0xFF
      && Wake(mac, link).events[1].packet[SyncLength + BlockLength * b + j] ==
           (if j < |hw| then hw[j] else 0)
  {
    MagicPacketBlocks(HexDecode(StripSeparators(mac)).value, b, j);
  }

  /** A colon-separated six-byte address over a working link is woken with
      the textbook packet and no error. */
  lemma WakeFormattedMac(hw: seq<Byte>)
    requires |hw| == 6
    ensures Wake(FormatMac(hw), Link(true, true)) ==
      WakeRun(None, [BroadcastSocket(WakePort),
                     BroadcastWrite(Sync + Repeat(hw, Repetitions))])
  {
    MacRoundTrip(hw);
    SixByteAddress(hw);
  }

  /** `sendWOL`: strip the separators, decode, fill the buffer, broadcast it. */
  method SendWOL(mac: string, link: Link) returns (error: Option<WakeError>, events: seq<Event>)
    ensures WakeRun(error, events) == Wake(mac, link)
  {
    var stripped := RemoveAll(RemoveAll(mac, ':'), '-');
    var decoded := HexDecode(stripped);
    if decoded.Err? {
      return Some(InvalidMac(decoded.error)), [];
    }
    var packet := BuildMagicPacket(decoded.value);
    events := [BroadcastSocket(WakePort)];
    if !link.socketOpens {
      return Some(SocketError), events;
    }
    events := events + [BroadcastWrite(packet[..])];
    error := if link.writeSucceeds then None else Some(WriteError);
  }
}
