/**
 common/match_command.go: the DWC match command codec for protocol versions 3, 11 and 90.
 Integers keep the widths of the source; multi-byte fields are little-endian except IP addresses.
 */
module MatchCommand {

  type U8 = n: int | 0 <= n < 0x100
  type U16 = n: int | 0 <= n < 0x1_0000
  type U32 = n: int | 0 <= n < 0x1_0000_0000

  datatype Option<+T> = None | Some(value: T)

  const RESERVATION: U8 := 0x01
  const RESV_OK: U8 := 0x02
  const RESV_DENY: U8 := 0x03
  const RESV_WAIT: U8 := 0x04
  const RESV_CANCEL: U8 := 0x05
  const TELL_ADDR: U8 := 0x06
  const SERVER_CLOSE_CLIENT: U8 := 0x10
  const POLL_TIMEOUT: U8 := 0x11
  const POLL_TO_ACK: U8 := 0x12
  const SUSPEND_MATCH: U8 := 0x82

  datatype Reservation = Reservation(
    matchType: U8, hasPublicIP: bool, publicIP: U32, publicPort: U16, localIP: U32, localPort: U16, unknown: U32,
    isFriend: bool, localPlayerCount: U32, resvCheckValue: U32, userData: seq<U8>)

  datatype ResvOK = ResvOK(
    maxPlayers: U32, senderAID: U32, profileID: U32, publicIP: U32, publicPort: U16, localIP: U32, localPort: U16,
    unknown: U32, localPlayerCount: U32, groupID: U32, receiverNewAID: U32, clientCount: U32, resvCheckValue: U32,
    profileIDs: seq<U32>, isFriend: bool, userData: seq<U8>)

  datatype ResvDeny = ResvDeny(reason: U32, reasonSpecified: bool, userData: seq<U8>)

  datatype TellAddr = TellAddr(localIP: U32, localPort: U16)

  datatype SuspendMatch = SuspendMatch(
    hostProfileID: U32, isHostFlag: U32, short: bool, suspendValue: U32, clientAIDValue: U32)

  /** The pointers of the source become options; fields a constructor leaves out are zero. */
  datatype MatchCommandData = MatchCommandData(
    version: int, command: U8, reservation: Option<Reservation>, resvOK: Option<ResvOK>, resvDeny: Option<ResvDeny>,
    tellAddr: Option<TellAddr>, closedClients: Option<seq<U32>>, suspendMatch: Option<SuspendMatch>, other: seq<U8>)

  const NO_DATA := MatchCommandData(0, 0, None, None, None, None, None, None, [])

  // ---------- Four-byte words

  function ToLE(n: U32): (s: seq<U8>)
    ensures |s| == 4
  {
    [n % 0x100, n / 0x100 % 0x100, n / 0x1_0000 % 0x100, n / 0x100_0000]
  }

  function ToBE(n: U32): (s: seq<U8>)
    ensures |s| == 4
  {
    [n / 0x100_0000, n / 0x1_0000 % 0x100, n / 0x100 % 0x100, n % 0x100]
  }

  function Word(x: int, y: int, z: int, w: int): int {
    x + 0x100 * y + 0x1_0000 * z + 0x100_0000 * w
  }

  function LE(b: seq<U8>, i: nat): U32
    requires i + 4 <= |b|
  {
    Word(b[i], b[i + 1], b[i + 2], b[i + 3])
  }

  function BE(b: seq<U8>, i: nat): U32
    requires i + 4 <= |b|
  {
    Word(b[i + 3], b[i + 2], b[i + 1], b[i])
  }

  lemma WordBytes(x: U8, y: U8, z: U8, w: U8)
    ensures ToLE(Word(x, y, z, w)) == [x, y, z, w]
    ensures ToBE(Word(x, y, z, w)) == [w, z, y, x]
  {
    var n := Word(x, y, z, w);
    var n1: int := y + 0x100 * z + 0x1_0000 * w;
    var n2: int := z + 0x100 * w;
    assert n == x + 0x100 * n1 && n / 0x100 == n1 && n % 0x100 == x;
    assert n1 == y + 0x100 * n2 && n1 % 0x100 == y;
    assert n == x + 0x100 * y + 0x1_0000 * n2 && n / 0x1_0000 == n2 && n2 % 0x100 == z;
    assert n / 0x100_0000 == w;
  }

  lemma FirstWord(b: seq<U8>)
    requires 4 <= |b|
    ensures ToLE(LE(b, 0)) == b[..4] && ToBE(BE(b, 0)) == b[..4]
  {
    AppendWord(b, 0);
    assert b[..0] + ToLE(LE(b, 0)) == ToLE(LE(b, 0)) && b[..0] + ToBE(BE(b, 0)) == ToBE(BE(b, 0));
  }

  /** Re-encoding the word at i extends the prefix before it by the same four bytes. */
  lemma AppendWord(b: seq<U8>, i: nat)
    requires i + 4 <= |b|
    ensures b[..i] + ToLE(LE(b, i)) == b[..i + 4]
    ensures b[..i] + ToBE(BE(b, i)) == b[..i + 4]
  {
    WordBytes(b[i], b[i + 1], b[i + 2], b[i + 3]);
    WordBytes(b[i + 3], b[i + 2], b[i + 1], b[i]);
    assert b[..i + 4] == b[..i] + [b[i], b[i + 1], b[i + 2], b[i + 3]];
  }

  /** The n consecutive words from i on. */
  function Words(b: seq<U8>, i: nat, n: nat): (w: seq<U32>)
    requires i + 4 * n <= |b|
    ensures |w| == n
  {
    if n == 0 then [] else Words(b, i, n - 1) + [LE(b, i + 4 * (n - 1))]
  }

  function WordsToBytes(w: seq<U32>): seq<U8> {
    if w == [] then [] else WordsToBytes(w[..|w| - 1]) + ToLE(w[|w| - 1])
  }

  lemma {:induction false} AppendWords(b: seq<U8>, i: nat, n: nat)
    requires i + 4 * n <= |b|
    ensures b[..i] + WordsToBytes(Words(b, i, n)) == b[..i + 4 * n]
  {
    if n > 0 {
      var w := Words(b, i, n);
      AppendWords(b, i, n - 1);
      AppendWord(b, i + 4 * (n - 1));
      assert w[..n - 1] == Words(b, i, n - 1);
      var front, last := WordsToBytes(w[..n - 1]), ToLE(w[n - 1]);
      assert b[..i] + (front + last) == (b[..i] + front) + last;
    }
  }

  method ReadWords(b: seq<U8>, at: nat, n: nat) returns (w: seq<U32>)
    requires at + 4 * n <= |b|
    ensures w == Words(b, at, n)
  {
    w := [];
    for i := 0 to n
      invariant w == Words(b, at, i)
    {
      w := w + [LE(b, at + 4 * i)];
    }
  }

  method WriteWords(message: seq<U8>, w: seq<U32>) returns (m: seq<U8>)
    ensures m == message + WordsToBytes(w)
  {
    m := message;
    for i := 0 to |w|
      invariant m == message + WordsToBytes(w[..i])
    {
      assert w[..i + 1][..i] == w[..i];
      m := m + ToLE(w[i]);
    }
    assert w[..|w|] == w;
  }

  function BoolWord(b: bool): U32 {
    if b then 1 else 0
  }

  predicate KnownVersion(version: int) {
    version == 3 || version == 11 || version == 90
  }

  // ---------- Decoding

  function DecodeReservation(b: seq<U8>, version: int): Option<Reservation>
    requires KnownVersion(version)
  {
    if (version == 3 && |b| < 0x04) || (version == 11 && |b| < 0x14) || (version == 90 && |b| < 0x24) then None
    else if LE(b, 0) > 3 then None
    else if version == 3 && |b| < 0x0C then
      Some(Reservation(LE(b, 0), false, 0, 0, 0, 0, 0, false, 0, 0, []))
    else if LE(b, 0x08) > 0xffff then None
    else if version == 3 then
      Some(Reservation(LE(b, 0), true, BE(b, 0x04), LE(b, 0x08), 0, 0, 0, false, 0, 0, b[0x0C..]))
    else if version == 11 then
      if LE(b, 0x0C) > 1 then None
      else Some(Reservation(LE(b, 0), true, BE(b, 0x04), LE(b, 0x08), 0, 0, 0, LE(b, 0x0C) != 0, LE(b, 0x10), 0, b[0x14..]))
    else if LE(b, 0x10) > 0xffff || LE(b, 0x18) > 1 then None
    else
      Some(Reservation(LE(b, 0), true, BE(b, 0x04), LE(b, 0x08), BE(b, 0x0C), LE(b, 0x10), LE(b, 0x14),
                       LE(b, 0x18) != 0, LE(b, 0x1C), LE(b, 0x20), b[0x24..]))
  }

  function DecodeResvOKList(b: seq<U8>, version: int): Option<ResvOK>
    requires version == 3 || version == 11
  {
    if |b| < 0x0C then None
    else
      var count := LE(b, 0);
      if version == 3 && (count > 29 || |b| < 0x0C + count * 4) then None
      else if version == 11 && (count > 24 || |b| < 0x20 + count * 4) then None
      else
        var pids := Words(b, 4, count);
        var i := 4 + count * 4;
        if LE(b, i + 4) > 0xffff then None
        else if version == 3 then
          Some(ResvOK(0, 0, 0, BE(b, i), LE(b, i + 4), 0, 0, 0, 0, 0, 0, count, 0, pids, false, b[i + 8..]))
        else if LE(b, i + 8) > 1 then None
        else
          Some(ResvOK(LE(b, i + 0x14), LE(b, i + 0x0C), 0, BE(b, i), LE(b, i + 4), 0, 0, 0, 0, LE(b, i + 0x10), 0,
                      count, 0, pids, LE(b, i + 8) != 0, b[i + 0x18..]))
  }

  /** The decoder's own form, with its loop over the profile IDs. */
  method ReadResvOKList(b: seq<U8>, version: int) returns (r: Option<ResvOK>)
    requires version == 3 || version == 11
    ensures r == DecodeResvOKList(b, version)
  {
    hide LE, BE, Words;
    if |b| < 0x0C {
      return None;
    }
    var count := LE(b, 0);
    if (version == 3 && (count > 29 || |b| < 0x0C + count * 4)) || (version == 11 && (count > 24 || |b| < 0x20 + count * 4)) {
      return None;
    }
    var pids := ReadWords(b, 4, count);
    var i := 4 + count * 4;
    if LE(b, i + 4) > 0xffff {
      return None;
    }
    if version == 3 {
      return Some(ResvOK(0, 0, 0, BE(b, i), LE(b, i + 4), 0, 0, 0, 0, 0, 0, count, 0, pids, false, b[i + 8..]));
    }
    if LE(b, i + 8) > 1 {
      return None;
    }
    return Some(ResvOK(LE(b, i + 0x14), LE(b, i + 0x0C), 0, BE(b, i), LE(b, i + 4), 0, 0, 0, 0, LE(b, i + 0x10), 0,
                       count, 0, pids, LE(b, i + 8) != 0, b[i + 0x18..]));
  }

  function DecodeResvOK90(b: seq<U8>): Option<ResvOK> {
    if |b| < 0x34 || LE(b, 0x10) > 0xffff || LE(b, 0x18) > 0xffff then None
    else
      Some(ResvOK(LE(b, 0x00), LE(b, 0x04), LE(b, 0x08), BE(b, 0x0C), LE(b, 0x10), BE(b, 0x14), LE(b, 0x18),
                  LE(b, 0x1C), LE(b, 0x20), LE(b, 0x24), LE(b, 0x28), LE(b, 0x2C), LE(b, 0x30), [], false, b[0x34..]))
  }

  function DecodeResvDeny(b: seq<U8>): ResvDeny {
    if |b| >= 4 then ResvDeny(LE(b, 0), |b| > 4, b[4..]) else ResvDeny(0, false, b)
  }

  function DecodeSuspend(b: seq<U8>): Option<SuspendMatch> {
    if |b| == 0x08 then Some(SuspendMatch(LE(b, 0), LE(b, 4), true, 0, 0))
    else if |b| == 0x10 then Some(SuspendMatch(LE(b, 0), LE(b, 4), false, LE(b, 8), LE(b, 0x0C)))
    else None
  }

  function DecodeMatchCommand(command: U8, b: seq<U8>, version: int): Option<MatchCommandData> {
    var base := NO_DATA.(version := version, command := command);
    if !KnownVersion(version) || |b| % 4 != 0 then None
    else if command == RESERVATION then
      var r := DecodeReservation(b, version);
      if r.None? then None else Some(base.(reservation := r))
    else if command == RESV_OK then
      var r := if version == 90 then DecodeResvOK90(b) else DecodeResvOKList(b, version);
      if r.None? then None else Some(base.(resvOK := r))
    else if command == RESV_DENY then Some(base.(resvDeny := Some(DecodeResvDeny(b))))
    else if command == RESV_WAIT || command == RESV_CANCEL || command == POLL_TIMEOUT then
      if |b| != 0 then None else Some(base)
    else if command == TELL_ADDR then
      if |b| != 8 || LE(b, 4) > 0xffff then None else Some(base.(tellAddr := Some(TellAddr(BE(b, 0), LE(b, 4)))))
    else if command == SERVER_CLOSE_CLIENT then
      if |b| > 0x80 then None else Some(base.(closedClients := Some(Words(b, 0, |b| / 4))))
    else if command == POLL_TO_ACK then
      if |b| != 4 then None else Some(base.(other := b))
    else if command == SUSPEND_MATCH then
      var r := DecodeSuspend(b);
      if r.None? then None else Some(base.(suspendMatch := r))
    else Some(base.(other := b))
  }

  // ---------- Encoding

  /** The source dereferences the part its command names. */
  predicate HasPart(command: U8, d: MatchCommandData) {
    && (command == RESERVATION ==> d.reservation.Some?)
    && (command == RESV_OK ==> d.resvOK.Some?)
    && (command == RESV_DENY ==> d.resvDeny.Some?)
    && (command == TELL_ADDR ==> d.tellAddr.Some?)
    && (command == SERVER_CLOSE_CLIENT ==> d.closedClients.Some?)
    && (command == SUSPEND_MATCH ==> d.suspendMatch.Some?)
  }

  function Aligned(m: seq<U8>): Option<seq<U8>> {
    if |m| % 4 != 0 then None else Some(m)
  }

  function EncodeReservation(r: Reservation, version: int): Option<seq<U8>> {
    var m := ToLE(r.matchType);
    if version == 3 && !r.hasPublicIP then Some(m)
    else
      var m := m + ToBE(r.publicIP) + ToLE(r.publicPort);
      var m :=
        if version == 11 then m + ToLE(BoolWord(r.isFriend)) + ToLE(r.localPlayerCount)
        else if version == 90 then
          m + ToBE(r.localIP) + ToLE(r.localPort) + ToLE(r.unknown) + ToLE(BoolWord(r.isFriend))
          + ToLE(r.localPlayerCount) + ToLE(r.resvCheckValue)
        else m;
      Aligned(m + r.userData)
  }

  function EncodeResvOK(r: ResvOK, version: int): Option<seq<U8>> {
    if version == 3 || version == 11 then
      if r.clientCount != |r.profileIDs| then None
      else
        var m := ToLE(r.clientCount) + WordsToBytes(r.profileIDs) + ToBE(r.publicIP) + ToLE(r.publicPort);
        if version == 3 then Aligned(m + r.userData)
        else Aligned(m + ToLE(BoolWord(r.isFriend)) + ToLE(r.senderAID) + ToLE(r.groupID) + ToLE(r.maxPlayers) + r.userData)
    else
      Aligned(ToLE(r.maxPlayers) + ToLE(r.senderAID) + ToLE(r.profileID) + ToBE(r.publicIP) + ToLE(r.publicPort)
              + ToBE(r.localIP) + ToLE(r.localPort) + ToLE(r.unknown) + ToLE(r.localPlayerCount) + ToLE(r.groupID)
              + ToLE(r.receiverNewAID) + ToLE(r.clientCount) + ToLE(r.resvCheckValue) + r.userData)
  }

  /** The encoder's own form, with its loop over the profile IDs. */
  method WriteResvOKList(r: ResvOK, version: int) returns (m: Option<seq<U8>>)
    requires version == 3 || version == 11
    ensures m == EncodeResvOK(r, version)
  {
    hide ToLE, ToBE, WordsToBytes;
    if r.clientCount != |r.profileIDs| {
      return None;
    }
    var message := WriteWords(ToLE(r.clientCount), r.profileIDs);
    message := message + ToBE(r.publicIP) + ToLE(r.publicPort);
    if version == 11 {
      message := message + ToLE(BoolWord(r.isFriend)) + ToLE(r.senderAID) + ToLE(r.groupID) + ToLE(r.maxPlayers);
    }
    message := message + r.userData;
    if |message| % 4 != 0 {
      return None;
    }
    return Some(message);
  }

  function EncodeMatchCommand(command: U8, d: MatchCommandData): Option<seq<U8>>
    requires HasPart(command, d)
  {
    if !KnownVersion(d.version) then None
    else if command == RESERVATION then EncodeReservation(d.reservation.value, d.version)
    else if command == RESV_OK then EncodeResvOK(d.resvOK.value, d.version)
    else if command == RESV_DENY then
      var r := d.resvDeny.value;
      if !r.reasonSpecified then Some(r.userData) else Aligned(ToLE(r.reason) + r.userData)
    else if command == RESV_WAIT || command == RESV_CANCEL || command == POLL_TIMEOUT then Some([])
    else if command == TELL_ADDR then Some(ToBE(d.tellAddr.value.localIP) + ToLE(d.tellAddr.value.localPort))
    else if command == SERVER_CLOSE_CLIENT then Some(WordsToBytes(d.closedClients.value))
    else if command == SUSPEND_MATCH then
      var s := d.suspendMatch.value;
      var m := ToLE(s.hostProfileID) + ToLE(s.isHostFlag);
      Some(if s.short then m else m + ToLE(s.suspendValue) + ToLE(s.clientAIDValue))
    else Some(d.other)
  }

  // ---------- Re-encoding what was decoded

  lemma ReservationRoundTrip(b: seq<U8>, version: int)
    requires KnownVersion(version) && |b| % 4 == 0 && DecodeReservation(b, version).Some?
    requires !(version == 3 && |b| == 8)
    ensures EncodeReservation(DecodeReservation(b, version).value, version) == Some(b)
  {
    hide ToLE, ToBE, LE, BE;
    FirstWord(b);
    if version == 3 && |b| < 0x0C {
      assert |b| == 4;
      assert b[..4] == b;
    } else {
      AppendWord(b, 4);
      AppendWord(b, 8);
      if version == 3 {
        assert b[..0x0C] + b[0x0C..] == b;
      } else {
        AppendWord(b, 0x0C);
        AppendWord(b, 0x10);
        if version == 11 {
          assert b[..0x14] + b[0x14..] == b;
        } else {
          AppendWord(b, 0x14);
          AppendWord(b, 0x18);
          AppendWord(b, 0x1C);
          AppendWord(b, 0x20);
          assert b[..0x24] + b[0x24..] == b;
        }
      }
    }
  }

  lemma ResvOKListRoundTrip(b: seq<U8>, version: int)
    requires (version == 3 || version == 11) && |b| % 4 == 0 && DecodeResvOKList(b, version).Some?
    ensures EncodeResvOK(DecodeResvOKList(b, version).value, version) == Some(b)
  {
    hide ToLE, ToBE, LE, BE, Words, WordsToBytes;
    var count := LE(b, 0);
    var i := 4 + 4 * count;
    FirstWord(b);
    AppendWords(b, 4, count);
    AppendWord(b, i);
    AppendWord(b, i + 4);
    if version == 3 {
      assert b[..i + 8] + b[i + 8..] == b;
    } else {
      AppendWord(b, i + 8);
      AppendWord(b, i + 0x0C);
      AppendWord(b, i + 0x10);
      AppendWord(b, i + 0x14);
      assert b[..i + 0x18] + b[i + 0x18..] == b;
    }
  }

  lemma ResvOK90RoundTrip(b: seq<U8>)
    requires |b| % 4 == 0 && DecodeResvOK90(b).Some?
    ensures EncodeResvOK(DecodeResvOK90(b).value, 90) == Some(b)
  {
    hide ToLE, ToBE, LE, BE;
    FirstWord(b);
    AppendWord(b, 0x04);
    AppendWord(b, 0x08);
    AppendWord(b, 0x0C);
    AppendWord(b, 0x10);
    AppendWord(b, 0x14);
    AppendWord(b, 0x18);
    AppendWord(b, 0x1C);
    AppendWord(b, 0x20);
    AppendWord(b, 0x24);
    AppendWord(b, 0x28);
    AppendWord(b, 0x2C);
    AppendWord(b, 0x30);
    assert b[..0x34] + b[0x34..] == b;
  }

  /** The buffers whose content the decoder drops: a bare deny reason, and a version 3 reservation of two words. */
  predicate Lossy(command: U8, b: seq<U8>, version: int) {
    (command == RESV_DENY && |b| == 4) || (command == RESERVATION && version == 3 && |b| == 8)
  }

  /** Encoding what was decoded gives the buffer back, exactly when it is not one of the lossy ones. */
  lemma EncodeOfDecode(command: U8, b: seq<U8>, version: int)
    requires DecodeMatchCommand(command, b, version).Some?
    ensures var d := DecodeMatchCommand(command, b, version).value;
            && HasPart(command, d)
            && (EncodeMatchCommand(command, d) == Some(b) <==> !Lossy(command, b, version))
  {
    hide ToLE, ToBE, LE, BE, Words, WordsToBytes, EncodeReservation, EncodeResvOK, DecodeReservation, DecodeResvOKList, DecodeResvOK90;
    if command == RESERVATION {
      if Lossy(command, b, version) {
        ShortReservation(b);
      } else {
        ReservationRoundTrip(b, version);
      }
    } else if command == RESV_OK {
      if version == 90 {
        ResvOK90RoundTrip(b);
      } else {
        ResvOKListRoundTrip(b, version);
      }
    } else if command == RESV_DENY {
      if |b| >= 4 {
        FirstWord(b);
        assert b[..4] + b[4..] == b;
      }
    } else if command == TELL_ADDR {
      FirstWord(b);
      AppendWord(b, 4);
      assert b[..8] == b;
    } else if command == SERVER_CLOSE_CLIENT {
      AppendWords(b, 0, |b| / 4);
      assert b[..0] + WordsToBytes(Words(b, 0, |b| / 4)) == WordsToBytes(Words(b, 0, |b| / 4));
      assert b[..|b|] == b;
    } else if command == SUSPEND_MATCH {
      FirstWord(b);
      AppendWord(b, 4);
      if |b| == 0x10 {
        AppendWord(b, 8);
        AppendWord(b, 0x0C);
      }
      assert b[..|b|] == b;
    }
  }

  /** Both kinds of lossy buffers are accepted: a deny reason is dropped, and so is half of a reservation. */
  lemma LossyAccepted()
    ensures var deny := [1, 0, 0, 0];
            && Lossy(RESV_DENY, deny, 11) && DecodeMatchCommand(RESV_DENY, deny, 11).Some?
            && EncodeMatchCommand(RESV_DENY, DecodeMatchCommand(RESV_DENY, deny, 11).value) == Some([])
    ensures var half := [2, 0, 0, 0, 9, 9, 9, 9];
            && Lossy(RESERVATION, half, 3) && DecodeMatchCommand(RESERVATION, half, 3).Some?
            && EncodeMatchCommand(RESERVATION, DecodeMatchCommand(RESERVATION, half, 3).value) == Some([2, 0, 0, 0])
  {
    var deny: seq<U8>, half: seq<U8> := [1, 0, 0, 0], [2, 0, 0, 0, 9, 9, 9, 9];
    assert deny[4..] == [];
    assert LE(half, 0) == 2;
    assert ToLE(2) == [2, 0, 0, 0];
  }

  lemma ShortReservation(b: seq<U8>)
    requires |b| == 8 && DecodeReservation(b, 3).Some?
    ensures EncodeReservation(DecodeReservation(b, 3).value, 3) != Some(b)
  {
    assert |ToLE(LE(b, 0))| == 4;
  }

  /** No two different messages that survive re-encoding decode alike. */
  lemma DecodeInjective(command: U8, b: seq<U8>, c: seq<U8>, version: int)
    requires DecodeMatchCommand(command, b, version).Some?
    requires DecodeMatchCommand(command, b, version) == DecodeMatchCommand(command, c, version)
    requires !Lossy(command, b, version) && !Lossy(command, c, version)
    ensures b == c
  {
    hide DecodeMatchCommand, EncodeMatchCommand;
    EncodeOfDecode(command, b, version);
    EncodeOfDecode(command, c, version);
  }

  // ---------- Decoding what was encoded

  /** A word added at the end can be read there, and the words before it stay what they were. */
  lemma Appended(m: seq<U8>, n: U32)
    ensures LE(m + ToLE(n), |m|) == n && BE(m + ToBE(n), |m|) == n
    ensures forall i: nat :: i + 4 <= |m| ==>
              && LE(m + ToLE(n), i) == LE(m, i) && BE(m + ToLE(n), i) == BE(m, i)
              && LE(m + ToBE(n), i) == LE(m, i) && BE(m + ToBE(n), i) == BE(m, i)
  {
    BytesWord(n);
  }

  lemma BytesWord(n: U32)
    ensures Word(n % 0x100, n / 0x100 % 0x100, n / 0x1_0000 % 0x100, n / 0x100_0000) == n
  {
    assert n / 0x1_0000 == n / 0x100 / 0x100 && n / 0x100_0000 == n / 0x1_0000 / 0x100;
  }

  lemma Extended(m: seq<U8>, more: seq<U8>)
    ensures forall i: nat :: i + 4 <= |m| ==> LE(m + more, i) == LE(m, i) && BE(m + more, i) == BE(m, i)
  {
  }

  /** The same for a list of words. */
  lemma {:induction false} AppendedWords(m: seq<U8>, w: seq<U32>)
    ensures |WordsToBytes(w)| == 4 * |w| && Words(m + WordsToBytes(w), |m|, |w|) == w
    ensures forall i: nat :: i + 4 <= |m| ==> LE(m + WordsToBytes(w), i) == LE(m, i) && BE(m + WordsToBytes(w), i) == BE(m, i)
  {
    hide ToLE, ToBE, LE, BE;
    if w == [] {
      assert m + [] == m;
    } else {
      var front, last := w[..|w| - 1], w[|w| - 1];
      AppendedWords(m, front);
      var before := m + WordsToBytes(front);
      Appended(before, last);
      assert m + WordsToBytes(w) == before + ToLE(last);
      WordsKept(before, ToLE(last), |m|, |front|);
      assert w == front + [last];
    }
  }

  lemma {:induction false} WordsKept(m: seq<U8>, more: seq<U8>, i: nat, n: nat)
    requires i + 4 * n <= |m|
    ensures Words(m + more, i, n) == Words(m, i, n)
  {
    if n > 0 {
      WordsKept(m, more, i, n - 1);
      Extended(m, more);
    }
  }

  /** The reservations that have a wire form of their own: what a version does not carry is zero. */
  predicate ReservationFits(r: Reservation, version: int) {
    && r.matchType <= 3 && |r.userData| % 4 == 0
    && (version == 90 || (r.localIP == 0 && r.localPort == 0 && r.unknown == 0 && r.resvCheckValue == 0))
    && (version != 3 || (!r.isFriend && r.localPlayerCount == 0))
    && (r.hasPublicIP || (version == 3 && r.publicIP == 0 && r.publicPort == 0 && r.userData == []))
  }

  /** The acceptances that are read back; lists are bounded, and version 11 has to carry user data. */
  predicate ResvOKFits(r: ResvOK, version: int) {
    && |r.userData| % 4 == 0
    && (version == 3 ==> r.maxPlayers == 0 && r.senderAID == 0 && r.groupID == 0)
    && (if version == 11 then r.userData != [] else !r.isFriend)
    && if version == 90 then r.profileIDs == []
       else
         && r.clientCount == |r.profileIDs| <= (if version == 3 then 29 else 24)
         && r.profileID == 0 && r.localIP == 0 && r.localPort == 0 && r.unknown == 0
         && r.localPlayerCount == 0 && r.receiverNewAID == 0 && r.resvCheckValue == 0
  }

  /** A reason is told apart from data only when data follows it. */
  predicate ResvDenyFits(r: ResvDeny) {
    if r.reasonSpecified then r.userData != [] && |r.userData| % 4 == 0 else r.reason == 0 && r.userData == []
  }

  predicate SuspendFits(s: SuspendMatch) {
    s.short ==> s.suspendValue == 0 && s.clientAIDValue == 0
  }

  /** The commands without a part of their own. */
  predicate Plain(command: U8) {
    command !in {0x01, 0x02, 0x03, 0x04, 0x05, 0x06, 0x10, 0x11, 0x12, 0x82}
  }

  /** A command of version 3, 11 or 90 that has exactly the part its number names, in one of the forms above. */
  predicate WellFormed(command: U8, d: MatchCommandData) {
    && d.version in {3, 11, 90} && d.command == command
    && (if command == 0x01 then d.reservation.Some? && ReservationFits(d.reservation.value, d.version) else d.reservation.None?)
    && (if command == 0x02 then d.resvOK.Some? && ResvOKFits(d.resvOK.value, d.version) else d.resvOK.None?)
    && (if command == 0x03 then d.resvDeny.Some? && ResvDenyFits(d.resvDeny.value) else d.resvDeny.None?)
    && (d.tellAddr.Some? <==> command == 0x06)
    && (if command == 0x10 then d.closedClients.Some? && |d.closedClients.value| <= 32 else d.closedClients.None?)
    && (if command == 0x82 then d.suspendMatch.Some? && SuspendFits(d.suspendMatch.value) else d.suspendMatch.None?)
    && (if command == 0x12 then |d.other| == 4 else if Plain(command) then |d.other| % 4 == 0 else d.other == [])
  }

  /** Where each field of a reservation is in the message. */
  lemma ReservationLayout(r: Reservation, version: int)
    requires KnownVersion(version) && EncodeReservation(r, version).Some?
    ensures var m := EncodeReservation(r, version).value;
            && |m| >= 4 && LE(m, 0) == r.matchType
            && if version == 3 && !r.hasPublicIP then |m| == 4
               else
                 && |m| >= 0x0C && BE(m, 4) == r.publicIP && LE(m, 8) == r.publicPort
                 && (version == 3 ==> m[0x0C..] == r.userData)
                 && (version == 11 ==>
                       |m| >= 0x14 && LE(m, 0x0C) == BoolWord(r.isFriend) && LE(m, 0x10) == r.localPlayerCount && m[0x14..] == r.userData)
                 && (version == 90 ==>
                       && |m| >= 0x24 && BE(m, 0x0C) == r.localIP && LE(m, 0x10) == r.localPort && LE(m, 0x14) == r.unknown
                       && LE(m, 0x18) == BoolWord(r.isFriend) && LE(m, 0x1C) == r.localPlayerCount && LE(m, 0x20) == r.resvCheckValue
                       && m[0x24..] == r.userData)
  {
    hide ToLE, ToBE, LE, BE;
    Appended([], r.matchType);
    assert [] + ToLE(r.matchType) == ToLE(r.matchType);
    if version != 3 || r.hasPublicIP {
      var m := ToLE(r.matchType);
      Appended(m, r.publicIP);
      m := m + ToBE(r.publicIP);
      Appended(m, r.publicPort);
      m := m + ToLE(r.publicPort);
      if version == 11 {
        Appended(m, BoolWord(r.isFriend));
        m := m + ToLE(BoolWord(r.isFriend));
        Appended(m, r.localPlayerCount);
        m := m + ToLE(r.localPlayerCount);
      } else if version == 90 {
        Appended(m, r.localIP);
        m := m + ToBE(r.localIP);
        Appended(m, r.localPort);
        m := m + ToLE(r.localPort);
        Appended(m, r.unknown);
        m := m + ToLE(r.unknown);
        Appended(m, BoolWord(r.isFriend));
        m := m + ToLE(BoolWord(r.isFriend));
        Appended(m, r.localPlayerCount);
        m := m + ToLE(r.localPlayerCount);
        Appended(m, r.resvCheckValue);
        m := m + ToLE(r.resvCheckValue);
      }
      Extended(m, r.userData);
    }
  }

  /** Where each field of an acceptance of version 3 or 11 is. */
  lemma ResvOKListLayout(r: ResvOK, version: int)
    requires (version == 3 || version == 11) && EncodeResvOK(r, version).Some?
    ensures var m, i := EncodeResvOK(r, version).value, 4 + 4 * |r.profileIDs|;
            && |m| >= i + 8 && LE(m, 0) == r.clientCount == |r.profileIDs| && Words(m, 4, |r.profileIDs|) == r.profileIDs
            && BE(m, i) == r.publicIP && LE(m, i + 4) == r.publicPort
            && (version == 3 ==> m[i + 8..] == r.userData)
            && (version == 11 ==>
                  && |m| >= i + 0x18 && LE(m, i + 8) == BoolWord(r.isFriend) && LE(m, i + 0x0C) == r.senderAID
                  && LE(m, i + 0x10) == r.groupID && LE(m, i + 0x14) == r.maxPlayers && m[i + 0x18..] == r.userData)
  {
    hide ToLE, ToBE, LE, BE, Words, WordsToBytes;
    var n := |r.profileIDs|;
    Appended([], r.clientCount);
    assert [] + ToLE(r.clientCount) == ToLE(r.clientCount);
    AppendedWords(ToLE(r.clientCount), r.profileIDs);
    var list := ToLE(r.clientCount) + WordsToBytes(r.profileIDs);
    Appended(list, r.publicIP);
    var m := list + ToBE(r.publicIP);
    Appended(m, r.publicPort);
    m := m + ToLE(r.publicPort);
    if version == 11 {
      Appended(m, BoolWord(r.isFriend));
      m := m + ToLE(BoolWord(r.isFriend));
      Appended(m, r.senderAID);
      m := m + ToLE(r.senderAID);
      Appended(m, r.groupID);
      m := m + ToLE(r.groupID);
      Appended(m, r.maxPlayers);
      m := m + ToLE(r.maxPlayers);
    }
    Extended(m, r.userData);
    var all := m + r.userData;
    WordsKept(list, all[|list|..], 4, n);
    assert all == list + all[|list|..];
  }

  /** Where each field of an acceptance of version 90 is. */
  lemma ResvOK90Layout(r: ResvOK)
    requires EncodeResvOK(r, 90).Some?
    ensures var m := EncodeResvOK(r, 90).value;
            && |m| >= 0x34 && LE(m, 0x00) == r.maxPlayers && LE(m, 0x04) == r.senderAID && LE(m, 0x08) == r.profileID
            && BE(m, 0x0C) == r.publicIP && LE(m, 0x10) == r.publicPort && BE(m, 0x14) == r.localIP && LE(m, 0x18) == r.localPort
            && LE(m, 0x1C) == r.unknown && LE(m, 0x20) == r.localPlayerCount && LE(m, 0x24) == r.groupID
            && LE(m, 0x28) == r.receiverNewAID && LE(m, 0x2C) == r.clientCount && LE(m, 0x30) == r.resvCheckValue
            && m[0x34..] == r.userData
  {
    hide ToLE, ToBE, LE, BE;
    Appended([], r.maxPlayers);
    assert [] + ToLE(r.maxPlayers) == ToLE(r.maxPlayers);
    var m := ToLE(r.maxPlayers);
    Appended(m, r.senderAID);
    m := m + ToLE(r.senderAID);
    Appended(m, r.profileID);
    m := m + ToLE(r.profileID);
    Appended(m, r.publicIP);
    m := m + ToBE(r.publicIP);
    Appended(m, r.publicPort);
    m := m + ToLE(r.publicPort);
    Appended(m, r.localIP);
    m := m + ToBE(r.localIP);
    Appended(m, r.localPort);
    m := m + ToLE(r.localPort);
    Appended(m, r.unknown);
    m := m + ToLE(r.unknown);
    Appended(m, r.localPlayerCount);
    m := m + ToLE(r.localPlayerCount);
    Appended(m, r.groupID);
    m := m + ToLE(r.groupID);
    Appended(m, r.receiverNewAID);
    m := m + ToLE(r.receiverNewAID);
    Appended(m, r.clientCount);
    m := m + ToLE(r.clientCount);
    Appended(m, r.resvCheckValue);
    m := m + ToLE(r.resvCheckValue);
    Extended(m, r.userData);
  }

  /** A reservation is read back exactly when it is in one of the forms. */
  lemma ReservationOfEncode(r: Reservation, version: int)
    requires KnownVersion(version) && EncodeReservation(r, version).Some?
    ensures DecodeReservation(EncodeReservation(r, version).value, version) == Some(r) <==> ReservationFits(r, version)
  {
    hide ToLE, ToBE, LE, BE, EncodeReservation;
    ReservationLayout(r, version);
    ReservationAligned(r, version);
  }

  lemma ReservationAligned(r: Reservation, version: int)
    requires KnownVersion(version)
    ensures EncodeReservation(r, version).Some? ==> |EncodeReservation(r, version).value| % 4 == 0
    ensures ReservationFits(r, version) ==> EncodeReservation(r, version).Some?
  {
    hide ToLE, ToBE;
  }

  lemma ResvOKOfEncode(r: ResvOK, version: int)
    requires KnownVersion(version) && EncodeResvOK(r, version).Some?
    ensures (if version == 90 then DecodeResvOK90(EncodeResvOK(r, 90).value) else DecodeResvOKList(EncodeResvOK(r, version).value, version)) == Some(r)
            <==> ResvOKFits(r, version)
  {
    hide ToLE, ToBE, LE, BE, Words, EncodeResvOK;
    ResvOKAligned(r, version);
    if version == 90 {
      ResvOK90Layout(r);
    } else {
      ResvOKListLayout(r, version);
    }
  }

  lemma ResvOKAligned(r: ResvOK, version: int)
    requires KnownVersion(version)
    ensures EncodeResvOK(r, version).Some? ==> |EncodeResvOK(r, version).value| % 4 == 0
    ensures ResvOKFits(r, version) ==> EncodeResvOK(r, version).Some?
  {
    hide ToLE, ToBE, WordsToBytes;
    AppendedWords([], r.profileIDs);
  }

  /** Without user data an acceptance of version 11 is encoded, but not decoded. */
  lemma BareAcceptanceRefused()
    ensures var r := ResvOK(12, 1, 0, 0x0102_0304, 5, 0, 0, 0, 0, 7, 0, 0, 0, [], false, []);
            EncodeResvOK(r, 11).Some? && DecodeResvOKList(EncodeResvOK(r, 11).value, 11).None?
  {
    var r := ResvOK(12, 1, 0, 0x0102_0304, 5, 0, 0, 0, 0, 7, 0, 0, 0, [], false, []);
    assert |EncodeResvOK(r, 11).value| == 0x1C;
  }

  lemma DenyOfEncode(r: ResvDeny)
    ensures var m := if r.reasonSpecified then ToLE(r.reason) + r.userData else r.userData;
            |m| % 4 == 0 && DecodeResvDeny(m) == r <==> ResvDenyFits(r)
  {
    hide ToLE, LE;
    if r.reasonSpecified {
      var m := ToLE(r.reason) + r.userData;
      Appended([], r.reason);
      assert [] + ToLE(r.reason) == ToLE(r.reason);
      Extended(ToLE(r.reason), r.userData);
      assert LE(m, 0) == r.reason && m[4..] == r.userData;
    } else if |r.userData| >= 4 {
      assert |DecodeResvDeny(r.userData).userData| == |r.userData| - 4;
    }
  }

  lemma TellAddrOfEncode(a: TellAddr)
    ensures var m := ToBE(a.localIP) + ToLE(a.localPort);
            BE(m, 0) == a.localIP && LE(m, 4) == a.localPort
  {
    hide ToLE, ToBE, LE, BE;
    Appended([], a.localIP);
    assert [] + ToBE(a.localIP) == ToBE(a.localIP);
    Appended(ToBE(a.localIP), a.localPort);
  }

  lemma SuspendOfEncode(s: SuspendMatch)
    ensures var short := ToLE(s.hostProfileID) + ToLE(s.isHostFlag);
            var m := if s.short then short else short + ToLE(s.suspendValue) + ToLE(s.clientAIDValue);
            DecodeSuspend(m) == Some(s) <==> SuspendFits(s)
  {
    hide ToLE, ToBE, LE, BE;
    Appended([], s.hostProfileID);
    assert [] + ToLE(s.hostProfileID) == ToLE(s.hostProfileID);
    var m := ToLE(s.hostProfileID);
    Appended(m, s.isHostFlag);
    m := m + ToLE(s.isHostFlag);
    Appended(m, s.suspendValue);
    m := m + ToLE(s.suspendValue);
    Appended(m, s.clientAIDValue);
  }

  /** Decoding what was encoded gives the command back, exactly when the command is well formed. */
  lemma DecodeOfEncode(command: U8, d: MatchCommandData)
    requires HasPart(command, d)
    ensures var m := EncodeMatchCommand(command, d);
            m.Some? && DecodeMatchCommand(command, m.value, d.version) == Some(d) <==> WellFormed(command, d)
  {
    hide ToLE, ToBE, LE, BE, Words, WordsToBytes, EncodeReservation, EncodeResvOK, DecodeReservation, DecodeResvOKList,
         DecodeResvOK90, DecodeResvDeny, DecodeSuspend, ReservationFits, ResvOKFits, ResvDenyFits, SuspendFits;
    if KnownVersion(d.version) {
      if command == RESERVATION {
        ReservationAligned(d.reservation.value, d.version);
        if EncodeReservation(d.reservation.value, d.version).Some? {
          ReservationOfEncode(d.reservation.value, d.version);
        }
      } else if command == RESV_OK {
        ResvOKAligned(d.resvOK.value, d.version);
        if EncodeResvOK(d.resvOK.value, d.version).Some? {
          ResvOKOfEncode(d.resvOK.value, d.version);
        }
      } else if command == RESV_DENY {
        DenyOfEncode(d.resvDeny.value);
      } else if command == TELL_ADDR {
        TellAddrOfEncode(d.tellAddr.value);
      } else if command == SERVER_CLOSE_CLIENT {
        AppendedWords([], d.closedClients.value);
        assert [] + WordsToBytes(d.closedClients.value) == WordsToBytes(d.closedClients.value);
      } else if command == SUSPEND_MATCH {
        SuspendOfEncode(d.suspendMatch.value);
      }
    }
  }

  /** The buffers that are accepted without a loss are exactly the encodings of well-formed commands. */
  lemma AcceptedExactly(command: U8, b: seq<U8>, version: int)
    ensures DecodeMatchCommand(command, b, version).Some? && !Lossy(command, b, version) <==>
              exists d: MatchCommandData :: d.version == version && HasPart(command, d) && WellFormed(command, d) && EncodeMatchCommand(command, d) == Some(b)
  {
    hide DecodeMatchCommand, EncodeMatchCommand, WellFormed;
    var r := DecodeMatchCommand(command, b, version);
    if r.Some? && !Lossy(command, b, version) {
      EncodeOfDecode(command, b, version);
      DecodedVersion(command, b, version);
      DecodeOfEncode(command, r.value);
    }
    if d: MatchCommandData :| d.version == version && HasPart(command, d) && WellFormed(command, d) && EncodeMatchCommand(command, d) == Some(b) {
      DecodeOfEncode(command, d);
      EncodeOfDecode(command, b, version);
    }
  }

  lemma DecodedVersion(command: U8, b: seq<U8>, version: int)
    requires DecodeMatchCommand(command, b, version).Some?
    ensures DecodeMatchCommand(command, b, version).value.version == version
  {
  }

  /** The byte order of words and of IP addresses. */
  lemma ByteOrder()
    ensures ToLE(0x0403_0201) == [1, 2, 3, 4] && LE([1, 2, 3, 4], 0) == 0x0403_0201
    ensures ToBE(0x0403_0201) == [4, 3, 2, 1] && BE([4, 3, 2, 1], 0) == 0x0403_0201
  {
  }
}
